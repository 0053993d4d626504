/**
 * The query string of the confirmation links: a sequence of key/value pairs in order.
 * `set` drops every pair with the key and adds one pair at the end; `append` adds a
 * pair at the end and keeps the others.
 */
module Url {

  import opened Calendar

  /** A query value: text, or a datetime that the URL library renders itself. */
  datatype QueryValue = Text(s: string) | Time(t: DateTime)

  datatype Param = Param(key: string, value: QueryValue)

  type Query = seq<Param>

  /** The values stored under `key`, in query order. */
  function Values(q: Query, key: string): seq<QueryValue>
    decreases |q|
  {
    if q == [] then []
    else (if q[0].key == key then [q[0].value] else []) + Values(q[1..], key)
  }

  /** The query without any pair for `key`. */
  function Without(q: Query, key: string): (r: Query)
    ensures forall i :: 0 <= i < |r| ==> r[i].key != key
    decreases |q|
  {
    if q == [] then []
    else if q[0].key == key then Without(q[1..], key)
    else [q[0]] + Without(q[1..], key)
  }

  /** `query_param.set(key, value)`. */
  function Set(q: Query, key: string, v: QueryValue): Query {
    Without(q, key) + [Param(key, v)]
  }

  /** `query_param.append(key, value)`. */
  function Append(q: Query, key: string, v: QueryValue): Query {
    q + [Param(key, v)]
  }

  lemma {:induction false} ValuesConcat(a: Query, b: Query, key: string)
    ensures Values(a + b, key) == Values(a, key) + Values(b, key)
    decreases |a|
  {
    if a == [] {
      assert a + b == b;
    } else {
      var head := if a[0].key == key then [a[0].value] else [];
      assert (a + b)[0] == a[0] && (a + b)[1..] == a[1..] + b;
      assert Values(a + b, key) == head + Values(a[1..] + b, key);
      ValuesConcat(a[1..], b, key);
      assert Values(a, key) == head + Values(a[1..], key);
      assert head + (Values(a[1..], key) + Values(b, key)) == (head + Values(a[1..], key)) + Values(b, key);
    }
  }

  lemma {:induction false} ValuesWithout(q: Query, key: string, other: string)
    ensures Values(Without(q, key), other) == if other == key then [] else Values(q, other)
    decreases |q|
  {
    if q != [] {
      ValuesWithout(q[1..], key, other);
      if q[0].key != key {
        assert ([q[0]] + Without(q[1..], key))[1..] == Without(q[1..], key);
      }
    }
  }

  /** After `set`, the key holds exactly the new value and every other key is as before. */
  lemma SetValues(q: Query, key: string, v: QueryValue, other: string)
    ensures Values(Set(q, key, v), other) == if other == key then [v] else Values(q, other)
  {
    ValuesConcat(Without(q, key), [Param(key, v)], other);
    ValuesWithout(q, key, other);
    assert [Param(key, v)][1..] == [];
  }

  /** After `append`, the new value follows the key's earlier values and every other key is as before. */
  lemma AppendValues(q: Query, key: string, v: QueryValue, other: string)
    ensures Values(Append(q, key, v), other) == Values(q, other) + (if other == key then [v] else [])
  {
    ValuesConcat(q, [Param(key, v)], other);
    assert [Param(key, v)][1..] == [];
  }

  /** A key the query does not hold has no values. */
  lemma {:induction false} ValuesAbsent(q: Query, key: string)
    requires forall i :: 0 <= i < |q| ==> q[i].key != key
    ensures Values(q, key) == []
    decreases |q|
  {
    if q != [] {
      assert q[0].key != key;
      ValuesAbsent(q[1..], key);
    }
  }

  /** Removing a key the query does not hold changes nothing. */
  lemma {:induction false} WithoutAbsent(q: Query, key: string)
    requires forall i :: 0 <= i < |q| ==> q[i].key != key
    ensures Without(q, key) == q
    decreases |q|
  {
    if q != [] {
      assert q[0].key != key;
      WithoutAbsent(q[1..], key);
      assert [q[0]] + q[1..] == q;
    }
  }

  /** `set` on a key the query does not hold is an `append`. */
  lemma SetFresh(q: Query, key: string, v: QueryValue)
    requires forall i :: 0 <= i < |q| ==> q[i].key != key
    ensures Set(q, key, v) == Append(q, key, v)
  {
    WithoutAbsent(q, key);
  }
}
