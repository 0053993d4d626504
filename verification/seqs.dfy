/** Generic facts about sequences: order-preserving sub-sequences, duplicates, filtering. */
module Seqs {

  import opened Wrappers

  /** `a` can be obtained from `b` by deleting elements, keeping the order of the rest. */
  predicate Subseq<T(==)>(a: seq<T>, b: seq<T>)
    decreases |b|
  {
    if a == [] then true
    else if b == [] then false
    else if a[0] == b[0] then Subseq(a[1..], b[1..])
    else Subseq(a, b[1..])
  }

  /** No element occurs twice. */
  predicate NoDup<T(==)>(s: seq<T>) {
    forall i, j :: 0 <= i < j < |s| ==> s[i] != s[j]
  }

  /** Dropping the first element keeps the elements distinct, and the first is not among the rest. */
  lemma NoDupTail<T>(s: seq<T>)
    requires NoDup(s) && s != []
    ensures NoDup(s[1..]) && s[0] !in s[1..]
  {
    forall a, b | 0 <= a < b < |s| - 1 ensures s[1..][a] != s[1..][b] {
      assert s[a + 1] != s[b + 1];
    }
    forall k | 0 <= k < |s| - 1 ensures s[1..][k] != s[0] {
      assert s[k + 1] != s[0];
    }
  }

  /** Appending a new element keeps the elements distinct. */
  lemma NoDupSnoc<T>(s: seq<T>, x: T)
    requires NoDup(s) && x !in s
    ensures NoDup(s + [x])
  {
    forall a, b | 0 <= a < b < |s| + 1 ensures (s + [x])[a] != (s + [x])[b] {
      assert (s + [x])[a] == s[a];
    }
  }

  /** The elements of `s` satisfying `p`, in their original order. */
  function Filter<T>(s: seq<T>, p: T -> bool): (r: seq<T>)
    ensures |r| <= |s|
    ensures forall i :: 0 <= i < |r| ==> r[i] in s && p(r[i])
    ensures forall i :: 0 <= i < |s| && p(s[i]) ==> s[i] in r
    decreases |s|
  {
    if s == [] then []
    else if p(s[0]) then [s[0]] + Filter(s[1..], p)
    else Filter(s[1..], p)
  }

  /** The elements of `s`, first occurrences only, in order. */
  function Dedup<T(==)>(s: seq<T>): (r: seq<T>)
    ensures forall i :: 0 <= i < |r| ==> r[i] in s
    ensures forall i :: 0 <= i < |s| ==> s[i] in r
    ensures NoDup(r)
    decreases |s|
  {
    if s == [] then []
    else
      var rest := Dedup(s[..|s| - 1]);
      if s[|s| - 1] in rest then rest else rest + [s[|s| - 1]]
  }

  lemma {:induction false} SubseqRefl<T>(s: seq<T>)
    ensures Subseq(s, s)
    decreases |s|
  {
    if s != [] {
      SubseqRefl(s[1..]);
    }
  }

  lemma {:induction false} SubseqEmpty<T>(s: seq<T>)
    ensures Subseq([], s)
  {
  }

  lemma {:induction false} SubseqCons<T>(a: seq<T>, b: seq<T>, x: T)
    requires Subseq(a, b)
    ensures Subseq(a, [x] + b) && Subseq([x] + a, [x] + b)
  {
    assert ([x] + b)[1..] == b;
    if a != [] && a[0] == x {
      assert Subseq(a, [x] + b) == Subseq(a[1..], b);
      SubseqTail(a, b);
    }
    assert ([x] + a)[1..] == a;
  }

  /** Dropping the first element of `a` keeps it a sub-sequence. */
  lemma {:induction false} SubseqTail<T>(a: seq<T>, b: seq<T>)
    requires Subseq(a, b) && a != []
    ensures Subseq(a[1..], b)
    decreases |b|, 0
  {
    if b != [] {
      if a[0] == b[0] {
        SubseqDrop(a[1..], b[1..], b[0]);
      } else {
        SubseqTail(a, b[1..]);
        SubseqDrop(a[1..], b[1..], b[0]);
      }
    }
  }

  lemma {:induction false} SubseqDrop<T>(a: seq<T>, b: seq<T>, x: T)
    requires Subseq(a, b)
    ensures Subseq(a, [x] + b)
    decreases |b|, 1
  {
    assert ([x] + b)[1..] == b;
    if a != [] && a[0] == x {
      SubseqTail(a, b);
    }
  }

  /** Every element of a sub-sequence occurs in the sequence. */
  lemma {:induction false} SubseqMembers<T>(a: seq<T>, b: seq<T>)
    requires Subseq(a, b)
    ensures forall x :: x in a ==> x in b
    decreases |b|
  {
    if a != [] && b != [] {
      if a[0] == b[0] {
        SubseqMembers(a[1..], b[1..]);
        forall x | x in a ensures x in b {
          if x != a[0] { assert x in a[1..]; }
        }
      } else {
        SubseqMembers(a, b[1..]);
      }
    }
  }

  /** The filtered sequence is a sub-sequence of the original. */
  lemma {:induction false} FilterSubseq<T>(s: seq<T>, p: T -> bool)
    ensures Subseq(Filter(s, p), s)
    decreases |s|
  {
    if s != [] {
      FilterSubseq(s[1..], p);
      SubseqCons(Filter(s[1..], p), s[1..], s[0]);
      assert [s[0]] + s[1..] == s;
    }
  }

  /** Filtering a duplicate-free sequence leaves it duplicate-free. */
  lemma {:induction false} FilterNoDup<T>(s: seq<T>, p: T -> bool)
    requires NoDup(s)
    ensures NoDup(Filter(s, p))
    decreases |s|
  {
    if s != [] {
      assert NoDup(s[1..]) by {
        forall i, j | 0 <= i < j < |s[1..]| ensures s[1..][i] != s[1..][j] {
          assert s[1..][i] == s[i + 1] && s[1..][j] == s[j + 1];
        }
      }
      FilterNoDup(s[1..], p);
      if p(s[0]) {
        var r := Filter(s[1..], p);
        assert s[0] !in s[1..] by {
          forall k | 0 <= k < |s[1..]| ensures s[1..][k] != s[0] {
            assert s[1..][k] == s[k + 1];
          }
        }
        assert s[0] !in r;
      }
    }
  }

  /** Filtering distributes over concatenation. */
  lemma {:induction false} FilterAppend<T>(a: seq<T>, b: seq<T>, p: T -> bool)
    ensures Filter(a + b, p) == Filter(a, p) + Filter(b, p)
    decreases |a|
  {
    if a != [] {
      var x, rest := a[0], a[1..];
      assert (a + b)[0] == x && (a + b)[1..] == rest + b;
      FilterAppend(rest, b, p);
      if p(x) {
        assert Filter(a + b, p) == [x] + Filter(rest + b, p);
        assert Filter(a, p) == [x] + Filter(rest, p);
        assert [x] + (Filter(rest, p) + Filter(b, p)) == ([x] + Filter(rest, p)) + Filter(b, p);
      } else {
        assert Filter(a + b, p) == Filter(rest + b, p);
        assert Filter(a, p) == Filter(rest, p);
      }
    } else {
      assert a + b == b;
    }
  }

  /** The position of the first element satisfying `p`, if any. */
  function FirstIndex<T>(s: seq<T>, p: T -> bool): (r: Option<nat>)
    ensures r.Some? ==> r.value < |s| && p(s[r.value])
    ensures r.Some? ==> forall j :: 0 <= j < r.value ==> !p(s[j])
    ensures r.None? <==> forall j :: 0 <= j < |s| ==> !p(s[j])
    decreases |s|
  {
    if s == [] then None
    else if p(s[0]) then Some(0)
    else
      match FirstIndex(s[1..], p)
      case None => None
      case Some(k) => Some(k + 1)
  }

  /** The first element satisfying `p`, if any (Python's `next((x for x in s if p(x)), None)`, JavaScript's `find`). */
  function First<T>(s: seq<T>, p: T -> bool): (r: Option<T>)
    ensures r.Some? ==> r.value in s && p(r.value)
    ensures r.None? <==> forall j :: 0 <= j < |s| ==> !p(s[j])
  {
    match FirstIndex(s, p)
    case None => None
    case Some(k) => Some(s[k])
  }

  /** When `k` is the first position satisfying `p`, `First` returns the element there. */
  lemma FirstOfEarliest<T>(s: seq<T>, p: T -> bool, k: nat)
    requires k < |s| && p(s[k])
    requires forall j :: 0 <= j < k ==> !p(s[j])
    ensures First(s, p) == Some(s[k])
  {
    var r := FirstIndex(s, p);
    assert r.Some? && r.value == k by {
      assert !r.None?;
    }
  }

  /** When `k` is the only position satisfying `p`, `First` returns the element there. */
  lemma FirstOfOnly<T>(s: seq<T>, p: T -> bool, k: nat)
    requires k < |s| && p(s[k])
    requires forall j :: 0 <= j < |s| && p(s[j]) ==> j == k
    ensures First(s, p) == Some(s[k])
  {
  }
}
