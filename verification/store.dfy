/**
 * The process-wide variable store of `global_var.py`: `GlobalVar.var_dct` with
 * `assign` (overwrite) and `value` (get, or initialise with the default and return it).
 * The lock around both is a concurrency concern and is not modelled; every call is
 * one atomic step.
 */
module Store {

  /** The value `value(name, default)` returns from the store `m`. */
  function ValueOf<V>(m: map<string, V>, name: string, default: V): (r: V)
    ensures name in m ==> r == m[name]
    ensures name !in m ==> r == default
  {
    if name in m then m[name] else default
  }

  /** The store after `value(name, default)`: the default is stored only when the name is absent. */
  function Initialised<V>(m: map<string, V>, name: string, default: V): (r: map<string, V>)
    ensures r.Keys == m.Keys + {name}
    ensures r[name] == ValueOf(m, name, default)
    ensures forall k :: k in m ==> r[k] == m[k]
  {
    if name in m then m else m[name := default]
  }

  class GlobalVar<V> {
    var varDct: map<string, V>

    /** The store starts empty. */
    constructor ()
      ensures varDct == map[]
    {
      varDct := map[];
    }

    /** `assign(var_name, var_value)`: store the value, overwriting any previous one. */
    method Assign(name: string, v: V)
      modifies this
      ensures varDct == old(varDct)[name := v]
    {
      varDct := varDct[name := v];
    }

    /** `value(var_name, default_value)`: the stored value, or the default, stored first when absent. */
    method Value(name: string, default: V) returns (r: V)
      modifies this
      ensures r == ValueOf(old(varDct), name, default)
      ensures varDct == Initialised(old(varDct), name, default)
    {
      if name !in varDct {
        varDct := varDct[name := default];
        return default;
      }
      r := varDct[name];
    }
  }

  /** After `assign(k, v)`, `value(k, d)` returns `v` whatever `d` is and leaves the store as it was. */
  lemma ValueAfterAssign<V>(m: map<string, V>, name: string, v: V, default: V)
    ensures ValueOf(m[name := v], name, default) == v
    ensures Initialised(m[name := v], name, default) == m[name := v]
  {
  }

  /** A second `value(k, _)` returns what the first one did and changes nothing. */
  lemma ValueIsStable<V>(m: map<string, V>, name: string, d1: V, d2: V)
    ensures ValueOf(Initialised(m, name, d1), name, d2) == ValueOf(m, name, d1)
    ensures Initialised(Initialised(m, name, d1), name, d2) == Initialised(m, name, d1)
  {
  }

  /** Neither operation touches any other name. */
  lemma OtherNamesUnchanged<V>(m: map<string, V>, name: string, other: string, v: V, default: V)
    requires other != name
    ensures (other in m[name := v] <==> other in m) && (other in m ==> m[name := v][other] == m[other])
    ensures (other in Initialised(m, name, default) <==> other in m)
    ensures other in m ==> Initialised(m, name, default)[other] == m[other]
  {
  }

  /** `value` on a store that already holds the name ignores the default. */
  lemma ValueIgnoresDefault<V>(m: map<string, V>, name: string, d1: V, d2: V)
    requires name in m
    ensures ValueOf(m, name, d1) == ValueOf(m, name, d2)
    ensures Initialised(m, name, d1) == m
  {
  }

  /** Two calls on a fresh store: `value` initialises, a later `assign` overwrites, a later `value` sees it. */
  method Scenario<V>(name: string, d: V, v: V) returns (first: V, second: V)
    ensures first == d && second == v
  {
    var g := new GlobalVar<V>();
    first := g.Value(name, d);
    g.Assign(name, v);
    second := g.Value(name, d);
  }
}
