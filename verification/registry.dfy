/** The per-(pass, extraKey) singleton registries of InstancedBuffer and
    BatchedBuffer (`static map<uint, map<uint, T *>> _buffers`), threaded
    through the calls as an explicit value. */
module Registry {
  import opened Common

  type Registry<T> = map<nat, map<nat, T>>

  /** The aggregator registered under `(pass, key)`, if any. */
  function Lookup<T>(reg: Registry<T>, pass: nat, key: nat): Option<T> {
    if pass in reg && key in reg[pass] then Some(reg[pass][key]) else None
  }

  /** `get(pass, extraKey)`: the registered aggregator, or `made` (a new
      aggregator for the pass) registered under the key. `operator[]`
      creates the inner map and the null slot on the way. */
  function Get<T>(reg: Registry<T>, pass: nat, key: nat, made: T): (r: (Registry<T>, T))
    ensures Lookup(r.0, pass, key) == Some(r.1)
    ensures Lookup(reg, pass, key).Some? ==> r == (reg, Lookup(reg, pass, key).value)
    ensures Lookup(reg, pass, key).None? ==> r.1 == made
    ensures forall p: nat, k: nat :: (p, k) != (pass, key) ==> Lookup(r.0, p, k) == Lookup(reg, p, k)
  {
    var inner := if pass in reg then reg[pass] else map[];
    if key in inner then (reg, inner[key])
    else (reg[pass := inner[key := made]], made)
  }

  /** `get(pass)`: the aggregator of extra key 0. */
  function GetDefault<T>(reg: Registry<T>, pass: nat, made: T): (r: (Registry<T>, T))
    ensures Lookup(r.0, pass, 0) == Some(r.1)
    ensures Lookup(reg, pass, 0).Some? ==> r == (reg, Lookup(reg, pass, 0).value)
    ensures Lookup(reg, pass, 0).None? ==> r.1 == made
  {
    Get(reg, pass, 0, made)
  }

  /** At most one aggregator per `(pass, key)`: a second `get` returns the
      first one's result, whatever it would have made, and changes nothing. */
  lemma GetIsSingleton<T>(reg: Registry<T>, pass: nat, key: nat, made1: T, made2: T)
    ensures var first := Get(reg, pass, key, made1);
      Get(first.0, pass, key, made2) == (first.0, first.1)
  {
  }

  /** `get` on distinct keys never returns the other key's aggregator
      unless it was registered there. */
  lemma GetOtherKeyUnchanged<T>(reg: Registry<T>, pass: nat, key: nat, key2: nat, made: T)
    requires key != key2
    ensures Lookup(Get(reg, pass, key, made).0, pass, key2) == Lookup(reg, pass, key2)
  {
  }
}
