/** The save and restore of the process environment around a readiness check. */
module IsolatedEnv {
  import opened Text

  type Env = map<string, string>

  type Items = seq<(string, string)>

  function Lookup(env: Env, key: string): Option<string> {
    if key in env then Some(env[key]) else None
  }

  /** os.environ.update over the items in order. */
  function Override(env: Env, items: Items): Env {
    if items == [] then env
    else Override(env, items[..|items| - 1])[items[|items| - 1].0 := items[|items| - 1].1]
  }

  function Without(env: Env, keys: seq<string>): (r: Env)
    ensures forall k :: Lookup(r, k) == if k in keys then None else Lookup(env, k)
  {
    env - set k | k in keys
  }

  /** What the block under the context manager sees once these items are set. */
  function Inside(env: Env, keys: seq<string>, items: Items): Env {
    Override(Without(env, keys), items)
  }

  /** `after`, with the keys put back to what they were in `before`. */
  ghost predicate KeysPutBack(result: Env, before: Env, after: Env, keys: seq<string>) {
    forall k :: Lookup(result, k) == if k in keys then Lookup(before, k) else Lookup(after, k)
  }

  class Environ {
    var vars: Env

    constructor (vars: Env)
      ensures this.vars == vars
    {
      this.vars := vars;
    }

    /** for key in keys: os.environ.pop(key, None) */
    method PopAll(keys: seq<string>)
      modifies this
      ensures vars == Without(old(vars), keys)
    {
      assert keys[..0] == [];
      for i := 0 to |keys|
        invariant vars == Without(old(vars), keys[..i])
      {
        vars := vars - {keys[i]};
        assert keys[..i + 1] == keys[..i] + [keys[i]];
      }
      assert keys[..|keys|] == keys;
    }

    /** Sets items in order; an unacceptable one raises, leaving the earlier ones set. */
    method Update(items: Items, accepted: ((string, string)) -> bool) returns (done: nat)
      modifies this
      ensures done <= |items| && vars == Override(old(vars), items[..done])
      ensures forall i :: 0 <= i < done ==> accepted(items[i])
      ensures done < |items| ==> !accepted(items[done])
    {
      done := 0;
      while done < |items|
        invariant done <= |items| && vars == Override(old(vars), items[..done])
        invariant forall i :: 0 <= i < done ==> accepted(items[i])
      {
        if !accepted(items[done]) {
          return;
        }
        vars := vars[items[done].0 := items[done].1];
        assert items[..done + 1][..done] == items[..done];
        done := done + 1;
      }
    }

    /**
     The context manager around `body`, which may leave the environment in any state, normally or by raising.
     When the update itself raises, the body is skipped and the restore still happens.
     */
    method IsolatedEnv(
        keys: seq<string>, merged: Items, accepted: ((string, string)) -> bool, body: Env -> Env)
      returns (done: nat)
      modifies this
      ensures done <= |merged|
      ensures done == |merged| <==> forall i :: 0 <= i < |merged| ==> accepted(merged[i])
      ensures KeysPutBack(vars, old(vars),
                          if done == |merged| then body(Inside(old(vars), keys, merged))
                          else Inside(old(vars), keys, merged[..done]), keys)
    {
      var backup := vars;
      PopAll(keys);
      done := Update(merged, accepted);
      assert merged[..|merged|] == merged;
      if done == |merged| {
        vars := body(vars);
      }
      ghost var after := vars;
      PopAll(keys);
      for i := 0 to |keys|
        invariant forall k :: Lookup(vars, k) == if k in keys[..i] then Lookup(backup, k)
                                                 else if k in keys then None else Lookup(after, k)
      {
        if keys[i] in backup {
          vars := vars[keys[i] := backup[keys[i]]];
        }
        assert keys[..i + 1] == keys[..i] + [keys[i]];
      }
      assert keys[..|keys|] == keys;
    }
  }

  // ---------------------------------------------------------------- what is left behind

  lemma {:induction false} OverrideTouchesOnlyItems(env: Env, env': Env, items: Items, key: string)
    ensures (forall i :: 0 <= i < |items| ==> items[i].0 != key)
         ==> Lookup(Override(env, items), key) == Lookup(env, key)
    ensures Lookup(env, key) == Lookup(env', key)
         ==> Lookup(Override(env, items), key) == Lookup(Override(env', items), key)
  {
    if items != [] {
      OverrideTouchesOnlyItems(env, env', items[..|items| - 1], key);
    }
  }

  predicate DistinctKeys(items: Items) {
    forall i, j :: 0 <= i < j < |items| ==> items[i].0 != items[j].0
  }

  lemma {:induction false} OverrideSetsItems(env: Env, items: Items, i: nat)
    requires DistinctKeys(items) && i < |items|
    ensures Lookup(Override(env, items), items[i].0) == Some(items[i].1)
  {
    var rest := items[..|items| - 1];
    if i < |rest| {
      OverrideSetsItems(env, rest, i);
      assert items[i].0 != items[|rest|].0;
    }
  }

  /** A body that leaves the environment alone: keys as before, the rest overridden by `merged`. */
  lemma {:induction false} RestoredOtherwiseOverridden(env: Env, keys: seq<string>, merged: Items, result: Env)
    requires KeysPutBack(result, env, Inside(env, keys, merged), keys)
    ensures KeysPutBack(result, env, Override(env, merged), keys)
  {
    forall k | k !in keys ensures Lookup(Inside(env, keys, merged), k) == Lookup(Override(env, merged), k) {
      OverrideTouchesOnlyItems(Without(env, keys), env, merged, k);
    }
  }

  predicate AgreesOutside(env: Env, keys: seq<string>, merged: Items) {
    forall i :: 0 <= i < |merged| && merged[i].0 !in keys ==> Lookup(env, merged[i].0) == Some(merged[i].1)
  }

  lemma {:induction false} SameLookupsSameEnv(a: Env, b: Env)
    requires forall k :: Lookup(a, k) == Lookup(b, k)
    ensures a == b
  {
    assert forall k :: k in a <==> Lookup(a, k).Some?;
    assert forall k :: k in b <==> Lookup(b, k).Some?;
    assert forall k :: k in a ==> Lookup(a, k).value == a[k] && Lookup(b, k).value == b[k];
  }

  lemma {:induction false} AgreeingItemsChangeNothing(env: Env, keys: seq<string>, merged: Items, k: string)
    requires DistinctKeys(merged) && AgreesOutside(env, keys, merged) && k !in keys
    ensures Lookup(Override(env, merged), k) == Lookup(env, k)
  {
    if i :| 0 <= i < |merged| && merged[i].0 == k {
      OverrideSetsItems(env, merged, i);
    } else {
      OverrideTouchesOnlyItems(env, env, merged, k);
    }
  }

  /** Restoration is exact if and only if `merged` agrees with the original outside the saved keys. */
  lemma {:induction false} RestoredExactlyIff(env: Env, keys: seq<string>, merged: Items, result: Env)
    requires DistinctKeys(merged) && KeysPutBack(result, env, Inside(env, keys, merged), keys)
    ensures result == env <==> AgreesOutside(env, keys, merged)
  {
    RestoredOtherwiseOverridden(env, keys, merged, result);
    if AgreesOutside(env, keys, merged) {
      forall k ensures Lookup(result, k) == Lookup(env, k) {
        if k !in keys {
          AgreeingItemsChangeNothing(env, keys, merged, k);
        }
      }
      SameLookupsSameEnv(result, env);
    }
    if result == env {
      forall i | 0 <= i < |merged| && merged[i].0 !in keys ensures Lookup(env, merged[i].0) == Some(merged[i].1) {
        OverrideSetsItems(env, merged, i);
      }
    }
  }

  /** Of the saved keys the block sees exactly what `merged` says: nothing of the process environment leaks in. */
  lemma {:induction false} NothingLeaksIn(env: Env, env': Env, keys: seq<string>, merged: Items, key: string)
    requires key in keys
    ensures Lookup(Inside(env, keys, merged), key) == Lookup(Inside(env', keys, merged), key)
    ensures Lookup(Inside(env, keys, merged), key).Some? ==> exists i :: 0 <= i < |merged| && merged[i].0 == key
  {
    OverrideTouchesOnlyItems(Without(env, keys), Without(env', keys), merged, key);
    assert Lookup(Without(env, keys), key) == Lookup(Without(env', keys), key) == None;
  }
}
