/**
 The gates services wait behind (base/mgr/waitmachine.go). Every key has a channel that is closed once
 and a flag that every release overwrites.
 */
module WaitMachine {
  datatype Gate = Gate(closed: bool, state: bool)

  type Gates = map<string, Gate>

  function NewGates(keys: set<string>): Gates {
    map k | k in keys :: Gate(false, false)
  }

  /** Closing an already closed channel panics and is recovered, but the flag has been overwritten by then. */
  function Released(g: Gates, key: string, state: bool): Gates {
    if key in g then g[key := Gate(true, state)] else g
  }

  /** Receiving from every named gate would go through; names without a gate are skipped. */
  predicate Passable(g: Gates, names: seq<string>) {
    forall n :: n in names && n in g ==> g[n].closed
  }

  predicate AllTrue(g: Gates, names: seq<string>) {
    forall n :: n in names && n in g ==> g[n].state
  }

  class StateMachine {
    var keys: Gates

    constructor (names: seq<string>)
      ensures keys == NewGates(set n | n in names)
    {
      keys := map[];
      new;
      for i := 0 to |names|
        invariant keys == NewGates(set n | n in names[..i])
      {
        keys := keys[names[i] := Gate(false, false)];
        assert names[..i + 1] == names[..i] + [names[i]];
      }
      assert names[..|names|] == names;
    }

    method Release(key: string, state: bool) returns (found: bool)
      modifies this
      ensures found <==> key in old(keys)
      ensures keys == Released(old(keys), key, state)
    {
      found := key in keys;
      if found { keys := keys[key := Gate(true, state)]; }
    }

    /** `Wait` blocks until every named gate is closed; this is what it answers when it gets through. */
    method Wait(names: seq<string>) returns (r: bool)
      requires Passable(keys, names)
      ensures r <==> AllTrue(keys, names)
    {
      r := true;
      for i := 0 to |names|
        invariant r <==> AllTrue(keys, names[..i])
      {
        var k := names[i];
        assert names[..i + 1] == names[..i] + [k];
        if k in keys {
          assert keys[k].closed;
          r := r && keys[k].state;
        }
      }
      assert names[..|names|] == names;
    }
  }

  datatype Release = Release(key: string, state: bool)

  function AfterReleases(g: Gates, rs: seq<Release>): Gates
    decreases |rs|
  {
    if rs == [] then g else Released(AfterReleases(g, rs[..|rs| - 1]), rs[|rs| - 1].key, rs[|rs| - 1].state)
  }

  /** Release `i` is the last one of the gate of `k`. */
  predicate LastOf(rs: seq<Release>, k: string, i: nat) {
    i < |rs| && rs[i].key == k && forall n :: i < n < |rs| ==> rs[n].key != k
  }

  /** Whatever is released, in whatever order: no gate is added, a closed gate never opens again, a gate that
      was released is closed and holds the state of its last release, and any other gate is as it was. */
  lemma {:induction false} ReleaseIsPermanent(g: Gates, rs: seq<Release>, k: string)
    ensures k in AfterReleases(g, rs) <==> k in g
    ensures k in g && g[k].closed ==> AfterReleases(g, rs)[k].closed
    ensures k in g ==> forall i: nat :: LastOf(rs, k, i) ==> AfterReleases(g, rs)[k] == Gate(true, rs[i].state)
    ensures k in g && (forall i :: 0 <= i < |rs| ==> rs[i].key != k) ==> AfterReleases(g, rs)[k] == g[k]
    decreases |rs|
  {
    if rs != [] {
      var front, last := rs[..|rs| - 1], |rs| - 1;
      ReleaseIsPermanent(g, front, k);
      forall i: nat | LastOf(rs, k, i) && i != last ensures LastOf(front, k, i) {}
    }
  }
}
