/**
 What dropping rules by body does to a chain whose handles are sound.
 */
module FirewallTheorems {
  import opened Wrappers
  import opened Firewall

  lemma {:induction false} CountConcat(a: seq<Entry>, e: Entry, b: Body)
    ensures Count(a + [e], b) == Count(a, b) + if e.body == b then 1 else 0
  {
    if a == [] {
      assert a + [e] == [e];
    } else {
      assert (a + [e])[1..] == a[1..] + [e];
      CountConcat(a[1..], e, b);
    }
  }

  /** Adding rules adds each body as often as it was asked for, and keeps the handles sound. */
  lemma {:induction false} CountAdded(chain: seq<Entry>, next: nat, bodies: seq<Body>, b: Body)
    requires Sound(chain, next) && next > 0
    ensures Count(Added(chain, next, bodies), b) == Count(chain, b) + Times(bodies, b)
    ensures Sound(Added(chain, next, bodies), next + |bodies|)
    decreases |bodies|
  {
    if bodies != [] {
      var e := Entry(next, bodies[0]);
      CountConcat(chain, e, b);
      CountAdded(chain + [e], next + 1, bodies[1..], b);
    }
  }

  lemma SoundTail(chain: seq<Entry>, next: nat)
    requires Sound(chain, next) && chain != []
    ensures Sound(chain[1..], next)
    ensures forall e :: e in chain[1..] ==> e.handle != chain[0].handle
  {
  }

  lemma {:induction false} InWithout(chain: seq<Entry>, hs: set<nat>, e: Entry)
    ensures e in Without(chain, hs) <==> e in chain && e.handle !in hs
  {
    if chain != [] {
      InWithout(chain[1..], hs, e);
      assert e in chain <==> e == chain[0] || e in chain[1..];
    }
  }

  lemma {:induction false} SoundWithout(chain: seq<Entry>, next: nat, hs: set<nat>)
    requires Sound(chain, next)
    ensures Sound(Without(chain, hs), next)
  {
    if chain != [] {
      SoundTail(chain, next);
      SoundWithout(chain[1..], next, hs);
      if chain[0].handle !in hs {
        var rest := Without(chain[1..], hs);
        forall j | 0 <= j < |rest| ensures rest[j].handle != chain[0].handle {
          InWithout(chain[1..], hs, rest[j]);
        }
      }
    }
  }

  /** A body none of whose entries is dropped keeps its count. */
  lemma {:induction false} CountKept(chain: seq<Entry>, hs: set<nat>, b: Body)
    requires forall e :: e in chain && e.body == b ==> e.handle !in hs
    ensures Count(Without(chain, hs), b) == Count(chain, b)
  {
    if chain != [] {
      CountKept(chain[1..], hs, b);
      if chain[0].handle !in hs {
        assert Without(chain, hs)[1..] == Without(chain[1..], hs);
      }
    }
  }

  /** A body loses one entry when exactly one of its handles is dropped. */
  lemma {:induction false} CountDropped(chain: seq<Entry>, next: nat, hs: set<nat>, b: Body, h: nat)
    requires Sound(chain, next) && Entry(h, b) in chain && h in hs
    requires forall e :: e in chain && e.body == b && e.handle in hs ==> e.handle == h
    ensures Count(Without(chain, hs), b) == Count(chain, b) - 1
  {
    SoundTail(chain, next);
    if chain[0] == Entry(h, b) {
      CountKept(chain[1..], hs, b);
    } else {
      CountDropped(chain[1..], next, hs, b, h);
      if chain[0].handle !in hs {
        assert Without(chain, hs)[1..] == Without(chain[1..], hs);
      }
    }
  }

  lemma {:induction false} FoundIffCounted(chain: seq<Entry>, next: nat, b: Body)
    requires Sound(chain, next)
    ensures HandleOf(chain, b) != 0 <==> Count(chain, b) > 0
  {
    if chain != [] {
      SoundTail(chain, next);
      FoundIffCounted(chain[1..], next, b);
    }
  }

  /** Entry `i` is the first with this body. */
  predicate FirstWith(chain: seq<Entry>, b: Body, i: nat) {
    i < |chain| && chain[i].body == b && forall j :: 0 <= j < i ==> chain[j].body != b
  }

  /** Of several rules with the same body it is the first one that is found. */
  lemma {:induction false} FindsTheFirst(chain: seq<Entry>, b: Body, i: nat)
    requires FirstWith(chain, b, i)
    ensures HandleOf(chain, b) == chain[i].handle
  {
    if i > 0 {
      assert chain[0].body != b;
      assert forall j :: 0 <= j < i - 1 ==> chain[1..][j] == chain[j + 1];
      FindsTheFirst(chain[1..], b, i - 1);
    }
  }

  lemma SameHandleSameEntry(chain: seq<Entry>, next: nat, d: Entry, e: Entry)
    requires Sound(chain, next) && d in chain && e in chain && d.handle == e.handle
    ensures d == e
  {
    var i :| 0 <= i < |chain| && chain[i] == d;
    var j :| 0 <= j < |chain| && chain[j] == e;
    assert i == j;
  }

  // ---- Dropping by body ----------------------------------------------------------------------

  lemma HandlesWithout(chain: seq<Entry>, h: nat)
    ensures Handles(Without(chain, {h})) == Handles(chain) - {h}
  {
    forall k: nat ensures k in Handles(Without(chain, {h})) <==> k in Handles(chain) - {h} {
      if k in Handles(Without(chain, {h})) {
        var e :| e in Without(chain, {h}) && e.handle == k;
        InWithout(chain, {h}, e);
      }
      if k in Handles(chain) - {h} {
        var e :| e in chain && e.handle == k;
        InWithout(chain, {h}, e);
      }
    }
  }

  /** All the drop commands succeed exactly if the command works that often and no handle comes twice. */
  lemma {:induction false} AllSucceedIff(chain: seq<Entry>, hs: seq<nat>, works: nat)
    requires forall k :: 0 <= k < |hs| ==> hs[k] in Handles(chain)
    ensures Succeeding(chain, hs, works) == |hs| <==> |hs| <= works && Distinct(hs)
    decreases |hs|
  {
    if hs != [] {
      var rest := hs[1..];
      HandlesWithout(chain, hs[0]);
      if hs[0] !in rest {
        forall k | 0 <= k < |rest| ensures rest[k] in Handles(Without(chain, {hs[0]})) {
          assert rest[k] == hs[k + 1];
        }
        if works > 0 { AllSucceedIff(Without(chain, {hs[0]}), rest, works - 1); }
        assert Distinct(hs) <==> Distinct(rest) by {
          assert forall k :: 0 <= k < |rest| ==> rest[k] == hs[k + 1];
          if Distinct(rest) {
            forall i, j | 0 <= i < j < |hs| ensures hs[i] != hs[j] {
              if i > 0 { assert rest[i - 1] != rest[j - 1]; } else { assert hs[j] == rest[j - 1]; }
            }
          }
        }
      } else {
        var k :| 0 <= k < |rest| && rest[k] == hs[0];
        assert hs[k + 1] == hs[0];
        if works > 0 { GoneStopsEarly(Without(chain, {hs[0]}), rest, works - 1, k); }
      }
    }
  }

  lemma {:induction false} GoneStopsEarly(chain: seq<Entry>, hs: seq<nat>, works: nat, k: nat)
    requires k < |hs| && hs[k] !in Handles(chain)
    ensures Succeeding(chain, hs, works) < |hs|
    decreases |hs|
  {
    if works > 0 && hs[0] in Handles(chain) {
      HandlesWithout(chain, hs[0]);
      assert hs[1..][k - 1] == hs[k];
      GoneStopsEarly(Without(chain, {hs[0]}), hs[1..], works - 1, k - 1);
    }
  }

  /** What was found for `bodies`: the handles, and that they tell the bodies apart. */
  lemma FoundHandles(chain: seq<Entry>, next: nat, bodies: seq<Body>, hs: seq<nat>)
    requires Sound(chain, next) && FindRules(chain, bodies) == Some(hs)
    ensures forall k :: 0 <= k < |hs| ==> Entry(hs[k], bodies[k]) in chain && hs[k] in Handles(chain)
    ensures Distinct(hs) <==> Distinct(bodies)
  {
    forall k | 0 <= k < |hs| ensures Entry(hs[k], bodies[k]) in chain && hs[k] in Handles(chain) {
      assert hs[k] == HandleOf(chain, bodies[k]);
      assert Entry(hs[k], bodies[k]).handle in Handles(chain);
    }
    if Distinct(bodies) {
      forall i, j | 0 <= i < j < |hs| ensures hs[i] != hs[j] {
        if hs[i] == hs[j] {
          SameHandleSameEntry(chain, next, Entry(hs[i], bodies[i]), Entry(hs[j], bodies[j]));
        }
      }
    }
    if Distinct(hs) {
      forall i, j | 0 <= i < j < |bodies| ensures bodies[i] != bodies[j] {
        assert hs[i] != hs[j];
      }
    }
  }

  /** Of rules that are all in the chain, `DropRules` drops one at least if the first command works, and all
      exactly if every command works and no body is asked for twice. */
  lemma DropsOfFound(chain: seq<Entry>, next: nat, bodies: seq<Body>, listed: bool, works: nat)
    requires Sound(chain, next) && FindRules(chain, bodies).Some? && bodies != []
    ensures DropCount(chain, bodies, listed, works) > 0 <==> listed && works > 0
    ensures DropsAll(chain, bodies, listed, works) <==> listed && |bodies| <= works && Distinct(bodies)
  {
    var hs := FindRules(chain, bodies).value;
    FoundHandles(chain, next, bodies, hs);
    AllSucceedIff(chain, hs, works);
    assert hs[0] in Handles(chain);
  }

  lemma DroppedWasAsked(chain: seq<Entry>, next: nat, bodies: seq<Body>, hs: seq<nat>, n: nat, e: Entry)
    requires Sound(chain, next) && FindRules(chain, bodies) == Some(hs) && n <= |hs|
    requires e in chain && e.handle in Set(hs[..n])
    ensures e.body in bodies[..n]
  {
    FoundHandles(chain, next, bodies, hs);
    var k :| 0 <= k < n && hs[k] == e.handle;
    SameHandleSameEntry(chain, next, e, Entry(hs[k], bodies[k]));
    assert bodies[..n][k] == bodies[k];
  }

  /** A body that the drop commands did not get to loses no entry. */
  lemma OthersKeepTheirRules(chain: seq<Entry>, next: nat, bodies: seq<Body>, hs: seq<nat>, n: nat, b: Body)
    requires Sound(chain, next) && FindRules(chain, bodies) == Some(hs) && n <= |hs| && b !in bodies[..n]
    ensures Count(Without(chain, Set(hs[..n])), b) == Count(chain, b)
  {
    forall e | e in chain && e.handle in Set(hs[..n]) ensures e.body != b {
      DroppedWasAsked(chain, next, bodies, hs, n, e);
    }
    CountKept(chain, Set(hs[..n]), b);
  }

  /** A body that they got to has lost one entry. */
  lemma AskedAreDropped(chain: seq<Entry>, next: nat, bodies: seq<Body>, hs: seq<nat>, n: nat, b: Body)
    requires Sound(chain, next) && FindRules(chain, bodies) == Some(hs) && n <= |hs| && b in bodies[..n]
    ensures Count(Without(chain, Set(hs[..n])), b) == Count(chain, b) - 1
  {
    FoundHandles(chain, next, bodies, hs);
    var k :| 0 <= k < n && bodies[k] == b;
    forall e | e in chain && e.body == b && e.handle in Set(hs[..n]) ensures e.handle == hs[k] {
      var j :| 0 <= j < n && hs[j] == e.handle;
      SameHandleSameEntry(chain, next, e, Entry(hs[j], bodies[j]));
    }
    assert hs[..n][k] == hs[k];
    CountDropped(chain, next, Set(hs[..n]), b, hs[k]);
  }
}
