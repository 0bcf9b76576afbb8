/**
 The nat/pre chain of the firewall and the manager that changes it (apps/plugins/nft/plugin/manager.go).
 The kernel gives every rule it adds a fresh, non-zero handle; rules are looked up by body and dropped by
 handle, one command at a time.
 */
module Firewall {
  import opened Wrappers

  /** A port forward for one protocol, or a rule that somebody else put in the chain. */
  datatype Body =
    | Forward(source: string, protocol: string, host: int, ip: string, dest: int)
    | Foreign(text: string)

  datatype Entry = Entry(handle: nat, body: Body)

  /** How many entries have this body. */
  function Count(chain: seq<Entry>, b: Body): nat {
    if chain == [] then 0 else (if chain[0].body == b then 1 else 0) + Count(chain[1..], b)
  }

  /** How often a body is asked for. */
  function Times(bodies: seq<Body>, b: Body): nat {
    if bodies == [] then 0 else (if bodies[0] == b then 1 else 0) + Times(bodies[1..], b)
  }

  function Handles(chain: seq<Entry>): set<nat> {
    set e | e in chain :: e.handle
  }

  /** The chain without the entries that have one of these handles. */
  function Without(chain: seq<Entry>, hs: set<nat>): (r: seq<Entry>)
    ensures |r| <= |chain|
  {
    if chain == [] then []
    else if chain[0].handle in hs then Without(chain[1..], hs)
    else [chain[0]] + Without(chain[1..], hs)
  }

  /** The chain after bodies are added: the handles follow on from `next`. */
  function Added(chain: seq<Entry>, next: nat, bodies: seq<Body>): seq<Entry>
    decreases |bodies|
  {
    if bodies == [] then chain else Added(chain + [Entry(next, bodies[0])], next + 1, bodies[1..])
  }

  /** Handles are positive, below `next`, and belong to one entry each. */
  predicate Sound(chain: seq<Entry>, next: nat) {
    && (forall i :: 0 <= i < |chain| ==> 0 < chain[i].handle < next)
    && (forall i, j :: 0 <= i < j < |chain| ==> chain[i].handle != chain[j].handle)
  }

  /** The handle of the first entry with this body; 0 if there is none. */
  function HandleOf(chain: seq<Entry>, b: Body): (h: nat)
    ensures h != 0 ==> exists i :: 0 <= i < |chain| && chain[i] == Entry(h, b)
  {
    if chain == [] then 0
    else if chain[0].body == b then chain[0].handle
    else HandleOf(chain[1..], b)
  }

  /** `findRules`: the handles of all the bodies, or nothing at all. */
  function FindRules(chain: seq<Entry>, bodies: seq<Body>): (r: Option<seq<nat>>)
    ensures r.Some? ==> |r.value| == |bodies|
    ensures r.Some? ==> forall k :: 0 <= k < |bodies| ==> r.value[k] == HandleOf(chain, bodies[k]) != 0
    ensures r.None? ==> exists k :: 0 <= k < |bodies| && HandleOf(chain, bodies[k]) == 0
  {
    if bodies == [] then Some([])
    else if HandleOf(chain, bodies[0]) == 0 then None
    else
      match FindRules(chain, bodies[1..])
      case None => None
      case Some(hs) => Some([HandleOf(chain, bodies[0])] + hs)
  }

  /** How many of the drop commands succeed: up to one for a handle that is gone, or the first that fails. */
  function Succeeding(chain: seq<Entry>, hs: seq<nat>, works: nat): (n: nat)
    ensures n <= |hs|
    decreases |hs|
  {
    if hs == [] || works == 0 || hs[0] !in Handles(chain) then 0
    else 1 + Succeeding(Without(chain, {hs[0]}), hs[1..], works - 1)
  }

  /** How many rules `DropRules` gets to drop: none unless all the bodies are found. */
  function DropCount(chain: seq<Entry>, bodies: seq<Body>, listed: bool, works: nat): (n: nat)
    ensures n <= |bodies|
  {
    match FindRules(chain, bodies)
    case Some(hs) => if listed then Succeeding(chain, hs, works) else 0
    case None => 0
  }

  predicate DropsAll(chain: seq<Entry>, bodies: seq<Body>, listed: bool, works: nat) {
    listed && FindRules(chain, bodies).Some? && DropCount(chain, bodies, listed, works) == |bodies|
  }

  function AfterDrops(chain: seq<Entry>, bodies: seq<Body>, listed: bool, works: nat): seq<Entry> {
    match FindRules(chain, bodies)
    case Some(hs) => Without(chain, Set(hs[..DropCount(chain, bodies, listed, works)]))
    case None => chain
  }

  function Set<T(==)>(s: seq<T>): set<T> {
    set x | x in s
  }

  class Nft {
    var chain: seq<Entry>
    var next: nat

    constructor ()
      ensures chain == [] && next == 1
    {
      chain := [];
      next := 1;
    }

    /** `Apply`: the kernel takes all the rules or, when the command fails, none. */
    method Apply(bodies: seq<Body>, works: bool) returns (ok: bool)
      modifies this
      ensures ok == works
      ensures chain == if ok then Added(old(chain), old(next), bodies) else old(chain)
      ensures next == if ok then old(next) + |bodies| else old(next)
    {
      ok := works;
      if ok {
        var i := 0;
        while i < |bodies|
          invariant i <= |bodies| && next == old(next) + i
          invariant Added(chain, next, bodies[i..]) == Added(old(chain), old(next), bodies)
        {
          assert bodies[i..][1..] == bodies[i + 1..];
          chain, next := chain + [Entry(next, bodies[i])], next + 1;
          i := i + 1;
        }
      }
    }

    /** `Drop`: an error if no rule has this handle. */
    method Drop(handle: nat, works: bool) returns (ok: bool)
      modifies this`chain
      ensures ok == (works && handle in Handles(old(chain)))
      ensures chain == if ok then Without(old(chain), {handle}) else old(chain)
    {
      ok := works && handle in Handles(chain);
      if ok {
        var i, kept := 0, [];
        while i < |chain|
          invariant i <= |chain| && chain == old(chain)
          invariant kept + Without(chain[i..], {handle}) == Without(chain, {handle})
        {
          assert chain[i..][1..] == chain[i + 1..];
          if chain[i].handle != handle {
            kept := kept + [chain[i]];
          }
          i := i + 1;
        }
        chain := kept;
      }
    }

    method FindAll(bodies: seq<Body>) returns (r: Option<seq<nat>>)
      ensures r == FindRules(chain, bodies)
    {
      var hs := [];
      var i := 0;
      while i < |bodies|
        invariant i <= |bodies| && |hs| == i
        invariant forall k :: 0 <= k < i ==> hs[k] == HandleOf(chain, bodies[k]) != 0
      {
        var h := HandleOf(chain, bodies[i]);
        if h == 0 {
          return None;
        }
        hs := hs + [h];
        i := i + 1;
      }
      ghost var found := FindRules(chain, bodies);
      assert found.Some? && found.value == hs;
      return Some(hs);
    }

    /**
     `DropRules`: nothing is dropped unless every body is found; then the handles that were found are dropped
     one by one, up to the first command that fails. `listed`: reading the ruleset works; `works`: how many
     drop commands do.
     */
    method DropRules(bodies: seq<Body>, listed: bool, works: nat) returns (ok: bool)
      modifies this`chain
      ensures !listed || FindRules(old(chain), bodies).None? ==> !ok && chain == old(chain)
      ensures listed && FindRules(old(chain), bodies).Some? ==>
        var hs := FindRules(old(chain), bodies).value;
        var n := Succeeding(old(chain), hs, works);
        ok == (n == |hs|) && chain == Without(old(chain), Set(hs[..n]))
    {
      if !listed {
        return false;
      }
      var found := FindAll(bodies);
      if found == None {
        return false;
      }
      ok := DropAll(found.value, works);
    }

    /** The drop commands, one by one, up to the first that fails. */
    method DropAll(hs: seq<nat>, works: nat) returns (ok: bool)
      modifies this`chain
      ensures var n := Succeeding(old(chain), hs, works);
        ok == (n == |hs|) && chain == Without(old(chain), Set(hs[..n]))
    {
      var i := 0;
      WithoutNone(chain);
      while i < |hs|
        invariant i <= |hs| && chain == Without(old(chain), Set(hs[..i]))
        invariant i <= works && Succeeding(old(chain), hs, works) == i + Succeeding(chain, hs[i..], works - i)
      {
        var dropped := Drop(hs[i], i < works);
        assert hs[i..][0] == hs[i] && hs[i..][1..] == hs[i + 1..];
        if !dropped {
          return false;
        }
        WithoutTwice(old(chain), Set(hs[..i]), {hs[i]});
        assert Set(hs[..i + 1]) == Set(hs[..i]) + {hs[i]};
        i := i + 1;
      }
      return true;
    }
  }

  lemma {:induction false} WithoutNone(chain: seq<Entry>)
    ensures Without(chain, {}) == chain && Without(chain, Set<nat>([])) == chain
  {
    assert Set<nat>([]) == {};
    if chain != [] {
      WithoutNone(chain[1..]);
    }
  }

  lemma {:induction false} WithoutTwice(chain: seq<Entry>, a: set<nat>, b: set<nat>)
    ensures Without(Without(chain, a), b) == Without(chain, a + b)
  {
    if chain != [] {
      WithoutTwice(chain[1..], a, b);
      if chain[0].handle !in a {
        assert Without(chain, a)[1..] == Without(chain[1..], a);
      }
    }
  }
}
