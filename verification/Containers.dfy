/**
 Container numbers and default addresses (apps/plugins/containers/plugin/manager.go, network.go). The counter
 is a 16-bit unsigned integer that wraps around; taking a number and registering it is one step here.
 */
module Containers {
  import opened Wrappers

  const MODULUS := 65536
  const MAX_UINT16 := 65535
  const HARD_LIMIT := 1000

  predicate InRange(id: int) {
    0 < id < MAX_UINT16
  }

  predicate Usable(id: int, live: set<int>) {
    InRange(id) && id !in live
  }

  ghost predicate HasUsable(live: set<int>) {
    exists id: int :: Usable(id, live)
  }

  /** How many increments lead from `sequence` to `id`: at least one, at most a full turn. */
  function Distance(sequence: int, id: int): (n: int)
    requires 0 <= sequence < MODULUS && 0 <= id < MODULUS
    ensures 0 < n <= MODULUS && (sequence + n) % MODULUS == id
  {
    if id > sequence then id - sequence else id - sequence + MODULUS
  }

  /** `id` is the first usable number after `sequence`, going round. */
  ghost predicate IsNext(sequence: int, live: set<int>, id: int)
    requires 0 <= sequence < MODULUS
  {
    && Usable(id, live)
    && forall other :: Usable(other, live) ==> Distance(sequence, id) <= Distance(sequence, other)
  }

  lemma DistanceOneLess(sequence: int, id: int)
    requires 0 <= sequence < MODULUS && 0 <= id < MODULUS && (sequence + 1) % MODULUS != id
    ensures Distance((sequence + 1) % MODULUS, id) == Distance(sequence, id) - 1
  {
  }

  /** Numbers are given out one way only. */
  lemma NextIsUnique(sequence: int, live: set<int>, id: int, other: int)
    requires 0 <= sequence < MODULUS && IsNext(sequence, live, id) && IsNext(sequence, live, other)
    ensures id == other
  {
    assert Distance(sequence, id) == Distance(sequence, other);
  }

  class Manager<C> {
    var sequence: int
    var containers: map<int, C>

    predicate Valid()
      reads this
    {
      0 <= sequence < MODULUS && forall id :: id in containers ==> InRange(id)
    }

    constructor ()
      ensures Valid() && sequence == 0 && containers == map[]
    {
      sequence, containers := 0, map[];
    }

    /** The first unused number after the counter. `None` where the source goes round forever: there is none,
        and after a full turn the counter is back where it was. */
    method GetNextSequence() returns (id: Option<int>)
      requires Valid()
      modifies this`sequence
      ensures Valid() && (id.Some? <==> HasUsable(containers.Keys))
      ensures id.Some? ==> sequence == id.value && IsNext(old(sequence), containers.Keys, id.value)
      ensures id.None? ==> sequence == old(sequence)
    {
      var steps := 0;
      while steps < MODULUS
        invariant Valid() && 0 <= steps <= MODULUS
        invariant sequence == if old(sequence) + steps < MODULUS then old(sequence) + steps
                              else old(sequence) + steps - MODULUS
        invariant forall x :: Usable(x, containers.Keys) ==> Distance(old(sequence), x) == steps + Distance(sequence, x)
      {
        forall x | Usable(x, containers.Keys) && x != (sequence + 1) % MODULUS
          ensures Distance((sequence + 1) % MODULUS, x) == Distance(sequence, x) - 1
        {
          DistanceOneLess(sequence, x);
        }
        assert (sequence + 1) % MODULUS == if sequence == MODULUS - 1 then 0 else sequence + 1;
        sequence := (sequence + 1) % MODULUS;
        steps := steps + 1;
        if sequence != 0 && sequence < MAX_UINT16 {
          if sequence !in containers {
            assert Usable(sequence, containers.Keys);
            return Some(sequence);
          }
        }
      }
      return None;
    }

    method SetContainer(id: int, c: C)
      requires Valid() && InRange(id)
      modifies this`containers
      ensures Valid() && containers == old(containers)[id := c]
    {
      containers := containers[id := c];
    }

    method UnsetContainer(id: int)
      requires Valid()
      modifies this`containers
      ensures Valid() && containers == old(containers) - {id}
    {
      containers := containers - {id};
    }

    /** The number part of `createContainer`: refused at the limit; otherwise the container gets a number that
        no live container has, unless all of them are in use, when the call does not return. */
    method CreateContainer(maxCount: int, c: C) returns (r: Creation)
      requires Valid()
      modifies this
      ensures Valid()
      ensures r.Refused? <==> |old(containers)| >= if maxCount == 0 then 1000 else maxCount
      ensures r.Never? <==> |old(containers)| == 65534 && |old(containers)| < if maxCount == 0 then 1000 else maxCount
      ensures r.Created? ==> IsNext(old(sequence), old(containers).Keys, r.id) && sequence == r.id
      ensures containers == if r.Created? then old(containers)[r.id := c] else old(containers)
      ensures !r.Created? ==> sequence == old(sequence)
    {
      var limit := maxCount;
      if limit == 0 {
        limit := HARD_LIMIT;
      }
      if |containers| >= limit {
        return Refused;
      }
      UsableIff(containers.Keys);
      var id := GetNextSequence();
      if id == None {
        return Never;
      }
      SetContainer(id.value, c);
      return Created(id.value);
    }
  }

  datatype Creation = Refused | Never | Created(id: int)

  /** The configured limit; 0 stands for the default one. */
  function Limit(maxCount: int): (n: int)
    ensures maxCount == 0 ==> n == 1000
    ensures maxCount != 0 ==> n == maxCount
  {
    if maxCount == 0 then HARD_LIMIT else maxCount
  }

  // ---- When there is a number ----------------------------------------------------------------

  function Below(n: nat): (s: set<int>)
    ensures |s| == n && forall x :: x in s <==> 0 < x <= n
  {
    if n == 0 then {} else Below(n - 1) + {n}
  }

  /** There is an unused number exactly if fewer than 65534 containers are live. */
  lemma UsableIff(live: set<int>)
    requires forall id :: id in live ==> InRange(id)
    ensures |live| < MAX_UINT16 && (HasUsable(live) <==> |live| < MAX_UINT16 - 1)
  {
    var all := Below(MAX_UINT16 - 1);
    SubsetSize(live, all);
    if |live| < |all| {
      if all <= live { SubsetSize(all, live); }
      var id :| id in all && id !in live;
      assert Usable(id, live);
    } else {
      assert live == all;
      assert forall id: int :: InRange(id) ==> id in all;
    }
  }

  /** With a limit of at most 65534, creating a container never finds all the numbers in use. */
  lemma LimitLeavesANumber(maxCount: int, live: set<int>)
    requires Limit(maxCount) < MAX_UINT16 && (forall id :: id in live ==> InRange(id)) && |live| < Limit(maxCount)
    ensures HasUsable(live)
  {
    UsableIff(live);
  }

  // ---- Addresses -----------------------------------------------------------------------------

  datatype Address = Address(a: int, b: int, c: int, d: int)

  const BRIDGE := Address(172, 18, 0, 1)
  const BROADCAST := Address(172, 18, 255, 255)

  /** `getDefaultIP`: the two bytes of the number after the container's, in 16 bits. */
  function DefaultAddress(id: int): Address {
    var base := (id + 1) % MODULUS;
    Address(172, 18, base / 256, base % 256)
  }

  /** Containers with different numbers have different addresses of the bridge's network, none of them the
      bridge's own; one of them is the network's broadcast address. */
  lemma AddressesAreApart(id: int, other: int)
    requires InRange(id) && InRange(other)
    ensures DefaultAddress(id) == DefaultAddress(other) <==> id == other
    ensures DefaultAddress(id) != BRIDGE
    ensures 0 <= DefaultAddress(id).c < 256 && 0 <= DefaultAddress(id).d < 256
    ensures DefaultAddress(id) == BROADCAST <==> id == MAX_UINT16 - 1
  {
    var x, y := (id + 1) % MODULUS, (other + 1) % MODULUS;
    assert x == id + 1 && y == other + 1;
    assert x == x / 256 * 256 + x % 256 && y == y / 256 * 256 + y % 256;
  }

  // ---- Runs ----------------------------------------------------------------------------------

  datatype State = State(sequence: int, live: set<int>)

  datatype Action = Create(id: int) | Remove(id: int)

  /** A container is created with the next number, or one goes. */
  ghost predicate Step(s: State, a: Action, t: State)
    requires 0 <= s.sequence < MODULUS
  {
    match a
    case Create(id) => IsNext(s.sequence, s.live, id) && t == State(id, s.live + {id})
    case Remove(id) => t == State(s.sequence, s.live - {id})
  }

  ghost predicate Run(states: seq<State>, actions: seq<Action>) {
    && |states| == |actions| + 1 && states[0] == State(0, {})
    && (forall k :: 0 <= k < |states| ==> 0 <= states[k].sequence < MODULUS)
    && forall k :: 0 <= k < |actions| ==> StepAt(states, actions, k)
  }

  ghost predicate StepAt(states: seq<State>, actions: seq<Action>, k: nat) {
    && k < |actions| && k + 1 < |states| && 0 <= states[k].sequence < MODULUS
    && Step(states[k], actions[k], states[k + 1])
  }

  /** How far the counter has gone between two points of a run. */
  function Turned(states: seq<State>, actions: seq<Action>, from: nat, to: nat): int
    requires from <= to <= |actions| < |states|
    requires forall k :: 0 <= k < |states| ==> 0 <= states[k].sequence < MODULUS
  {
    if from == to then 0
    else
      Turned(states, actions, from, to - 1) +
      if actions[to - 1].Create? && InRange(actions[to - 1].id)
      then Distance(states[to - 1].sequence, actions[to - 1].id) else 0
  }

  lemma {:induction false} TurnedMeans(states: seq<State>, actions: seq<Action>, from: nat, to: nat)
    requires Run(states, actions) && from <= to <= |actions|
    ensures Turned(states, actions, from, to) >= 0
    ensures (states[from].sequence + Turned(states, actions, from, to)) % MODULUS == states[to].sequence
  {
    if from < to {
      TurnedMeans(states, actions, from, to - 1);
      assert StepAt(states, actions, to - 1);
    }
  }

  /** A number is given out again only after the counter has gone all the way round. */
  lemma NumberComesBackAfterATurn(states: seq<State>, actions: seq<Action>, i: nat, j: nat)
    requires Run(states, actions) && i < j < |actions|
    requires actions[i].Create? && actions[j] == actions[i]
    ensures Turned(states, actions, i + 1, j + 1) >= MODULUS
  {
    assert StepAt(states, actions, i) && StepAt(states, actions, j);
    TurnedMeans(states, actions, i + 1, j + 1);
    TurnedMeans(states, actions, i + 1, j);
  }

  lemma {:induction false} LiveInRange(states: seq<State>, actions: seq<Action>, k: nat)
    requires Run(states, actions) && k <= |actions|
    ensures forall id :: id in states[k].live ==> InRange(id)
  {
    if k > 0 {
      LiveInRange(states, actions, k - 1);
      assert StepAt(states, actions, k - 1);
    }
  }

  /** In every run, live containers have numbers in range and addresses of their own, none of them the bridge's,
      and the address that a new container gets is not that of any live one. */
  lemma LiveNumbers(states: seq<State>, actions: seq<Action>, k: nat)
    requires Run(states, actions) && k <= |actions|
    ensures forall id :: id in states[k].live ==> InRange(id) && DefaultAddress(id) != BRIDGE
    ensures forall id, other :: id in states[k].live && other in states[k].live && id != other ==>
      DefaultAddress(id) != DefaultAddress(other)
    ensures k < |actions| && actions[k].Create? ==>
      && InRange(actions[k].id)
      && forall id :: id in states[k].live ==> DefaultAddress(id) != DefaultAddress(actions[k].id)
  {
    LiveInRange(states, actions, k);
    if k < |actions| { assert StepAt(states, actions, k); }
    forall id, other | InRange(id) && InRange(other)
      ensures DefaultAddress(id) != BRIDGE && (id != other ==> DefaultAddress(id) != DefaultAddress(other))
    {
      AddressesAreApart(id, other);
    }
  }

  // ---- The manager makes such runs -----------------------------------------------------------

  datatype Request<C> = Start(c: C) | Stop(id: int)

  /** Calls one after another, and the run that they make: a container that is refused makes no step. */
  method Serve<C>(m: Manager<C>, maxCount: int, requests: seq<Request<C>>)
    returns (states: seq<State>, actions: seq<Action>)
    requires m.Valid() && m.sequence == 0 && m.containers == map[]
    modifies m
    ensures m.Valid() && Run(states, actions) && |actions| <= |requests|
    ensures states[|actions|] == State(m.sequence, m.containers.Keys)
  {
    states, actions := [State(0, {})], [];
    var i := 0;
    while i < |requests|
      invariant i <= |requests| && |actions| <= i && m.Valid() && Run(states, actions)
      invariant states[|actions|] == State(m.sequence, m.containers.Keys)
    {
      match requests[i] {
        case Start(c) =>
          var r := m.CreateContainer(maxCount, c);
          if r.Created? {
            states, actions := OneMore(states, actions, Create(r.id), State(m.sequence, m.containers.Keys));
          }
        case Stop(id) =>
          m.UnsetContainer(id);
          states, actions := OneMore(states, actions, Remove(id), State(m.sequence, m.containers.Keys));
      }
      i := i + 1;
    }
  }

  method OneMore(states: seq<State>, actions: seq<Action>, a: Action, t: State)
    returns (longer: seq<State>, more: seq<Action>)
    requires Run(states, actions) && Step(states[|actions|], a, t) && 0 <= t.sequence < MODULUS
    ensures longer == states + [t] && more == actions + [a] && Run(longer, more)
  {
    longer, more := states + [t], actions + [a];
    forall k | 0 <= k < |more| ensures StepAt(longer, more, k) {
      if k < |actions| { assert StepAt(states, actions, k); }
    }
  }
}
