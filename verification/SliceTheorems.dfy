/**
 What every run of one boot slice guarantees: dependencies first, failures travel down, and exactly when the
 slice gets to its end.
 */
module SliceTheorems {
  import opened Wrappers
  import opened Settings
  import opened WaitMachine
  import opened SliceRun

  // ---- Order ---------------------------------------------------------------------------------

  /** When a service is handed to the manager, every service of the slice it waits for has been released
      and has come up: it signalled readiness or exited in success. */
  lemma DispatchAfterDependencies(c: Config, run: seq<State>, n: nat, i: nat, id: string, accepted: bool, j: nat)
    requires ValidConfig(c) && IsRun(c, run) && n < |run|
    requires Enabled(c, run[n], Dispatch(i, id, accepted)) && WaitsFor(c, i, j)
    ensures c.slice[j].key in run[n].gates && run[n].gates[c.slice[j].key].closed
    ensures CameUp(run[n].procs[j])
  {
    RunInv(c, run, n);
    WaitedForIsUp(c, run[n], i, j);
  }

  lemma WaitedForIsUp(c: Config, st: State, i: nat, j: nat)
    requires Inv(c, st) && WaitsFor(c, i, j)
    requires Dispatched(st.procs[i]) || st.procs[i] == Waiting(|c.slice[i].after|, true)
    ensures CameUp(st.procs[j])
    ensures c.slice[j].key in st.gates && st.gates[c.slice[j].key].closed
  {
    assert ProcInv(c, st, i);
    var names := c.slice[i].after;
    assert names[..|names|] == names;
    var n :| 0 <= n < |names| && names[n] == c.slice[j].key;
    assert CameUp(st.procs[j]);
    assert c.slice[j] in c.slice;
  }

  // ---- Failure -------------------------------------------------------------------------------

  /** A chain of services of the slice, each waiting for the next. */
  predicate WaitPath(c: Config, p: seq<nat>) {
    |p| > 1 && forall k :: 0 <= k < |p| - 1 ==> WaitsFor(c, p[k], p[k + 1])
  }

  /** Everything below a dispatched service has come up. */
  lemma {:induction false} PathIsUp(c: Config, st: State, p: seq<nat>)
    requires Inv(c, st) && WaitPath(c, p) && p[0] < |st.procs| && Dispatched(st.procs[p[0]])
    ensures p[|p| - 1] < |st.procs| && CameUp(st.procs[p[|p| - 1]])
    decreases |p|
  {
    assert WaitsFor(c, p[0], p[1]);
    WaitedForIsUp(c, st, p[0], p[1]);
    if |p| > 2 {
      var rest := p[1..];
      forall k | 0 <= k < |rest| - 1 ensures WaitsFor(c, rest[k], rest[k + 1]) {
        assert WaitsFor(c, p[k + 1], p[k + 1 + 1]);
      }
      PathIsUp(c, st, rest);
    }
  }

  lemma FollowsTransitive(r: State, s: State, t: State)
    requires Follows(r, s) && Follows(s, t)
    ensures Follows(r, t)
  {
    forall j | 0 <= j < |r.procs| ensures ProcFollows(r.procs[j], t.procs[j]) {
      assert ProcFollows(r.procs[j], s.procs[j]) && ProcFollows(s.procs[j], t.procs[j]);
    }
  }

  lemma {:induction false} RunFollows(c: Config, run: seq<State>, m: nat, n: nat)
    requires ValidConfig(c) && IsRun(c, run) && m <= n < |run|
    ensures Follows(run[m], run[n])
    decreases n
  {
    if m < n {
      RunFollows(c, run, m, n - 1);
      RunInv(c, run, n - 1);
      var a := RunStep(c, run, n - 1);
      StepFollows(c, run[n - 1], a);
      FollowsTransitive(run[m], run[n - 1], run[n]);
    }
  }

  /** If a service's condition is unmet, its dependencies let it down, or the manager refuses it, then no
      service that waits for it, however indirectly, is ever dispatched, before or after; and once the
      slice is through they have all been released, as failures. */
  lemma FailurePropagates(c: Config, run: seq<State>, p: seq<nat>, m: nat, n: nat)
    requires ValidConfig(c) && IsRun(c, run) && m < |run| && n < |run|
    requires WaitPath(c, p) && p[|p| - 1] < |run[m].procs| && Failed(run[m].procs[p[|p| - 1]])
    ensures p[0] < |run[n].procs| == |c.slice| && !Dispatched(run[n].procs[p[0]])
    ensures run[n].returned ==>
      c.slice[p[0]].key in run[n].gates && run[n].gates[c.slice[p[0]].key] == Gate(true, false)
  {
    var last := p[|p| - 1];
    assert WaitsFor(c, p[0], p[1]) && WaitsFor(c, p[|p| - 2], p[|p| - 2 + 1]);
    var top := if m < n then n else m;
    RunInv(c, run, top);
    RunFollows(c, run, m, top);
    RunFollows(c, run, n, top);
    assert ProcFollows(run[m].procs[last], run[top].procs[last]);
    assert ProcFollows(run[n].procs[p[0]], run[top].procs[p[0]]);
    if Dispatched(run[top].procs[p[0]]) {
      PathIsUp(c, run[top], p);
      assert false;
    }
    RunInv(c, run, n);
    assert c.slice[p[0]] in c.slice;
    assert GateInv(c, run[n], p[0]) && ProcInv(c, run[n], p[0]);
  }

  /** Who gets dispatched by the time the slice is through: whoever's condition holds, unless a dependency
      in the slice let it down. */
  lemma OutcomeWhenReturned(c: Config, run: seq<State>, n: nat, i: nat)
    requires ValidConfig(c) && IsRun(c, run) && n < |run| && run[n].returned && i < |c.slice|
    ensures |run[n].procs| == |c.slice|
    ensures Dispatched(run[n].procs[i]) ==>
      c.slice[i].key in c.met && forall j: nat :: WaitsFor(c, i, j) ==> CameUp(run[n].procs[j])
    ensures !Dispatched(run[n].procs[i]) ==>
      c.slice[i].key !in c.met || exists j: nat :: WaitsFor(c, i, j) && LetDown(run[n].procs[j])
  {
    RunInv(c, run, n);
    var st := run[n];
    assert ProcInv(c, st, i) && GateInv(c, st, i) && c.slice[i] in c.slice;
    if Dispatched(st.procs[i]) {
      forall j: nat | WaitsFor(c, i, j) ensures CameUp(st.procs[j]) { WaitedForIsUp(c, st, i, j); }
    } else if c.slice[i].key in c.met {
      var j :| 0 <= j < |c.slice| && WaitsFor(c, i, j) && LetDown(st.procs[j]);
    }
  }

  // ---- Progress ------------------------------------------------------------------------------

  predicate InSlice(c: Config, some: set<nat>) {
    forall i :: i in some ==> i < |c.slice|
  }

  ghost predicate WaitsAmong(c: Config, some: set<nat>, i: nat) {
    exists j :: j in some && WaitsFor(c, i, j)
  }

  /** Services whose conditions hold and each of which waits for one of them. */
  ghost predicate Circle(c: Config, some: set<nat>) {
    && some != {} && InSlice(c, some)
    && forall i {:trigger WaitsAmong(c, some, i)} :: i in some ==> c.slice[i].key in c.met && WaitsAmong(c, some, i)
  }

  ghost predicate Circular(c: Config) {
    exists some: set<nat> :: Circle(c, some)
  }

  /** What comes from outside a slice: a job signals readiness or exits, and the manager answers a call of
      `Run`, which may block for as long as the job table is full. */
  predicate Outside(a: Action) {
    a.Ready? || a.Exit? || a.Dispatch?
  }

  /** The slice itself can do nothing more. */
  ghost predicate AtRest(c: Config, st: State) {
    forall a :: Enabled(c, st, a) ==> Outside(a)
  }

  /** A service the slice is waiting for: its job is up and has neither signalled readiness nor exited, or it
      is in the hands of the manager, which has not answered yet. */
  predicate HoldsUp(c: Config, st: State, i: nat) {
    && i < |c.slice| && i < |st.procs|
    && (st.procs[i] == Waiting(|c.slice[i].after|, true)
        || (st.procs[i].Started? && !st.procs[i].ready && st.procs[i].exit == None))
  }

  ghost predicate SomeHoldsUp(c: Config, st: State) {
    exists i: nat :: HoldsUp(c, st, i)
  }

  /** Nothing at all can happen any more: every job has exited, and every hook has fired. */
  ghost predicate Stuck(c: Config, st: State) {
    forall a :: !Enabled(c, st, a)
  }

  lemma StuckIsAtRest(c: Config, st: State)
    requires Inv(c, st) && Stuck(c, st)
    ensures AtRest(c, st) && !SomeHoldsUp(c, st)
  {
    forall i: nat ensures !HoldsUp(c, st, i) {
      if i < |c.slice| {
        var id := FreshId(c, c.slice[i].key);
        assert !Enabled(c, st, Dispatch(i, id, true)) && !Enabled(c, st, Exit(i, true));
      }
    }
  }

  /** The gate of service `i` is still shut. */
  predicate Shut(c: Config, st: State, i: nat) {
    i < |c.slice| && c.slice[i].key in st.gates && !st.gates[c.slice[i].key].closed
  }

  ghost predicate SomeIdLost(c: Config, st: State) {
    exists i: nat :: IdLost(c, st, i)
  }

  lemma LostIdWasEmpty(c: Config, st: State)
    requires Inv(c, st) && SomeIdLost(c, st)
    ensures "" in Keys(c)
  {
    var i: nat :| IdLost(c, st, i);
    assert ProcInv(c, st, i) && c.slice[i] in c.slice;
  }

  // A circle holds its services back in every run.

  predicate Held(c: Config, st: State, some: set<nat>) {
    |st.procs| == |c.slice| && forall i :: i in some && i < |st.procs| ==> st.procs[i].Idle? || st.procs[i].Waiting?
  }

  /** A service of the circle never gets to the end of its names. */
  lemma HeldIsShort(c: Config, st: State, some: set<nat>, i: nat)
    requires Inv(c, st) && Circle(c, some) && Held(c, st, some) && i in some && st.procs[i].Waiting?
    ensures st.procs[i].pos < |c.slice[i].after|
  {
    assert WaitsAmong(c, some, i);
    var j :| j in some && WaitsFor(c, i, j);
    assert st.procs[j].Idle? || st.procs[j].Waiting?;
    BehindShutGate(c, st, i, j);
  }

  /** Who waits for a service that is not released is not through with its names. */
  lemma BehindShutGate(c: Config, st: State, i: nat, j: nat)
    requires Inv(c, st) && WaitsFor(c, i, j) && st.procs[i].Waiting?
    requires st.procs[j].Idle? || st.procs[j].Waiting?
    ensures st.procs[i].pos < |c.slice[i].after|
  {
    assert GateInv(c, st, j) && c.slice[j] in c.slice && ProcInv(c, st, i);
    var names := c.slice[i].after;
    assert names[..|names|] == names;
  }

  lemma StepHolds(c: Config, st: State, some: set<nat>, a: Action)
    requires Inv(c, st) && Enabled(c, st, a) && Circle(c, some) && Held(c, st, some)
    ensures Held(c, Apply(c, st, a), some)
  {
    StepMovesOne(c, st, a);
    if Mover(st, a).Some? && Mover(st, a).value in some { HeldMoverHolds(c, st, some, a, Mover(st, a).value); }
  }

  lemma HeldMoverHolds(c: Config, st: State, some: set<nat>, a: Action, i: nat)
    requires Inv(c, st) && Enabled(c, st, a) && Circle(c, some) && Held(c, st, some)
    requires Mover(st, a) == Some(i) && i in some
    ensures i < |Apply(c, st, a).procs| && Apply(c, st, a).procs[i].Waiting?
  {
    assert WaitsAmong(c, some, i);
    if st.procs[i].Waiting? { HeldIsShort(c, st, some, i); }
    HeldMoves(c, st, a, i);
  }

  lemma HeldMoves(c: Config, st: State, a: Action, i: nat)
    requires Inv(c, st) && Enabled(c, st, a) && Mover(st, a) == Some(i) && i < |c.slice| && c.slice[i].key in c.met
    requires st.procs[i].Idle? || (st.procs[i].Waiting? && st.procs[i].pos < |c.slice[i].after|)
    ensures i < |Apply(c, st, a).procs| && Apply(c, st, a).procs[i].Waiting?
  {
    assert ProcInv(c, st, i);
  }

  lemma {:induction false} CircleIsHeld(c: Config, run: seq<State>, some: set<nat>, n: nat)
    requires ValidConfig(c) && IsRun(c, run) && n < |run| && Circle(c, some)
    ensures Held(c, run[n], some)
  {
    if n > 0 {
      CircleIsHeld(c, run, some, n - 1);
      RunInv(c, run, n - 1);
      var a := RunStep(c, run, n - 1);
      StepHolds(c, run[n - 1], some, a);
    }
  }

  /** No service of a circle is ever dispatched or let go, and the slice never gets through. */
  lemma CircleNeverReturns(c: Config, run: seq<State>, some: set<nat>, n: nat)
    requires ValidConfig(c) && IsRun(c, run) && n < |run| && Circle(c, some)
    ensures Held(c, run[n], some) && !run[n].returned
  {
    CircleIsHeld(c, run, some, n);
    RunInv(c, run, n);
    HeldNeverReturned(c, run[n], some);
  }

  lemma HeldNeverReturned(c: Config, st: State, some: set<nat>)
    requires Inv(c, st) && Held(c, st, some) && some != {} && InSlice(c, some)
    ensures !st.returned
  {
    var i :| i in some;
    assert GateInv(c, st, i) && c.slice[i] in c.slice;
  }

  // Without a circle, and with no id lost and nobody to wait for, the slice can always move.

  /** The slice is at rest and not through, and it is not waiting for a job or the manager: a lost job id
      explains it, or the services whose gates are shut wait for each other. */
  lemma RestBlames(c: Config, st: State)
    requires Inv(c, st) && AtRest(c, st) && !st.returned && !SomeIdLost(c, st) && !SomeHoldsUp(c, st)
    ensures Circular(c)
  {
    var first := RestLeavesShut(c, st);
    var shut := set k: nat | k < |c.slice| && Shut(c, st, k);
    assert first in shut;
    ShutAreCircle(c, st, shut);
  }

  lemma ShutAreCircle(c: Config, st: State, shut: set<nat>)
    requires Inv(c, st) && AtRest(c, st) && st.next == |c.slice| && !SomeIdLost(c, st) && !SomeHoldsUp(c, st)
    requires shut != {} && forall k: nat :: k in shut <==> Shut(c, st, k)
    ensures Circle(c, shut)
  {
    forall i | i in shut ensures c.slice[i].key in c.met && WaitsAmong(c, shut, i) {
      assert !IdLost(c, st, i) && !HoldsUp(c, st, i);
      ShutWaitsForShut(c, st, shut, i);
    }
  }

  lemma ShutWaitsForShut(c: Config, st: State, shut: set<nat>, i: nat)
    requires Inv(c, st) && AtRest(c, st) && st.next == |c.slice| && Shut(c, st, i)
    requires !IdLost(c, st, i) && !HoldsUp(c, st, i)
    requires forall k: nat :: k in shut <==> Shut(c, st, k)
    ensures c.slice[i].key in c.met && WaitsAmong(c, shut, i)
  {
    RestShutWaits(c, st, i);
    assert ProcInv(c, st, i);
    if !WaitsAmong(c, shut, i) { FreeServiceMoves(c, st, i); }
  }

  lemma RestLeavesShut(c: Config, st: State) returns (first: nat)
    requires Inv(c, st) && AtRest(c, st) && !st.returned
    ensures Shut(c, st, first) && st.next == |c.slice|
  {
    assert !Enabled(c, st, Visit) && !Enabled(c, st, Return);
    assert st.next == |c.slice| && !AllClosed(st.gates);
    var k :| k in st.gates && !st.gates[k].closed;
    first := KeyIndex(c, k);
  }

  lemma RestShutWaits(c: Config, st: State, i: nat)
    requires Inv(c, st) && AtRest(c, st) && st.next == |c.slice| && Shut(c, st, i)
    ensures IdLost(c, st, i) || HoldsUp(c, st, i) || st.procs[i].Waiting?
  {
    assert GateInv(c, st, i) && ProcInv(c, st, i);
    assert !Enabled(c, st, Report(i));
  }

  /** A waiting service none of whose dependencies is shut, and which is not in the manager's hands, can take
      its next step. */
  lemma FreeServiceMoves(c: Config, st: State, i: nat)
    requires Inv(c, st) && Shut(c, st, i) && st.procs[i].Waiting? && !HoldsUp(c, st, i)
    requires forall j: nat :: Shut(c, st, j) ==> !WaitsFor(c, i, j)
    ensures !AtRest(c, st)
  {
    var w := st.procs[i];
    assert ProcInv(c, st, i);
    if w.pos < |c.slice[i].after| {
      var d := c.slice[i].after[w.pos];
      if d in st.gates {
        var j := KeyIndex(c, d);
        assert WaitsFor(c, i, j);
      }
      assert Enabled(c, st, Receive(i)) && !Outside(Receive(i));
    } else {
      assert Enabled(c, st, GiveUp(i)) && !Outside(GiveUp(i));
    }
  }

  /** There is always an id for the job: the key, or for an empty key one that no service has. */
  lemma FreshId(c: Config, key: string) returns (id: string)
    ensures IdAfterRun(c, key, id, true)
  {
    id := key;
    if key == "" {
      id := LongerThanAll(c.slice);
    }
  }

  lemma LongerThanAll(slice: seq<Startup>) returns (id: string)
    ensures forall s :: s in slice ==> |s.key| < |id|
  {
    if slice == [] {
      id := "";
    } else {
      var rest := LongerThanAll(slice[1..]);
      id := rest + slice[0].key + "x";
      assert slice == [slice[0]] + slice[1..];
    }
  }

  /** A service that is dispatched without its key keeps the slice from ever getting through. */
  lemma LostIdNeverReturns(c: Config, run: seq<State>, n: nat, i: nat)
    requires ValidConfig(c) && IsRun(c, run) && n < |run| && IdLost(c, run[n], i)
    ensures !run[n].returned
  {
    RunInv(c, run, n);
    LostNeverReturned(c, run[n], i);
  }

  lemma LostNeverReturned(c: Config, st: State, i: nat)
    requires Inv(c, st) && IdLost(c, st, i)
    ensures !st.returned
  {
    assert GateInv(c, st, i) && c.slice[i] in c.slice;
  }

  /** As long as the slice is waiting for a job or for the manager, it does not get through. */
  lemma HeldUpNeverReturns(c: Config, run: seq<State>, n: nat, i: nat)
    requires ValidConfig(c) && IsRun(c, run) && n < |run| && HoldsUp(c, run[n], i)
    ensures !run[n].returned
  {
    RunInv(c, run, n);
    HoldsUpNotReturned(c, run[n], i);
  }

  lemma HoldsUpNotReturned(c: Config, st: State, i: nat)
    requires Inv(c, st) && HoldsUp(c, st, i)
    ensures !st.returned
  {
    assert GateInv(c, st, i) && c.slice[i] in c.slice;
  }

  /**
   Whatever the jobs and the manager do, a slice that has come to rest has got through exactly when
   - no services whose conditions hold wait for each other in a circle,
   - none was dispatched under an id other than its key, and
   - every service it handed to the manager was answered for, and every job that was started has signalled
     readiness or exited.
   */
  lemma ReturnsIff(c: Config, run: seq<State>)
    requires ValidConfig(c) && IsRun(c, run) && AtRest(c, run[|run| - 1])
    ensures var st := run[|run| - 1];
      && (st.returned <==> !Circular(c) && !SomeIdLost(c, st) && !SomeHoldsUp(c, st))
      && ("" !in Keys(c) ==> (st.returned <==> !Circular(c) && !SomeHoldsUp(c, st)))
  {
    var st := run[|run| - 1];
    RunInv(c, run, |run| - 1);
    if SomeIdLost(c, st) { LostIdWasEmpty(c, st); }
    if st.returned {
      forall some: set<nat> ensures !Circle(c, some) {
        if Circle(c, some) { CircleNeverReturns(c, run, some, |run| - 1); }
      }
      forall i: nat ensures !IdLost(c, st, i) && !HoldsUp(c, st, i) { ReturnedIsClear(c, st, i); }
    } else if !SomeIdLost(c, st) && !SomeHoldsUp(c, st) {
      RestBlames(c, st);
    }
  }

  lemma ReturnedIsClear(c: Config, st: State, i: nat)
    requires Inv(c, st) && st.returned
    ensures !IdLost(c, st, i) && !HoldsUp(c, st, i)
  {
    if IdLost(c, st, i) { LostNeverReturned(c, st, i); }
    if HoldsUp(c, st, i) { HoldsUpNotReturned(c, st, i); }
  }

  /** In particular, when every job has exited and every hook has fired. */
  lemma StuckReturnsIff(c: Config, run: seq<State>)
    requires ValidConfig(c) && IsRun(c, run) && Stuck(c, run[|run| - 1])
    ensures run[|run| - 1].returned <==> !Circular(c) && !SomeIdLost(c, run[|run| - 1])
    ensures "" !in Keys(c) ==> (run[|run| - 1].returned <==> !Circular(c))
  {
    RunInv(c, run, |run| - 1);
    StuckIsAtRest(c, run[|run| - 1]);
    ReturnsIff(c, run);
  }

  /** Among any services of the slice one waits for none of the others. */
  ghost predicate Grounded(c: Config) {
    forall some: set<nat> :: some != {} && InSlice(c, some) ==> HasFree(c, some)
  }

  ghost predicate HasFree(c: Config, some: set<nat>) {
    exists i :: Free(c, some, i)
  }

  predicate Free(c: Config, some: set<nat>, i: nat) {
    i in some && forall j :: j in some ==> !WaitsFor(c, i, j)
  }

  /** What holds whatever the conditions say: with all dependencies grounded, every slice that is at rest gets
      through as soon as its jobs and the manager have answered. */
  lemma MaximalRunReturns(c: Config, run: seq<State>)
    requires ValidConfig(c) && IsRun(c, run) && Grounded(c) && AtRest(c, run[|run| - 1])
    ensures var st := run[|run| - 1];
      && (st.returned <==> !SomeIdLost(c, st) && !SomeHoldsUp(c, st))
      && ("" !in Keys(c) ==> (st.returned <==> !SomeHoldsUp(c, st)))
  {
    GroundedIsNotCircular(c);
    ReturnsIff(c, run);
  }

  lemma GroundedIsNotCircular(c: Config)
    requires Grounded(c)
    ensures !Circular(c)
  {
    if some: set<nat> :| Circle(c, some) { CircleHasNoFree(c, some); }
  }

  lemma CircleHasNoFree(c: Config, some: set<nat>)
    requires Circle(c, some)
    ensures !HasFree(c, some)
  {
    forall i ensures !Free(c, some, i) { assert i in some ==> WaitsAmong(c, some, i); }
  }

  // ---- Runs end ------------------------------------------------------------------------------

  /** How many more steps a service can take. */
  function Budget(s: Startup, p: Proc): nat {
    match p
    case Idle => |s.after| + 5
    case Waiting(pos, _) => if pos <= |s.after| then |s.after| - pos + 4 else 4
    case Started(_, ready, exit) => (if ready then 0 else 1) + (if exit.Some? then 0 else 1)
    case Refusing(_) => 1
    case _ => 0
  }

  function Budgets(slice: seq<Startup>, procs: seq<Proc>): nat
    requires |slice| == |procs|
  {
    if slice == [] then 0 else Budget(slice[0], procs[0]) + Budgets(slice[1..], procs[1..])
  }

  lemma {:induction false} BudgetUpdate(slice: seq<Startup>, procs: seq<Proc>, i: nat, p: Proc)
    requires |slice| == |procs| && i < |slice|
    ensures Budgets(slice, procs[i := p]) == Budgets(slice, procs) - Budget(slice[i], procs[i]) + Budget(slice[i], p)
  {
    if i > 0 {
      assert procs[i := p][1..] == procs[1..][i - 1 := p];
      BudgetUpdate(slice[1..], procs[1..], i - 1, p);
    } else {
      assert procs[i := p][1..] == procs[1..];
    }
  }

  function StepsLeft(c: Config, st: State): nat
    requires |st.procs| == |c.slice|
  {
    Budgets(c.slice, st.procs) + (if st.returned then 0 else 1)
  }

  lemma StepUsesBudget(c: Config, st: State, a: Action)
    requires Inv(c, st) && Enabled(c, st, a)
    ensures |Apply(c, st, a).procs| == |c.slice| && StepsLeft(c, Apply(c, st, a)) < StepsLeft(c, st)
  {
    StepMovesOne(c, st, a);
    if Mover(st, a).Some? {
      var i := Mover(st, a).value;
      MoverUsesBudget(c, st, a, i);
      BudgetUpdate(c.slice, st.procs, i, Apply(c, st, a).procs[i]);
    }
  }

  lemma MoverUsesBudget(c: Config, st: State, a: Action, i: nat)
    requires Inv(c, st) && Enabled(c, st, a) && Mover(st, a) == Some(i)
    ensures i < |c.slice| == |st.procs| == |Apply(c, st, a).procs| && Apply(c, st, a).returned == st.returned
    ensures Budget(c.slice[i], Apply(c, st, a).procs[i]) < Budget(c.slice[i], st.procs[i])
  {
    assert ProcInv(c, st, i);
  }

  /** No run is longer than the budget it starts with: whatever the interleaving, between what comes from outside
      the slice comes to rest, and `ReturnsIff` says what it is like then. */
  lemma {:induction false} RunsAreBounded(c: Config, run: seq<State>, n: nat)
    requires ValidConfig(c) && IsRun(c, run) && n < |run|
    ensures |run[n].procs| == |c.slice| && n + StepsLeft(c, run[n]) <= StepsLeft(c, Init(c))
  {
    RunInv(c, run, n);
    if n > 0 {
      RunsAreBounded(c, run, n - 1);
      RunInv(c, run, n - 1);
      var a := RunStep(c, run, n - 1);
      StepUsesBudget(c, run[n - 1], a);
    }
  }

  // ---- Slices that do not get through --------------------------------------------------------

  /** A service with an empty key starts, its job exits, and its gate stays shut. */
  lemma EmptyKeyWedges() returns (c: Config, run: seq<State>)
    ensures ValidConfig(c) && IsRun(c, run) && Grounded(c)
    ensures Stuck(c, run[|run| - 1]) && !run[|run| - 1].returned
  {
    c := Config([Startup("", [])], {""}, {});
    var s0 := Init(c);
    var s1 := Apply(c, s0, Visit);
    var s2 := Apply(c, s1, Dispatch(0, "job", true));
    var s3 := Apply(c, s2, Exit(0, true));
    run := [s0, s1, s2, s3];
    assert StepAt(c, run, 0) && StepAt(c, run, 1) && StepAt(c, run, 2);
    AloneIsGrounded(c);
    assert c.slice[0] in c.slice && "" in s3.gates && !s3.gates[""].closed;
  }

  /** A service that stays up and never signals readiness, whether it has no hook or an output match that never
      matches, keeps the slice waiting, although nothing is wrong with its dependencies or its id. */
  lemma SilentServiceHolds(signals: set<string>) returns (c: Config, run: seq<State>)
    ensures ValidConfig(c) && IsRun(c, run) && c.signals == signals && Grounded(c) && "" !in Keys(c)
    ensures AtRest(c, run[|run| - 1]) && HoldsUp(c, run[|run| - 1], 0) && !run[|run| - 1].returned
  {
    c := Config([Startup("a", [])], {"a"}, signals);
    var s0 := Init(c);
    var s1 := Apply(c, s0, Visit);
    var s2 := Apply(c, s1, Dispatch(0, "a", true));
    run := [s0, s1, s2];
    assert StepAt(c, run, 0) && StepAt(c, run, 1);
    AloneIsGrounded(c);
    assert c.slice[0] in c.slice && "a" in s2.gates && !s2.gates["a"].closed;
  }

  lemma AloneIsGrounded(c: Config)
    requires |c.slice| == 1 && c.slice[0].after == []
    ensures Grounded(c)
  {
    forall some: set<nat> | some != {} && InSlice(c, some) ensures HasFree(c, some) {
      var i :| i in some;
      assert i == 0 && Free(c, some, 0);
    }
  }

  /** A service named after the milestone it follows has a weight, but waits for itself, so no run of its
      slice gets through. */
  lemma MilestoneNameWedges(run: seq<State>) returns (inc: Included, c: Config)
    ensures Prepared(inc) && Kept(inc, NET) && c.slice == [inc[NET]] && ValidConfig(c)
    ensures IsRun(c, run) ==> !run[|run| - 1].returned
  {
    var s := Startup(NET, [NET]);
    inc := map[NET := s];
    NetFollowsNet(inc, s);
    c := Config([s], {NET}, {});
    assert NET in c.slice[0].after;
    assert WaitsFor(c, 0, 0);
    assert 0 in {0} && WaitsAmong(c, {0}, 0);
    assert Circle(c, {0});
    if IsRun(c, run) { CircleNeverReturns(c, run, {0}, |run| - 1); }
  }

  lemma NetFollowsNet(inc: Included, s: Startup)
    requires s == Startup(NET, [NET]) && inc == map[NET := s]
    ensures Kept(inc, NET)
  {
    LeftDecreases(inc, NET, []);
    assert s.after[1..] == [];
    assert SumWeights(inc, [], [] + [NET]) == Success(0);
    assert NameWeight(inc, NET, [] + [NET]).Success?;
  }
}
