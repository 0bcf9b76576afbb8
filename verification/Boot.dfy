/**
 The three boot stages (apps/core0/bootstrap/bootstrap.go): the sorted tree is cut by weight into the
 init, net and boot slices, and each is run to its end before the next begins. Jobs of an earlier slice
 keep firing their hooks while later slices run.
 */
module Boot {
  import opened Wrappers
  import opened Settings
  import opened StartupTree
  import opened WaitMachine
  import opened SliceRun
  import opened SliceTheorems

  /** The services, the tree made from them, whose start condition holds and who has a readiness hook. */
  datatype World = World(inc: Included, tree: seq<Entry>, met: set<string>, signals: set<string>)

  ghost predicate ValidWorld(w: World) {
    Prepared(w.inc) && IsTree(w.inc, w.tree)
  }

  function StageConfig(w: World, stage: nat): Config {
    Config(Stage(w.tree, stage), w.met, w.signals)
  }

  /** One slice state per stage begun; the last is the stage being run. */
  type BootState = seq<State>

  datatype BootAction = Step(stage: nat, action: Action) | NextStage

  const LAST_STAGE: nat := 2

  function BootInit(w: World): BootState {
    [Init(StageConfig(w, 0))]
  }

  predicate BootEnabled(w: World, b: BootState, a: BootAction) {
    match a
    case Step(stage, action) => stage < |b| && Enabled(StageConfig(w, stage), b[stage], action)
    case NextStage => 0 < |b| <= LAST_STAGE && b[|b| - 1].returned
  }

  function BootApply(w: World, b: BootState, a: BootAction): BootState
    requires BootEnabled(w, b, a)
  {
    match a
    case Step(stage, action) => b[stage := Apply(StageConfig(w, stage), b[stage], action)]
    case NextStage => b + [Init(StageConfig(w, |b|))]
  }

  ghost predicate BootNext(w: World, b: BootState, t: BootState) {
    exists a :: BootEnabled(w, b, a) && t == BootApply(w, b, a)
  }

  ghost predicate BootStepAt(w: World, run: seq<BootState>, n: nat) {
    n + 1 < |run| && BootNext(w, run[n], run[n + 1])
  }

  ghost predicate BootRun(w: World, run: seq<BootState>) {
    && |run| > 0 && run[0] == BootInit(w)
    && forall n :: 0 <= n < |run| - 1 ==> BootStepAt(w, run, n)
  }

  ghost predicate BootInv(w: World, b: BootState) {
    && 0 < |b| <= LAST_STAGE + 1
    && (forall j :: 0 <= j < |b| ==> Inv(StageConfig(w, j), b[j]))
    && (forall j :: 0 <= j < |b| - 1 ==> b[j].returned)
  }

  // ---- The slices of the tree ----------------------------------------------------------------

  lemma StageConfigValid(w: World, stage: nat)
    requires DistinctKeys(w.tree)
    ensures ValidConfig(StageConfig(w, stage))
  {
    SelectDistinct(w.tree, StageStart(stage), StageEnd(stage));
  }

  /** A service of a slice is a kept service whose weight lies in the slice's range. */
  lemma StageMember(w: World, stage: nat, i: nat)
    requires ValidWorld(w) && i < |Stage(w.tree, stage)|
    ensures var s := Stage(w.tree, stage)[i];
      Kept(w.inc, s.key) && s == w.inc[s.key] && InRange(WeightOf(w.inc, s.key), StageStart(stage), StageEnd(stage))
  {
    var s := Stage(w.tree, stage)[i];
    SelectMembers(w.tree, StageStart(stage), StageEnd(stage), s);
    var x :| x in w.tree && x.service == s && InRange(x.weight, StageStart(stage), StageEnd(stage));
    assert TreeEntry(w.inc, x);
  }

  /** The stage a weight belongs to. */
  function StageOf(weight: int): nat {
    if weight < PRIORITY[NET] then 0 else if weight < PRIORITY[BOOT] then 1 else 2
  }

  /** A kept service is in the slice of its weight, unless it weighs less than `init`. */
  lemma KeptIsStaged(w: World, k: string) returns (i: nat)
    requires ValidWorld(w) && Kept(w.inc, k) && WeightOf(w.inc, k) >= PRIORITY[INIT]
    ensures i < |Stage(w.tree, StageOf(WeightOf(w.inc, k)))|
    ensures Stage(w.tree, StageOf(WeightOf(w.inc, k)))[i] == w.inc[k]
  {
    var stage := StageOf(WeightOf(w.inc, k));
    var x := Entry(w.inc[k], WeightOf(w.inc, k));
    assert x in w.tree;
    SelectMembers(w.tree, StageStart(stage), StageEnd(stage), w.inc[k]);
    i :| 0 <= i < |Stage(w.tree, stage)| && Stage(w.tree, stage)[i] == w.inc[k];
  }

  lemma StageOfMember(w: World, stage: nat, i: nat)
    requires ValidWorld(w) && stage <= LAST_STAGE && i < |Stage(w.tree, stage)|
    ensures Kept(w.inc, Stage(w.tree, stage)[i].key)
    ensures var weight := WeightOf(w.inc, Stage(w.tree, stage)[i].key);
      weight >= PRIORITY[INIT] && StageOf(weight) == stage
  {
    StageMember(w, stage, i);
  }

  ghost predicate Staged(w: World, k: string) {
    exists stage: nat, i: nat :: StagedAt(w, k, stage, i)
  }

  predicate StagedAt(w: World, k: string, stage: nat, i: nat) {
    stage <= LAST_STAGE && i < |Stage(w.tree, stage)| && Stage(w.tree, stage)[i].key == k
  }

  /** Every kept service is in the tree, but it is in a slice, and can ever be started, exactly if it weighs
      at least as much as `init`. */
  lemma StagedIff(w: World, k: string)
    requires ValidWorld(w) && Kept(w.inc, k)
    ensures Entry(w.inc[k], WeightOf(w.inc, k)) in w.tree
    ensures Staged(w, k) <==> WeightOf(w.inc, k) >= PRIORITY[INIT]
  {
    if WeightOf(w.inc, k) >= PRIORITY[INIT] {
      var i := KeptIsStaged(w, k);
      assert StagedAt(w, k, StageOf(WeightOf(w.inc, k)), i);
    }
    if stage: nat, i: nat :| StagedAt(w, k, stage, i) { StageOfMember(w, stage, i); }
  }

  /** A service ordered after the end marker alone, or after `init` and the end marker, is kept, and no
      error is reported for it; but it is in no slice. */
  lemma EndMarkerIsNeverStaged(w: World, k: string)
    requires ValidWorld(w) && k in w.inc && (w.inc[k].after == [END] || w.inc[k].after == [INIT, END])
    ensures Kept(w.inc, k) && Entry(w.inc[k], WeightOf(w.inc, k)) in w.tree && !Staged(w, k)
  {
    LeftDecreases(w.inc, k, []);
    EndMarkerSums(w.inc, [] + [k]);
    StagedIff(w, k);
  }

  lemma EndMarkerSums(inc: Included, chain: seq<string>)
    ensures SumWeights(inc, [END], chain) == Success(PRIORITY[END])
    ensures SumWeights(inc, [INIT, END], chain) == Success(PRIORITY[INIT] + PRIORITY[END])
  {
    assert [END][1..] == [] && [INIT, END][1..] == [END];
    assert SumWeights(inc, [], chain) == Success(0);
    assert NameWeight(inc, END, chain) == Success(PRIORITY[END]);
  }

  /** Without a service called like a milestone, no services of one slice wait for each other in a circle. */
  lemma StageIsGrounded(w: World, stage: nat)
    requires ValidWorld(w) && forall s :: s in Stage(w.tree, stage) ==> s.key !in PRIORITY
    ensures Grounded(StageConfig(w, stage))
  {
    var c := StageConfig(w, stage);
    forall some: set<nat> | some != {} && InSlice(c, some) ensures HasFree(c, some) {
      SomeIsFree(w, stage, some);
    }
  }

  lemma SomeIsFree(w: World, stage: nat, some: set<nat>)
    requires ValidWorld(w) && some != {} && InSlice(StageConfig(w, stage), some)
    requires forall i :: i in some ==> StageConfig(w, stage).slice[i].key !in PRIORITY
    ensures HasFree(StageConfig(w, stage), some)
  {
    var c := StageConfig(w, stage);
    var names := set i | i in some :: c.slice[i].key;
    forall i | i in some ensures Kept(w.inc, c.slice[i].key) && c.slice[i] == w.inc[c.slice[i].key] {
      StageMember(w, stage, i);
    }
    var first :| first in some;
    assert c.slice[first].key in names;
    var m := FindIndependent(w.inc, names, c.slice[first].key, []);
    var i :| i in some && c.slice[i].key == m;
    forall j | j in some ensures !WaitsFor(c, i, j) {
      assert c.slice[j].key in names && !Edge(w.inc, m, c.slice[j].key);
    }
    assert Free(c, some, i);
  }

  /** Kept services that wait for each other in a circle take a name for a service that `Weight` takes for
      a milestone. */
  lemma CircleNamesMilestone(w: World, stage: nat, some: set<nat>)
    requires ValidWorld(w) && Circle(StageConfig(w, stage), some)
    ensures exists i :: i in some && StageConfig(w, stage).slice[i].key in PRIORITY
  {
    var c := StageConfig(w, stage);
    CircleHasNoFree(c, some);
    if forall i :: i in some ==> c.slice[i].key !in PRIORITY { SomeIsFree(w, stage, some); }
  }

  // ---- The invariant over every boot ---------------------------------------------------------

  lemma BootStep(w: World, run: seq<BootState>, n: nat) returns (a: BootAction)
    requires BootRun(w, run) && n + 1 < |run|
    ensures BootEnabled(w, run[n], a) && run[n + 1] == BootApply(w, run[n], a)
  {
    assert BootStepAt(w, run, n);
    a :| BootEnabled(w, run[n], a) && run[n + 1] == BootApply(w, run[n], a);
  }

  lemma BootStepInv(w: World, b: BootState, a: BootAction)
    requires DistinctKeys(w.tree) && BootInv(w, b) && BootEnabled(w, b, a)
    ensures BootInv(w, BootApply(w, b, a))
  {
    match a
    case Step(stage, action) =>
      StepInv(StageConfig(w, stage), b[stage], action);
    case NextStage =>
      StageConfigValid(w, |b|);
      InitInv(StageConfig(w, |b|));
  }

  lemma {:induction false} BootRunInv(w: World, run: seq<BootState>, n: nat)
    requires DistinctKeys(w.tree) && BootRun(w, run) && n < |run|
    ensures BootInv(w, run[n])
  {
    if n == 0 {
      StageConfigValid(w, 0);
      InitInv(StageConfig(w, 0));
    } else {
      BootRunInv(w, run, n - 1);
      var a := BootStep(w, run, n - 1);
      BootStepInv(w, run[n - 1], a);
    }
  }

  // ---- The order of a whole boot -------------------------------------------------------------

  /** Service `d` has been released: in an earlier stage that is through, or in stage `stage` itself, where
      it has moreover come up. */
  ghost predicate ReleasedBefore(w: World, b: BootState, stage: nat, d: string) {
    exists j: nat, i: nat :: ReleasedAt(w, b, stage, d, j, i)
  }

  ghost predicate ReleasedAt(w: World, b: BootState, stage: nat, d: string, j: nat, i: nat) {
    && j <= stage < |b| && i < |Stage(w.tree, j)| && i < |b[j].procs| && Stage(w.tree, j)[i].key == d
    && d in b[j].gates && b[j].gates[d].closed
    && (j < stage ==> b[j].returned)
    && (j == stage ==> CameUp(b[j].procs[i]))
  }

  /** In every run of the three stages, when a service is handed to the manager, a service it is ordered
      after has already been released exactly if it is in a slice at all, and in no later one. */
  lemma BootOrderIff(w: World, run: seq<BootState>, n: nat, stage: nat, i: nat, id: string, accepted: bool, a: string)
    requires ValidWorld(w) && BootRun(w, run) && n < |run|
    requires BootEnabled(w, run[n], Step(stage, Dispatch(i, id, accepted)))
    requires i < |Stage(w.tree, stage)| && a in Stage(w.tree, stage)[i].after && a !in PRIORITY
    ensures Kept(w.inc, a)
    ensures ReleasedBefore(w, run[n], stage, a) <==>
      PRIORITY[INIT] <= WeightOf(w.inc, a) && StageOf(WeightOf(w.inc, a)) <= stage
  {
    BootRunInv(w, run, n);
    var b, k := run[n], Stage(w.tree, stage)[i].key;
    StageMember(w, stage, i);
    assert Edge(w.inc, k, a);
    KeptIsClosed(w.inc, k, a);
    var j := StageOf(WeightOf(w.inc, a));
    if PRIORITY[INIT] <= WeightOf(w.inc, a) && j <= stage {
      var m := KeptIsStaged(w, a);
      DependencyReleased(w, b, stage, i, id, accepted, j, m);
      assert ReleasedAt(w, b, stage, a, j, m);
    }
    if j: nat, m: nat :| ReleasedAt(w, b, stage, a, j, m) { StageOfMember(w, j, m); }
  }

  /** A service is dispatched in the slice of its weight, after all earlier slices have got through. */
  lemma MilestonesPassed(w: World, run: seq<BootState>, n: nat, stage: nat, i: nat, id: string, accepted: bool)
    requires ValidWorld(w) && BootRun(w, run) && n < |run|
    requires BootEnabled(w, run[n], Step(stage, Dispatch(i, id, accepted)))
    ensures i < |Stage(w.tree, stage)| && Kept(w.inc, Stage(w.tree, stage)[i].key)
    ensures stage == StageOf(WeightOf(w.inc, Stage(w.tree, stage)[i].key))
    ensures forall j :: 0 <= j < stage ==> run[n][j].returned
  {
    BootRunInv(w, run, n);
    StageOfMember(w, stage, i);
  }

  /** A service that names nothing is handed over in the last stage, when the two others have got through. */
  lemma NamesNothingIsLast(w: World, run: seq<BootState>, n: nat, stage: nat, i: nat, id: string, accepted: bool)
    requires ValidWorld(w) && BootRun(w, run) && n < |run|
    requires BootEnabled(w, run[n], Step(stage, Dispatch(i, id, accepted)))
    requires i < |Stage(w.tree, stage)| && Stage(w.tree, stage)[i].after == []
    ensures Kept(w.inc, Stage(w.tree, stage)[i].key)
    ensures stage == 2 && run[n][0].returned && run[n][1].returned
    ensures WeightOf(w.inc, Stage(w.tree, stage)[i].key) == 1_000_000
  {
    MilestonesPassed(w, run, n, stage, i, id, accepted);
    StageMember(w, stage, i);
  }

  /** If no end marker can be reached from a service, then when it is handed to the manager every service it
      is ordered after has been released, and every milestone it is ordered after has been passed. */
  lemma BootOrder(w: World, run: seq<BootState>, n: nat, stage: nat, i: nat, id: string, accepted: bool, a: string)
    requires ValidWorld(w) && BootRun(w, run) && n < |run|
    requires BootEnabled(w, run[n], Step(stage, Dispatch(i, id, accepted)))
    requires i < |Stage(w.tree, stage)| && a in Stage(w.tree, stage)[i].after
    requires !ReachesEnd(w.inc, Stage(w.tree, stage)[i].key)
    ensures a !in PRIORITY ==> ReleasedBefore(w, run[n], stage, a)
    ensures a == NET ==> stage >= 1 && run[n][0].returned
    ensures a == BOOT ==> stage == 2 && run[n][0].returned && run[n][1].returned
  {
    MilestonesPassed(w, run, n, stage, i, id, accepted);
    StageMember(w, stage, i);
    WeightsFollowDependencies(w.inc, Stage(w.tree, stage)[i].key, a);
    if a !in PRIORITY { BootOrderIff(w, run, n, stage, i, id, accepted, a); }
  }

  lemma DependencyReleased(w: World, b: BootState, stage: nat, i: nat, id: string, accepted: bool, j: nat, m: nat)
    requires BootInv(w, b) && j <= stage < |b|
    requires Enabled(StageConfig(w, stage), b[stage], Dispatch(i, id, accepted))
    requires m < |Stage(w.tree, j)| && Stage(w.tree, j)[m].key in Stage(w.tree, stage)[i].after
    ensures ReleasedAt(w, b, stage, Stage(w.tree, j)[m].key, j, m)
  {
    var c := StageConfig(w, j);
    assert Inv(c, b[j]);
    assert c.slice[m] in c.slice;
    if j == stage {
      WaitedForIsUp(c, b[j], i, m);
    }
  }

  // ---- The boot always ends ------------------------------------------------------------------

  /** Nothing is left to do but for the jobs, of all the slices begun, and for the manager. */
  ghost predicate BootAtRest(w: World, b: BootState) {
    forall a :: BootEnabled(w, b, a) ==> a.Step? && Outside(a.action)
  }

  ghost predicate BootStuck(w: World, b: BootState) {
    forall a :: !BootEnabled(w, b, a)
  }

  ghost predicate AllThrough(b: BootState) {
    |b| == LAST_STAGE + 1 && forall j :: 0 <= j <= LAST_STAGE ==> b[j].returned
  }

  /** What keeps a slice from getting through. */
  ghost predicate Blocked(w: World, b: BootState, stage: nat) {
    var c := StageConfig(w, stage);
    Circular(c) || (stage < |b| && SomeIdLost(c, b[stage]))
  }

  ghost predicate NoneBlocked(w: World, b: BootState) {
    forall stage: nat :: stage <= LAST_STAGE ==> !Blocked(w, b, stage)
  }

  /** A slice is waiting for one of its jobs or for the manager. */
  ghost predicate HeldUp(w: World, b: BootState, stage: nat) {
    stage < |b| && SomeHoldsUp(StageConfig(w, stage), b[stage])
  }

  ghost predicate NoneHeldUp(w: World, b: BootState) {
    forall stage: nat :: stage <= LAST_STAGE ==> !HeldUp(w, b, stage)
  }

  /** A boot at rest has run all three slices to their end, exactly if in none of them services whose
      conditions hold wait for each other in a circle, none was dispatched without its name, and no slice is
      waiting for a job that is up without having signalled readiness, or for the manager. */
  lemma BootCompletesIff(w: World, run: seq<BootState>)
    requires DistinctKeys(w.tree) && BootRun(w, run) && BootAtRest(w, run[|run| - 1])
    ensures AllThrough(run[|run| - 1]) <==> NoneBlocked(w, run[|run| - 1]) && NoneHeldUp(w, run[|run| - 1])
  {
    var b := run[|run| - 1];
    BootRunInv(w, run, |run| - 1);
    forall j: nat | j < |b| && b[j].returned ensures !Blocked(w, b, j) && !HeldUp(w, b, j) {
      ThroughIsNotBlocked(w, run, |run| - 1, j);
    }
    if !b[|b| - 1].returned { LastIsBlocked(w, b); }
    assert !BootEnabled(w, b, NextStage);
  }

  lemma LastIsBlocked(w: World, b: BootState)
    requires BootInv(w, b) && BootAtRest(w, b) && !b[|b| - 1].returned
    ensures Blocked(w, b, |b| - 1) || HeldUp(w, b, |b| - 1)
  {
    var last := |b| - 1;
    var c := StageConfig(w, last);
    forall a | Enabled(c, b[last], a) ensures Outside(a) {
      assert BootEnabled(w, b, Step(last, a));
    }
    if !SomeIdLost(c, b[last]) && !SomeHoldsUp(c, b[last]) { RestBlames(c, b[last]); }
  }

  /** A service that is up without having signalled readiness, or that the manager has not answered for, holds
      the whole boot: its slice is the last one begun. */
  lemma HeldUpBoot(w: World, run: seq<BootState>, n: nat, stage: nat)
    requires DistinctKeys(w.tree) && BootRun(w, run) && n < |run| && HeldUp(w, run[n], stage)
    ensures |run[n]| == stage + 1 && !run[n][stage].returned && !AllThrough(run[n])
  {
    BootRunInv(w, run, n);
    var c, st := StageConfig(w, stage), run[n][stage];
    var i: nat :| HoldsUp(c, st, i);
    HoldsUpNotReturned(c, st, i);
  }

  /** In particular, when every job has exited and every hook has fired. */
  lemma StuckBootCompletesIff(w: World, run: seq<BootState>)
    requires DistinctKeys(w.tree) && BootRun(w, run) && BootStuck(w, run[|run| - 1])
    ensures AllThrough(run[|run| - 1]) <==> NoneBlocked(w, run[|run| - 1])
  {
    var b := run[|run| - 1];
    BootRunInv(w, run, |run| - 1);
    forall stage: nat | stage < |b| ensures !HeldUp(w, b, stage) {
      forall a ensures !Enabled(StageConfig(w, stage), b[stage], a) { assert !BootEnabled(w, b, Step(stage, a)); }
      StuckIsAtRest(StageConfig(w, stage), b[stage]);
    }
    BootCompletesIff(w, run);
  }

  /** A circle of a slice is held back in every boot. */
  lemma {:induction false} BootHolds(w: World, run: seq<BootState>, n: nat, stage: nat, some: set<nat>)
    requires DistinctKeys(w.tree) && BootRun(w, run) && n < |run| && Circle(StageConfig(w, stage), some)
    ensures stage < |run[n]| ==> Held(StageConfig(w, stage), run[n][stage], some)
  {
    if n > 0 {
      BootHolds(w, run, n - 1, stage, some);
      BootRunInv(w, run, n - 1);
      var a := BootStep(w, run, n - 1);
      if a.Step? && a.stage == stage { StepHolds(StageConfig(w, stage), run[n - 1][stage], some, a.action); }
    }
  }

  lemma ThroughIsNotBlocked(w: World, run: seq<BootState>, n: nat, stage: nat)
    requires DistinctKeys(w.tree) && BootRun(w, run) && n < |run| && stage < |run[n]| && run[n][stage].returned
    ensures !Blocked(w, run[n], stage) && !HeldUp(w, run[n], stage)
  {
    var c, st := StageConfig(w, stage), run[n][stage];
    BootRunInv(w, run, n);
    forall some: set<nat> ensures !Circle(c, some) {
      if Circle(c, some) {
        BootHolds(w, run, n, stage, some);
        HeldNeverReturned(c, st, some);
      }
    }
    forall i: nat ensures !IdLost(c, st, i) && !HoldsUp(c, st, i) { ReturnedIsClear(c, st, i); }
  }

  /** With no service of an empty name or called like a milestone, a boot at rest is through, exactly if it is
      not waiting for a job or for the manager. */
  lemma BootCompletes(w: World, run: seq<BootState>)
    requires ValidWorld(w) && BootRun(w, run) && BootAtRest(w, run[|run| - 1])
    requires "" !in w.inc && forall k :: k in w.inc ==> k !in PRIORITY
    ensures AllThrough(run[|run| - 1]) <==> NoneHeldUp(w, run[|run| - 1])
  {
    var b := run[|run| - 1];
    BootCompletesIff(w, run);
    BootRunInv(w, run, |run| - 1);
    forall j: nat | j <= LAST_STAGE ensures !Blocked(w, b, j) { NamedStageIsNotBlocked(w, b, j); }
  }

  lemma NamedStageIsNotBlocked(w: World, b: BootState, stage: nat)
    requires ValidWorld(w) && BootInv(w, b) && "" !in w.inc && forall k :: k in w.inc ==> k !in PRIORITY
    ensures !Blocked(w, b, stage)
  {
    var c := StageConfig(w, stage);
    forall s | s in c.slice ensures s.key in w.inc {
      var i :| 0 <= i < |c.slice| && c.slice[i] == s;
      StageMember(w, stage, i);
    }
    StageIsGrounded(w, stage);
    GroundedIsNotCircular(c);
    assert "" !in Keys(c);
    if stage < |b| && SomeIdLost(c, b[stage]) { LostIdWasEmpty(c, b[stage]); }
  }

  /** Whatever the interleaving, a boot takes boundedly many steps. */
  function BootStepsLeft(w: World, b: BootState): nat
    requires |b| <= LAST_STAGE + 1
    requires forall j :: 0 <= j < |b| ==> |b[j].procs| == |Stage(w.tree, j)|
  {
    StageStepsLeft(w, b, 0) + StageStepsLeft(w, b, 1) + StageStepsLeft(w, b, 2)
  }

  function StageStepsLeft(w: World, b: BootState, j: nat): nat
    requires j < |b| ==> |b[j].procs| == |Stage(w.tree, j)|
  {
    if j < |b| then StepsLeft(StageConfig(w, j), b[j]) else StepsLeft(StageConfig(w, j), Init(StageConfig(w, j))) + 1
  }

  lemma BootStepUsesBudget(w: World, b: BootState, a: BootAction)
    requires BootInv(w, b) && BootEnabled(w, b, a) && BootInv(w, BootApply(w, b, a))
    ensures BootStepsLeft(w, BootApply(w, b, a)) < BootStepsLeft(w, b)
  {
    var t := BootApply(w, b, a);
    match a
    case Step(stage, action) =>
      StepUsesBudget(StageConfig(w, stage), b[stage], action);
      StageBudgets(w, b, t, stage);
    case NextStage =>
      StageBudgets(w, b, t, |b|);
  }

  /** A step that changes one stage and shortens it shortens the whole boot. */
  lemma StageBudgets(w: World, b: BootState, t: BootState, changed: nat)
    requires BootInv(w, b) && BootInv(w, t) && changed <= LAST_STAGE
    requires forall j: nat :: j <= LAST_STAGE && j != changed ==> StageStepsLeft(w, t, j) == StageStepsLeft(w, b, j)
    requires StageStepsLeft(w, t, changed) < StageStepsLeft(w, b, changed)
    ensures BootStepsLeft(w, t) < BootStepsLeft(w, b)
  {
  }

  lemma {:induction false} BootIsBounded(w: World, run: seq<BootState>, n: nat)
    requires DistinctKeys(w.tree) && BootRun(w, run) && n < |run|
    ensures BootInv(w, run[n])
    ensures n + BootStepsLeft(w, run[n]) <= BootStepsLeft(w, BootInit(w))
  {
    BootRunInv(w, run, n);
    if n > 0 {
      BootIsBounded(w, run, n - 1);
      var a := BootStep(w, run, n - 1);
      BootStepUsesBudget(w, run[n - 1], a);
    }
  }

  // ---- What the end marker does to the order -------------------------------------------------

  /** With the end marker among its names a service can weigh less than what it depends on: here `y`, which
      is ordered after `x`, is dispatched in the init stage, while `x` belongs to the net stage. */
  lemma EndMarkerBreaksOrder() returns (w: World, run: seq<BootState>)
    ensures ValidWorld(w)
    ensures BootRun(w, run)
    ensures Stage(w.tree, 0) == [Startup("y", ["x", END])] && "x" in w.inc
    ensures var b := run[|run| - 1];
      BootEnabled(w, b, Step(0, Dispatch(0, "y", true))) && !ReleasedBefore(w, b, 0, "x")
  {
    w := EndMarkerWorld();
    run := EndMarkerRun(w);
    var b := run[|run| - 1];
    assert !ReleasedBefore(w, b, 0, "x");
  }

  lemma EndMarkerWorld() returns (w: World)
    ensures ValidWorld(w)
    ensures Stage(w.tree, 0) == [Startup("y", ["x", END])] && "x" in w.inc && "y" in w.met
  {
    var x, y := Startup("x", [NET]), Startup("y", ["x", END]);
    var inc: Included := map["x" := x, "y" := y];
    EndMarkerWeights(inc, x, y);
    var ex, ey := Entry(x, 1000), Entry(y, 999);
    w := World(inc, [ey, ex], {"y"}, {});
    assert w.tree[0] == ey && w.tree[1] == ex;
    assert TreeEntry(inc, ex) && TreeEntry(inc, ey);
    assert w.tree[1..] == [ex] && [ex][1..] == [];
    assert Select([ex], 1, 1000) == [] + Select([], 1, 1000);
    assert StageStart(0) == 1 && StageEnd(0) == 1000;
  }

  lemma EndMarkerRun(w: World) returns (run: seq<BootState>)
    requires Stage(w.tree, 0) == [Startup("y", ["x", END])] && "y" in w.met
    ensures BootRun(w, run)
    ensures run[|run| - 1] == [State(NewGates({"y"}), [Waiting(2, true)], 1, false)]
  {
    var c, g := StageConfig(w, 0), NewGates({"y"});
    assert c.slice[0].key == "y";
    assert Keys(c) == {"y"};
    var s0, s1 := State(g, [Idle], 0, false), State(g, [Waiting(0, true)], 1, false);
    var s2, s3 := State(g, [Waiting(1, true)], 1, false), State(g, [Waiting(2, true)], 1, false);
    assert Init(c) == s0;
    assert Enabled(c, s0, Visit) && Apply(c, s0, Visit) == s1;
    assert Enabled(c, s1, Receive(0)) && Apply(c, s1, Receive(0)) == s2;
    assert Enabled(c, s2, Receive(0)) && Apply(c, s2, Receive(0)) == s3;
    run := [[s0], [s1], [s2], [s3]];
    InOneStage(w, s0, Visit, s1);
    InOneStage(w, s1, Receive(0), s2);
    InOneStage(w, s2, Receive(0), s3);
    assert BootStepAt(w, run, 0) && BootStepAt(w, run, 1) && BootStepAt(w, run, 2);
  }

  lemma InOneStage(w: World, s: State, a: Action, t: State)
    requires Enabled(StageConfig(w, 0), s, a) && t == Apply(StageConfig(w, 0), s, a)
    ensures BootNext(w, [s], [t])
  {
    assert BootEnabled(w, [s], Step(0, a)) && [t] == BootApply(w, [s], Step(0, a));
  }

  lemma EndMarkerWeights(inc: Included, x: Startup, y: Startup)
    requires x == Startup("x", [NET]) && y == Startup("y", ["x", END]) && inc == map["x" := x, "y" := y]
    ensures Kept(inc, "x") && WeightOf(inc, "x") == 1000
    ensures Kept(inc, "y") && WeightOf(inc, "y") == 999
  {
    XWeighs(inc, []);
    LeftDecreases(inc, "y", []);
    var chain := [] + ["y"];
    XWeighs(inc, chain);
    assert y.after[1..] == [END] && [END][1..] == [];
    assert SumWeights(inc, [], chain) == Success(0);
    assert SumWeights(inc, [END], chain) == Success(-1);
    assert NameWeight(inc, "x", chain) == Success(1000);
    assert SumWeights(inc, y.after, chain) == Success(999);
  }

  lemma XWeighs(inc: Included, chain: seq<string>)
    requires "x" in inc && inc["x"] == Startup("x", [NET]) && "x" !in chain
    ensures Weight(inc, "x", chain) == Success(1000)
  {
    LeftDecreases(inc, "x", chain);
    assert [NET][1..] == [];
    assert SumWeights(inc, [], chain + ["x"]) == Success(0);
    assert SumWeights(inc, [NET], chain + ["x"]) == Success(1000);
  }
}
