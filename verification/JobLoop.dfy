/**
 The restart loop of a job (base/mgr/job.go: start, Unschedule, Terminate). A job runs, and after each run
 its flags and counters decide whether it sleeps and respawns, pauses and restarts, or stops. Terminating
 happens concurrently, in two steps: it unschedules, then clears the protected flag.
 */
module JobLoop {

  datatype Config = Config(maxRestart: int, recurring: bool, protectedAtStart: bool)

  datatype Pc = Running | Deciding(success: bool) | Respawning | Pausing | Stopped

  /** `results` and `begunSince`, the runs begun since `Terminate` was through, are history. */
  datatype State = State(
    pc: Pc,
    failures: nat,
    isProtected: bool,
    unscheduled: bool,
    terminated: bool,
    results: seq<bool>,
    begun: nat,
    begunSince: nat)

  datatype Action = RunEnds(success: bool) | Decide | Wake | Timer | Quit | Unschedule | ClearProtected

  function Init(c: Config): State {
    State(Running, 0, c.protectedAtStart, false, false, [], 1, 0)
  }

  /** A `select` that finds the job unscheduled takes that branch. */
  predicate Enabled(st: State, a: Action) {
    match a
    case RunEnds(_) => st.pc == Running
    case Decide => st.pc.Deciding?
    case Wake => st.pc == Respawning
    case Timer => st.pc == Pausing && !st.unscheduled
    case Quit => st.pc == Pausing && st.unscheduled
    case Unschedule => true
    case ClearProtected => st.unscheduled
  }

  function Begin(st: State): State {
    st.(pc := Running, begun := st.begun + 1, begunSince := st.begunSince + (if st.terminated then 1 else 0))
  }

  function Apply(c: Config, st: State, a: Action): State
    requires Enabled(st, a)
  {
    match a
    case RunEnds(success) => st.(pc := Deciding(success), results := st.results + [success])
    case Decide =>
      if st.isProtected then st.(pc := Respawning)
      else
        var counts := !st.pc.success && c.maxRestart > 0;
        var failures := st.failures + (if counts then 1 else 0);
        var restarting := c.recurring || (counts && failures < c.maxRestart);
        st.(failures := failures, pc := if restarting then Pausing else Stopped)
    case Wake => Begin(st)
    case Timer => Begin(st)
    case Quit => st.(pc := Stopped)
    case Unschedule => st.(unscheduled := true)
    case ClearProtected => st.(isProtected := false, terminated := true)
  }

  ghost predicate StepAt(c: Config, run: seq<State>, n: nat) {
    n + 1 < |run| && exists a :: Enabled(run[n], a) && run[n + 1] == Apply(c, run[n], a)
  }

  ghost predicate IsRun(c: Config, run: seq<State>) {
    && |run| > 0 && run[0] == Init(c)
    && forall n :: 0 <= n < |run| - 1 ==> StepAt(c, run, n)
  }

  /** How often an unprotected, non-recurring job is run at most. */
  function Limit(c: Config): nat {
    if c.maxRestart > 1 then c.maxRestart else 1
  }

  predicate AllFailed(results: seq<bool>) {
    forall i :: 0 <= i < |results| ==> !results[i]
  }

  ghost predicate TerminateInv(st: State) {
    && (!st.terminated ==> st.begunSince == 0)
    && (st.terminated ==>
         !st.isProtected && st.unscheduled && st.begunSince <= 1 && (st.begunSince == 1 ==> st.pc != Respawning))
  }

  /** The bookkeeping of a job that is neither protected nor recurring. */
  ghost predicate PlainInv(c: Config, st: State) {
    var done := |st.results|;
    && !st.isProtected && st.pc != Respawning
    && st.begun == done + (if st.pc == Running then 1 else 0) && st.begun <= Limit(c)
    && (match st.pc
        case Running => AllFailed(st.results) && (done > 0 ==> st.failures == done && done < c.maxRestart)
        case Deciding(success) =>
          && done > 0 && st.results[done - 1] == success && AllFailed(st.results[..done - 1])
          && st.failures == done - 1
        case Pausing => AllFailed(st.results) && 0 < done == st.failures < c.maxRestart
        case Stopped =>
          && done > 0 && AllFailed(st.results[..done - 1])
          && (st.results[done - 1] || done == Limit(c) || st.unscheduled)
        case Respawning => false)
    && (done == 0 ==> st.failures == 0)
  }

  ghost predicate Inv(c: Config, st: State) {
    && TerminateInv(st)
    && (!c.protectedAtStart && !c.recurring ==> PlainInv(c, st))
  }

  lemma StepKeeps(c: Config, st: State, a: Action)
    requires Inv(c, st) && Enabled(st, a)
    ensures Inv(c, Apply(c, st, a))
  {
    var t := Apply(c, st, a);
    if a.RunEnds? {
      assert t.results[..|t.results| - 1] == st.results;
    }
  }

  lemma {:induction false} RunInv(c: Config, run: seq<State>, n: nat)
    requires IsRun(c, run) && n < |run|
    ensures Inv(c, run[n])
  {
    if n > 0 {
      RunInv(c, run, n - 1);
      assert StepAt(c, run, n - 1);
      var a :| Enabled(run[n - 1], a) && run[n] == Apply(c, run[n - 1], a);
      StepKeeps(c, run[n - 1], a);
    }
  }

  /** A job that is neither protected nor recurring runs until its first success or for max(1, MaxRestart)
      runs, whichever comes first, unless it is unscheduled. */
  lemma RunsUntilSuccessOrLimit(c: Config, run: seq<State>, n: nat)
    requires IsRun(c, run) && n < |run| && !c.protectedAtStart && !c.recurring
    ensures run[n].begun <= Limit(c)
    ensures forall i :: 0 <= i < |run[n].results| - 1 ==> !run[n].results[i]
    ensures run[n].pc == Stopped ==>
      var rs := run[n].results;
      rs != [] && (rs[|rs| - 1] || |rs| == Limit(c) || run[n].unscheduled)
  {
    RunInv(c, run, n);
    var rs := run[n].results;
    forall i | 0 <= i < |rs| - 1 ensures !rs[i] {
      assert AllFailed(rs) || AllFailed(rs[..|rs| - 1]);
      if !AllFailed(rs) { assert !rs[..|rs| - 1][i]; }
    }
  }

  /** Whatever the flags, at most one more run begins once `Terminate` is through. */
  lemma AtMostOneRunAfterTerminate(c: Config, run: seq<State>, n: nat)
    requires IsRun(c, run) && n < |run| && run[n].terminated
    ensures run[n].begunSince <= 1
    ensures run[n].pc == Respawning ==> run[n].begunSince == 0
  {
    RunInv(c, run, n);
  }

  /** One is possible: a protected job that was sleeping before its respawn. */
  lemma OneRunAfterTerminate() returns (c: Config, run: seq<State>)
    ensures IsRun(c, run) && run[|run| - 1].terminated && run[|run| - 1].begunSince == 1
  {
    c := Config(0, false, true);
    var s0 := Init(c);
    var s1 := Apply(c, s0, RunEnds(false));
    var s2 := Apply(c, s1, Decide);
    var s3 := Apply(c, s2, Unschedule);
    var s4 := Apply(c, s3, ClearProtected);
    var s5 := Apply(c, s4, Wake);
    run := [s0, s1, s2, s3, s4, s5];
    assert Enabled(run[0], RunEnds(false)) && run[1] == Apply(c, run[0], RunEnds(false));
    assert Enabled(run[1], Decide) && run[2] == Apply(c, run[1], Decide);
    assert Enabled(run[2], Unschedule) && run[3] == Apply(c, run[2], Unschedule);
    assert Enabled(run[3], ClearProtected) && run[4] == Apply(c, run[3], ClearProtected);
    assert Enabled(run[4], Wake) && run[5] == Apply(c, run[4], Wake);
    assert StepAt(c, run, 0) && StepAt(c, run, 1) && StepAt(c, run, 2) && StepAt(c, run, 3) && StepAt(c, run, 4);
  }

  /** `Terminate` is through right after state `m`. */
  ghost predicate TerminatesAt(run: seq<State>, m: nat) {
    m + 1 < |run| && !run[m].terminated && run[m + 1].terminated
  }

  /** What is still to come, or has come, after `Terminate`: one run exactly if the job slept before a respawn. */
  ghost predicate AfterTerminate(slept: bool, st: State) {
    && st.terminated && st.unscheduled && !st.isProtected
    && st.begunSince == (if slept && st.pc != Respawning then 1 else 0)
    && (st.pc == Respawning ==> slept)
  }

  /** After `Terminate` one more run begins exactly if the job was sleeping before a respawn at that moment, and
      it begins when that sleep is over; otherwise none does. */
  lemma {:induction false} OneMoreRunIff(c: Config, run: seq<State>, m: nat, n: nat)
    requires IsRun(c, run) && TerminatesAt(run, m) && m < n < |run|
    ensures run[n].begunSince == if run[m].pc == Respawning && run[n].pc != Respawning then 1 else 0
    ensures AfterTerminate(run[m].pc == Respawning, run[n])
    decreases n
  {
    assert StepAt(c, run, n - 1);
    var a :| Enabled(run[n - 1], a) && run[n] == Apply(c, run[n - 1], a);
    if n == m + 1 {
      RunInv(c, run, m);
    } else {
      OneMoreRunIff(c, run, m, n - 1);
    }
  }

  /** How far a terminated job still is from its end. */
  function Remaining(st: State): nat {
    match st.pc
    case Respawning => 4
    case Running => 3
    case Deciding(_) => 2
    case Pausing => 1
    case Stopped => 0
  }

  /** After `Terminate`, every step other than repeating it brings the job closer to its end: it stops. */
  lemma TerminatedJobStops(c: Config, run: seq<State>, n: nat, a: Action)
    requires IsRun(c, run) && n < |run| && run[n].terminated && Enabled(run[n], a)
    requires !a.Unschedule? && !a.ClearProtected?
    ensures Remaining(Apply(c, run[n], a)) < Remaining(run[n])
  {
    RunInv(c, run, n);
  }

  /** The loop of `start` for a job that is neither protected nor recurring and is left alone: `outcomes`
      are the results its runs will have. */
  method Start(maxRestart: int, outcomes: seq<bool>) returns (count: nat)
    requires |outcomes| >= Limit(Config(maxRestart, false, false))
    ensures 1 <= count <= Limit(Config(maxRestart, false, false))
    ensures AllFailed(outcomes[..count - 1])
    ensures outcomes[count - 1] || count == Limit(Config(maxRestart, false, false))
  {
    var failures := 0;
    count := 0;
    while true
      invariant 0 <= count < Limit(Config(maxRestart, false, false))
      invariant AllFailed(outcomes[..count])
      invariant failures == count
      decreases Limit(Config(maxRestart, false, false)) - count
    {
      var success := outcomes[count];
      count := count + 1;
      assert outcomes[..count] == outcomes[..count - 1] + [success];
      var restarting := false;
      if !success && maxRestart > 0 {
        failures := failures + 1;
        if failures < maxRestart { restarting := true; }
      }
      if !restarting { return; }
    }
  }
}
