/**
 When a job stops, whatever its flags: runs of the restart loop with their actions recorded.
 */
module JobStops {
  import opened JobLoop

  ghost predicate TakenAt(c: Config, run: seq<State>, actions: seq<Action>, n: nat)
    requires n < |actions| < |run|
  {
    Enabled(run[n], actions[n]) && run[n + 1] == Apply(c, run[n], actions[n])
  }

  /** A run and the actions that led from each of its states to the next. */
  ghost predicate IsTrace(c: Config, run: seq<State>, actions: seq<Action>) {
    && |run| == |actions| + 1 && run[0] == Init(c)
    && forall n :: 0 <= n < |actions| ==> TakenAt(c, run, actions, n)
  }

  /** One of the first `n` actions was this one. */
  ghost predicate Did(actions: seq<Action>, n: nat, a: Action)
    requires n <= |actions|
  {
    exists k :: 0 <= k < n && actions[k] == a
  }

  lemma DidStep(actions: seq<Action>, n: nat, a: Action)
    requires n < |actions|
    ensures Did(actions, n + 1, a) <==> Did(actions, n, a) || actions[n] == a
  {
  }

  /** The job was protected when it started, and `Terminate` has not cleared the flag yet. */
  ghost predicate Protected(c: Config, actions: seq<Action>, n: nat)
    requires n <= |actions|
  {
    c.protectedAtStart && !Did(actions, n, ClearProtected)
  }

  /** How many of the first `n` actions were the decision on a run that failed, of a job no longer protected. */
  ghost function FailuresDecided(c: Config, run: seq<State>, actions: seq<Action>, n: nat): nat
    requires n <= |actions| < |run|
  {
    if n == 0 then 0
    else
      FailuresDecided(c, run, actions, n - 1) +
      if actions[n - 1] == Decide && LastFailed(run[n - 1]) && !Protected(c, actions, n - 1) then 1 else 0
  }

  predicate LastFailed(st: State) {
    st.results != [] && !st.results[|st.results| - 1]
  }

  /** Action `k` ends the job: it was unscheduled while it paused; or its last run is decided on, it is neither
      protected nor recurring, and that run was a success or its failures have used up the limit. */
  ghost predicate StopsAt(c: Config, run: seq<State>, actions: seq<Action>, k: nat)
    requires k < |actions| < |run|
  {
    || (actions[k] == Quit && Did(actions, k, Unschedule))
    || (actions[k] == Decide && !Protected(c, actions, k) && !c.recurring
        && (!LastFailed(run[k]) || FailuresDecided(c, run, actions, k + 1) >= c.maxRestart))
  }

  /** What flags and counters say about what was done. */
  ghost predicate History(c: Config, run: seq<State>, actions: seq<Action>, n: nat)
    requires n <= |actions| < |run|
  {
    var st := run[n];
    && (st.unscheduled <==> Did(actions, n, Unschedule))
    && (st.isProtected <==> Protected(c, actions, n))
    && (st.terminated <==> Did(actions, n, ClearProtected))
    && (c.maxRestart > 0 ==> st.failures == FailuresDecided(c, run, actions, n))
    && st.begun == |st.results| + (if st.pc == Running then 1 else 0)
    && (st.pc.Deciding? ==> st.results != [] && (st.pc.success <==> !LastFailed(st)))
  }

  lemma HistoryStep(c: Config, run: seq<State>, actions: seq<Action>, n: nat)
    requires n < |actions| < |run| && TakenAt(c, run, actions, n) && History(c, run, actions, n)
    ensures History(c, run, actions, n + 1)
  {
    DidStep(actions, n, Unschedule);
    DidStep(actions, n, ClearProtected);
  }

  lemma {:induction false} TraceHistory(c: Config, run: seq<State>, actions: seq<Action>, n: nat)
    requires IsTrace(c, run, actions) && n <= |actions|
    ensures History(c, run, actions, n)
  {
    if n > 0 {
      TraceHistory(c, run, actions, n - 1);
      assert TakenAt(c, run, actions, n - 1);
      HistoryStep(c, run, actions, n - 1);
    }
  }

  /** A job that had not stopped stops at an action exactly under that condition. */
  lemma StopStep(c: Config, run: seq<State>, actions: seq<Action>, n: nat)
    requires IsTrace(c, run, actions) && n < |actions|
    ensures run[n + 1].pc == Stopped <==> run[n].pc == Stopped || StopsAt(c, run, actions, n)
  {
    TraceHistory(c, run, actions, n);
    assert TakenAt(c, run, actions, n);
  }

  ghost predicate StopsBefore(c: Config, run: seq<State>, actions: seq<Action>, n: nat)
    requires n <= |actions| < |run|
  {
    exists k :: 0 <= k < n && StopsAt(c, run, actions, k)
  }

  lemma StopsBeforeStep(c: Config, run: seq<State>, actions: seq<Action>, n: nat)
    requires n < |actions| < |run|
    ensures StopsBefore(c, run, actions, n + 1) <==> StopsBefore(c, run, actions, n) || StopsAt(c, run, actions, n)
  {
    if k :| 0 <= k < n && StopsAt(c, run, actions, k) { assert StopsBefore(c, run, actions, n + 1); }
  }

  /** In every run, whatever the flags, a job has stopped exactly if one of the actions so far ended it. */
  lemma {:induction false} StoppedIff(c: Config, run: seq<State>, actions: seq<Action>, n: nat)
    requires IsTrace(c, run, actions) && n <= |actions|
    ensures run[n].pc == Stopped <==> StopsBefore(c, run, actions, n)
  {
    if n > 0 {
      StoppedIff(c, run, actions, n - 1);
      StopStep(c, run, actions, n - 1);
      StopsBeforeStep(c, run, actions, n - 1);
    }
  }

  /** So a recurring job stops only when it is unscheduled, and a job protected at its start only when it is
      terminated. */
  lemma StopsOnlyWhenTold(c: Config, run: seq<State>, actions: seq<Action>, n: nat)
    requires IsTrace(c, run, actions) && n <= |actions| && run[n].pc == Stopped
    ensures c.recurring ==> Did(actions, n, Unschedule)
    ensures c.protectedAtStart ==> Did(actions, n, ClearProtected) && Did(actions, n, Unschedule)
  {
    StoppedIff(c, run, actions, n);
    var k :| 0 <= k < n && StopsAt(c, run, actions, k);
    EarlierDid(actions, k, n, Unschedule);
    EarlierDid(actions, k, n, ClearProtected);
    if c.protectedAtStart { NotWhileProtected(c, run, actions, k); }
  }

  lemma EarlierDid(actions: seq<Action>, k: nat, n: nat, a: Action)
    requires k <= n <= |actions|
    ensures Did(actions, k, a) ==> Did(actions, n, a)
  {
  }

  /** A protected job never pauses, so it cannot quit. */
  lemma NotWhileProtected(c: Config, run: seq<State>, actions: seq<Action>, k: nat)
    requires IsTrace(c, run, actions) && k < |actions| && c.protectedAtStart && StopsAt(c, run, actions, k)
    ensures Did(actions, k, ClearProtected) && Did(actions, k, Unschedule)
  {
    TraceHistory(c, run, actions, k);
    assert TakenAt(c, run, actions, k);
    if actions[k] == Quit { PausesUnprotected(c, run, actions, k); }
    ClearedIsUnscheduled(c, run, actions, k);
  }

  lemma {:induction false} PausesUnprotected(c: Config, run: seq<State>, actions: seq<Action>, n: nat)
    requires IsTrace(c, run, actions) && n <= |actions| && run[n].pc == Pausing
    ensures !run[n].isProtected
  {
    if n > 0 {
      assert TakenAt(c, run, actions, n - 1);
      if run[n - 1].pc == Pausing { PausesUnprotected(c, run, actions, n - 1); }
    }
  }

  lemma {:induction false} ClearedIsUnscheduled(c: Config, run: seq<State>, actions: seq<Action>, n: nat)
    requires IsTrace(c, run, actions) && n <= |actions|
    ensures Did(actions, n, ClearProtected) ==> Did(actions, n, Unschedule)
  {
    if n > 0 {
      ClearedIsUnscheduled(c, run, actions, n - 1);
      assert TakenAt(c, run, actions, n - 1);
      TraceHistory(c, run, actions, n - 1);
      DidStep(actions, n - 1, Unschedule);
      DidStep(actions, n - 1, ClearProtected);
    }
  }

  /** A job that has not stopped is never left without a step of its own: it runs, decides, sleeps, or pauses
      until its timer fires, or until it quits if it was unscheduled. */
  lemma NotStoppedGoesOn(c: Config, run: seq<State>, actions: seq<Action>, n: nat)
    requires IsTrace(c, run, actions) && n <= |actions| && !StopsBefore(c, run, actions, n)
    ensures
      || Enabled(run[n], RunEnds(true)) || Enabled(run[n], Decide) || Enabled(run[n], Wake)
      || (if Did(actions, n, Unschedule) then Enabled(run[n], Quit) else Enabled(run[n], Timer))
  {
    StoppedIff(c, run, actions, n);
    TraceHistory(c, run, actions, n);
  }
}
