/**
 What the states and gates of a slice mean in terms of what was done: runs with their actions recorded.
 */
module SliceHistory {
  import opened Wrappers
  import opened Settings
  import opened WaitMachine
  import opened SliceRun
  import opened SliceTheorems

  ghost predicate TakenAt(c: Config, run: seq<State>, actions: seq<Action>, n: nat)
    requires n < |actions| < |run|
  {
    Enabled(c, run[n], actions[n]) && run[n + 1] == Apply(c, run[n], actions[n])
  }

  /** A run and the actions that led from each of its states to the next. */
  ghost predicate IsTrace(c: Config, run: seq<State>, actions: seq<Action>) {
    && |run| == |actions| + 1 && run[0] == Init(c)
    && forall n :: 0 <= n < |actions| ==> TakenAt(c, run, actions, n)
  }

  lemma TraceIsRun(c: Config, run: seq<State>, actions: seq<Action>)
    requires IsTrace(c, run, actions)
    ensures IsRun(c, run)
  {
    forall n | 0 <= n < |run| - 1 ensures StepAt(c, run, n) { assert TakenAt(c, run, actions, n); }
  }

  // ---- States --------------------------------------------------------------------------------

  /** One of the first `m` actions was this one. */
  ghost predicate Did(actions: seq<Action>, m: nat, a: Action)
    requires m <= |actions|
  {
    exists k :: 0 <= k < m && actions[k] == a
  }

  /** The manager answered the call for service `i`, with an error or without, for a job with this id. */
  ghost predicate Answered(actions: seq<Action>, m: nat, i: nat, id: string, accepted: bool)
    requires m <= |actions|
  {
    Did(actions, m, Dispatch(i, id, accepted))
  }

  ghost predicate NeverAnswered(actions: seq<Action>, m: nat, i: nat)
    requires m <= |actions|
  {
    forall k :: 0 <= k < m ==> !(actions[k].Dispatch? && actions[k].i == i)
  }

  lemma DidStep(actions: seq<Action>, m: nat, a: Action)
    requires m < |actions|
    ensures Did(actions, m + 1, a) <==> Did(actions, m, a) || actions[m] == a
  {
  }

  lemma AllStep(actions: seq<Action>, m: nat, i: nat)
    requires m < |actions|
    ensures Did(actions, m + 1, GiveUp(i)) <==> Did(actions, m, GiveUp(i)) || actions[m] == GiveUp(i)
    ensures Did(actions, m + 1, Report(i)) <==> Did(actions, m, Report(i)) || actions[m] == Report(i)
    ensures Did(actions, m + 1, Ready(i)) <==> Did(actions, m, Ready(i)) || actions[m] == Ready(i)
    ensures forall ok ::
      Did(actions, m + 1, Exit(i, ok)) <==> Did(actions, m, Exit(i, ok)) || actions[m] == Exit(i, ok)
    ensures forall id, accepted ::
      Answered(actions, m + 1, i, id, accepted) <==>
        Answered(actions, m, i, id, accepted) || actions[m] == Dispatch(i, id, accepted)
    ensures NeverAnswered(actions, m + 1, i) <==>
      NeverAnswered(actions, m, i) && !(actions[m].Dispatch? && actions[m].i == i)
  {
    DidStep(actions, m, GiveUp(i));
    DidStep(actions, m, Report(i));
    DidStep(actions, m, Ready(i));
    forall ok ensures Did(actions, m + 1, Exit(i, ok)) <==> Did(actions, m, Exit(i, ok)) || actions[m] == Exit(i, ok) {
      DidStep(actions, m, Exit(i, ok));
    }
    forall id, accepted
      ensures Answered(actions, m + 1, i, id, accepted) <==>
        Answered(actions, m, i, id, accepted) || actions[m] == Dispatch(i, id, accepted)
    {
      DidStep(actions, m, Dispatch(i, id, accepted));
    }
  }

  /** The state of service `i` says what was done for it among the first `m` actions. */
  ghost predicate History(c: Config, st: State, actions: seq<Action>, m: nat, i: nat)
    requires i < |st.procs| && m <= |actions|
  {
    var p := st.procs[i];
    && (p.Abandoned? <==> Did(actions, m, GiveUp(i)))
    && (Dispatched(p) <==> !NeverAnswered(actions, m, i))
    && (forall id :: Answered(actions, m, i, id, true) <==> p.Started? && p.id == id)
    && (forall id :: Answered(actions, m, i, id, false) <==> (p.Refusing? || p.Refused?) && p.id == id)
    && (p.Refused? <==> Did(actions, m, Report(i)))
    && (Did(actions, m, Ready(i)) <==> p.Started? && p.ready)
    && (forall ok :: Did(actions, m, Exit(i, ok)) <==> p.Started? && p.exit == Some(ok))
  }

  lemma HistoryStarts(c: Config, actions: seq<Action>, i: nat)
    requires i < |c.slice|
    ensures History(c, Init(c), actions, 0, i)
  {
  }

  lemma OtherHistory(c: Config, st: State, t: State, actions: seq<Action>, m: nat, i: nat)
    requires m < |actions| && i < |st.procs| == |t.procs| && t.procs[i] == st.procs[i]
    requires History(c, st, actions, m, i) && Mover(st, actions[m]) != Some(i)
    ensures History(c, t, actions, m + 1, i)
  {
    AllStep(actions, m, i);
  }

  lemma OwnHistory(c: Config, st: State, t: State, actions: seq<Action>, m: nat, i: nat)
    requires m < |actions| && i < |c.slice| == |st.procs| == |t.procs| && ProcInv(c, st, i)
    requires Enabled(c, st, actions[m]) && t == Apply(c, st, actions[m])
    requires History(c, st, actions, m, i) && Mover(st, actions[m]) == Some(i)
    ensures History(c, t, actions, m + 1, i)
  {
    AllStep(actions, m, i);
  }

  /** In every run: a service was given up, accepted or refused by the manager, reported, became ready and
      exited exactly if its state says so. */
  lemma {:induction false} StateIsHistory(c: Config, run: seq<State>, actions: seq<Action>, m: nat, i: nat)
    requires ValidConfig(c) && IsTrace(c, run, actions) && m <= |actions| && i < |c.slice|
    ensures |run[m].procs| == |c.slice| && History(c, run[m], actions, m, i)
  {
    TraceIsRun(c, run, actions);
    if m == 0 {
      HistoryStarts(c, actions, i);
    } else {
      StateIsHistory(c, run, actions, m - 1, i);
      RunInv(c, run, m - 1);
      assert TakenAt(c, run, actions, m - 1) && ProcInv(c, run[m - 1], i);
      StepMovesOne(c, run[m - 1], actions[m - 1]);
      if Mover(run[m - 1], actions[m - 1]) == Some(i) {
        OwnHistory(c, run[m - 1], run[m], actions, m - 1, i);
      } else {
        OtherHistory(c, run[m - 1], run[m], actions, m - 1, i);
      }
    }
  }

  // ---- Gates ---------------------------------------------------------------------------------

  /** The value that action `k` releases the gate of service `i` with, if it does: a skipped service, one whose
      dependency failed and one that the manager refused are released as failures, a ready one as a success,
      and one that exits with its outcome. */
  function ReleaseAt(c: Config, run: seq<State>, actions: seq<Action>, k: nat, i: nat): Option<bool>
    requires k < |actions| < |run| && i < |c.slice|
  {
    match actions[k]
    case Visit => if run[k].next == i && c.slice[i].key !in c.met then Some(false) else None
    case GiveUp(j) => if j == i then Some(false) else None
    case Report(j) => if j == i then Some(false) else None
    case Ready(j) => if j == i then Some(true) else None
    case Exit(j, ok) => if j == i then Some(ok) else None
    case _ => None
  }

  ghost predicate NotReleased(c: Config, run: seq<State>, actions: seq<Action>, from: nat, m: nat, i: nat)
    requires m <= |actions| < |run| && i < |c.slice|
  {
    forall k :: from <= k < m ==> ReleaseAt(c, run, actions, k, i) == None
  }

  /** Action `k` is the last of the first `m` that released the gate of service `i`, and did it with `v`. */
  ghost predicate LastRelease(c: Config, run: seq<State>, actions: seq<Action>, k: nat, m: nat, i: nat, v: bool)
    requires m <= |actions| < |run| && i < |c.slice|
  {
    k < m && ReleaseAt(c, run, actions, k, i) == Some(v) && NotReleased(c, run, actions, k + 1, m, i)
  }

  lemma GateStep(c: Config, run: seq<State>, actions: seq<Action>, m: nat, i: nat)
    requires ValidConfig(c) && IsTrace(c, run, actions) && m < |actions| && i < |c.slice| && c.slice[i].key != ""
    requires Inv(c, run[m])
    ensures c.slice[i].key in run[m].gates && c.slice[i].key in run[m + 1].gates
    ensures run[m + 1].gates[c.slice[i].key] ==
            match ReleaseAt(c, run, actions, m, i)
            case Some(v) => Gate(true, v)
            case None => run[m].gates[c.slice[i].key]
  {
    var st, a := run[m], actions[m];
    assert TakenAt(c, run, actions, m);
    assert c.slice[i] in c.slice;
    if Mover(st, a) == Some(i) {
      assert ProcInv(c, st, i) && GateInv(c, st, i);
    } else {
      StepGates(c, st, a, i);
    }
  }

  /** In every run, the gate of a service with a name is shut until something releases it, and from then on it
      holds the value of the last release. */
  lemma {:induction false} GateIsLastRelease(c: Config, run: seq<State>, actions: seq<Action>, m: nat, i: nat)
    requires ValidConfig(c) && IsTrace(c, run, actions) && m <= |actions| && i < |c.slice| && c.slice[i].key != ""
    ensures c.slice[i].key in run[m].gates
    ensures NotReleased(c, run, actions, 0, m, i) ==> run[m].gates[c.slice[i].key] == Gate(false, false)
    ensures forall k: nat, v :: LastRelease(c, run, actions, k, m, i, v) ==>
      run[m].gates[c.slice[i].key] == Gate(true, v)
  {
    if m == 0 {
      assert c.slice[i] in c.slice;
    } else {
      TraceIsRun(c, run, actions);
      RunInv(c, run, m - 1);
      GateIsLastRelease(c, run, actions, m - 1, i);
      GateStep(c, run, actions, m - 1, i);
      forall k: nat, v | LastRelease(c, run, actions, k, m, i, v)
        ensures run[m].gates[c.slice[i].key] == Gate(true, v)
      {
        if k < m - 1 { assert LastRelease(c, run, actions, k, m - 1, i, v); }
      }
    }
  }

  // ---- What the manager's answer decides -----------------------------------------------------

  /** Once the manager has refused a service, it never comes up, no service that waits for it, however
      indirectly, is ever handed to the manager, before or after, and when the slice is through its gate and
      theirs were released as failures. */
  lemma RefusalPropagates(c: Config, run: seq<State>, actions: seq<Action>, n: nat, m: nat, i: nat, id: string)
    requires ValidConfig(c) && IsTrace(c, run, actions) && n < |actions| && actions[n] == Dispatch(i, id, false)
    requires n < m <= |actions|
    ensures i < |c.slice| == |run[m].procs| && !CameUp(run[m].procs[i])
    ensures !Did(actions, m, Ready(i)) && forall ok :: !Did(actions, m, Exit(i, ok))
    ensures run[m].returned ==> c.slice[i].key in run[m].gates && run[m].gates[c.slice[i].key] == Gate(true, false)
    ensures forall p, k :: WaitPath(c, p) && p[|p| - 1] == i && 0 <= k < |run| ==> NeverRuns(c, run[k], p[0])
  {
    TraceIsRun(c, run, actions);
    assert TakenAt(c, run, actions, n);
    StateIsHistory(c, run, actions, m, i);
    assert Answered(actions, m, i, id, false);
    RunInv(c, run, m);
    assert GateInv(c, run[m], i) && c.slice[i] in c.slice;
    forall p, k | WaitPath(c, p) && p[|p| - 1] == i && 0 <= k < |run| ensures NeverRuns(c, run[k], p[0]) {
      FailurePropagates(c, run, p, m, k);
    }
  }

  /** The service is not with the manager, and if the slice is through it was released as a failure. */
  predicate NeverRuns(c: Config, st: State, i: nat) {
    && i < |c.slice| == |st.procs| && !Dispatched(st.procs[i])
    && (st.returned ==> c.slice[i].key in st.gates && st.gates[c.slice[i].key] == Gate(true, false))
  }

  /** A service with a name that the manager has accepted: its gate is released only by its own hooks, and holds
      what the last of them to fire said, readiness a success, an exit its outcome. */
  lemma AcceptedGate(c: Config, run: seq<State>, actions: seq<Action>, n: nat, m: nat, i: nat, id: string)
    requires ValidConfig(c) && IsTrace(c, run, actions) && n < |actions| && actions[n] == Dispatch(i, id, true)
    requires n < m <= |actions| && i < |c.slice| && c.slice[i].key != ""
    ensures c.slice[i].key in run[m].gates
    ensures run[m].gates[c.slice[i].key].closed <==> exists k: nat, ok :: n < k < m && HookAt(actions, k, i, ok)
    ensures forall k: nat, ok :: n < k && LastHookAt(actions, k, m, i, ok) ==>
      run[m].gates[c.slice[i].key] == Gate(true, ok)
  {
    GateIsLastRelease(c, run, actions, m, i);
    forall k: nat, v | k < m
      ensures ReleaseAt(c, run, actions, k, i) == Some(v) <==> n < k && HookAt(actions, k, i, v)
    {
      ReleasesOfAccepted(c, run, actions, n, m, k, i, id);
    }
    if k: nat, ok :| n < k < m && HookAt(actions, k, i, ok) {
      var l, v := LastHook(actions, n, m, i, k, ok);
      assert LastRelease(c, run, actions, l, m, i, v);
    } else {
      assert NotReleased(c, run, actions, 0, m, i);
    }
    forall k: nat, ok | n < k && LastHookAt(actions, k, m, i, ok)
      ensures run[m].gates[c.slice[i].key] == Gate(true, ok)
    {
      assert LastRelease(c, run, actions, k, m, i, ok);
    }
  }

  /** Action `k` is a hook of service `i` saying `ok`. */
  predicate HookAt(actions: seq<Action>, k: nat, i: nat, ok: bool) {
    k < |actions| && (actions[k] == Exit(i, ok) || (ok && actions[k] == Ready(i)))
  }

  /** Of the first `m` actions it is the last such one. */
  ghost predicate LastHookAt(actions: seq<Action>, k: nat, m: nat, i: nat, ok: bool) {
    k < m && HookAt(actions, k, i, ok) && forall q: nat, v :: k < q < m ==> !HookAt(actions, q, i, v)
  }

  lemma {:induction false} LastHook(actions: seq<Action>, n: nat, m: nat, i: nat, k: nat, ok: bool)
    returns (l: nat, v: bool)
    requires n < k < m <= |actions| && HookAt(actions, k, i, ok)
    ensures n < l && LastHookAt(actions, l, m, i, v)
    decreases m - k
  {
    if q: nat, w :| k < q < m && HookAt(actions, q, i, w) {
      l, v := LastHook(actions, n, m, i, q, w);
    } else {
      l, v := k, ok;
    }
  }

  lemma ReleasesOfAccepted(c: Config, run: seq<State>, actions: seq<Action>, n: nat, m: nat, k: nat, i: nat, id: string)
    requires ValidConfig(c) && IsTrace(c, run, actions) && n < m <= |actions| && actions[n] == Dispatch(i, id, true)
    requires k < m && i < |c.slice|
    ensures forall v :: ReleaseAt(c, run, actions, k, i) == Some(v) <==> n < k && HookAt(actions, k, i, v)
  {
    TraceIsRun(c, run, actions);
    StateIsHistory(c, run, actions, m, i);
    StateIsHistory(c, run, actions, k, i);
    StateIsHistory(c, run, actions, n, i);
    RunInv(c, run, m);
    RunInv(c, run, k);
    RunInv(c, run, n);
    assert Answered(actions, m, i, id, true);
    assert TakenAt(c, run, actions, k) && TakenAt(c, run, actions, n);
    assert ProcInv(c, run[m], i) && ProcInv(c, run[k], i);
    if n < k { assert Answered(actions, k, i, id, true); }
    if k < m { assert Did(actions, m, actions[k]); }
  }
}
