/**
 What the dispatch loop and the clean-ups do to each other, in terms of what was done: runs with their actions
 recorded. The loop keeps to the cap, and a broadcast wakes it.
 */
module JobHistory {
  import opened Wrappers
  import opened JobQueue
  import opened JobManager
  import opened JobTheorems

  ghost predicate TakenAt(max: nat, run: seq<State>, actions: seq<Action>, n: nat)
    requires n < |actions| < |run|
  {
    Enabled(max, run[n], actions[n]) && run[n + 1] == Apply(max, run[n], actions[n])
  }

  /** A run and the actions that led from each of its states to the next. */
  ghost predicate IsTrace(max: nat, run: seq<State>, actions: seq<Action>) {
    && |run| == |actions| + 1 && run[0] == INIT
    && forall n :: 0 <= n < |actions| ==> TakenAt(max, run, actions, n)
  }

  lemma TraceIsRun(max: nat, run: seq<State>, actions: seq<Action>)
    requires IsTrace(max, run, actions)
    ensures IsRun(max, run)
  {
    forall n | 0 <= n < |run| - 1 ensures StepAt(max, run, n) { assert TakenAt(max, run, actions, n); }
  }

  // ---- A broadcast wakes the loop ------------------------------------------------------------

  predicate Waits(st: State) {
    st.loop == Full || st.loop == Sleeping
  }

  lemma WorkerMoves(max: nat, st: State, a: Action, j: Job)
    requires Inv(st) && Enabled(max, st, a) && j in st.workers && st.workers[j] == Waking
    ensures var t := Apply(max, st, a);
      j in t.workers && if a == Broadcast(j) then t.workers[j] == Gone && t.loop != Sleeping else t.workers[j] == Waking
  {
    match a
    case Leave => assert JobInv(st, st.queueLock.value.job); LeaveMoves(max, st, st.queueLock.value.job);
    case Receive => assert JobInv(st, st.offer.value);
    case Push(k) => PushKeepsLoop(max, st, k); PushKeepsWorkers(max, st, k);
    case Notify(k) => NotifyMoves(max, st, k);
    case Broadcast(k) =>
    case End(k) =>
    case Unlist(k) =>
    case Check =>
    case Sleep =>
    case LoopExit =>
    case Arrive(_) =>
    case LockTable(_) =>
    case Close =>
  }

  lemma PushKeepsWorkers(max: nat, st: State, j: Job)
    requires Enabled(max, st, Push(j))
    ensures Apply(max, st, Push(j)).workers == st.workers
  {
  }

  lemma {:induction false} GoneIsFinal(max: nat, run: seq<State>, m: nat, n: nat, j: Job)
    requires IsRun(max, run) && m <= n < |run| && j in run[m].workers && run[m].workers[j] == Gone
    ensures j in run[n].workers && run[n].workers[j] == Gone
    decreases n
  {
    if m < n {
      GoneIsFinal(max, run, m, n - 1, j);
      RunInv(max, run, n - 1);
      var a := RunStep(max, run, n - 1);
      GoneStays(max, run[n - 1], a, j);
    }
  }

  lemma GoneStays(max: nat, st: State, a: Action, j: Job)
    requires Inv(st) && Enabled(max, st, a) && j in st.workers && st.workers[j] == Gone
    ensures var t := Apply(max, st, a); j in t.workers && t.workers[j] == Gone
  {
    match a
    case Leave => assert JobInv(st, st.queueLock.value.job); LeaveMoves(max, st, st.queueLock.value.job);
    case Receive => assert JobInv(st, st.offer.value);
    case Push(k) => PushKeepsWorkers(max, st, k);
    case Notify(k) => NotifyMoves(max, st, k);
    case Broadcast(k) =>
    case End(k) =>
    case Unlist(k) =>
    case Check =>
    case Sleep =>
    case LoopExit =>
    case Arrive(_) =>
    case LockTable(_) =>
    case Close =>
  }

  /** When a worker that was about to broadcast is through, the loop has been awake in between. */
  lemma {:induction false} BroadcastWakes(max: nat, run: seq<State>, m: nat, n: nat, j: Job) returns (k: nat)
    requires IsRun(max, run) && m < n < |run|
    requires j in run[m].workers && run[m].workers[j] == Waking
    requires j in run[n].workers && run[n].workers[j] == Gone
    ensures m < k <= n && run[k].loop != Sleeping && j in run[k].workers && run[k].workers[j] == Gone
    decreases n - m
  {
    RunInv(max, run, m);
    var a := RunStep(max, run, m);
    WorkerMoves(max, run[m], a, j);
    if a == Broadcast(j) {
      k := m + 1;
    } else {
      k := BroadcastWakes(max, run, m + 1, n, j);
    }
  }

  /** A clean-up that has taken its job out of the table and will still broadcast. */
  ghost predicate WillBroadcast(st: State, j: Job) {
    j in st.workers && (st.workers[j] == Unlisted || st.workers[j] == Notifying || st.workers[j] == Waking)
  }

  ghost predicate SomeWillBroadcast(st: State) {
    exists j :: WillBroadcast(st, j)
  }

  /** Between its test of the table, which it has not repeated since, and going to sleep, the loop missed the
      broadcast that was step `k`. */
  ghost predicate MissedAt(run: seq<State>, actions: seq<Action>, k: nat, n: nat) {
    && k < n < |run| && k < |actions| && actions[k].Broadcast? && run[k].loop == Full
    && forall q :: k < q <= n ==> Waits(run[q])
  }

  ghost predicate Missed(run: seq<State>, actions: seq<Action>, n: nat) {
    exists k: nat :: MissedAt(run, actions, k, n)
  }

  /** What the loop waits for, unless it has missed it. */
  ghost predicate Reason(max: nat, st: State) {
    |st.jobs| >= max || SomeWillBroadcast(st)
  }

  /** A step other than a broadcast leaves a waiting loop its reason, or gives it one. */
  lemma ReasonStays(max: nat, st: State, a: Action)
    requires Enabled(max, st, a) && !a.Broadcast? && Waits(Apply(max, st, a))
    requires ChannelInv(st) && (a == Leave ==> JobInv(st, st.queueLock.value.job))
    requires Waits(st) ==> Reason(max, st)
    ensures Reason(max, Apply(max, st, a))
  {
    match a
    case Unlist(j) => UnlistIsReason(max, st, j);
    case Leave => LeaveKeepsReason(max, st);
    case Notify(j) => NotifyIsReason(max, st, j);
    case Push(j) => PushKeepsReason(max, st, j);
    case LockTable(j) => LockTableKeepsReason(max, st, j);
    case End(j) => EndKeepsReason(max, st, j);
    case Check => CheckKeepsReason(max, st);
    case Sleep => OthersKeepReason(max, st, a);
    case Receive => OthersKeepReason(max, st, a);
    case LoopExit => OthersKeepReason(max, st, a);
    case Arrive(_) => OthersKeepReason(max, st, a);
    case Close => OthersKeepReason(max, st, a);
  }

  lemma UnlistIsReason(max: nat, st: State, j: Job)
    requires Enabled(max, st, Unlist(j))
    ensures Reason(max, Apply(max, st, Unlist(j)))
  {
    assert WillBroadcast(Apply(max, st, Unlist(j)), j);
  }

  lemma NotifyIsReason(max: nat, st: State, j: Job)
    requires Enabled(max, st, Notify(j)) && ChannelInv(st)
    ensures Reason(max, Apply(max, st, Notify(j)))
  {
    NotifyMoves(max, st, j);
    assert WillBroadcast(Apply(max, st, Notify(j)), j);
  }

  lemma PushKeepsReason(max: nat, st: State, j: Job)
    requires Enabled(max, st, Push(j)) && (Waits(st) ==> Reason(max, st)) && Waits(Apply(max, st, Push(j)))
    ensures Reason(max, Apply(max, st, Push(j)))
  {
    PushKeepsLoop(max, st, j);
    PushKeepsWorkers(max, st, j);
    PushKeepsJobs(max, st, j);
    SameWorkers(st, Apply(max, st, Push(j)));
  }

  lemma LockTableKeepsReason(max: nat, st: State, j: Job)
    requires Enabled(max, st, LockTable(j)) && (Waits(st) ==> Reason(max, st)) && Waits(Apply(max, st, LockTable(j)))
    ensures Reason(max, Apply(max, st, LockTable(j)))
  {
    var t := Apply(max, st, LockTable(j));
    assert t.workers == st.workers && t.loop == st.loop;
    SameWorkers(st, t);
    if j.id !in st.jobs { assert t.jobs.Keys == st.jobs.Keys + {j.id}; }
  }

  lemma EndKeepsReason(max: nat, st: State, j: Job)
    requires Enabled(max, st, End(j)) && (Waits(st) ==> Reason(max, st)) && Waits(Apply(max, st, End(j)))
    ensures Reason(max, Apply(max, st, End(j)))
  {
    OthersWillBroadcast(st, Apply(max, st, End(j)), j);
  }

  lemma CheckKeepsReason(max: nat, st: State)
    requires Enabled(max, st, Check) && Waits(Apply(max, st, Check))
    ensures Reason(max, Apply(max, st, Check))
  {
  }

  lemma OthersKeepReason(max: nat, st: State, a: Action)
    requires Enabled(max, st, a) && (Waits(st) ==> Reason(max, st)) && Waits(Apply(max, st, a))
    requires a.Sleep? || a.Receive? || a.LoopExit? || a.Arrive? || a.Close?
    ensures Reason(max, Apply(max, st, a))
  {
    var t := Apply(max, st, a);
    match a
    case Sleep => SameWorkers(st, t);
    case Arrive(_) => SameWorkers(st, t);
    case Close => SameWorkers(st, t);
    case Receive =>
    case LoopExit =>
  }

  lemma SameWorkers(st: State, t: State)
    requires t.workers == st.workers
    ensures SomeWillBroadcast(st) <==> SomeWillBroadcast(t)
  {
    if j :| WillBroadcast(st, j) { assert WillBroadcast(t, j); }
    if j :| WillBroadcast(t, j) { assert WillBroadcast(st, j); }
  }

  lemma OthersWillBroadcast(st: State, t: State, j: Job)
    requires j in st.workers && st.workers[j] == Running && t.workers == st.workers[j := Ended]
    ensures SomeWillBroadcast(st) ==> SomeWillBroadcast(t)
  {
    if k :| WillBroadcast(st, k) { assert WillBroadcast(t, k); }
  }

  lemma PushKeepsJobs(max: nat, st: State, j: Job)
    requires Enabled(max, st, Push(j))
    ensures Apply(max, st, Push(j)).jobs == st.jobs
  {
  }

  lemma LeaveKeepsReason(max: nat, st: State)
    requires Enabled(max, st, Leave) && JobInv(st, st.queueLock.value.job)
    requires (Waits(st) ==> Reason(max, st)) && Waits(Apply(max, st, Leave))
    ensures Reason(max, Apply(max, st, Leave))
  {
    var t, j := Apply(max, st, Leave), st.queueLock.value.job;
    LeaveMoves(max, st, j);
    if st.queueLock.value.ByCaller? { SameWorkers(st, t); } else { assert WillBroadcast(t, j); }
  }

  lemma MissedStays(run: seq<State>, actions: seq<Action>, n: nat)
    requires Missed(run, actions, n) && n + 1 < |run| && Waits(run[n + 1])
    ensures Missed(run, actions, n + 1)
  {
    var k: nat :| MissedAt(run, actions, k, n);
    assert MissedAt(run, actions, k, n + 1);
  }

  /** Whenever the loop waits, the table is at its cap, or a clean-up is still going to wake it, or it has missed
      a broadcast between its test and its sleep. */
  lemma {:induction false} WaitsForAReason(max: nat, run: seq<State>, actions: seq<Action>, n: nat)
    requires IsTrace(max, run, actions) && n < |run| && Waits(run[n])
    ensures Reason(max, run[n]) || Missed(run, actions, n)
  {
    if n > 0 {
      TraceIsRun(max, run, actions);
      RunInv(max, run, n - 1);
      assert TakenAt(max, run, actions, n - 1);
      if actions[n - 1] == Leave { assert JobInv(run[n - 1], run[n - 1].queueLock.value.job); }
      if Waits(run[n - 1]) {
        WaitsForAReason(max, run, actions, n - 1);
        if Missed(run, actions, n - 1) {
          MissedStays(run, actions, n - 1);
        } else if actions[n - 1].Broadcast? {
          assert MissedAt(run, actions, n - 1, n);
        } else {
          ReasonStays(max, run[n - 1], actions[n - 1]);
        }
      } else {
        ReasonStays(max, run[n - 1], actions[n - 1]);
      }
    }
  }

  // ---- The loop keeps to the cap -------------------------------------------------------------

  /** The loop tested the table at step `k` and found it below the cap, and has received nothing since. */
  ghost predicate TestedAt(max: nat, run: seq<State>, actions: seq<Action>, k: nat, n: nat) {
    && k < n < |run| && k < |actions| && actions[k] == Check && |run[k].jobs| < max
    && forall q :: k < q < n && q < |actions| ==> actions[q] != Receive && actions[q] != Check
  }

  /** A loop that receives has found the table below the cap since it last received. */
  lemma {:induction false} ReceivesBelowCap(max: nat, run: seq<State>, actions: seq<Action>, n: nat) returns (k: nat)
    requires IsTrace(max, run, actions) && n < |run| && run[n].loop == Receiving
    ensures TestedAt(max, run, actions, k, n)
    decreases n
  {
    assert n > 0;
    assert TakenAt(max, run, actions, n - 1);
    if actions[n - 1] == Check {
      k := n - 1;
    } else {
      StepToReceiving(max, run[n - 1], actions[n - 1]);
      k := ReceivesBelowCap(max, run, actions, n - 1);
    }
  }

  lemma StepToReceiving(max: nat, st: State, a: Action)
    requires Enabled(max, st, a) && a != Check && Apply(max, st, a).loop == Receiving
    ensures st.loop == Receiving && a != Receive
  {
    match a
    case Push(j) => PushKeepsLoop(max, st, j);
    case Notify(j) => NotifyKeepsLoop(max, st, j);
    case Sleep =>
    case Receive =>
    case _ => OthersKeepLoop(max, st, a);
  }
}
