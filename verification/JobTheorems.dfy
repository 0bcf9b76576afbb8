/**
 What every interleaving of callers, the dispatch loop, finishing jobs and a close guarantees.
 */
module JobTheorems {
  import opened Wrappers
  import opened JobQueue
  import opened JobManager

  lemma InitKeeps()
    ensures Inv(INIT)
  {
  }

  lemma StepKeeps(max: nat, st: State, a: Action)
    requires Inv(st) && Enabled(max, st, a)
    ensures Inv(Apply(max, st, a))
  {
    match a
    case Arrive(j) => ArriveKeeps(max, st, j);
    case LockTable(j) => LockTableKeeps(max, st, j);
    case Push(j) => PushKeeps(max, st, j);
    case Leave => LeaveKeeps(max, st);
    case Check => CheckKeeps(max, st);
    case Sleep => SleepKeeps(max, st);
    case Receive => ReceiveKeeps(max, st);
    case LoopExit => LoopExitKeeps(max, st);
    case End(j) => EndKeeps(max, st, j);
    case Unlist(j) => UnlistKeeps(max, st, j);
    case Notify(j) => NotifyKeeps(max, st, j);
    case Broadcast(j) => BroadcastKeeps(max, st, j);
    case Close => CloseKeeps(max, st);
  }

  lemma RunStep(max: nat, run: seq<State>, n: nat) returns (a: Action)
    requires IsRun(max, run) && n + 1 < |run|
    ensures Enabled(max, run[n], a) && run[n + 1] == Apply(max, run[n], a)
  {
    assert StepAt(max, run, n);
    a :| Enabled(max, run[n], a) && run[n + 1] == Apply(max, run[n], a);
  }

  lemma {:induction false} RunInv(max: nat, run: seq<State>, n: nat)
    requires IsRun(max, run) && n < |run|
    ensures Inv(run[n])
  {
    if n == 0 {
      InitKeeps();
    } else {
      RunInv(max, run, n - 1);
      var a := RunStep(max, run, n - 1);
      StepKeeps(max, run[n - 1], a);
    }
  }

  // ---- Queues are served one job at a time, in order -----------------------------------------

  /** A named queue never has two jobs between dispatch and the end of their clean-up. */
  lemma OneInFlightPerQueue(max: nat, run: seq<State>, n: nat, j: Job, k: Job)
    requires IsRun(max, run) && n < |run|
    requires InFlight(run[n], j) && InFlight(run[n], k) && j.queue == k.queue != ""
    ensures j == k
  {
    RunInv(max, run, n);
    assert JobInv(run[n], j) && JobInv(run[n], k);
  }

  predicate IsPrefix(p: seq<Job>, s: seq<Job>) {
    |p| <= |s| && p == s[..|p|]
  }

  /** The jobs of a named queue are dispatched in the order they were accepted, each at most once; and all
      but the jobs still waiting in the queue have been. */
  lemma DispatchInPushOrder(max: nat, run: seq<State>, n: nat, name: string)
    requires IsRun(max, run) && n < |run|
    ensures Distinct(Get(run[n].dispatched, name)) && Distinct(Get(run[n].accepted, name))
    ensures name != "" ==> IsPrefix(Get(run[n].dispatched, name), Get(run[n].accepted, name))
    ensures name != "" ==> |Get(run[n].accepted, name)| <= |Get(run[n].dispatched, name)| + |Get(run[n].queues, name)|
  {
    RunInv(max, run, n);
    assert HistoryInv(run[n], name);
  }

  /** The front a notification removes is the job that has just finished, and it finds its queue. */
  lemma NotifyRemovesTheFinished(max: nat, run: seq<State>, n: nat, j: Job)
    requires IsRun(max, run) && n < |run| && Enabled(max, run[n], Notify(j)) && !run[n].closed
    ensures j.queue != "" <==> j.queue in run[n].queues
    ensures j.queue != "" ==> run[n].queues[j.queue] != [] && run[n].queues[j.queue][0] == j
  {
    RunInv(max, run, n);
    NotifyPops(max, run[n], j);
    assert FrontInv(run[n], j.queue);
  }

  /** The table lists exactly the jobs that were put in and not yet cleaned up, each under its own id. */
  lemma TableIsExact(max: nat, run: seq<State>, n: nat)
    requires IsRun(max, run) && n < |run|
    ensures forall j :: HasEntry(run[n], j) <==> j.id in run[n].jobs && run[n].jobs[j.id] == j
    ensures forall j :: Admitted(run[n], j) && !CleanedUp(run[n], j) ==> j.id in run[n].jobs && run[n].jobs[j.id] == j
  {
    RunInv(max, run, n);
    forall j ensures HasEntry(run[n], j) <==> j.id in run[n].jobs && run[n].jobs[j.id] == j {
      assert JobInv(run[n], j) && EntryInv(run[n], j.id);
    }
  }

  /** Nobody sends on a closed channel, and nobody sends without holding the queue lock. */
  lemma NoSendOnClosed(max: nat, run: seq<State>, n: nat)
    requires IsRun(max, run) && n < |run| && run[n].offer.Some?
    ensures !run[n].closed && run[n].loop != Exited && run[n].queueLock.Some?
  {
    RunInv(max, run, n);
  }

  // ---- When the manager is stuck -------------------------------------------------------------

  /** The steps the manager takes by itself; calls, jobs ending and closing come from outside. */
  predicate Internal(a: Action) {
    !a.Arrive? && !a.End? && !a.Close?
  }

  ghost predicate Quiet(max: nat, st: State) {
    forall a :: Internal(a) ==> !Enabled(max, st, a)
  }

  /** Somebody is inside the manager: a call has not returned or a finished job is not cleaned up. */
  ghost predicate Pending(st: State) {
    || (exists j :: j in st.callers && !st.callers[j].Returned?)
    || (exists j :: j in st.workers && st.workers[j] != Running && st.workers[j] != Gone)
    || st.offer.Some?
  }

  /** A job is offered to a loop that sleeps, and nobody is past the queue lock to wake it. */
  ghost predicate Wedged(st: State) {
    st.offer.Some? && st.loop == Sleeping && forall j :: j in st.workers ==> st.workers[j] != Waking
  }

  /** Nobody waits for the table lock, or it is held. */
  ghost predicate TableLockWaits(st: State) {
    || st.tableLock.Some?
    || ((forall j :: j in st.callers ==> st.callers[j] != Arrived)
        && (forall j :: j in st.workers ==> st.workers[j] != Ended))
  }

  /** With somebody inside, the manager stands still exactly if a job is offered to a sleeping loop with
      nobody left to wake it, and everybody else waits for a lock that is held. */
  lemma StuckIff(max: nat, run: seq<State>, n: nat)
    requires IsRun(max, run) && n < |run|
    ensures Pending(run[n]) && Quiet(max, run[n]) <==> Wedged(run[n]) && TableLockWaits(run[n])
  {
    RunInv(max, run, n);
    var st := run[n];
    if Quiet(max, st) && Pending(st) { QuietIsWedged(max, st); }
    if Wedged(st) && TableLockWaits(st) { WedgedIsQuiet(max, st); }
  }

  lemma QuietIsWedged(max: nat, st: State)
    requires Inv(st) && Quiet(max, st) && Pending(st)
    ensures Wedged(st) && TableLockWaits(st)
  {
    LoopAtRest(max, st);
    if st.offer == None { UnofferedMoves(max, st); }
    forall j | j in st.workers ensures st.workers[j] != Waking {
      assert Internal(Broadcast(j)) && !Enabled(max, st, Broadcast(j));
    }
    if st.tableLock == None {
      forall j | j in st.callers ensures st.callers[j] != Arrived {
        assert Internal(LockTable(j)) && !Enabled(max, st, LockTable(j));
      }
      forall j | j in st.workers ensures st.workers[j] != Ended {
        assert Internal(Unlist(j)) && !Enabled(max, st, Unlist(j));
      }
    }
  }

  lemma LoopAtRest(max: nat, st: State)
    requires Inv(st) && Quiet(max, st)
    ensures st.loop == Sleeping || (st.offer == None && (st.loop == Receiving || st.loop == Exited))
  {
    assert Internal(Check) && Internal(Sleep) && Internal(Receive);
    assert !Enabled(max, st, Check) && !Enabled(max, st, Sleep) && !Enabled(max, st, Receive);
  }

  /** Unless a job is offered, whoever is inside can go on. */
  lemma UnofferedMoves(max: nat, st: State)
    requires Inv(st) && Pending(st) && st.offer == None
    ensures !Quiet(max, st)
  {
    if st.queueLock.Some? {
      assert Internal(Leave) && Enabled(max, st, Leave);
    } else if st.tableLock.Some? {
      var k := st.tableLock.value;
      assert JobInv(st, k);
      assert Internal(Push(k)) && Enabled(max, st, Push(k));
    } else if j :| j in st.callers && !st.callers[j].Returned? {
      assert JobInv(st, j);
      assert Internal(LockTable(j)) && Enabled(max, st, LockTable(j));
    } else {
      var j :| j in st.workers && st.workers[j] != Running && st.workers[j] != Gone;
      WorkerMoves(max, st, j);
    }
  }

  lemma WorkerMoves(max: nat, st: State, j: Job)
    requires Inv(st) && st.tableLock == None && st.queueLock == None
    requires j in st.workers && st.workers[j] != Running && st.workers[j] != Gone
    ensures !Quiet(max, st)
  {
    assert JobInv(st, j) && FrontInv(st, j.queue);
    assert Internal(Unlist(j)) && Internal(Notify(j)) && Internal(Broadcast(j));
    assert Enabled(max, st, Unlist(j)) || Enabled(max, st, Notify(j)) || Enabled(max, st, Broadcast(j));
  }

  lemma WedgedIsQuiet(max: nat, st: State)
    requires Inv(st) && Wedged(st) && TableLockWaits(st)
    ensures Pending(st) && Quiet(max, st)
  {
    forall a | Internal(a) ensures !Enabled(max, st, a) {
      if a.LockTable? || a.Unlist? { assert TableLockWaits(st); }
    }
  }

  /** Once the offer meets a sleeping loop with nobody to wake it, nothing that happens outside helps: the
      loop sleeps on, and no job is dispatched any more. */
  lemma {:induction false} WedgedForever(max: nat, run: seq<State>, n: nat, m: nat)
    requires IsRun(max, run) && n <= m < |run| && Wedged(run[n])
    ensures Wedged(run[m]) && run[m].offer == run[n].offer && run[m].dispatched == run[n].dispatched
    decreases m
  {
    if n < m {
      WedgedForever(max, run, n, m - 1);
      RunInv(max, run, m - 1);
      var a := RunStep(max, run, m - 1);
      WedgedStays(max, run[m - 1], a);
    }
  }

  lemma WedgedStays(max: nat, st: State, a: Action)
    requires Inv(st) && Wedged(st) && Enabled(max, st, a)
    ensures var t := Apply(max, st, a); Wedged(t) && t.offer == st.offer && t.dispatched == st.dispatched
  {
  }

  /** The table has been below the cap all along. */
  ghost predicate BelowCap(max: nat, run: seq<State>, n: nat) {
    forall m :: 0 <= m <= n && m < |run| ==> |run[m].jobs| < max
  }

  lemma {:induction false} LoopKeepsAwake(max: nat, run: seq<State>, n: nat)
    requires IsRun(max, run) && n < |run| && BelowCap(max, run, n)
    ensures run[n].loop != Full && run[n].loop != Sleeping
  {
    if n > 0 {
      LoopKeepsAwake(max, run, n - 1);
      var a := RunStep(max, run, n - 1);
      assert |run[n - 1].jobs| < max;
      StepKeepsAwake(max, run[n - 1], a);
    }
  }

  lemma StepKeepsAwake(max: nat, st: State, a: Action)
    requires st.loop != Full && st.loop != Sleeping && |st.jobs| < max && Enabled(max, st, a)
    ensures var loop := Apply(max, st, a).loop; loop != Full && loop != Sleeping
  {
    match a
    case Push(j) => PushKeepsLoop(max, st, j);
    case Notify(j) => NotifyKeepsLoop(max, st, j);
    case Check =>
    case Sleep =>
    case _ => OthersKeepLoop(max, st, a);
  }

  lemma OthersKeepLoop(max: nat, st: State, a: Action)
    requires Enabled(max, st, a) && !a.Push? && !a.Notify? && !a.Check? && !a.Sleep?
    ensures var loop := Apply(max, st, a).loop; loop == st.loop || loop == Checking || loop == Exited
  {
    match a
    case Arrive(_) =>
    case LockTable(_) =>
    case Leave =>
    case Receive =>
    case LoopExit =>
    case End(_) =>
    case Unlist(_) =>
    case Broadcast(_) =>
    case Close =>
  }

  lemma PushKeepsLoop(max: nat, st: State, j: Job)
    requires Enabled(max, st, Push(j))
    ensures Apply(max, st, Push(j)).loop == st.loop
  {
  }

  lemma NotifyKeepsLoop(max: nat, st: State, j: Job)
    requires Enabled(max, st, Notify(j))
    ensures Apply(max, st, Notify(j)).loop == st.loop
  {
  }

  /** While the table has never reached the cap, somebody inside the manager means that a step can be taken. */
  lemma NeverStuckBelowCap(max: nat, run: seq<State>, n: nat)
    requires IsRun(max, run) && n < |run| && BelowCap(max, run, n) && Pending(run[n])
    ensures !Quiet(max, run[n])
  {
    LoopKeepsAwake(max, run, n);
    StuckIff(max, run, n);
  }

  /** When the manager has come to rest, then unless a job is offered to the sleeping loop, every call has
      returned, every finished job is gone, and the front of every queue is running, if it was not closed. */
  lemma AtRestEverythingRuns(max: nat, run: seq<State>, n: nat)
    requires IsRun(max, run) && n < |run| && Quiet(max, run[n]) && !Wedged(run[n])
    ensures forall j :: j in run[n].callers ==> run[n].callers[j].Returned?
    ensures forall j :: j in run[n].workers ==> run[n].workers[j] == Running || run[n].workers[j] == Gone
    ensures !run[n].closed ==> forall q :: q in run[n].queues ==>
      run[n].queues[q] != [] && run[n].queues[q][0] in run[n].workers && run[n].workers[run[n].queues[q][0]] == Running
  {
    StuckIff(max, run, n);
    RunInv(max, run, n);
    forall q | q in run[n].queues && !run[n].closed
      ensures run[n].queues[q] != [] && run[n].queues[q][0] in run[n].workers
      ensures run[n].workers[run[n].queues[q][0]] == Running
    {
      assert FrontInv(run[n], q);
    }
  }

  // ---- The manager comes to rest -------------------------------------------------------------

  function CallerWork(p: Caller): nat {
    match p
    case Arrived => 6
    case Listed => 5
    case Pushing => 1
    case Returned(_) => 0
  }

  function WorkerWork(p: Worker): nat {
    match p
    case Running => 0
    case Ended => 9
    case Unlisted => 8
    case Notifying => 4
    case Waking => 3
    case Gone => 0
  }

  ghost function Sum(keys: set<Job>, work: Job -> nat): nat {
    if keys == {} then 0 else var j :| j in keys; work(j) + Sum(keys - {j}, work)
  }

  lemma {:induction false} SumSplit(keys: set<Job>, work: Job -> nat, j: Job)
    requires j in keys
    ensures Sum(keys, work) == work(j) + Sum(keys - {j}, work)
    decreases |keys|
  {
    var k :| k in keys && Sum(keys, work) == work(k) + Sum(keys - {k}, work);
    if k != j {
      SumSplit(keys - {k}, work, j);
      SumSplit(keys - {j}, work, k);
      assert keys - {k} - {j} == keys - {j} - {k};
    }
  }

  lemma {:induction false} SumAgrees(keys: set<Job>, f: Job -> nat, g: Job -> nat)
    requires forall j :: j in keys ==> f(j) == g(j)
    ensures Sum(keys, f) == Sum(keys, g)
    decreases |keys|
  {
    if keys != {} {
      var j :| j in keys;
      SumSplit(keys, f, j);
      SumSplit(keys, g, j);
      SumAgrees(keys - {j}, f, g);
    }
  }

  ghost function CallersWork(m: map<Job, Caller>): nat {
    Sum(m.Keys, j => if j in m then CallerWork(m[j]) else 0)
  }

  ghost function WorkersWork(m: map<Job, Worker>): nat {
    Sum(m.Keys, j => if j in m then WorkerWork(m[j]) else 0)
  }

  lemma CallersUpdate(m: map<Job, Caller>, j: Job, p: Caller)
    requires j in m
    ensures CallersWork(m[j := p]) == CallersWork(m) - CallerWork(m[j]) + CallerWork(p)
  {
    var f := (k: Job) => if k in m then CallerWork(m[k]) else 0;
    var t := m[j := p];
    var g := (k: Job) => if k in t then CallerWork(t[k]) else 0;
    SumSplit(m.Keys, f, j);
    SumSplit(t.Keys, g, j);
    assert t.Keys - {j} == m.Keys - {j};
    SumAgrees(m.Keys - {j}, f, g);
  }

  /** A worker that appears has no work yet. */
  lemma WorkersUpdate(m: map<Job, Worker>, j: Job, p: Worker)
    ensures WorkersWork(m[j := p]) == WorkersWork(m) - (if j in m then WorkerWork(m[j]) else 0) + WorkerWork(p)
  {
    var f := (k: Job) => if k in m then WorkerWork(m[k]) else 0;
    var t := m[j := p];
    var g := (k: Job) => if k in t then WorkerWork(t[k]) else 0;
    if j in m { SumSplit(m.Keys, f, j); }
    SumSplit(t.Keys, g, j);
    assert t.Keys - {j} == m.Keys - {j};
    if j !in m { assert m.Keys - {j} == m.Keys; }
    SumAgrees(m.Keys - {j}, f, g);
  }

  /** A bound on the steps the manager can still take without an event from outside. */
  ghost function Work(st: State): nat {
    CallersWork(st.callers) + WorkersWork(st.workers)
    + (if st.offer.Some? then 3 else 0)
    + (match st.loop case Checking => 2 case Full => 1 case Receiving => 1 case Sleeping => 0 case Exited => 0)
  }

  /** Every step the manager takes by itself uses up work, so between two events from outside it comes to rest. */
  lemma InternalStepsUseWork(max: nat, run: seq<State>, n: nat, a: Action)
    requires IsRun(max, run) && n < |run| && Internal(a) && Enabled(max, run[n], a)
    ensures Work(Apply(max, run[n], a)) < Work(run[n])
  {
    RunInv(max, run, n);
    StepUsesWork(max, run[n], a);
  }

  lemma StepUsesWork(max: nat, st: State, a: Action)
    requires Inv(st) && Internal(a) && Enabled(max, st, a)
    ensures Work(Apply(max, st, a)) < Work(st)
  {
    match a
    case LockTable(j) => LockTableUsesWork(max, st, j);
    case Push(j) => PushUsesWork(max, st, j);
    case Leave => LeaveUsesWork(max, st);
    case Receive => ReceiveUsesWork(max, st);
    case Unlist(j) => UnlistUsesWork(max, st, j);
    case Notify(j) => NotifyUsesWork(max, st, j);
    case Broadcast(j) => WorkersUpdate(st.workers, j, Gone);
    case _ =>
  }

  lemma LockTableUsesWork(max: nat, st: State, j: Job)
    requires Enabled(max, st, LockTable(j))
    ensures Work(Apply(max, st, LockTable(j))) < Work(st)
  {
    if j.id in st.jobs {
      CallersUpdate(st.callers, j, Returned(Duplicate));
    } else {
      CallersUpdate(st.callers, j, Listed);
    }
  }

  lemma PushUsesWork(max: nat, st: State, j: Job)
    requires Enabled(max, st, Push(j)) && ChannelInv(st)
    ensures Work(Apply(max, st, Push(j))) < Work(st)
  {
    CallersUpdate(st.callers, j, Apply(max, st, Push(j)).callers[j]);
  }

  lemma LeaveMoves(max: nat, st: State, j: Job)
    requires Enabled(max, st, Leave) && JobInv(st, j) && st.queueLock.value.job == j
    ensures var t, caller := Apply(max, st, Leave), st.queueLock.value.ByCaller?;
      && t.offer == st.offer && t.loop == st.loop
      && (caller ==> j in st.callers && st.callers[j] == Pushing)
      && (!caller ==> j in st.workers && st.workers[j] == Notifying)
      && t.callers == (if caller then st.callers[j := Returned(Accepted)] else st.callers)
      && t.workers == (if caller then st.workers else st.workers[j := Waking])
  {
  }

  lemma LeaveUsesWork(max: nat, st: State)
    requires Inv(st) && Enabled(max, st, Leave)
    ensures Work(Apply(max, st, Leave)) < Work(st)
  {
    var j := st.queueLock.value.job;
    assert JobInv(st, j);
    LeaveMoves(max, st, j);
    if st.queueLock.value.ByCaller? {
      CallersUpdate(st.callers, j, Returned(Accepted));
    } else {
      WorkersUpdate(st.workers, j, Waking);
    }
  }

  lemma ReceiveUsesWork(max: nat, st: State)
    requires Inv(st) && Enabled(max, st, Receive)
    ensures Work(Apply(max, st, Receive)) < Work(st)
  {
    assert JobInv(st, st.offer.value);
    WorkersUpdate(st.workers, st.offer.value, Running);
  }

  lemma UnlistUsesWork(max: nat, st: State, j: Job)
    requires Enabled(max, st, Unlist(j))
    ensures Work(Apply(max, st, Unlist(j))) < Work(st)
  {
    WorkersUpdate(st.workers, j, Unlisted);
  }

  lemma NotifyMoves(max: nat, st: State, j: Job)
    requires Enabled(max, st, Notify(j)) && ChannelInv(st)
    ensures var t, next := Apply(max, st, Notify(j)), if st.closed then None else NextOut(st.queues, j.queue);
      && t.callers == st.callers && t.loop == st.loop && st.offer == None && t.offer == next
      && t.workers == st.workers[j := if next.Some? then Notifying else Waking]
  {
    if !st.closed && j.queue in st.queues { PopMoves(st, j); }
  }

  lemma PopMoves(st: State, j: Job)
    requires j.queue in st.queues && st.queues[j.queue] != [] && st.offer == None
    ensures var t, next := PopFront(st, j), NextOut(st.queues, j.queue);
      && t.callers == st.callers && t.loop == st.loop && t.offer == next
      && t.workers == st.workers[j := if next.Some? then Notifying else Waking]
  {
  }

  lemma NotifyUsesWork(max: nat, st: State, j: Job)
    requires Enabled(max, st, Notify(j)) && ChannelInv(st)
    ensures Work(Apply(max, st, Notify(j))) < Work(st)
  {
    var t := Apply(max, st, Notify(j));
    var next := if st.closed then None else NextOut(st.queues, j.queue);
    NotifyMoves(max, st, j);
    WorkersUpdate(st.workers, j, if next.Some? then Notifying else Waking);
  }

  // ---- It does get stuck ---------------------------------------------------------------------

  lemma Extend(max: nat, run: seq<State>, a: Action) returns (longer: seq<State>)
    requires IsRun(max, run) && Enabled(max, run[|run| - 1], a)
    ensures IsRun(max, longer) && longer[|longer| - 1] == Apply(max, run[|run| - 1], a)
  {
    longer := run + [Apply(max, run[|run| - 1], a)];
    forall n | 0 <= n < |longer| - 1 ensures StepAt(max, longer, n) {
      if n < |run| - 1 {
        assert StepAt(max, run, n);
        var b :| Enabled(max, run[n], b) && run[n + 1] == Apply(max, run[n], b);
        assert Enabled(max, longer[n], b) && longer[n + 1] == Apply(max, longer[n], b);
      } else {
        assert Enabled(max, longer[n], a) && longer[n + 1] == Apply(max, longer[n], a);
      }
    }
  }

  /** One job runs, and the loop is about to test the table. */
  ghost predicate Alone(st: State, a: Job) {
    && st.jobs == map[a.id := a] && st.queues == (if a.queue == "" then map[] else map[a.queue := [a]])
    && !st.closed && st.tableLock == None && st.queueLock == None && st.offer == None
    && st.loop == Checking && st.callers == map[a := Returned(Accepted)] && st.workers == map[a := Running]
  }

  lemma FirstPushed(a: Job)
    ensures Pushed(map[], a) == if a.queue == "" then map[] else map[a.queue := [a]]
  {
    assert [] + [a] == [a];
  }

  lemma OneJobRuns(max: nat, a: Job) returns (run: seq<State>)
    requires max > 0
    ensures IsRun(max, run) && Alone(run[|run| - 1], a)
  {
    run := [INIT];
    run := Extend(max, run, Check);
    run := Extend(max, run, Arrive(a));
    run := Extend(max, run, LockTable(a));
    run := Extend(max, run, Push(a));
    FirstPushed(a);
    assert run[|run| - 1].queues == Pushed(map[], a) && run[|run| - 1].callers[a] == Pushing;
    run := Extend(max, run, Receive);
    run := Extend(max, run, Leave);
  }

  /** With room for one job: `a` runs, and a caller of `b` holds the table lock while it waits for the loop,
      which found the table full; when `a` ends, its clean-up waits for the table lock. */
  lemma CapWedges() returns (run: seq<State>)
    ensures IsRun(1, run) && Wedged(run[|run| - 1]) && Quiet(1, run[|run| - 1])
    ensures |run[|run| - 1].jobs| > 1
  {
    var a, b := Job(0, "a", ""), Job(1, "b", "");
    run := SecondOffered(a, b);
    run := Extend(1, run, Check);
    run := Extend(1, run, Sleep);
    run := Extend(1, run, End(a));
    StuckIff(1, run, |run| - 1);
  }

  /** `a` runs, and the caller of `b` holds both locks and waits for the loop. */
  ghost predicate Offered(st: State, a: Job, b: Job) {
    && |st.jobs| == 2 && !st.closed && st.tableLock == Some(b) && st.queueLock == Some(ByCaller(b))
    && st.offer == Some(b) && st.loop == Checking && st.workers == map[a := Running]
  }

  lemma SecondOffered(a: Job, b: Job) returns (run: seq<State>)
    requires a.queue == b.queue == "" && a.id != b.id
    ensures IsRun(1, run) && Offered(run[|run| - 1], a, b)
  {
    run := OneJobRuns(1, a);
    run := Extend(1, run, Arrive(b));
    run := Extend(1, run, LockTable(b));
    assert run[|run| - 1].jobs == map[a.id := a, b.id := b];
    run := Extend(1, run, Push(b));
  }

  /** With room for two: `a` runs and `b` waits behind it in their queue, so the loop sleeps. When `a` has
      ended and left the table, its notification offers `b` to the loop before the loop is woken. */
  lemma BelowCapWedges() returns (run: seq<State>)
    ensures IsRun(2, run) && Wedged(run[|run| - 1]) && Quiet(2, run[|run| - 1])
    ensures |run[|run| - 1].jobs| < 2
  {
    var a, b := Job(0, "a", "q"), Job(1, "b", "q");
    run := SecondWaits(a, b);
    UnlistFirst(run[|run| - 1], a, b);
    run := Extend(2, run, Unlist(a));
    NotifyOffers(run[|run| - 1], a, b);
    run := Extend(2, run, Notify(a));
    StuckIff(2, run, |run| - 1);
  }

  /** `b` waits behind `a` in their queue, and the loop sleeps. */
  ghost predicate Behind(st: State, a: Job, b: Job) {
    && st.queues == map[a.queue := [a, b]]
    && !st.closed && st.tableLock == None && st.queueLock == None && st.offer == None && st.loop == Sleeping
    && st.callers == map[a := Returned(Accepted), b := Returned(Accepted)]
  }

  lemma UnlistFirst(st: State, a: Job, b: Job)
    requires Behind(st, a, b) && st.workers == map[a := Ended] && st.jobs == map[a.id := a, b.id := b] && a.id != b.id
    ensures Enabled(2, st, Unlist(a))
    ensures var t := Apply(2, st, Unlist(a));
      Behind(t, a, b) && t.jobs == map[b.id := b] && t.workers == map[a := Unlisted]
  {
  }

  lemma NotifyOffers(st: State, a: Job, b: Job)
    requires Behind(st, a, b) && st.workers == map[a := Unlisted] && a.queue != ""
    ensures Enabled(2, st, Notify(a))
    ensures var t := Apply(2, st, Notify(a));
      t.jobs == st.jobs && Wedged(t) && TableLockWaits(t)
  {
  }

  lemma SecondWaits(a: Job, b: Job) returns (run: seq<State>)
    requires a.queue == b.queue != "" && a.id != b.id
    ensures IsRun(2, run) && Behind(run[|run| - 1], a, b)
    ensures run[|run| - 1].workers == map[a := Ended] && run[|run| - 1].jobs == map[a.id := a, b.id := b]
  {
    run := SecondQueued(a, b);
    assert |map[a.id := a, b.id := b]| == 2;
    run := Extend(2, run, Check);
    run := Extend(2, run, Sleep);
    run := Extend(2, run, End(a));
  }

  lemma SecondQueued(a: Job, b: Job) returns (run: seq<State>)
    requires a.queue == b.queue != "" && a.id != b.id
    ensures IsRun(2, run) && var st := run[|run| - 1];
      && st.jobs == map[a.id := a, b.id := b] && st.queues == map[a.queue := [a, b]]
      && !st.closed && st.tableLock == None && st.queueLock == None && st.offer == None && st.loop == Checking
      && st.callers == map[a := Returned(Accepted), b := Returned(Accepted)] && st.workers == map[a := Running]
  {
    run := OneJobRuns(2, a);
    run := Extend(2, run, Arrive(b));
    run := Extend(2, run, LockTable(b));
    var st := run[|run| - 1];
    assert st.jobs == map[a.id := a, b.id := b] && st.callers == map[a := Returned(Accepted), b := Listed];
    run := Extend(2, run, Push(b));
    assert [a] + [b] == [a, b];
    assert run[|run| - 1].queues == map[a.queue := [a, b]];
  }

  lemma ReturnedStays(max: nat, st: State, a: Action, j: Job)
    requires Inv(st) && Enabled(max, st, a) && j in st.callers && st.callers[j].Returned?
    ensures var t := Apply(max, st, a); j in t.callers && t.callers[j] == st.callers[j]
  {
    match a
    case Leave =>
      assert JobInv(st, j) && JobInv(st, st.queueLock.value.job);
      LeaveMoves(max, st, st.queueLock.value.job);
    case Push(k) => PushMovesCaller(max, st, k, j);
    case Notify(k) => NotifyMoves(max, st, k);
    case Arrive(_) =>
    case LockTable(_) =>
    case _ => OthersKeepCallers(max, st, a);
  }

  lemma OthersKeepCallers(max: nat, st: State, a: Action)
    requires Enabled(max, st, a) && !a.Leave? && !a.Push? && !a.Notify? && !a.Arrive? && !a.LockTable?
    ensures Apply(max, st, a).callers == st.callers
  {
    match a
    case Check =>
    case Sleep =>
    case Receive =>
    case LoopExit =>
    case End(_) =>
    case Unlist(_) =>
    case Broadcast(_) =>
    case Close =>
  }

  lemma PushMovesCaller(max: nat, st: State, k: Job, j: Job)
    requires Enabled(max, st, Push(k)) && j in st.callers && j != k
    ensures var t := Apply(max, st, Push(k)); j in t.callers && t.callers[j] == st.callers[j]
  {
  }

  lemma {:induction false} ReturnIsFinal(max: nat, run: seq<State>, n: nat, m: nat, j: Job)
    requires IsRun(max, run) && n <= m < |run| && j in run[n].callers && run[n].callers[j].Returned?
    ensures j in run[m].callers && run[m].callers[j] == run[n].callers[j]
    decreases m
  {
    if n < m {
      ReturnIsFinal(max, run, n, m - 1, j);
      RunInv(max, run, m - 1);
      var a := RunStep(max, run, m - 1);
      ReturnedStays(max, run[m - 1], a, j);
    }
  }

  /** A call refused because the queue is closed leaves its entry behind, in every later state; so every later
      call with that id is a duplicate. */
  lemma RejectedStaysListed(max: nat, run: seq<State>, n: nat, m: nat, j: Job)
    requires IsRun(max, run) && n <= m < |run| && j in run[n].callers && run[n].callers[j] == Returned(Rejected)
    ensures j.id in run[m].jobs && run[m].jobs[j.id] == j
    ensures forall k: Job :: k.id == j.id && Enabled(max, run[m], LockTable(k)) ==>
      Apply(max, run[m], LockTable(k)).callers[k] == Returned(Duplicate)
  {
    ReturnIsFinal(max, run, n, m, j);
    RunInv(max, run, m);
    assert JobInv(run[m], j);
    assert HasEntry(run[m], j);
  }

  /** Such a run: a refused call, and one that wants the same id. */
  lemma RejectedIdStaysTaken() returns (run: seq<State>, j: Job, k: Job)
    ensures IsRun(1, run) && j != k && j.id == k.id
    ensures j in run[|run| - 1].callers && run[|run| - 1].callers[j] == Returned(Rejected)
    ensures k in run[|run| - 1].callers && run[|run| - 1].callers[k] == Returned(Duplicate)
  {
    j, k := Job(0, "a", ""), Job(1, "a", "");
    run := [INIT];
    run := Extend(1, run, Close);
    run := Extend(1, run, Arrive(j));
    run := Extend(1, run, LockTable(j));
    run := Extend(1, run, Push(j));
    run := Extend(1, run, Arrive(k));
    run := Extend(1, run, LockTable(k));
  }
}
