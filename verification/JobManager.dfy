/**
 Admission and dispatch of jobs (base/mgr/pm.go, base/mgr/queue.go): callers, the dispatch loop and
 finishing jobs meet over the job table's lock, the queue's lock and an unbuffered channel. A run is any
 interleaving of their steps; a step ends where a goroutine can block.
 */
module JobManager {
  import opened Wrappers
  import opened JobQueue

  datatype Outcome = Accepted | Duplicate | Rejected

  /** A caller of `RunFactory`: waiting for the table lock; holding it with its job in the table; inside
      `Push` with both locks; returned. */
  datatype Caller = Arrived | Listed | Pushing | Returned(outcome: Outcome)

  /** A started job: running; done and waiting for the table lock; removed from the table and waiting for
      the queue lock; inside `Notify` holding it; about to broadcast; finished. */
  datatype Worker = Running | Ended | Unlisted | Notifying | Waking | Gone

  datatype Holder = ByCaller(job: Job) | ByWorker(job: Job)

  /** The dispatch loop: about to test the table's size; about to wait, having found it at the cap; waiting
      for a broadcast; receiving; returned. Broadcasting takes no lock, so one that comes before the loop
      waits is lost. */
  datatype Loop = Checking | Full | Sleeping | Receiving | Exited

  /** `offer` is the job a lock holder is blocked sending. The last three are history, per queue: the jobs
      accepted, handed to the loop, and removed from the queue, in order. */
  datatype State = State(
    jobs: map<string, Job>,
    queues: Queues,
    closed: bool,
    tableLock: Option<Job>,
    queueLock: Option<Holder>,
    offer: Option<Job>,
    loop: Loop,
    callers: map<Job, Caller>,
    workers: map<Job, Worker>,
    accepted: map<string, seq<Job>>,
    dispatched: map<string, seq<Job>>,
    removed: map<string, seq<Job>>)

  datatype Action =
    | Arrive(j: Job)
    | LockTable(j: Job)
    | Push(j: Job)
    | Leave
    | Check
    | Sleep
    | Receive
    | LoopExit
    | End(j: Job)
    | Unlist(j: Job)
    | Notify(j: Job)
    | Broadcast(j: Job)
    | Close

  const INIT := State(map[], map[], false, None, None, None, Checking, map[], map[], map[], map[], map[])

  function Log(m: map<string, seq<Job>>, j: Job): map<string, seq<Job>> {
    m[j.queue := Get(m, j.queue) + [j]]
  }

  predicate Enabled(max: nat, st: State, a: Action) {
    match a
    case Arrive(j) => j !in st.callers
    case LockTable(j) => j in st.callers && st.callers[j] == Arrived && st.tableLock == None
    case Push(j) => j in st.callers && st.callers[j] == Listed && st.queueLock == None
    case Leave => st.queueLock.Some? && st.offer == None
    case Check => st.loop == Checking
    case Sleep => st.loop == Full
    case Receive => st.loop == Receiving && st.offer.Some?
    case LoopExit => st.loop == Receiving && st.closed && st.offer == None
    case End(j) => j in st.workers && st.workers[j] == Running
    case Unlist(j) => j in st.workers && st.workers[j] == Ended && st.tableLock == None
    case Notify(j) =>
      && j in st.workers && st.workers[j] == Unlisted && st.queueLock == None
      && (!st.closed && j.queue in st.queues ==> st.queues[j.queue] != [])
    case Broadcast(j) => j in st.workers && st.workers[j] == Waking
    case Close => st.queueLock == None && !st.closed
  }

  /** `Push` on an open queue: the job is offered at once, or waits its turn in its queue. */
  function Enqueue(st: State, j: Job): State {
    var sends := SendsNow(st.queues, j);
    st.(queues := Pushed(st.queues, j), accepted := Log(st.accepted, j),
        queueLock := if sends then Some(ByCaller(j)) else st.queueLock,
        offer := if sends then Some(j) else st.offer,
        tableLock := if sends then st.tableLock else None,
        callers := st.callers[j := if sends then Pushing else Returned(Accepted)])
  }

  /** `Notify` of a job whose queue is known: the front goes, and the next in line is offered. */
  function PopFront(st: State, j: Job): State
    requires j.queue in st.queues && st.queues[j.queue] != []
  {
    var next := NextOut(st.queues, j.queue);
    st.(queues := Notified(st.queues, j.queue), removed := Log(st.removed, st.queues[j.queue][0]),
        queueLock := if next.Some? then Some(ByWorker(j)) else st.queueLock,
        offer := if next.Some? then next else st.offer,
        workers := st.workers[j := if next.Some? then Notifying else Waking])
  }

  function Apply(max: nat, st: State, a: Action): State
    requires Enabled(max, st, a)
  {
    match a
    case Arrive(j) => st.(callers := st.callers[j := Arrived])
    case LockTable(j) =>
      var taken := j.id in st.jobs;
      st.(jobs := if taken then st.jobs else st.jobs[j.id := j],
          tableLock := if taken then st.tableLock else Some(j),
          callers := st.callers[j := if taken then Returned(Duplicate) else Listed])
    case Push(j) =>
      if st.closed then st.(tableLock := None, callers := st.callers[j := Returned(Rejected)])
      else Enqueue(st, j)
    case Leave =>
      (match st.queueLock.value
       case ByCaller(j) => st.(queueLock := None, tableLock := None, callers := st.callers[j := Returned(Accepted)])
       case ByWorker(j) => st.(queueLock := None, workers := st.workers[j := Waking]))
    case Check => st.(loop := if |st.jobs| < max then Receiving else Full)
    case Sleep => st.(loop := Sleeping)
    case Receive =>
      var j := st.offer.value;
      st.(offer := None, loop := Checking, workers := st.workers[j := Running], dispatched := Log(st.dispatched, j))
    case LoopExit => st.(loop := Exited)
    case End(j) => st.(workers := st.workers[j := Ended])
    case Unlist(j) => st.(jobs := st.jobs - {j.id}, workers := st.workers[j := Unlisted])
    case Notify(j) =>
      if st.closed || j.queue !in st.queues then st.(workers := st.workers[j := Waking])
      else PopFront(st, j)
    case Broadcast(j) =>
      st.(loop := if st.loop == Sleeping then Checking else st.loop, workers := st.workers[j := Gone])
    case Close => st.(closed := true)
  }

  ghost predicate StepAt(max: nat, run: seq<State>, n: nat) {
    n + 1 < |run| && exists a :: Enabled(max, run[n], a) && run[n + 1] == Apply(max, run[n], a)
  }

  ghost predicate IsRun(max: nat, run: seq<State>) {
    && |run| > 0 && run[0] == INIT
    && forall n :: 0 <= n < |run| - 1 ==> StepAt(max, run, n)
  }

  // ---- The invariant -------------------------------------------------------------------------

  /** The job got past admission. */
  predicate Admitted(st: State, j: Job) {
    j in st.callers && (st.callers[j] == Pushing || st.callers[j] == Returned(Accepted))
  }

  /** The job is dispatched and still the front of its queue. */
  predicate InFlight(st: State, j: Job) {
    j in st.workers && (st.workers[j] == Running || st.workers[j] == Ended || st.workers[j] == Unlisted)
  }

  /** The job is no longer supposed to be in the table. */
  predicate CleanedUp(st: State, j: Job) {
    j in st.workers && st.workers[j] != Running && st.workers[j] != Ended
  }

  /** The job was put into the table and not yet taken out. */
  predicate HasEntry(st: State, j: Job) {
    j in st.callers && st.callers[j] != Arrived && st.callers[j] != Returned(Duplicate) && !CleanedUp(st, j)
  }

  /** What holds about one job: which locks its caller and its worker hold, and its table entry. */
  ghost predicate JobInv(st: State, j: Job) {
    && (st.tableLock == Some(j) <==> j in st.callers && (st.callers[j] == Listed || st.callers[j] == Pushing))
    && (st.queueLock == Some(ByCaller(j)) <==> j in st.callers && st.callers[j] == Pushing)
    && (st.queueLock == Some(ByWorker(j)) <==> j in st.workers && st.workers[j] == Notifying)
    && (j in st.workers ==> Admitted(st, j))
    && (HasEntry(st, j) ==> j.id in st.jobs && st.jobs[j.id] == j)
    && (j in Get(st.accepted, j.queue) ==> Admitted(st, j))
    && (j in Get(st.dispatched, j.queue) <==> j in st.workers)
    && (j.queue != "" && (InFlight(st, j) || st.offer == Some(j)) ==>
         j.queue in st.queues && st.queues[j.queue] != [] && st.queues[j.queue][0] == j)
    && (st.offer == Some(j) ==> Admitted(st, j) && j !in st.workers)
  }

  ghost predicate ChannelInv(st: State) {
    && (st.offer.Some? ==> st.queueLock.Some? && !st.closed)
    && (st.loop == Exited ==> st.closed)
  }

  /** The front of a queue is out: offered on the channel or handed to the loop. The rest is not. */
  ghost predicate FrontInv(st: State, name: string) {
    name in st.queues ==>
      var q := st.queues[name];
      && q != [] && name != ""
      && (q[0] !in st.workers ==> st.offer == Some(q[0]))
      && (q[0] in st.workers ==> st.closed || InFlight(st, q[0]))
      && (forall i :: 1 <= i < |q| ==> q[i] !in st.workers)
  }

  /** A queue holds what was accepted and not yet removed; of these, only the front has been dispatched. */
  ghost predicate HistoryInv(st: State, name: string) {
    var q := Get(st.queues, name);
    && Distinct(Get(st.accepted, name)) && Distinct(Get(st.dispatched, name))
    && (forall j :: j in Get(st.accepted, name) ==> j.queue == name)
    && (forall j :: j in Get(st.dispatched, name) ==> j.queue == name)
    && (name != "" ==> Get(st.accepted, name) == Get(st.removed, name) + q)
    && (name != "" ==>
         Get(st.dispatched, name) == Get(st.removed, name) + (if q != [] && q[0] in st.workers then [q[0]] else []))
  }

  /** The table holds nothing but the entries it should hold. */
  ghost predicate EntryInv(st: State, id: string) {
    id in st.jobs ==> st.jobs[id].id == id && HasEntry(st, st.jobs[id])
  }

  ghost predicate Inv(st: State) {
    && ChannelInv(st)
    && (forall id :: EntryInv(st, id))
    && (forall j :: JobInv(st, j))
    && (forall n :: FrontInv(st, n))
    && (forall n :: HistoryInv(st, n))
  }

  /** The jobs waiting in a queue are distinct accepted jobs of that queue. */
  lemma QueueElements(st: State, name: string)
    requires Inv(st) && name in st.queues
    ensures Distinct(st.queues[name])
    ensures forall j :: j in st.queues[name] ==> j.queue == name && j in Get(st.accepted, name) && Admitted(st, j)
  {
    assert HistoryInv(st, name) && FrontInv(st, name);
    var q, done := st.queues[name], Get(st.removed, name);
    forall i, k | 0 <= i < k < |q| ensures q[i] != q[k] {
      assert (done + q)[|done| + i] == q[i] && (done + q)[|done| + k] == q[k];
    }
    forall j | j in q ensures j.queue == name && j in Get(st.accepted, name) && Admitted(st, j) {
      assert j in done + q;
      assert JobInv(st, j);
    }
  }

  lemma AppendDistinct(s: seq<Job>, j: Job)
    requires Distinct(s) && j !in s
    ensures Distinct(s + [j])
  {
  }

  // ---- Each step keeps the invariant ---------------------------------------------------------

  lemma GetOther(m: map<string, seq<Job>>, key: string, jobs: seq<Job>, name: string)
    ensures Get(m[key := jobs], name) == if name == key then jobs else Get(m, name)
  {
  }

  /** A step that leaves the queues, their history, the workers and the channel alone. */
  ghost predicate SameQueues(st: State, t: State) {
    && t.queues == st.queues && t.workers == st.workers && t.offer == st.offer && t.closed == st.closed
    && t.accepted == st.accepted && t.dispatched == st.dispatched && t.removed == st.removed
  }

  lemma QueuesKept(st: State, t: State)
    requires Inv(st) && SameQueues(st, t)
    ensures (forall n :: FrontInv(t, n)) && (forall n :: HistoryInv(t, n))
  {
    forall n ensures FrontInv(t, n) && HistoryInv(t, n) { assert FrontInv(st, n) && HistoryInv(st, n); }
  }

  /** Nothing that concerns job `k` has changed, other than which other jobs hold the locks or are offered. */
  ghost predicate SameJob(st: State, t: State, k: Job) {
    && (k in t.callers <==> k in st.callers) && (k in st.callers ==> t.callers[k] == st.callers[k])
    && (k in t.workers <==> k in st.workers) && (k in st.workers ==> t.workers[k] == st.workers[k])
    && (k.id in st.jobs && st.jobs[k.id] == k ==> k.id in t.jobs && t.jobs[k.id] == k)
    && (k in Get(t.accepted, k.queue) <==> k in Get(st.accepted, k.queue))
    && (k in Get(t.dispatched, k.queue) <==> k in Get(st.dispatched, k.queue))
    && (t.tableLock == Some(k) <==> st.tableLock == Some(k))
    && (t.queueLock == Some(ByCaller(k)) <==> st.queueLock == Some(ByCaller(k)))
    && (t.queueLock == Some(ByWorker(k)) <==> st.queueLock == Some(ByWorker(k)))
    && (t.offer == Some(k) <==> st.offer == Some(k))
    && (k.queue in st.queues && st.queues[k.queue] != [] && st.queues[k.queue][0] == k ==>
         k.queue in t.queues && t.queues[k.queue] != [] && t.queues[k.queue][0] == k)
  }

  lemma JobKept(st: State, t: State, k: Job)
    requires JobInv(st, k) && SameJob(st, t, k)
    ensures JobInv(t, k)
  {
  }

  lemma ArriveKeeps(max: nat, st: State, j: Job)
    requires Inv(st) && Enabled(max, st, Arrive(j))
    ensures Inv(Apply(max, st, Arrive(j)))
  {
    var t := Apply(max, st, Arrive(j));
    assert JobInv(st, j);
    forall id ensures EntryInv(t, id) { assert EntryInv(st, id); }
    forall k ensures JobInv(t, k) { assert JobInv(st, k); }
    QueuesKept(st, t);
  }

  lemma LockTableKeeps(max: nat, st: State, j: Job)
    requires Inv(st) && Enabled(max, st, LockTable(j))
    ensures Inv(Apply(max, st, LockTable(j)))
  {
    var t := Apply(max, st, LockTable(j));
    assert JobInv(st, j);
    forall id ensures EntryInv(t, id) {
      assert EntryInv(st, id);
      LockTableKeepsEntry(max, st, j, id);
    }
    forall k ensures JobInv(t, k) {
      assert JobInv(st, k);
      if k == j { LockTableKeepsItsJob(max, st, j); } else { LockTableKeepsOtherJob(max, st, j, k); }
    }
    QueuesKept(st, t);
  }

  lemma LockTableKeepsEntry(max: nat, st: State, j: Job, id: string)
    requires EntryInv(st, id) && JobInv(st, j) && Enabled(max, st, LockTable(j))
    ensures EntryInv(Apply(max, st, LockTable(j)), id)
  {
  }

  lemma LockTableKeepsItsJob(max: nat, st: State, j: Job)
    requires JobInv(st, j) && Enabled(max, st, LockTable(j))
    ensures JobInv(Apply(max, st, LockTable(j)), j)
  {
  }

  lemma LockTableKeepsOtherJob(max: nat, st: State, j: Job, k: Job)
    requires JobInv(st, j) && JobInv(st, k) && Enabled(max, st, LockTable(j)) && k != j
    ensures JobInv(Apply(max, st, LockTable(j)), k)
  {
  }

  lemma LeaveKeeps(max: nat, st: State)
    requires Inv(st) && Enabled(max, st, Leave)
    ensures Inv(Apply(max, st, Leave))
  {
    var t := Apply(max, st, Leave);
    assert JobInv(st, st.queueLock.value.job);
    forall id ensures EntryInv(t, id) {
      assert EntryInv(st, id);
      LeaveKeepsEntry(max, st, id);
    }
    forall k ensures JobInv(t, k) {
      assert JobInv(st, k);
      if k == st.queueLock.value.job { LeaveKeepsItsJob(max, st); } else { LeaveKeepsOtherJob(max, st, k); }
    }
    forall n ensures FrontInv(t, n) && HistoryInv(t, n) {
      assert FrontInv(st, n) && HistoryInv(st, n);
      LeaveKeepsQueue(max, st, n);
    }
  }

  lemma LeaveKeepsEntry(max: nat, st: State, id: string)
    requires Enabled(max, st, Leave) && JobInv(st, st.queueLock.value.job) && EntryInv(st, id)
    ensures EntryInv(Apply(max, st, Leave), id)
  {
  }

  lemma LeaveKeepsQueue(max: nat, st: State, name: string)
    requires Enabled(max, st, Leave) && JobInv(st, st.queueLock.value.job)
    requires FrontInv(st, name) && HistoryInv(st, name)
    ensures FrontInv(Apply(max, st, Leave), name) && HistoryInv(Apply(max, st, Leave), name)
  {
  }

  lemma LeaveKeepsItsJob(max: nat, st: State)
    requires Enabled(max, st, Leave) && JobInv(st, st.queueLock.value.job)
    ensures JobInv(Apply(max, st, Leave), st.queueLock.value.job)
  {
  }

  lemma LeaveKeepsOtherJob(max: nat, st: State, k: Job)
    requires Enabled(max, st, Leave) && k != st.queueLock.value.job
    requires JobInv(st, st.queueLock.value.job) && JobInv(st, k)
    ensures JobInv(Apply(max, st, Leave), k)
  {
    assert SameJob(st, Apply(max, st, Leave), k);
    JobKept(st, Apply(max, st, Leave), k);
  }

  lemma CheckKeeps(max: nat, st: State)
    requires Inv(st) && Enabled(max, st, Check)
    ensures Inv(Apply(max, st, Check))
  {
    var t := Apply(max, st, Check);
    forall id ensures EntryInv(t, id) { assert EntryInv(st, id); }
    forall k ensures JobInv(t, k) { assert JobInv(st, k); }
    QueuesKept(st, t);
  }

  lemma SleepKeeps(max: nat, st: State)
    requires Inv(st) && Enabled(max, st, Sleep)
    ensures Inv(Apply(max, st, Sleep))
  {
    var t := Apply(max, st, Sleep);
    forall id ensures EntryInv(t, id) { assert EntryInv(st, id); }
    forall k ensures JobInv(t, k) { assert JobInv(st, k); }
    QueuesKept(st, t);
  }

  lemma LoopExitKeeps(max: nat, st: State)
    requires Inv(st) && Enabled(max, st, LoopExit)
    ensures Inv(Apply(max, st, LoopExit))
  {
    var t := Apply(max, st, LoopExit);
    forall id ensures EntryInv(t, id) { assert EntryInv(st, id); }
    forall k ensures JobInv(t, k) { assert JobInv(st, k); }
    QueuesKept(st, t);
  }

  lemma EndKeeps(max: nat, st: State, j: Job)
    requires Inv(st) && Enabled(max, st, End(j))
    ensures Inv(Apply(max, st, End(j)))
  {
    var t := Apply(max, st, End(j));
    assert JobInv(st, j);
    forall id ensures EntryInv(t, id) { assert EntryInv(st, id); }
    forall k ensures JobInv(t, k) { assert JobInv(st, k); }
    forall n ensures FrontInv(t, n) { assert FrontInv(st, n); }
    forall n ensures HistoryInv(t, n) { assert HistoryInv(st, n); }
  }

  lemma BroadcastKeeps(max: nat, st: State, j: Job)
    requires Inv(st) && Enabled(max, st, Broadcast(j))
    ensures Inv(Apply(max, st, Broadcast(j)))
  {
    var t := Apply(max, st, Broadcast(j));
    assert JobInv(st, j);
    forall id ensures EntryInv(t, id) { assert EntryInv(st, id); }
    forall k ensures JobInv(t, k) { assert JobInv(st, k); }
    forall n ensures FrontInv(t, n) { assert FrontInv(st, n); }
    forall n ensures HistoryInv(t, n) { assert HistoryInv(st, n); }
  }

  lemma UnlistKeepsJob(max: nat, st: State, j: Job, k: Job)
    requires Enabled(max, st, Unlist(j)) && JobInv(st, j) && JobInv(st, k)
    ensures JobInv(Apply(max, st, Unlist(j)), k)
  {
  }

  lemma UnlistKeeps(max: nat, st: State, j: Job)
    requires Inv(st) && Enabled(max, st, Unlist(j))
    ensures Inv(Apply(max, st, Unlist(j)))
  {
    var t := Apply(max, st, Unlist(j));
    assert JobInv(st, j);
    forall id ensures EntryInv(t, id) { assert EntryInv(st, id); }
    forall k ensures JobInv(t, k) {
      assert JobInv(st, k);
      UnlistKeepsJob(max, st, j, k);
    }
    forall n ensures FrontInv(t, n) { assert FrontInv(st, n); }
    forall n ensures HistoryInv(t, n) { assert HistoryInv(st, n); }
  }

  lemma CloseKeeps(max: nat, st: State)
    requires Inv(st) && Enabled(max, st, Close)
    ensures Inv(Apply(max, st, Close))
  {
    var t := Apply(max, st, Close);
    forall id ensures EntryInv(t, id) { assert EntryInv(st, id); }
    forall k ensures JobInv(t, k) { assert JobInv(st, k); }
    forall n ensures FrontInv(t, n) { assert FrontInv(st, n); }
    forall n ensures HistoryInv(t, n) { assert HistoryInv(st, n); }
  }

  lemma PushKeepsItsJob(max: nat, st: State, j: Job)
    requires JobInv(st, j) && FrontInv(st, j.queue) && HistoryInv(st, j.queue) && ChannelInv(st)
    requires Enabled(max, st, Push(j))
    ensures JobInv(Apply(max, st, Push(j)), j)
  {
  }

  lemma PushKeepsOtherJob(max: nat, st: State, j: Job, k: Job)
    requires JobInv(st, j) && JobInv(st, k) && FrontInv(st, j.queue) && ChannelInv(st)
    requires Enabled(max, st, Push(j)) && k != j
    ensures JobInv(Apply(max, st, Push(j)), k)
  {
    if !st.closed { EnqueueKeepsOtherJob(st, j, k); }
  }

  lemma EnqueueKeepsOtherJob(st: State, j: Job, k: Job)
    requires JobInv(st, j) && JobInv(st, k) && FrontInv(st, j.queue) && k != j
    requires j in st.callers && st.callers[j] == Listed && st.queueLock == None && st.offer == None
    ensures JobInv(Enqueue(st, j), k)
  {
    var t := Enqueue(st, j);
    GetOther(st.accepted, j.queue, Get(st.accepted, j.queue) + [j], k.queue);
    if k.queue in st.queues && st.queues[k.queue] != [] { PushedKeepsFronts(st.queues, j, k.queue); }
    assert t.queues == Pushed(st.queues, j);
    JobKept(st, t, k);
  }

  /** A push changes no front. */
  lemma PushedKeepsFronts(qs: Queues, j: Job, name: string)
    requires name in qs && qs[name] != []
    ensures var t := Pushed(qs, j); name in t && t[name] != [] && t[name][0] == qs[name][0]
  {
  }

  lemma PushKeepsFront(max: nat, st: State, j: Job, name: string)
    requires Inv(st) && Enabled(max, st, Push(j))
    ensures FrontInv(Apply(max, st, Push(j)), name)
  {
    assert JobInv(st, j) && FrontInv(st, name);
    if name in st.queues { QueueElements(st, name); }
  }

  lemma PushKeeps(max: nat, st: State, j: Job)
    requires Inv(st) && Enabled(max, st, Push(j))
    ensures Inv(Apply(max, st, Push(j)))
  {
    var t := Apply(max, st, Push(j));
    assert JobInv(st, j);
    forall id ensures EntryInv(t, id) { assert EntryInv(st, id); }
    forall k ensures JobInv(t, k) {
      assert JobInv(st, k) && FrontInv(st, j.queue) && HistoryInv(st, j.queue);
      if k == j { PushKeepsItsJob(max, st, j); } else { PushKeepsOtherJob(max, st, j, k); }
    }
    forall n ensures FrontInv(t, n) { PushKeepsFront(max, st, j, n); }
    forall n ensures HistoryInv(t, n) {
      assert HistoryInv(st, n) && FrontInv(st, n);
      if n == j.queue { PushKeepsHistory(max, st, j); } else { PushKeepsOtherHistory(max, st, j, n); }
    }
  }

  lemma PushKeepsOtherHistory(max: nat, st: State, j: Job, name: string)
    requires HistoryInv(st, name) && Enabled(max, st, Push(j)) && name != j.queue
    ensures HistoryInv(Apply(max, st, Push(j)), name)
  {
    PushTouchesItsQueue(max, st, j, name);
  }

  lemma PushTouchesItsQueue(max: nat, st: State, j: Job, name: string)
    requires Enabled(max, st, Push(j)) && name != j.queue
    ensures var t := Apply(max, st, Push(j));
      && Get(t.queues, name) == Get(st.queues, name) && Get(t.accepted, name) == Get(st.accepted, name)
      && t.removed == st.removed && t.dispatched == st.dispatched && t.workers == st.workers
  {
    var q := Get(st.queues, j.queue) + [j];
    GetOther(st.queues, j.queue, q, name);
    GetOther(st.accepted, j.queue, Get(st.accepted, j.queue) + [j], name);
  }

  lemma ReceiveKeepsItsJob(max: nat, st: State)
    requires Enabled(max, st, Receive) && JobInv(st, st.offer.value) && FrontInv(st, st.offer.value.queue)
    ensures JobInv(Apply(max, st, Receive), st.offer.value)
  {
  }

  lemma ReceiveKeepsOtherJob(max: nat, st: State, k: Job)
    requires Enabled(max, st, Receive) && k != st.offer.value && JobInv(st, st.offer.value) && JobInv(st, k)
    ensures JobInv(Apply(max, st, Receive), k)
  {
    var j := st.offer.value;
    GetOther(st.dispatched, j.queue, Get(st.dispatched, j.queue) + [j], k.queue);
    JobKept(st, Apply(max, st, Receive), k);
  }

  lemma ReceiveKeepsFront(max: nat, st: State, name: string)
    requires Inv(st) && Enabled(max, st, Receive)
    ensures FrontInv(Apply(max, st, Receive), name)
  {
    var j := st.offer.value;
    assert JobInv(st, j) && FrontInv(st, name);
    if name in st.queues { QueueElements(st, name); }
  }

  lemma ReceiveKeeps(max: nat, st: State)
    requires Inv(st) && Enabled(max, st, Receive)
    ensures Inv(Apply(max, st, Receive))
  {
    var t := Apply(max, st, Receive);
    assert JobInv(st, st.offer.value);
    forall id ensures EntryInv(t, id) { assert EntryInv(st, id); }
    forall k ensures JobInv(t, k) {
      assert JobInv(st, k) && FrontInv(st, st.offer.value.queue);
      if k == st.offer.value { ReceiveKeepsItsJob(max, st); } else { ReceiveKeepsOtherJob(max, st, k); }
    }
    forall n ensures FrontInv(t, n) { ReceiveKeepsFront(max, st, n); }
    forall n ensures HistoryInv(t, n) {
      assert HistoryInv(st, n) && FrontInv(st, n);
      if n == st.offer.value.queue { ReceiveKeepsHistory(max, st); } else { ReceiveKeepsOtherHistory(max, st, n); }
    }
  }

  lemma ReceiveKeepsOtherHistory(max: nat, st: State, name: string)
    requires Inv(st) && Enabled(max, st, Receive) && name != st.offer.value.queue
    ensures HistoryInv(Apply(max, st, Receive), name)
  {
    assert HistoryInv(st, name) && FrontInv(st, name) && JobInv(st, st.offer.value);
    if name in st.queues { QueueElements(st, name); }
  }

  /** A notification is about to remove a front, and that front is its own job. */
  ghost predicate Popping(st: State, j: Job) {
    && Inv(st) && j in st.workers && st.workers[j] == Unlisted && st.queueLock == None && !st.closed
    && j.queue in st.queues && st.queues[j.queue] != [] && st.queues[j.queue][0] == j
  }

  lemma NotifyPops(max: nat, st: State, j: Job)
    requires Inv(st) && Enabled(max, st, Notify(j))
    ensures !st.closed && j.queue in st.queues ==> Popping(st, j)
    ensures !st.closed && j.queue != "" ==> Popping(st, j)
  {
    assert JobInv(st, j) && FrontInv(st, j.queue);
  }

  lemma PopKeepsItsJob(st: State, j: Job)
    requires Popping(st, j)
    ensures JobInv(PopFront(st, j), j)
  {
    QueueElements(st, j.queue);
    assert JobInv(st, j) && FrontInv(st, j.queue);
  }

  lemma PopKeepsOtherJob(st: State, j: Job, k: Job)
    requires Popping(st, j) && k != j
    ensures JobInv(PopFront(st, j), k)
  {
    QueueElements(st, j.queue);
    assert JobInv(st, j) && JobInv(st, k) && FrontInv(st, j.queue);
  }

  lemma PopKeepsFront(st: State, j: Job, name: string)
    requires Popping(st, j)
    ensures FrontInv(PopFront(st, j), name)
  {
    assert JobInv(st, j) && FrontInv(st, name);
    if name in st.queues { QueueElements(st, name); }
  }

  lemma PopKeepsHistory(st: State, j: Job, name: string)
    requires Popping(st, j)
    ensures HistoryInv(PopFront(st, j), name)
  {
    if name == j.queue {
      PopKeepsOwnHistory(st, j);
    } else {
      PopTouchesItsQueue(st, j, name);
      assert HistoryInv(st, name);
    }
  }

  lemma PopTouchesItsQueue(st: State, j: Job, name: string)
    requires j.queue in st.queues && st.queues[j.queue] != [] && st.queues[j.queue][0] == j && j in st.workers
    requires name != j.queue
    ensures var t := PopFront(st, j);
      && Get(t.queues, name) == Get(st.queues, name) && Get(t.removed, name) == Get(st.removed, name)
      && t.accepted == st.accepted && t.dispatched == st.dispatched
      && (forall k :: k in t.workers <==> k in st.workers)
  {
    var t, q := PopFront(st, j), st.queues[j.queue];
    assert t.queues == Notified(st.queues, j.queue);
    GetOther(st.queues, j.queue, q[1..], name);
    GetOther(st.removed, j.queue, Get(st.removed, j.queue) + [q[0]], name);
  }

  lemma PopKeepsOwnHistory(st: State, j: Job)
    requires Popping(st, j)
    ensures HistoryInv(PopFront(st, j), j.queue)
  {
    var name, t := j.queue, PopFront(st, j);
    assert HistoryInv(st, name) && FrontInv(st, name);
    var q := st.queues[name];
    assert q == [j] + q[1..];
    assert Get(t.queues, name) == q[1..] && Get(t.removed, name) == Get(st.removed, name) + [j];
    assert q[1..] != [] ==> q[1..][0] !in t.workers;
  }

  lemma NotifyKeeps(max: nat, st: State, j: Job)
    requires Inv(st) && Enabled(max, st, Notify(j))
    ensures Inv(Apply(max, st, Notify(j)))
  {
    var t := Apply(max, st, Notify(j));
    NotifyPops(max, st, j);
    assert JobInv(st, j);
    forall id ensures EntryInv(t, id) { assert EntryInv(st, id); }
    if Popping(st, j) {
      forall k ensures JobInv(t, k) {
        if k == j { PopKeepsItsJob(st, j); } else { PopKeepsOtherJob(st, j, k); }
      }
      forall n ensures FrontInv(t, n) { PopKeepsFront(st, j, n); }
      forall n ensures HistoryInv(t, n) { PopKeepsHistory(st, j, n); }
    } else {
      forall k ensures JobInv(t, k) { assert JobInv(st, k); }
      forall n ensures FrontInv(t, n) {
        assert FrontInv(st, n);
        if n in st.queues { QueueElements(st, n); }
      }
      forall n ensures HistoryInv(t, n) { assert HistoryInv(st, n); }
    }
  }

  lemma PushKeepsHistory(max: nat, st: State, j: Job)
    requires JobInv(st, j) && HistoryInv(st, j.queue) && FrontInv(st, j.queue) && Enabled(max, st, Push(j))
    ensures HistoryInv(Apply(max, st, Push(j)), j.queue)
  {
    if !st.closed { EnqueueKeepsHistory(st, j); }
  }

  lemma EnqueueKeepsHistory(st: State, j: Job)
    requires JobInv(st, j) && HistoryInv(st, j.queue) && FrontInv(st, j.queue)
    requires j in st.callers && st.callers[j] == Listed
    ensures HistoryInv(Enqueue(st, j), j.queue)
  {
    var t := Enqueue(st, j);
    AppendDistinct(Get(st.accepted, j.queue), j);
    assert Get(t.accepted, j.queue) == Get(st.accepted, j.queue) + [j];
    assert t.workers == st.workers && t.removed == st.removed && t.dispatched == st.dispatched;
  }

  lemma ReceiveKeepsHistory(max: nat, st: State)
    requires Enabled(max, st, Receive) && JobInv(st, st.offer.value)
    requires HistoryInv(st, st.offer.value.queue) && FrontInv(st, st.offer.value.queue)
    ensures HistoryInv(Apply(max, st, Receive), st.offer.value.queue)
  {
    var j := st.offer.value;
    AppendDistinct(Get(st.dispatched, j.queue), j);
  }
}
