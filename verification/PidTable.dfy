/**
 Delivery of exit statuses (base/mgr/pm.go: registerPID, processWait, waitPID). A child is spawned and
 entered under one mutex; the reaper collects any dead child, looks it up under that mutex, and hands the
 status to a goroutine that sends it on the entry's channel, closes the channel and deletes the entry.
 */
module PidTable {
  import opened Wrappers

  /** Each call of `registerPID` has its own number, which also names the channel it makes. */
  type Call = nat

  datatype Registration = Locked | SpawnFailed | Spawned(pid: int) | Registered(pid: int)

  /** A process the kernel knows: who registered it (nobody, for an orphan), and its status once it died. */
  datatype Process = Process(owner: Option<Call>, status: Option<int>)

  datatype Reaper = Waiting | Holding(pid: int, status: int, owner: Option<Call>)

  datatype Phase = Sending | Sent | Closed

  datatype Delivery = Delivery(channel: Call, pid: int, status: int, phase: Phase)

  datatype Waiter = Receiving(channel: Call) | Got(status: int)

  /** Where the status of a call's child is; history only. */
  datatype Place = InKernel | InReaper | InDelivery(id: nat) | Delivered(id: nat)

  /** `kernel` is history: the status the kernel reported for each call's child. */
  datatype State = State(
    mutex: Option<Call>,
    calls: map<Call, Registration>,
    processes: map<int, Process>,
    pids: map<int, Call>,
    reaper: Reaper,
    deliveries: map<nat, Delivery>,
    closed: set<Call>,
    waiters: map<Call, Waiter>,
    kernel: map<Call, int>,
    place: map<Call, Place>)

  datatype Action =
    | Lock(t: Call)
    | Spawn(t: Call, pid: int)
    | SpawnFails(t: Call)
    | Insert(t: Call)
    | Orphan(pid: int)
    | Die(pid: int, status: int)
    | Reap(pid: int)
    | Lookup(id: nat)
    | Wait(t: Call)
    | Deliver(id: nat, t: Call)
    | ReceiveClosed(t: Call)
    | CloseChannel(id: nat)
    | Delete(id: nat)

  const INIT := State(None, map[], map[], map[], Waiting, map[], {}, map[], map[], map[])

  /** The kernel may give out a pid that no process has. The assumption under which the table is correct is
      that it does not do so before the table is done with the pid. */
  predicate PidFree(prompt: bool, st: State, pid: int) {
    && pid !in st.processes
    && (!prompt ==> pid !in st.pids && (st.reaper.Holding? ==> st.reaper.pid != pid))
  }

  /** `prompt` allows the kernel to reuse a pid as soon as its process is reaped. */
  predicate Enabled(prompt: bool, st: State, a: Action) {
    match a
    case Lock(t) => t !in st.calls && st.mutex == None
    case Spawn(t, pid) => t in st.calls && st.calls[t] == Locked && PidFree(prompt, st, pid)
    case SpawnFails(t) => t in st.calls && st.calls[t] == Locked
    case Insert(t) => t in st.calls && st.calls[t].Spawned?
    case Orphan(pid) => PidFree(prompt, st, pid)
    case Die(pid, _) => pid in st.processes && st.processes[pid].status == None
    case Reap(pid) => pid in st.processes && st.processes[pid].status.Some? && st.reaper == Waiting
    case Lookup(id) => st.reaper.Holding? && st.mutex == None && id !in st.deliveries
                       && forall t :: t in st.place && st.place[t].Delivered? ==> st.place[t].id != id
    case Wait(t) => t in st.calls && st.calls[t].Registered? && t !in st.waiters && st.mutex == None
    case Deliver(id, t) =>
      && id in st.deliveries && st.deliveries[id].phase == Sending
      && t in st.waiters && st.waiters[t] == Receiving(st.deliveries[id].channel)
    case ReceiveClosed(t) => t in st.waiters && st.waiters[t].Receiving? && st.waiters[t].channel in st.closed
    case CloseChannel(id) => id in st.deliveries && st.deliveries[id].phase == Sent
    case Delete(id) => id in st.deliveries && st.deliveries[id].phase == Closed && st.mutex == None
  }

  function Apply(prompt: bool, st: State, a: Action): State
    requires Enabled(prompt, st, a)
  {
    match a
    case Lock(t) => st.(mutex := Some(t), calls := st.calls[t := Locked])
    case Spawn(t, pid) =>
      st.(processes := st.processes[pid := Process(Some(t), None)], calls := st.calls[t := Spawned(pid)],
          place := st.place[t := InKernel])
    case SpawnFails(t) => st.(mutex := None, calls := st.calls[t := SpawnFailed])
    case Insert(t) =>
      var pid := st.calls[t].pid;
      st.(pids := st.pids[pid := t], calls := st.calls[t := Registered(pid)], mutex := None)
    case Orphan(pid) => st.(processes := st.processes[pid := Process(None, None)])
    case Die(pid, status) =>
      var p := st.processes[pid];
      st.(processes := st.processes[pid := p.(status := Some(status))],
          kernel := if p.owner.Some? then st.kernel[p.owner.value := status] else st.kernel)
    case Reap(pid) =>
      var p := st.processes[pid];
      st.(processes := st.processes - {pid}, reaper := Holding(pid, p.status.value, p.owner),
          place := if p.owner.Some? then st.place[p.owner.value := InReaper] else st.place)
    case Lookup(id) =>
      var r := st.reaper;
      if r.pid in st.pids then
        st.(reaper := Waiting, deliveries := st.deliveries[id := Delivery(st.pids[r.pid], r.pid, r.status, Sending)],
            place := if r.owner.Some? then st.place[r.owner.value := InDelivery(id)] else st.place)
      else st.(reaper := Waiting)
    case Wait(t) =>
      var pid := st.calls[t].pid;
      st.(waiters := st.waiters[t := if pid in st.pids then Receiving(st.pids[pid]) else Got(0)])
    case Deliver(id, t) =>
      var d := st.deliveries[id];
      st.(waiters := st.waiters[t := Got(d.status)], deliveries := st.deliveries[id := d.(phase := Sent)],
          place := st.place[d.channel := Delivered(id)])
    case ReceiveClosed(t) => st.(waiters := st.waiters[t := Got(0)])
    case CloseChannel(id) =>
      st.(closed := st.closed + {st.deliveries[id].channel},
          deliveries := st.deliveries[id := st.deliveries[id].(phase := Closed)])
    case Delete(id) => st.(pids := st.pids - {st.deliveries[id].pid}, deliveries := st.deliveries - {id})
  }

  ghost predicate StepAt(prompt: bool, run: seq<State>, n: nat) {
    n + 1 < |run| && exists a :: Enabled(prompt, run[n], a) && run[n + 1] == Apply(prompt, run[n], a)
  }

  ghost predicate IsRun(prompt: bool, run: seq<State>) {
    && |run| > 0 && run[0] == INIT
    && forall n :: 0 <= n < |run| - 1 ==> StepAt(prompt, run, n)
  }

  // ---- The invariant without early reuse -----------------------------------------------------

  predicate HasPid(st: State, t: Call, pid: int) {
    t in st.calls && (st.calls[t] == Spawned(pid) || st.calls[t] == Registered(pid))
  }

  ghost predicate CallInv(st: State, t: Call) {
    && (st.mutex == Some(t) <==> t in st.calls && (st.calls[t] == Locked || st.calls[t].Spawned?))
    && (t in st.place <==> t in st.calls && (st.calls[t].Spawned? || st.calls[t].Registered?))
    && (t in st.waiters ==> t in st.calls && st.calls[t].Registered?)
    && (t in st.calls && st.calls[t].Spawned? ==> st.calls[t].pid !in st.pids)
    && (t in st.kernel ==> t in st.place)
    && (t in st.closed ==> t in st.place && st.place[t].Delivered?)
    && (t in st.place ==> PlaceInv(st, t, st.calls[t].pid, st.place[t]))
    && (t in st.waiters ==>
         match st.waiters[t]
         case Receiving(channel) => channel == t && !st.place[t].Delivered?
         case Got(status) => st.place[t].Delivered?)
  }

  ghost predicate PlaceInv(st: State, t: Call, pid: int, place: Place)
    requires t in st.calls
  {
    && (!place.Delivered? && st.calls[t].Registered? ==> pid in st.pids && st.pids[pid] == t)
    && match place
       case InKernel =>
         && pid in st.processes && st.processes[pid].owner == Some(t)
         && (t in st.kernel <==> st.processes[pid].status.Some?)
         && (t in st.kernel ==> st.processes[pid].status == Some(st.kernel[t]))
       case InReaper => t in st.kernel && st.reaper == Holding(pid, st.kernel[t], Some(t))
       case InDelivery(id) =>
         && st.calls[t].Registered? && t in st.kernel
         && id in st.deliveries && st.deliveries[id] == Delivery(t, pid, st.kernel[t], Sending)
       case Delivered(id) =>
         && st.calls[t].Registered? && t in st.kernel
         && t in st.waiters && st.waiters[t] == Got(st.kernel[t])
  }

  ghost predicate PidInv(st: State, pid: int) {
    && (pid in st.processes ==>
         match st.processes[pid].owner
         case None => pid !in st.pids
         case Some(t) => HasPid(st, t, pid) && t in st.place && st.place[t] == InKernel)
    && (pid in st.pids ==> HasPid(st, st.pids[pid], pid) && st.calls[st.pids[pid]].Registered?)
    && (st.reaper.Holding? && st.reaper.pid == pid ==>
         && pid !in st.processes
         && match st.reaper.owner
            case None => pid !in st.pids
            case Some(t) => HasPid(st, t, pid) && t in st.place && st.place[t] == InReaper)
  }

  ghost predicate DeliveryInv(st: State, id: nat) {
    id in st.deliveries ==>
      var d := st.deliveries[id];
      && HasPid(st, d.channel, d.pid) && d.channel in st.place
      && d.pid in st.pids && st.pids[d.pid] == d.channel
      && (if d.phase == Sending then st.place[d.channel] == InDelivery(id) else st.place[d.channel] == Delivered(id))
      && (d.phase != Closed ==> d.channel !in st.closed)
  }

  ghost predicate Inv(st: State) {
    && (forall t :: CallInv(st, t))
    && (forall pid :: PidInv(st, pid))
    && (forall id :: DeliveryInv(st, id))
  }

  ghost predicate OwnerInv(st: State, owner: Option<Call>) {
    owner.Some? ==> CallInv(st, owner.value)
  }

  /** What the invariant says about the things an action touches. */
  ghost predicate Around(st: State, a: Action)
    requires Enabled(false, st, a)
  {
    match a
    case Lock(t) => CallInv(st, t)
    case Spawn(t, pid) => CallInv(st, t) && PidInv(st, pid)
    case SpawnFails(t) => CallInv(st, t)
    case Insert(t) => CallInv(st, t) && PidInv(st, st.calls[t].pid)
    case Orphan(pid) => PidInv(st, pid)
    case Die(pid, _) => PidInv(st, pid) && OwnerInv(st, st.processes[pid].owner)
    case Reap(pid) => PidInv(st, pid) && OwnerInv(st, st.processes[pid].owner)
    case Lookup(id) => PidInv(st, st.reaper.pid) && OwnerInv(st, st.reaper.owner) && DeliveryInv(st, id)
    case Wait(t) => CallInv(st, t) && PidInv(st, st.calls[t].pid)
    case Deliver(id, t) => DeliveryInv(st, id) && CallInv(st, st.deliveries[id].channel) && CallInv(st, t)
    case ReceiveClosed(t) => CallInv(st, t)
    case CloseChannel(id) => DeliveryInv(st, id) && CallInv(st, st.deliveries[id].channel)
    case Delete(id) =>
      DeliveryInv(st, id) && CallInv(st, st.deliveries[id].channel) && PidInv(st, st.deliveries[id].pid)
  }

  lemma RegisteringKeepsCall(st: State, a: Action, t: Call)
    requires a.Lock? || a.Spawn? || a.SpawnFails? || a.Insert? || a.Wait? || a.ReceiveClosed?
    requires Enabled(false, st, a) && Around(st, a) && CallInv(st, t)
    ensures CallInv(Apply(false, st, a), t)
  {
    match a
    case Lock(_) =>
    case Spawn(_, _) =>
    case SpawnFails(_) =>
    case Insert(_) =>
    case Wait(_) =>
    case ReceiveClosed(_) =>
  }

  lemma DyingKeepsCall(st: State, a: Action, t: Call)
    requires a.Orphan? || a.Die? || a.Reap?
    requires Enabled(false, st, a) && Around(st, a) && CallInv(st, t)
    ensures CallInv(Apply(false, st, a), t)
  {
    match a
    case Orphan(_) =>
    case Die(_, _) =>
    case Reap(_) =>
  }

  lemma LookupKeepsCall(st: State, a: Action, t: Call)
    requires a.Lookup? && Enabled(false, st, a) && Around(st, a) && CallInv(st, t)
    ensures CallInv(Apply(false, st, a), t)
  {
    if st.reaper.owner == Some(t) { LookupKeepsOwner(st, a, t); } else { LookupKeepsOther(st, a, t); }
  }

  lemma LookupKeepsOwner(st: State, a: Action, t: Call)
    requires a.Lookup? && Enabled(false, st, a) && Around(st, a) && CallInv(st, t) && st.reaper.owner == Some(t)
    ensures CallInv(Apply(false, st, a), t)
  {
  }

  lemma LookupKeepsOther(st: State, a: Action, t: Call)
    requires a.Lookup? && Enabled(false, st, a) && Around(st, a) && CallInv(st, t) && st.reaper.owner != Some(t)
    ensures CallInv(Apply(false, st, a), t)
  {
  }

  lemma DeliveringKeepsCall(st: State, a: Action, t: Call)
    requires a.Deliver? || a.CloseChannel? || a.Delete?
    requires Enabled(false, st, a) && Around(st, a) && CallInv(st, t)
    ensures CallInv(Apply(false, st, a), t)
  {
    match a
    case Deliver(_, _) =>
    case CloseChannel(_) =>
    case Delete(_) =>
  }

  lemma RegisteringKeepsPid(st: State, a: Action, pid: int)
    requires a.Lock? || a.Spawn? || a.SpawnFails? || a.Insert? || a.Wait? || a.ReceiveClosed?
    requires Enabled(false, st, a) && Around(st, a) && PidInv(st, pid)
    ensures PidInv(Apply(false, st, a), pid)
  {
    match a
    case Lock(_) =>
    case Spawn(_, _) =>
    case SpawnFails(_) =>
    case Insert(_) =>
    case Wait(_) =>
    case ReceiveClosed(_) =>
  }

  lemma DyingKeepsPid(st: State, a: Action, pid: int)
    requires a.Orphan? || a.Die? || a.Reap?
    requires Enabled(false, st, a) && Around(st, a) && PidInv(st, pid)
    ensures PidInv(Apply(false, st, a), pid)
  {
    match a
    case Orphan(_) =>
    case Die(_, _) =>
    case Reap(_) =>
  }

  lemma LookupKeepsPid(st: State, a: Action, pid: int)
    requires a.Lookup? && Enabled(false, st, a) && Around(st, a) && PidInv(st, pid)
    ensures PidInv(Apply(false, st, a), pid)
  {
  }

  lemma DeliveringKeepsPid(st: State, a: Action, pid: int)
    requires a.Deliver? || a.CloseChannel? || a.Delete?
    requires Enabled(false, st, a) && Around(st, a) && PidInv(st, pid)
    ensures PidInv(Apply(false, st, a), pid)
  {
    match a
    case Deliver(_, _) =>
    case CloseChannel(_) =>
    case Delete(_) =>
  }

  lemma RegisteringKeepsDelivery(st: State, a: Action, id: nat)
    requires a.Lock? || a.Spawn? || a.SpawnFails? || a.Insert? || a.Wait? || a.ReceiveClosed?
    requires Enabled(false, st, a) && Around(st, a) && DeliveryInv(st, id)
    ensures DeliveryInv(Apply(false, st, a), id)
  {
    match a
    case Lock(_) =>
    case Spawn(_, _) =>
    case SpawnFails(_) =>
    case Insert(_) =>
    case Wait(_) =>
    case ReceiveClosed(_) =>
  }

  lemma DyingKeepsDelivery(st: State, a: Action, id: nat)
    requires a.Orphan? || a.Die? || a.Reap?
    requires Enabled(false, st, a) && Around(st, a) && DeliveryInv(st, id)
    ensures DeliveryInv(Apply(false, st, a), id)
  {
    match a
    case Orphan(_) =>
    case Die(_, _) =>
    case Reap(_) =>
  }

  lemma LookupKeepsDelivery(st: State, a: Action, id: nat)
    requires a.Lookup? && Enabled(false, st, a) && Around(st, a) && DeliveryInv(st, id)
    ensures DeliveryInv(Apply(false, st, a), id)
  {
  }

  lemma DeliveringKeepsDelivery(st: State, a: Action, id: nat)
    requires a.Deliver? || a.CloseChannel? || a.Delete?
    requires Enabled(false, st, a) && Around(st, a) && DeliveryInv(st, id)
    ensures DeliveryInv(Apply(false, st, a), id)
  {
    match a
    case Deliver(_, _) =>
    case CloseChannel(_) =>
    case Delete(_) =>
  }

  lemma InvAround(st: State, a: Action)
    requires Inv(st) && Enabled(false, st, a)
    ensures Around(st, a)
  {
  }

  lemma StepKeeps(st: State, a: Action)
    requires Inv(st) && Enabled(false, st, a)
    ensures Inv(Apply(false, st, a))
  {
    var u := Apply(false, st, a);
    InvAround(st, a);
    forall t ensures CallInv(u, t) { assert CallInv(st, t); StepKeepsCall(st, a, t); }
    forall pid ensures PidInv(u, pid) { assert PidInv(st, pid); StepKeepsPid(st, a, pid); }
    forall id ensures DeliveryInv(u, id) { assert DeliveryInv(st, id); StepKeepsDelivery(st, a, id); }
  }

  predicate Registering(a: Action) {
    a.Lock? || a.Spawn? || a.SpawnFails? || a.Insert? || a.Wait? || a.ReceiveClosed?
  }

  predicate Delivering(a: Action) {
    a.Deliver? || a.CloseChannel? || a.Delete?
  }

  lemma StepKeepsCall(st: State, a: Action, t: Call)
    requires Enabled(false, st, a) && Around(st, a) && CallInv(st, t)
    ensures CallInv(Apply(false, st, a), t)
  {
    if Registering(a) { RegisteringKeepsCall(st, a, t); }
    else if Delivering(a) { DeliveringKeepsCall(st, a, t); }
    else if a.Lookup? { LookupKeepsCall(st, a, t); }
    else { DyingKeepsCall(st, a, t); }
  }

  lemma StepKeepsPid(st: State, a: Action, pid: int)
    requires Enabled(false, st, a) && Around(st, a) && PidInv(st, pid)
    ensures PidInv(Apply(false, st, a), pid)
  {
    if Registering(a) { RegisteringKeepsPid(st, a, pid); }
    else if Delivering(a) { DeliveringKeepsPid(st, a, pid); }
    else if a.Lookup? { LookupKeepsPid(st, a, pid); }
    else { DyingKeepsPid(st, a, pid); }
  }

  lemma StepKeepsDelivery(st: State, a: Action, id: nat)
    requires Enabled(false, st, a) && Around(st, a) && DeliveryInv(st, id)
    ensures DeliveryInv(Apply(false, st, a), id)
  {
    if Registering(a) { RegisteringKeepsDelivery(st, a, id); }
    else if Delivering(a) { DeliveringKeepsDelivery(st, a, id); }
    else if a.Lookup? { LookupKeepsDelivery(st, a, id); }
    else { DyingKeepsDelivery(st, a, id); }
  }

  lemma {:induction false} RunInv(run: seq<State>, n: nat)
    requires IsRun(false, run) && n < |run|
    ensures Inv(run[n])
  {
    if n > 0 {
      RunInv(run, n - 1);
      assert StepAt(false, run, n - 1);
      var a :| Enabled(false, run[n - 1], a) && run[n] == Apply(false, run[n - 1], a);
      StepKeeps(run[n - 1], a);
    }
  }

  /** A call that was made is never made again: its number stays with what has become of it. */
  lemma {:induction false} CallsStay(prompt: bool, run: seq<State>, m: nat, n: nat, t: Call)
    requires IsRun(prompt, run) && m <= n < |run| && t in run[m].calls
    ensures t in run[n].calls && (run[m].calls[t].SpawnFailed? ==> run[n].calls[t].SpawnFailed?)
    decreases n
  {
    if m < n {
      CallsStay(prompt, run, m, n - 1, t);
      assert StepAt(prompt, run, n - 1);
      var a :| Enabled(prompt, run[n - 1], a) && run[n] == Apply(prompt, run[n - 1], a);
      CallStays(prompt, run[n - 1], a, t);
    }
  }

  lemma CallStays(prompt: bool, st: State, a: Action, t: Call)
    requires Enabled(prompt, st, a) && t in st.calls
    ensures var u := Apply(prompt, st, a);
      t in u.calls && (st.calls[t].SpawnFailed? ==> u.calls[t].SpawnFailed?)
  {
    match a
    case Lock(_) =>
    case Spawn(_, _) =>
    case SpawnFails(_) =>
    case Insert(_) =>
    case Orphan(_) =>
    case Die(_, _) =>
    case Reap(_) =>
    case Lookup(_) =>
    case Wait(_) =>
    case Deliver(_, _) =>
    case ReceiveClosed(_) =>
    case CloseChannel(_) =>
    case Delete(_) =>
  }

  // ---- What a waiter gets --------------------------------------------------------------------

  /** The waiter of a registered pid receives exactly the status the kernel reported for that child, in
      every interleaving: even when the child dies before it is registered or before anyone waits. */
  lemma WaiterGetsKernelStatus(run: seq<State>, n: nat, t: Call, status: int)
    requires IsRun(false, run) && n < |run|
    requires t in run[n].waiters && run[n].waiters[t] == Got(status)
    ensures t in run[n].kernel && run[n].kernel[t] == status
  {
    RunInv(run, n);
    assert CallInv(run[n], t);
  }

  /** Nobody sends on or closes a closed channel, and no waiter meets one. */
  lemma ChannelsCloseOnce(run: seq<State>, n: nat, id: nat)
    requires IsRun(false, run) && n < |run|
    ensures !SendsOnClosed(run[n])
    ensures id in run[n].deliveries && run[n].deliveries[id].phase != Closed ==>
      run[n].deliveries[id].channel !in run[n].closed
    ensures forall t :: !Enabled(false, run[n], ReceiveClosed(t))
  {
    RunInv(run, n);
    assert DeliveryInv(run[n], id);
    forall other | other in run[n].deliveries && run[n].deliveries[other].phase == Sending
      ensures run[n].deliveries[other].channel !in run[n].closed
    {
      assert DeliveryInv(run[n], other);
    }
    forall t ensures !Enabled(false, run[n], ReceiveClosed(t)) { assert CallInv(run[n], t); }
  }

  /** The steps that move statuses along; calls, spawning and dying come from outside. */
  predicate Internal(a: Action) {
    a.Insert? || a.SpawnFails? || a.Reap? || a.Lookup? || a.Deliver? || a.CloseChannel? || a.Delete?
  }

  /** While a waiter waits for a child that has died, its status is on the move: some step can be taken. */
  lemma WaiterIsNeverStranded(run: seq<State>, n: nat, t: Call)
    requires IsRun(false, run) && n < |run|
    requires t in run[n].waiters && run[n].waiters[t].Receiving? && t in run[n].kernel
    ensures exists a :: Internal(a) && Enabled(false, run[n], a)
  {
    RunInv(run, n);
    var st := run[n];
    assert CallInv(st, t);
    var pid := st.calls[t].pid;
    if st.mutex.Some? {
      var u := st.mutex.value;
      assert CallInv(st, u);
      assert Enabled(false, st, Insert(u)) || Enabled(false, st, SpawnFails(u));
    } else if st.reaper.Holding? {
      var id := UnusedId(st);
      assert Enabled(false, st, Lookup(id));
    } else {
      match st.place[t]
      case InKernel => assert Enabled(false, st, Reap(pid));
      case InDelivery(id) => assert Enabled(false, st, Deliver(id, t));
    }
  }

  function Dead(st: State): set<int> {
    set pid | pid in st.processes && st.processes[pid].status.Some?
  }

  function InPhase(m: map<nat, Delivery>, phase: Phase): set<nat> {
    set id | id in m && m[id].phase == phase
  }

  /** What is left to do for a delivery. */
  function PhaseWork(phase: Phase): nat {
    match phase case Sending => 4 case Sent => 3 case Closed => 2
  }

  function DeliveriesWork(m: map<nat, Delivery>): nat {
    4 * |InPhase(m, Sending)| + 3 * |InPhase(m, Sent)| + 2 * |InPhase(m, Closed)|
  }

  lemma InPhaseWithout(m: map<nat, Delivery>, id: nat, phase: Phase)
    ensures |InPhase(m, phase)| ==
            |InPhase(m - {id}, phase)| + if id in m && m[id].phase == phase then 1 else 0
  {
    assert InPhase(m - {id}, phase) == InPhase(m, phase) - {id};
  }

  lemma WorkWithout(m: map<nat, Delivery>, id: nat)
    ensures DeliveriesWork(m) == DeliveriesWork(m - {id}) + if id in m then PhaseWork(m[id].phase) else 0
  {
    InPhaseWithout(m, id, Sending);
    InPhaseWithout(m, id, Sent);
    InPhaseWithout(m, id, Closed);
  }

  lemma WorkWith(m: map<nat, Delivery>, id: nat, d: Delivery)
    ensures DeliveriesWork(m[id := d]) ==
            DeliveriesWork(m) - (if id in m then PhaseWork(m[id].phase) else 0) + PhaseWork(d.phase)
  {
    WorkWithout(m, id);
    WorkWithout(m[id := d], id);
    assert m[id := d] - {id} == m - {id};
  }

  /** A bound on the steps that can be taken without an event from outside. */
  function Work(st: State): nat {
    6 * |Dead(st)| + (if st.reaper.Holding? then 5 else 0) + (if st.mutex.Some? then 1 else 0)
    + DeliveriesWork(st.deliveries)
  }

  /** Every step that is taken without an event from outside uses up work, in every run. */
  lemma InternalStepsUseWork(run: seq<State>, n: nat, a: Action)
    requires IsRun(false, run) && n < |run| && Internal(a) && Enabled(false, run[n], a)
    ensures Work(Apply(false, run[n], a)) < Work(run[n])
  {
    RunInv(run, n);
    InvAround(run[n], a);
    if a.Insert? || a.SpawnFails? || a.Reap? {
      CollectingUsesWork(run[n], a);
    } else if a.Lookup? {
      LookupUsesWork(run[n], a.id);
    } else {
      DeliveringUsesWork(run[n], a);
    }
  }

  lemma CollectingUsesWork(st: State, a: Action)
    requires Enabled(false, st, a) && Around(st, a) && (a.Insert? || a.SpawnFails? || a.Reap?)
    ensures Work(Apply(false, st, a)) < Work(st)
  {
    var u := Apply(false, st, a);
    if a.Reap? { assert Dead(u) == Dead(st) - {a.pid}; } else { assert Dead(u) == Dead(st); }
  }

  lemma LookupUsesWork(st: State, id: nat)
    requires Enabled(false, st, Lookup(id))
    ensures Work(Apply(false, st, Lookup(id))) < Work(st)
  {
    var u := Apply(false, st, Lookup(id));
    assert Dead(u) == Dead(st);
    if st.reaper.pid in st.pids {
      WorkWith(st.deliveries, id, Delivery(st.pids[st.reaper.pid], st.reaper.pid, st.reaper.status, Sending));
    }
  }

  lemma DeliveringUsesWork(st: State, a: Action)
    requires Enabled(false, st, a) && (a.Deliver? || a.CloseChannel? || a.Delete?)
    ensures Work(Apply(false, st, a)) < Work(st)
  {
    var u, d := Apply(false, st, a), st.deliveries[a.id];
    assert Dead(u) == Dead(st);
    if a.Deliver? {
      WorkWith(st.deliveries, a.id, d.(phase := Sent));
    } else if a.CloseChannel? {
      WorkWith(st.deliveries, a.id, d.(phase := Closed));
    } else {
      WorkWithout(st.deliveries, a.id);
    }
  }

  /** So between events from outside everything comes to rest, and then the waiter of every child that has
      died has got its status. */
  lemma AtRestWaitersHaveTheirStatus(run: seq<State>, n: nat, t: Call)
    requires IsRun(false, run) && n < |run|
    requires forall a :: Internal(a) ==> !Enabled(false, run[n], a)
    requires t in run[n].waiters && t in run[n].kernel
    ensures run[n].waiters[t] == Got(run[n].kernel[t])
  {
    if run[n].waiters[t].Receiving? { WaiterIsNeverStranded(run, n, t); }
    WaiterGetsKernelStatus(run, n, t, run[n].waiters[t].status);
  }

  lemma UnusedId(st: State) returns (id: nat)
    ensures id !in st.deliveries && forall t :: t in st.place && st.place[t].Delivered? ==> st.place[t].id != id
  {
    var used := st.deliveries.Keys + set t | t in st.place && st.place[t].Delivered? :: st.place[t].id;
    id := AboveAll(used);
    forall t | t in st.place && st.place[t].Delivered? ensures st.place[t].id != id {
      assert st.place[t].id in used;
    }
  }

  lemma AboveAll(used: set<nat>) returns (id: nat)
    ensures forall x :: x in used ==> x < id
  {
    if used == {} {
      id := 0;
    } else {
      var x :| x in used;
      var rest := AboveAll(used - {x});
      id := rest + x + 1;
      forall y | y in used ensures y < id {
        if y != x { assert y in used - {x}; }
      }
    }
  }

  // ---- With early reuse it goes wrong --------------------------------------------------------

  lemma Extend(prompt: bool, run: seq<State>, a: Action) returns (longer: seq<State>)
    requires IsRun(prompt, run) && Enabled(prompt, run[|run| - 1], a)
    ensures IsRun(prompt, longer) && longer[|longer| - 1] == Apply(prompt, run[|run| - 1], a)
  {
    longer := run + [Apply(prompt, run[|run| - 1], a)];
    forall n | 0 <= n < |longer| - 1 ensures StepAt(prompt, longer, n) {
      if n < |run| - 1 {
        assert StepAt(prompt, run, n);
        var b :| Enabled(prompt, run[n], b) && run[n + 1] == Apply(prompt, run[n], b);
        assert Enabled(prompt, longer[n], b) && longer[n + 1] == Apply(prompt, longer[n], b);
      } else {
        assert Enabled(prompt, longer[n], a) && longer[n + 1] == Apply(prompt, longer[n], a);
      }
    }
  }

  /** If the kernel hands out a pid while the table still has its old entry, the late deletion removes the
      new child's entry, and its waiter is told 0 whatever the child's status was. */
  lemma EarlyReuseLosesStatus() returns (run: seq<State>)
    ensures IsRun(true, run) && var st := run[|run| - 1];
      1 in st.waiters && st.waiters[1] == Got(0) && 1 in st.kernel && st.kernel[1] == 9
  {
    run := OneDelivered();
    run := Extend(true, run, Lock(1));
    run := Extend(true, run, Spawn(1, 5));
    run := Extend(true, run, Insert(1));
    run := Extend(true, run, Delete(0));
    run := Extend(true, run, Die(5, 9));
    run := Extend(true, run, Wait(1));
  }

  /** Sending on a closed channel is a run-time panic. */
  ghost predicate SendsOnClosed(st: State) {
    exists id :: id in st.deliveries && st.deliveries[id].phase == Sending && st.deliveries[id].channel in st.closed
  }

  /** If the process that was given the pid too early dies, and is reaped before the old entry is deleted, its
      status is sent on the closed channel of that entry. */
  lemma EarlyReusePanics() returns (run: seq<State>)
    ensures IsRun(true, run) && SendsOnClosed(run[|run| - 1])
  {
    run := OneDelivered();
    run := Extend(true, run, Orphan(5));
    run := Extend(true, run, Die(5, 9));
    run := Extend(true, run, Reap(5));
    run := Extend(true, run, Lookup(1));
    assert run[|run| - 1].deliveries[1] == Delivery(0, 5, 9, Sending);
  }

  /** Pid 5 was delivered and is free again, but its entry is not deleted yet. */
  lemma OneDelivered() returns (run: seq<State>)
    ensures IsRun(true, run) && var st := run[|run| - 1];
      && st.mutex == None && st.reaper == Waiting && 5 !in st.processes && 1 !in st.calls && 1 !in st.waiters
      && st.pids == map[5 := 0] && st.deliveries == map[0 := Delivery(0, 5, 7, Closed)]
      && st.closed == {0} && st.place == map[0 := Delivered(0)]
  {
    run := OneWaiting();
    run := Extend(true, run, Die(5, 7));
    run := Extend(true, run, Reap(5));
    run := Extend(true, run, Lookup(0));
    run := Extend(true, run, Deliver(0, 0));
    run := Extend(true, run, CloseChannel(0));
  }

  /** Call 0 has registered a child with pid 5 and waits for it. */
  lemma OneWaiting() returns (run: seq<State>)
    ensures IsRun(true, run) && var st := run[|run| - 1];
      && st.mutex == None && st.reaper == Waiting && st.processes == map[5 := Process(Some(0), None)]
      && 1 !in st.calls && st.pids == map[5 := 0] && st.deliveries == map[] && st.closed == {}
      && st.waiters == map[0 := Receiving(0)] && st.place == map[0 := InKernel]
  {
    run := [INIT];
    run := Extend(true, run, Lock(0));
    run := Extend(true, run, Spawn(0, 5));
    run := Extend(true, run, Insert(0));
    run := Extend(true, run, Wait(0));
  }

  /** Likewise for a child nobody registered: its status, collected but not yet looked up, goes to the
      process that was given its pid in between. */
  lemma EarlyReuseMisdelivers() returns (run: seq<State>)
    ensures IsRun(true, run) && var st := run[|run| - 1];
      0 in st.waiters && st.waiters[0] == Got(7) && 0 !in st.kernel
  {
    run := CollectedTooEarly();
    run := Extend(true, run, Lookup(0));
    run := Extend(true, run, Deliver(0, 0));
  }

  /** The status of an orphan is collected, and its pid is given to a process that is waited for. */
  lemma CollectedTooEarly() returns (run: seq<State>)
    ensures IsRun(true, run) && var st := run[|run| - 1];
      && st.mutex == None && st.waiters == map[0 := Receiving(0)] && st.kernel == map[]
      && st.reaper == Holding(5, 7, None) && st.pids == map[5 := 0] && st.deliveries == map[] && st.closed == {}
      && st.place == map[0 := InKernel]
  {
    run := [INIT];
    run := Extend(true, run, Orphan(5));
    run := Extend(true, run, Die(5, 7));
    run := Extend(true, run, Reap(5));
    run := Extend(true, run, Lock(0));
    run := Extend(true, run, Spawn(0, 5));
    run := Extend(true, run, Insert(0));
    run := Extend(true, run, Wait(0));
  }
}
