/**
 `RunSlice` (base/mgr/pm.go): the main loop visits the services of one slice, and a goroutine per
 service waits for its dependencies, hands the command to the manager, and releases the service's gate
 from the hooks the job fires. The goroutines interleave freely; a run is any sequence of their steps.
 */
module SliceRun {
  import opened Wrappers
  import opened Settings
  import opened WaitMachine

  /** The slice, the services whose start condition holds, and those with a readiness hook
      (an output match or a running delay) besides the exit hook. */
  datatype Config = Config(slice: seq<Startup>, met: set<string>, signals: set<string>)

  function Keys(c: Config): set<string> {
    set s | s in c.slice :: s.key
  }

  predicate ValidConfig(c: Config) {
    forall i, j :: 0 <= i < j < |c.slice| ==> c.slice[i].key != c.slice[j].key
  }

  /** What has become of a service. `id` is the job id the hooks release: the manager gives a command
      with an empty id a fresh one. */
  datatype Proc =
    | Idle
    | Skipped
    | Waiting(pos: nat, ok: bool)
    | Abandoned
    | Started(id: string, ready: bool, exit: Option<bool>)
    | Refusing(id: string)
    | Refused(id: string)

  datatype State = State(gates: Gates, procs: seq<Proc>, next: nat, returned: bool)

  datatype Action =
    | Visit
    | Receive(i: nat)
    | GiveUp(i: nat)
    | Dispatch(i: nat, id: string, accepted: bool)
    | Report(i: nat)
    | Ready(i: nat)
    | Exit(i: nat, ok: bool)
    | Return

  function Init(c: Config): State {
    State(NewGates(Keys(c)), seq(|c.slice|, i => Idle), 0, false)
  }

  /** The id a command carries once it was handed to the manager: its key, unless that is empty. An
      empty id survives only when no factory was found, which is an error. */
  predicate IdAfterRun(c: Config, key: string, id: string, accepted: bool) {
    if key != "" then id == key else id !in Keys(c) || (id == "" && !accepted)
  }

  predicate AllClosed(g: Gates) {
    forall k :: k in g ==> g[k].closed
  }

  predicate Enabled(c: Config, st: State, a: Action) {
    && |st.procs| == |c.slice|
    && match a
       case Visit => st.next < |c.slice|
       case Receive(i) =>
         && i < |c.slice| && st.procs[i].Waiting? && st.procs[i].pos < |c.slice[i].after|
         && (var d := c.slice[i].after[st.procs[i].pos]; d in st.gates ==> st.gates[d].closed)
       case GiveUp(i) => i < |c.slice| && st.procs[i] == Waiting(|c.slice[i].after|, false)
       case Dispatch(i, id, accepted) =>
         && i < |c.slice| && st.procs[i] == Waiting(|c.slice[i].after|, true)
         && IdAfterRun(c, c.slice[i].key, id, accepted)
       case Report(i) => i < |c.slice| && st.procs[i].Refusing?
       case Ready(i) => i < |c.slice| && st.procs[i].Started? && !st.procs[i].ready && c.slice[i].key in c.signals
       case Exit(i, _) => i < |c.slice| && st.procs[i].Started? && st.procs[i].exit == None
       case Return => st.next == |c.slice| && AllClosed(st.gates) && !st.returned
  }

  function Apply(c: Config, st: State, a: Action): State
    requires Enabled(c, st, a)
  {
    match a
    case Visit =>
      var s := c.slice[st.next];
      if s.key in c.met
      then st.(procs := st.procs[st.next := Waiting(0, true)], next := st.next + 1)
      else st.(procs := st.procs[st.next := Skipped], next := st.next + 1, gates := Released(st.gates, s.key, false))
    case Receive(i) =>
      var d := c.slice[i].after[st.procs[i].pos];
      var ok := st.procs[i].ok && (d in st.gates ==> st.gates[d].state);
      st.(procs := st.procs[i := Waiting(st.procs[i].pos + 1, ok)])
    case GiveUp(i) => st.(procs := st.procs[i := Abandoned], gates := Released(st.gates, c.slice[i].key, false))
    case Dispatch(i, id, accepted) =>
      st.(procs := st.procs[i := if accepted then Started(id, false, None) else Refusing(id)])
    case Report(i) =>
      st.(procs := st.procs[i := Refused(st.procs[i].id)], gates := Released(st.gates, st.procs[i].id, false))
    case Ready(i) =>
      st.(procs := st.procs[i := st.procs[i].(ready := true)], gates := Released(st.gates, st.procs[i].id, true))
    case Exit(i, ok) =>
      st.(procs := st.procs[i := st.procs[i].(exit := Some(ok))], gates := Released(st.gates, st.procs[i].id, ok))
    case Return => st.(returned := true)
  }

  ghost predicate Next(c: Config, s: State, t: State) {
    exists a :: Enabled(c, s, a) && t == Apply(c, s, a)
  }

  ghost predicate StepAt(c: Config, run: seq<State>, n: nat) {
    n + 1 < |run| && Next(c, run[n], run[n + 1])
  }

  ghost predicate IsRun(c: Config, run: seq<State>) {
    && |run| > 0 && run[0] == Init(c)
    && forall n :: 0 <= n < |run| - 1 ==> StepAt(c, run, n)
  }

  // ---- What the states of a service mean -----------------------------------------------------

  /** The command was handed to the manager. */
  predicate Dispatched(p: Proc) {
    p.Started? || p.Refusing? || p.Refused?
  }

  /** The service ran: it signalled readiness or ended in success. */
  predicate CameUp(p: Proc) {
    p.Started? && (p.ready || p.exit == Some(true))
  }

  /** The service will never run. */
  predicate Failed(p: Proc) {
    p.Skipped? || p.Abandoned? || p.Refusing? || p.Refused?
  }

  /** A reason for a dependent to give up. */
  predicate LetDown(p: Proc) {
    p.Skipped? || p.Abandoned? || p.Refused? || (p.Started? && p.exit == Some(false))
  }

  /** The hooks of this service release an id no gate has. */
  predicate IdLost(c: Config, st: State, i: nat) {
    && i < |c.slice| && i < |st.procs|
    && Dispatched(st.procs[i]) && st.procs[i].id != c.slice[i].key
  }

  /** Service `i` waits for service `j` of the same slice. */
  predicate WaitsFor(c: Config, i: nat, j: nat) {
    i < |c.slice| && j < |c.slice| && c.slice[j].key in c.slice[i].after
  }

  ghost predicate DependenciesUp(c: Config, st: State, i: nat, upTo: nat)
    requires i < |c.slice| == |st.procs| && upTo <= |c.slice[i].after|
  {
    forall j, n :: 0 <= j < |c.slice| && 0 <= n < upTo && c.slice[i].after[n] == c.slice[j].key ==> CameUp(st.procs[j])
  }

  /** The gates of the first `upTo` names of service `i` have been gone through. */
  predicate GatesPassed(c: Config, st: State, i: nat, upTo: nat)
    requires i < |c.slice| && upTo <= |c.slice[i].after|
  {
    Passable(st.gates, c.slice[i].after[..upTo])
  }

  ghost predicate SomeLetDown(c: Config, st: State, i: nat)
    requires i < |c.slice| == |st.procs|
  {
    exists j :: 0 <= j < |c.slice| && WaitsFor(c, i, j) && LetDown(st.procs[j])
  }

  ghost predicate GateInv(c: Config, st: State, i: nat)
    requires i < |c.slice| == |st.procs| && c.slice[i].key in st.gates
  {
    var key, gate := c.slice[i].key, st.gates[c.slice[i].key];
    match st.procs[i]
    case Idle => !gate.closed
    case Waiting(_, _) => !gate.closed
    case Skipped => gate == Gate(true, false)
    case Abandoned => gate == Gate(true, false)
    case Refusing(id) => !gate.closed && (id == key || id !in st.gates)
    case Refused(id) => if id == key then gate == Gate(true, false) else !gate.closed && id !in st.gates
    case Started(id, ready, exit) =>
      if id == key then
        && (gate.closed <==> ready || exit.Some?)
        && (gate.closed && gate.state ==> ready || exit == Some(true))
        && (gate.closed && !gate.state ==> exit == Some(false))
      else !gate.closed && id !in st.gates
  }

  ghost predicate ProcInv(c: Config, st: State, i: nat)
    requires i < |c.slice| == |st.procs|
  {
    var p := st.procs[i];
    && (p.Idle? <==> st.next <= i)
    && (p.Waiting? ==>
         && p.pos <= |c.slice[i].after|
         && GatesPassed(c, st, i, p.pos)
         && (p.ok ==> DependenciesUp(c, st, i, p.pos))
         && (!p.ok ==> SomeLetDown(c, st, i)))
    && (p.Abandoned? ==> SomeLetDown(c, st, i))
    && (p.Skipped? ==> c.slice[i].key !in c.met)
    && (!p.Idle? && !p.Skipped? ==> c.slice[i].key in c.met)
    && (Dispatched(p) ==> DependenciesUp(c, st, i, |c.slice[i].after|))
    && (Dispatched(p) ==> GatesPassed(c, st, i, |c.slice[i].after|))
    && (Dispatched(p) && p.id != c.slice[i].key ==> c.slice[i].key == "")
  }

  ghost predicate Inv(c: Config, st: State) {
    && ValidConfig(c)
    && |st.procs| == |c.slice| && st.next <= |c.slice| && st.gates.Keys == Keys(c)
    && (forall i :: 0 <= i < |c.slice| ==> GateInv(c, st, i))
    && (forall i :: 0 <= i < |c.slice| ==> ProcInv(c, st, i))
    && (st.returned ==> st.next == |c.slice| && AllClosed(st.gates))
  }

  // ---- The invariant over every run ----------------------------------------------------------

  lemma KeyIndex(c: Config, k: string) returns (i: nat)
    requires k in Keys(c)
    ensures i < |c.slice| && c.slice[i].key == k
  {
    var s :| s in c.slice && s.key == k;
    i :| 0 <= i < |c.slice| && c.slice[i] == s;
  }

  lemma InitInv(c: Config)
    requires ValidConfig(c)
    ensures Inv(c, Init(c))
  {
    forall i | 0 <= i < |c.slice| ensures c.slice[i].key in Keys(c) {
      assert c.slice[i] in c.slice;
    }
  }

  /** Which service an action moves, if it moves one. */
  function Mover(st: State, a: Action): Option<nat> {
    match a
    case Visit => Some(st.next)
    case Return => None
    case Receive(i) => Some(i)
    case GiveUp(i) => Some(i)
    case Dispatch(i, _, _) => Some(i)
    case Report(i) => Some(i)
    case Ready(i) => Some(i)
    case Exit(i, _) => Some(i)
  }

  /** A step changes the state of its own service only. */
  lemma StepMovesOne(c: Config, st: State, a: Action)
    requires Inv(c, st) && Enabled(c, st, a)
    ensures var t := Apply(c, st, a);
      && |t.procs| == |st.procs| && t.gates.Keys == st.gates.Keys
      && (Mover(st, a) == None ==> t.procs == st.procs)
      && (Mover(st, a).Some? ==> Mover(st, a).value < |st.procs|)
      && (Mover(st, a).Some? ==> t.procs == st.procs[Mover(st, a).value := t.procs[Mover(st, a).value]])
      && (forall k :: k in st.gates && st.gates[k].closed ==> t.gates[k].closed)
  {
  }

  /** What has come up, let others down, failed or been dispatched stays so. */
  predicate ProcFollows(p: Proc, q: Proc) {
    && (CameUp(p) ==> CameUp(q))
    && (LetDown(p) ==> LetDown(q))
    && (Failed(p) ==> Failed(q))
    && (Dispatched(p) ==> Dispatched(q))
  }

  predicate Follows(st: State, t: State) {
    && |st.procs| == |t.procs| && t.gates.Keys == st.gates.Keys
    && (forall j :: 0 <= j < |st.procs| ==> ProcFollows(st.procs[j], t.procs[j]))
    && (forall k :: k in st.gates && st.gates[k].closed ==> t.gates[k].closed)
  }

  lemma MoverFollows(c: Config, st: State, a: Action, i: nat)
    requires Inv(c, st) && Enabled(c, st, a) && Mover(st, a) == Some(i)
    ensures i < |st.procs| == |Apply(c, st, a).procs| && ProcFollows(st.procs[i], Apply(c, st, a).procs[i])
  {
    assert ProcInv(c, st, i);
  }

  lemma StepFollows(c: Config, st: State, a: Action)
    requires Inv(c, st) && Enabled(c, st, a)
    ensures Follows(st, Apply(c, st, a))
  {
    StepMovesOne(c, st, a);
    if Mover(st, a).Some? { MoverFollows(c, st, a, Mover(st, a).value); }
  }

  /** A step only touches the gate of the service it moves. */
  lemma StepGates(c: Config, st: State, a: Action, j: nat)
    requires Inv(c, st) && Enabled(c, st, a) && j < |c.slice| && Mover(st, a) != Some(j)
    ensures c.slice[j].key in st.gates && Apply(c, st, a).gates[c.slice[j].key] == st.gates[c.slice[j].key]
  {
    assert c.slice[j] in c.slice;
    if Mover(st, a).Some? {
      var i := Mover(st, a).value;
      assert GateInv(c, st, i);
      assert c.slice[i].key != c.slice[j].key;
    }
  }

  lemma StepGateInv(c: Config, st: State, a: Action, j: nat)
    requires Inv(c, st) && Enabled(c, st, a) && j < |c.slice|
    ensures |Apply(c, st, a).procs| == |c.slice| && c.slice[j].key in Apply(c, st, a).gates
    ensures GateInv(c, Apply(c, st, a), j)
  {
    StepMovesOne(c, st, a);
    assert c.slice[j] in c.slice;
    assert GateInv(c, st, j);
    if Mover(st, a) != Some(j) {
      StepGates(c, st, a, j);
    } else {
      assert ProcInv(c, st, j);
    }
  }

  /** The facts about the other services that a service remembers survive a step. */
  lemma StepRemembers(c: Config, st: State, a: Action, i: nat)
    requires Inv(c, st) && Enabled(c, st, a) && i < |c.slice|
    ensures var t := Apply(c, st, a);
      && |t.procs| == |c.slice|
      && (SomeLetDown(c, st, i) ==> SomeLetDown(c, t, i))
      && (forall n :: 0 <= n <= |c.slice[i].after| && DependenciesUp(c, st, i, n) ==> DependenciesUp(c, t, i, n))
      && (forall n :: 0 <= n <= |c.slice[i].after| && GatesPassed(c, st, i, n) ==> GatesPassed(c, t, i, n))
  {
    var t := Apply(c, st, a);
    StepFollows(c, st, a);
    if SomeLetDown(c, st, i) {
      var j :| 0 <= j < |c.slice| && WaitsFor(c, i, j) && LetDown(st.procs[j]);
      assert LetDown(t.procs[j]);
    }
  }

  lemma StepProcInv(c: Config, st: State, a: Action, i: nat)
    requires Inv(c, st) && Enabled(c, st, a) && i < |c.slice|
    ensures |Apply(c, st, a).procs| == |c.slice| && ProcInv(c, Apply(c, st, a), i)
  {
    StepMovesOne(c, st, a);
    if a == Receive(i) {
      ReceiveProcInv(c, st, i);
    } else {
      StepRemembers(c, st, a, i);
      if Mover(st, a) == Some(i) { MoverProcInv(c, st, a, i); } else { OtherProcInv(c, st, a, i); }
    }
  }

  lemma OtherProcInv(c: Config, st: State, a: Action, i: nat)
    requires Inv(c, st) && Enabled(c, st, a) && i < |c.slice| && Mover(st, a) != Some(i)
    ensures |Apply(c, st, a).procs| == |c.slice| && ProcInv(c, Apply(c, st, a), i)
  {
    StepMovesOne(c, st, a);
    StepRemembers(c, st, a, i);
    assert ProcInv(c, st, i);
    assert Apply(c, st, a).next <= i <==> st.next <= i;
  }

  lemma MoverProcInv(c: Config, st: State, a: Action, i: nat)
    requires Inv(c, st) && Enabled(c, st, a) && i < |c.slice| && Mover(st, a) == Some(i) && a != Receive(i)
    ensures |Apply(c, st, a).procs| == |c.slice| && ProcInv(c, Apply(c, st, a), i)
  {
    StepRemembers(c, st, a, i);
    assert ProcInv(c, st, i);
  }

  lemma ReceiveProcInv(c: Config, st: State, i: nat)
    requires Inv(c, st) && Enabled(c, st, Receive(i))
    ensures ProcInv(c, Apply(c, st, Receive(i)), i)
  {
    var t := Apply(c, st, Receive(i));
    assert ProcInv(c, st, i);
    StepRemembers(c, st, Receive(i), i);
    ReceiveReads(c, st, i);
    var d, pos := c.slice[i].after[st.procs[i].pos], st.procs[i].pos;
    assert c.slice[i].after[..pos + 1] == c.slice[i].after[..pos] + [d];
    if t.procs[i].ok {
      ReceivedUp(c, st, t, i, pos);
    } else if st.procs[i].ok {
      var j :| 0 <= j < |c.slice| && c.slice[j].key == d;
      assert LetDown(t.procs[j]);
    }
  }

  lemma ReceivedUp(c: Config, st: State, t: State, i: nat, pos: nat)
    requires i < |c.slice| == |st.procs| == |t.procs| && pos < |c.slice[i].after|
    requires st.procs[i].Waiting? && t.procs == st.procs[i := t.procs[i]]
    requires DependenciesUp(c, st, i, pos)
    requires forall j :: 0 <= j < |c.slice| && c.slice[j].key == c.slice[i].after[pos] ==> CameUp(st.procs[j])
    ensures DependenciesUp(c, t, i, pos + 1)
  {
    forall j, n | 0 <= j < |c.slice| && 0 <= n < pos + 1 && c.slice[i].after[n] == c.slice[j].key
      ensures CameUp(t.procs[j])
    {
      assert CameUp(st.procs[j]);
    }
  }

  /** What the flag behind a closed gate says about the service it belongs to. */
  lemma ReceiveReads(c: Config, st: State, i: nat)
    requires Inv(c, st) && Enabled(c, st, Receive(i))
    ensures var d := c.slice[i].after[st.procs[i].pos];
      forall j :: 0 <= j < |c.slice| && c.slice[j].key == d ==>
        d in st.gates && (if st.gates[d].state then CameUp(st.procs[j]) else LetDown(st.procs[j]) && WaitsFor(c, i, j))
    ensures var d := c.slice[i].after[st.procs[i].pos];
      d in st.gates ==> exists j :: 0 <= j < |c.slice| && c.slice[j].key == d
  {
    var d := c.slice[i].after[st.procs[i].pos];
    forall j | 0 <= j < |c.slice| && c.slice[j].key == d
      ensures d in st.gates
      ensures if st.gates[d].state then CameUp(st.procs[j]) else LetDown(st.procs[j]) && WaitsFor(c, i, j)
    {
      assert c.slice[j] in c.slice;
      assert GateInv(c, st, j);
    }
    if d in st.gates {
      var j := KeyIndex(c, d);
    }
  }

  lemma StepInv(c: Config, st: State, a: Action)
    requires Inv(c, st) && Enabled(c, st, a)
    ensures Inv(c, Apply(c, st, a))
  {
    StepMovesOne(c, st, a);
    forall i | 0 <= i < |c.slice| ensures GateInv(c, Apply(c, st, a), i) { StepGateInv(c, st, a, i); }
    forall i | 0 <= i < |c.slice| ensures ProcInv(c, Apply(c, st, a), i) { StepProcInv(c, st, a, i); }
  }

  /** The action between two consecutive states of a run. */
  lemma RunStep(c: Config, run: seq<State>, n: nat) returns (a: Action)
    requires IsRun(c, run) && n + 1 < |run|
    ensures Enabled(c, run[n], a) && run[n + 1] == Apply(c, run[n], a)
  {
    assert StepAt(c, run, n);
    a :| Enabled(c, run[n], a) && run[n + 1] == Apply(c, run[n], a);
  }

  lemma {:induction false} RunInv(c: Config, run: seq<State>, n: nat)
    requires ValidConfig(c) && IsRun(c, run) && n < |run|
    ensures Inv(c, run[n])
  {
    if n == 0 {
      InitInv(c);
    } else {
      RunInv(c, run, n - 1);
      var a := RunStep(c, run, n - 1);
      StepInv(c, run[n - 1], a);
    }
  }
}
