/**
 What any sequence of calls leaves of the table of port forwards and its firewall rules: which forwards lose
 a rule to a removal that fails half-way, and that those never leave the table again.
 */
module SocatTheorems {
  import opened Wrappers
  import opened Firewall
  import opened FirewallTheorems
  import opened PortForward
  import opened ForwardTable

  // ---- One call ------------------------------------------------------------------------------

  /** How many rules a removal gets to drop. */
  function Dropped(t: Table, op: Op): (n: nat)
    requires Legal(t, op) && !op.SetForward?
    ensures n <= |RenderAll(t.rules, Targets(t, op))|
  {
    DropCount(t.chain, RenderAll(t.rules, Targets(t, op)), op.listed, op.drops)
  }

  /** A removal that fails, but not before it has dropped a rule. */
  predicate Torn(t: Table, op: Op)
    requires Legal(t, op)
  {
    !op.SetForward? && OutcomeOf(t, op) == CommandFailed && Dropped(t, op) > 0
  }

  /** A removal that fails has dropped a rule of the forward at `p`. */
  ghost predicate Loses(t: Table, op: Op, p: int)
    requires Legal(t, op)
  {
    Torn(t, op) && Hit(RenderAll(t.rules, Targets(t, op)), Dropped(t, op), p)
  }

  /** A call makes exactly those forwards short of a rule that it drops a rule of and does not remove. */
  lemma StepShort(t: Table, op: Op, p: int)
    requires Consistent(t) && Legal(t, op)
    ensures Short(Step(t, op), p) <==> Short(t, p) || Loses(t, op, p)
  {
    if op.SetForward? { SetShort(t, op, p); } else if Targets(t, op) != [] { RemovalShort(t, op, p); }
  }

  lemma SetShort(t: Table, op: Op, p: int)
    requires Consistent(t) && Legal(t, op) && op.SetForward?
    ensures Short(Step(t, op), p) <==> Short(t, p)
  {
    if OutcomeOf(t, op) == Ok {
      AddingKeepsStep(t, NewRule(op));
    }
  }

  lemma RemovalShort(t: Table, op: Op, p: int)
    requires Consistent(t) && Legal(t, op) && !op.SetForward? && Targets(t, op) != []
    ensures Short(Step(t, op), p) <==> Short(t, p) || Loses(t, op, p)
  {
    TargetsDistinct(t, op);
    if OutcomeOf(t, op) == Ok {
      DroppingKeepsStep(t, Targets(t, op), op.listed, op.drops);
    } else {
      FailedDropping(t, Targets(t, op), op.listed, op.drops);
    }
  }

  /** When a removal is torn: it goes for some forward, the ruleset can be read and holds all the rules asked
      for, the first drop command works, and a later one does not, or a protocol is named twice. */
  lemma TornIff(t: Table, op: Op)
    requires Consistent(t) && Legal(t, op)
    ensures var ports := Targets(t, op);
      Torn(t, op) <==>
        && ports != [] && op.listed && op.drops > 0 && FindRules(t.chain, RenderAll(t.rules, ports)).Some?
        && (op.drops < |RenderAll(t.rules, ports)| || !NoDoubles(t.rules, ports))
  {
    var ports := Targets(t, op);
    if !op.SetForward? && ports != [] && FindRules(t.chain, RenderAll(t.rules, ports)).Some? {
      FoundTornIff(t, op, ports);
    }
  }

  lemma FoundTornIff(t: Table, op: Op, ports: seq<int>)
    requires Consistent(t) && Legal(t, op) && !op.SetForward? && ports == Targets(t, op) && ports != []
    requires FindRules(t.chain, RenderAll(t.rules, ports)).Some?
    ensures Torn(t, op) <==>
      op.listed && op.drops > 0 && (op.drops < |RenderAll(t.rules, ports)| || !NoDoubles(t.rules, ports))
  {
    var bodies := RenderAll(t.rules, ports);
    TargetsDistinct(t, op);
    RenderAllDistinctIff(t.rules, ports);
    RenderAllEmptyIff(t.rules, ports);
    DropsOfFound(t.chain, t.next, bodies, op.listed, op.drops);
  }

  lemma HitFirst(bodies: seq<Body>, n: nat)
    requires 0 < n <= |bodies| && bodies[0].Forward?
    ensures Hit(bodies, n, bodies[0].host)
  {
    assert bodies[..n][0] == bodies[0];
  }

  /** A torn removal leaves some forward short of a rule. */
  lemma TornMakesShort(t: Table, op: Op) returns (p: int)
    requires Consistent(t) && Legal(t, op) && Torn(t, op)
    ensures Loses(t, op, p) && p in Targets(t, op) && Short(Step(t, op), p)
  {
    var bodies, n := RenderAll(t.rules, Targets(t, op)), Dropped(t, op);
    RenderAllHosts(t.rules, Targets(t, op), bodies[0]);
    p := bodies[0].host;
    HitFirst(bodies, n);
    StepShort(t, op, p);
  }

  /** The forward cannot be removed: it lacks a rule, or names a protocol twice. */
  ghost predicate Unremovable(t: Table, p: int) {
    p in t.rules && (Short(t, p) || !Distinct(t.rules[p].source.protocols))
  }

  /** No call removes such a forward, nor anything else together with it, and none replaces it. */
  lemma CallLeavesUnremovable(t: Table, op: Op, p: int)
    requires Consistent(t) && Legal(t, op) && Unremovable(t, p)
    ensures var t' := Step(t, op);
      && p in t'.rules && t'.rules[p] == t.rules[p] && Unremovable(t', p) && (Short(t, p) ==> Short(t', p))
      && (p in Targets(t, op) ==> OutcomeOf(t, op) == CommandFailed && t'.rules == t.rules)
  {
    var ports := Targets(t, op);
    StepShort(t, op, p);
    TargetsDistinct(t, op);
    if !op.SetForward? {
      DroppingSucceedsIff(t, ports, op.listed, op.drops);
      if p in ports {
        var k :| 0 <= k < |ports| && ports[k] == p;
        assert !(Distinct(t.rules[ports[k]].source.protocols) && !Short(t, ports[k]));
      }
    }
  }

  /** A removal that goes for the forward at `p` fails, and a new one for the port finds it in use. */
  predicate Refuses(t: Table, op: Op, p: int)
    requires Legal(t, op)
  {
    && (p in Targets(t, op) ==> OutcomeOf(t, op) == CommandFailed)
    && (op.SetForward? && op.host.port == p && GetSource(op.host).Some? ==> OutcomeOf(t, op) == PortInUse)
  }

  lemma UnremovableRefuses(t: Table, op: Op, p: int)
    requires Consistent(t) && Legal(t, op) && Unremovable(t, p)
    ensures Refuses(t, op, p)
  {
    CallLeavesUnremovable(t, op, p);
  }

  /** Any other forward goes as soon as its own namespace asks for it while the firewall works. */
  lemma RemovableGoes(t: Table, p: int, namespace: string, host: Host, dest: int, drops: nat)
    requires Consistent(t) && p in t.rules && !Unremovable(t, p) && t.rules[p].id == ForwardId(namespace, p, dest)
    requires host.port == p && GetSource(host).Some? && drops >= |t.rules[p].source.protocols|
    ensures var op := RemoveForward(namespace, host, dest, true, drops);
      OutcomeOf(t, op) == Ok && Step(t, op).rules == t.rules - {p}
  {
    OneTarget(t, p);
    DroppingSucceedsIff(t, [p], true, drops);
  }

  /** Each try at a forward that names a protocol twice costs it a rule, until one of its rules is not found. */
  lemma DoubledProtocolStays(t: Table, op: Op, p: int)
    requires Consistent(t) && Legal(t, op) && op.RemoveForward? && Targets(t, op) == [p] && op.listed && op.drops > 0
    requires !Distinct(t.rules[p].source.protocols)
    ensures OutcomeOf(t, op) == CommandFailed && Step(t, op).rules == t.rules
    ensures if FindRules(t.chain, Render(t.rules[p])).Some? then Loses(t, op, p) else Step(t, op) == t
  {
    OneTarget(t, p);
    CallLeavesUnremovable(t, op, p);
    TornIff(t, op);
    if Torn(t, op) { var q := TornMakesShort(t, op); }
  }

  // ---- Any sequence of calls -----------------------------------------------------------------

  /** No forwards yet; the chain may hold rules that somebody else put there. */
  ghost predicate Start(t: Table) {
    t.rules == map[] && Sound(t.chain, t.next) && t.next > 0 && forall b: Body :: b.Forward? ==> Count(t.chain, b) == 0
  }

  ghost predicate StepAt(ts: seq<Table>, ops: seq<Op>, n: nat)
    requires n < |ops| < |ts|
  {
    Legal(ts[n], ops[n]) && ts[n + 1] == Step(ts[n], ops[n])
  }

  ghost predicate IsRun(ts: seq<Table>, ops: seq<Op>) {
    && |ts| == |ops| + 1 && Start(ts[0])
    && forall n :: 0 <= n < |ops| ==> StepAt(ts, ops, n)
  }

  /** Whatever calls were made and however they ended, the chain never holds a rule that the table does not
      ask for, and every forward that is not short of a rule has exactly its own. */
  lemma {:induction false} RunKeeps(ts: seq<Table>, ops: seq<Op>, n: nat)
    requires IsRun(ts, ops) && n <= |ops|
    ensures Consistent(ts[n])
    ensures forall b: Body :: b.Forward? && !Short(ts[n], b.host) ==> Count(ts[n].chain, b) == Wanted(ts[n].rules, b)
  {
    if n > 0 {
      RunKeeps(ts, ops, n - 1);
      assert StepAt(ts, ops, n - 1);
      StepKeepsTable(ts[n - 1], ops[n - 1]);
    }
    forall b: Body | b.Forward? && !Short(ts[n], b.host) ensures Count(ts[n].chain, b) == Wanted(ts[n].rules, b) {
      assert !Missing(ts[n], b.host, b);
    }
  }

  ghost predicate LosesAt(ts: seq<Table>, ops: seq<Op>, m: nat, p: int)
    requires m < |ops| < |ts|
  {
    Legal(ts[m], ops[m]) && Loses(ts[m], ops[m], p)
  }

  ghost predicate TornAt(ts: seq<Table>, ops: seq<Op>, m: nat)
    requires m < |ops| < |ts|
  {
    Legal(ts[m], ops[m]) && Torn(ts[m], ops[m])
  }

  lemma StepShortAt(ts: seq<Table>, ops: seq<Op>, n: nat, p: int)
    requires IsRun(ts, ops) && n < |ops|
    ensures Short(ts[n + 1], p) <==> Short(ts[n], p) || LosesAt(ts, ops, n, p)
  {
    RunKeeps(ts, ops, n);
    assert StepAt(ts, ops, n);
    StepShort(ts[n], ops[n], p);
  }

  lemma NoneShortAtStart(t: Table, p: int)
    requires Start(t)
    ensures !Short(t, p)
  {
    forall b ensures !Missing(t, p, b) {}
  }

  ghost predicate LostBefore(ts: seq<Table>, ops: seq<Op>, n: nat, p: int)
    requires n <= |ops| < |ts|
  {
    exists m :: 0 <= m < n && LosesAt(ts, ops, m, p)
  }

  lemma LostBeforeStep(ts: seq<Table>, ops: seq<Op>, n: nat, p: int)
    requires n < |ops| < |ts|
    ensures LostBefore(ts, ops, n + 1, p) <==> LostBefore(ts, ops, n, p) || LosesAt(ts, ops, n, p)
  {
    if m :| 0 <= m < n && LosesAt(ts, ops, m, p) { assert LostBefore(ts, ops, n + 1, p); }
  }

  /** A forward is short of a rule exactly if some removal before failed after dropping one of its rules. */
  lemma {:induction false} ShortIff(ts: seq<Table>, ops: seq<Op>, n: nat, p: int)
    requires IsRun(ts, ops) && n <= |ops|
    ensures Short(ts[n], p) <==> LostBefore(ts, ops, n, p)
  {
    if n > 0 {
      ShortIff(ts, ops, n - 1, p);
      StepShortAt(ts, ops, n - 1, p);
      LostBeforeStep(ts, ops, n - 1, p);
    } else {
      NoneShortAtStart(ts[0], p);
    }
  }

  /** The chain is exactly what the table asks for as long as, and only as long as, no removal failed after
      dropping a rule. */
  lemma InStepIffNeverTorn(ts: seq<Table>, ops: seq<Op>, n: nat)
    requires IsRun(ts, ops) && n <= |ops|
    ensures InStep(ts[n]) <==> forall m :: 0 <= m < n ==> !TornAt(ts, ops, m)
  {
    RunKeeps(ts, ops, n);
    InStepIff(ts[n]);
    if m :| 0 <= m < n && TornAt(ts, ops, m) {
      var p := TornShows(ts, ops, n, m);
    } else {
      forall p ensures !Short(ts[n], p) {
        ShortIff(ts, ops, n, p);
        if LostBefore(ts, ops, n, p) { var m := LostIsTorn(ts, ops, n, p); }
      }
    }
  }

  lemma LostIsTorn(ts: seq<Table>, ops: seq<Op>, n: nat, p: int) returns (m: nat)
    requires n <= |ops| < |ts| && LostBefore(ts, ops, n, p)
    ensures m < n && TornAt(ts, ops, m)
  {
    m :| 0 <= m < n && LosesAt(ts, ops, m, p);
  }

  lemma TornShows(ts: seq<Table>, ops: seq<Op>, n: nat, m: nat) returns (p: int)
    requires IsRun(ts, ops) && m < n <= |ops| && TornAt(ts, ops, m)
    ensures Short(ts[n], p)
  {
    RunKeeps(ts, ops, m);
    p := TornMakesShort(ts[m], ops[m]);
    assert LosesAt(ts, ops, m, p);
    assert LostBefore(ts, ops, n, p);
    ShortIff(ts, ops, n, p);
  }

  lemma OneCallLeaves(ts: seq<Table>, ops: seq<Op>, n: nat, p: int)
    requires IsRun(ts, ops) && n < |ops| && Unremovable(ts[n], p)
    ensures Unremovable(ts[n + 1], p) && ts[n + 1].rules[p] == ts[n].rules[p]
  {
    RunKeeps(ts, ops, n);
    assert StepAt(ts, ops, n);
    CallLeavesUnremovable(ts[n], ops[n], p);
  }

  lemma {:induction false} StaysUnremovable(ts: seq<Table>, ops: seq<Op>, m: nat, n: nat, p: int)
    requires IsRun(ts, ops) && m <= n <= |ops| && Unremovable(ts[m], p)
    ensures Unremovable(ts[n], p) && ts[n].rules[p] == ts[m].rules[p]
    decreases n
  {
    if m < n {
      StaysUnremovable(ts, ops, m, n - 1, p);
      OneCallLeaves(ts, ops, n - 1, p);
    }
  }

  /** A forward that lacks a rule, or names a protocol twice, stays in the table for good: its port is in use,
      and every later removal that goes for it fails, with all it would have taken along. */
  lemma StaysForGood(ts: seq<Table>, ops: seq<Op>, m: nat, n: nat, p: int)
    requires IsRun(ts, ops) && m <= n <= |ops| && Unremovable(ts[m], p)
    ensures Unremovable(ts[n], p) && ts[n].rules[p] == ts[m].rules[p]
    ensures forall op :: Legal(ts[n], op) ==> Refuses(ts[n], op, p)
  {
    StaysUnremovable(ts, ops, m, n, p);
    RunKeeps(ts, ops, n);
    forall op | Legal(ts[n], op) ensures Refuses(ts[n], op, p) { UnremovableRefuses(ts[n], op, p); }
  }
}
