/**
 The operations on the table of port forwards and its firewall rules (apps/plugins/socat/plugin/socat.go),
 as functions of the state before a call.
 */
module ForwardTable {
  import opened Wrappers
  import opened Firewall
  import opened FirewallTheorems
  import opened PortForward

  /** The ports in `order`, from the `i`th on, whose forwards are of the namespace. */
  function Matching(rules: map<int, Rule>, namespace: string, order: seq<int>, i: nat): (ports: seq<int>)
    requires Known(rules, order) && i <= |order|
    ensures Known(rules, ports)
    ensures forall p :: p in ports ==> p in order && p in rules && InNamespace(namespace, rules[p].id)
    ensures forall k :: i <= k < |order| && InNamespace(namespace, rules[order[k]].id) ==> order[k] in ports
    ensures forall p :: p in ports ==> exists k :: i <= k < |order| && order[k] == p
    decreases |order| - i
  {
    if i == |order| then []
    else if InNamespace(namespace, rules[order[i]].id) then [order[i]] + Matching(rules, namespace, order, i + 1)
    else Matching(rules, namespace, order, i + 1)
  }

  lemma {:induction false} MatchingDistinct(rules: map<int, Rule>, namespace: string, order: seq<int>, i: nat)
    requires Known(rules, order) && Distinct(order) && i <= |order|
    ensures Distinct(Matching(rules, namespace, order, i))
    decreases |order| - i
  {
    if i < |order| {
      MatchingDistinct(rules, namespace, order, i + 1);
      var rest := Matching(rules, namespace, order, i + 1);
      forall k | 0 <= k < |rest| ensures rest[k] != order[i] {
        assert rest[k] in rest;
        var n :| i + 1 <= n < |order| && order[n] == rest[k];
      }
    }
  }

  /** The forwards that do not belong to the namespace. */
  function OutsideOf(rules: map<int, Rule>, namespace: string): map<int, Rule> {
    map p | p in rules && !InNamespace(namespace, rules[p].id) :: rules[p]
  }

  lemma MatchingIsNamespace(rules: map<int, Rule>, namespace: string, order: seq<int>)
    requires Known(rules, order) && Set(order) == rules.Keys
    ensures rules - Set(Matching(rules, namespace, order, 0)) == OutsideOf(rules, namespace)
  {
    forall p | p in rules && InNamespace(namespace, rules[p].id) ensures p in Matching(rules, namespace, order, 0) {
      assert p in Set(order);
      var k :| 0 <= k < |order| && order[k] == p;
    }
  }

  // ---- The operations on the table -----------------------------------------------------------

  /** One call. `works` says whether the firewall command does, for a removal how many of the drop commands
      do; `listed` whether the ruleset can be read; `order` is the order in which the map is gone through. */
  datatype Op =
    | SetForward(namespace: string, ip: string, host: Host, dest: int, works: bool)
    | RemoveForward(namespace: string, host: Host, dest: int, listed: bool, drops: nat)
    | RemoveNamespace(namespace: string, order: seq<int>, listed: bool, drops: nat)

  ghost predicate Legal(t: Table, op: Op) {
    op.RemoveNamespace? ==> Known(t.rules, op.order) && Distinct(op.order) && Set(op.order) == t.rules.Keys
  }

  /** Why a call is refused before the firewall is touched. */
  function Refusal(t: Table, op: Op): Outcome {
    match op
    case SetForward(_, _, host, _, _) =>
      if GetSource(host) == None then InvalidHost else if host.port in t.rules then PortInUse else Ok
    case RemoveForward(namespace, host, dest, _, _) =>
      if GetSource(host) == None then InvalidHost
      else if host.port !in t.rules then NoForward
      else if t.rules[host.port].id != ForwardId(namespace, host.port, dest) then Denied
      else Ok
    case RemoveNamespace(_, _, _, _) => Ok
  }

  /** The forwards that a call sets out to remove. */
  function Targets(t: Table, op: Op): (ports: seq<int>)
    requires Legal(t, op)
    ensures Known(t.rules, ports)
  {
    match op
    case SetForward(_, _, _, _, _) => []
    case RemoveForward(_, host, _, _, _) => if Refusal(t, op) == Ok then [host.port] else []
    case RemoveNamespace(namespace, order, _, _) => Matching(t.rules, namespace, order, 0)
  }

  /** The forward that a call sets. */
  function NewRule(op: Op): Rule
    requires op.SetForward? && GetSource(op.host).Some?
  {
    Rule(ForwardId(op.namespace, op.host.port, op.dest), GetSource(op.host).value, op.dest, op.ip)
  }

  function OutcomeOf(t: Table, op: Op): Outcome
    requires Legal(t, op)
  {
    if Refusal(t, op) != Ok then Refusal(t, op)
    else if op.SetForward? then if op.works then Ok else CommandFailed
    else
      var ports := Targets(t, op);
      if ports == [] || DropsAll(t.chain, RenderAll(t.rules, ports), op.listed, op.drops) then Ok else CommandFailed
  }

  function Step(t: Table, op: Op): Table
    requires Legal(t, op)
  {
    if op.SetForward? then
      if OutcomeOf(t, op) == Ok then
        var rule := NewRule(op);
        Table(t.rules[op.host.port := rule], Added(t.chain, t.next, Render(rule)), t.next + |Render(rule)|)
      else t
    else
      var ports := Targets(t, op);
      if ports == [] then t
      else
        Table(if OutcomeOf(t, op) == Ok then t.rules - Set(ports) else t.rules,
              AfterDrops(t.chain, RenderAll(t.rules, ports), op.listed, op.drops), t.next)
  }

  lemma TargetsDistinct(t: Table, op: Op)
    requires Legal(t, op)
    ensures Distinct(Targets(t, op))
  {
    if op.RemoveNamespace? { MatchingDistinct(t.rules, op.namespace, op.order, 0); }
  }

  lemma StepKeepsTable(t: Table, op: Op)
    requires Consistent(t) && Legal(t, op)
    ensures Consistent(Step(t, op))
  {
    var ports := Targets(t, op);
    TargetsDistinct(t, op);
    if op.SetForward? {
      if OutcomeOf(t, op) == Ok {
        AddingKeepsStep(t, NewRule(op));
      }
    } else if ports != [] {
      if OutcomeOf(t, op) == Ok {
        DroppingKeepsStep(t, ports, op.listed, op.drops);
      } else {
        FailedDropping(t, ports, op.listed, op.drops);
      }
    }
  }

  /** How often a name stands in a list. */
  function Named(names: seq<string>, p: string): nat {
    if names == [] then 0 else (if names[0] == p then 1 else 0) + Named(names[1..], p)
  }

  /** How many rules with this body a host string asks for: one each time it names the protocol, from the address
      it names to the target; tcp and any address if it names none. */
  function RulesAsked(host: Host, ip: string, dest: int, b: Body): nat {
    if b.Forward? && b.host == host.port && b.ip == ip && b.dest == dest
       && b.source == (match host.address case None => "0.0.0.0" case Some(a) => a)
    then Named(match host.protocols case None => ["tcp"] case Some(ps) => ps, b.protocol)
    else 0
  }

  lemma {:induction false} RenderTimes(src: string, protocols: seq<string>, host: int, ip: string, dest: int,
                                       bodies: seq<Body>, b: Body)
    requires |bodies| == |protocols|
    requires forall k :: 0 <= k < |bodies| ==> bodies[k] == Forward(src, protocols[k], host, ip, dest)
    ensures Times(bodies, b) ==
            if b.Forward? && b.source == src && b.host == host && b.ip == ip && b.dest == dest
            then Named(protocols, b.protocol) else 0
    decreases |bodies|
  {
    if bodies != [] { RenderTimes(src, protocols[1..], host, ip, dest, bodies[1..], b); }
  }

  /** The rules added for an accepted host are those that it asks for. */
  lemma RenderedAsAsked(t: Table, rule: Rule, host: Host, ip: string, dest: int, b: Body)
    requires Consistent(t) && GetSource(host) == Some(rule.source) && rule.port == dest && rule.ip == ip
    ensures Count(Added(t.chain, t.next, Render(rule)), b) == Count(t.chain, b) + RulesAsked(host, ip, dest, b)
  {
    CountAdded(t.chain, t.next, Render(rule), b);
    RenderTimes(rule.source.ip, rule.source.protocols, rule.source.port, ip, dest, Render(rule), b);
  }

  /** A namespace is removed exactly if it has no forwards, or if the firewall drops all their rules. */
  lemma RemovesNamespace(t: Table, namespace: string, order: seq<int>, listed: bool, drops: nat)
    requires Consistent(t) && Legal(t, RemoveNamespace(namespace, order, listed, drops))
    ensures var op, ports := RemoveNamespace(namespace, order, listed, drops), Matching(t.rules, namespace, order, 0);
      && (OutcomeOf(t, op) == Ok <==>
           ports == [] ||
           (listed && |RenderAll(t.rules, ports)| <= drops && NoDoubles(t.rules, ports) && NoneShort(t, ports)))
      && (OutcomeOf(t, op) == Ok ==> Step(t, op).rules == OutsideOf(t.rules, namespace))
      && (OutcomeOf(t, op) != Ok ==> Step(t, op).rules == t.rules)
      && (forall b :: b !in RenderAll(t.rules, ports) ==> Count(Step(t, op).chain, b) == Count(t.chain, b))
  {
    var op, ports := RemoveNamespace(namespace, order, listed, drops), Matching(t.rules, namespace, order, 0);
    TargetsDistinct(t, op);
    MatchingIsNamespace(t.rules, namespace, order);
    DroppingSucceedsIff(t, ports, listed, drops);
    if ports == [] { assert t.rules - Set(ports) == t.rules; }
    forall b | b !in RenderAll(t.rules, ports) ensures Count(Step(t, op).chain, b) == Count(t.chain, b) {
      DropCounts(t, RenderAll(t.rules, ports), listed, drops, b);
    }
  }

  lemma OneTarget(t: Table, p: int)
    requires p in t.rules
    ensures Known(t.rules, [p]) && RenderAll(t.rules, [p]) == Render(t.rules[p]) && Set([p]) == {p} && Distinct([p])
    ensures NoDoubles(t.rules, [p]) <==> Distinct(t.rules[p].source.protocols)
    ensures NoneShort(t, [p]) <==> !Short(t, p)
  {
    assert [p][1..] == [] && [p][0] == p;
    assert RenderAll(t.rules, []) == [];
  }
}
