/**
 Port forwards (apps/plugins/socat/plugin/socat.go, rule.go): a table of forwards by host port, kept in step
 with the firewall chain.
 */
module PortForward {
  import opened Wrappers
  import opened Text
  import opened Firewall
  import opened FirewallTheorems

  const ADDRESS_ALL := "0.0.0.0"
  const DEFAULT_PROTOCOLS := ["tcp"]

  /** The parts of a host string: `[address:]port[|protocol+protocol...]`. */
  datatype Host = Host(address: Option<string>, port: int, protocols: Option<seq<string>>)

  datatype Source = Source(ip: string, port: int, protocols: seq<string>)

  datatype Rule = Rule(id: string, source: Source, port: int, ip: string)

  datatype Outcome = Ok | InvalidHost | PortInUse | CommandFailed | NoForward | Denied

  predicate ValidProtocol(p: string) {
    p == "tcp" || p == "udp"
  }

  predicate NamesKnown(protocols: seq<string>) {
    protocols != [] && forall k :: 0 <= k < |protocols| ==> protocols[k] == "tcp" || protocols[k] == "udp"
  }

  /** The checks of `getSource`: a host is accepted exactly if its port is in range and every protocol it names
      is known, and the source is what it names, or tcp from anywhere. Splitting a string gives at least one
      protocol. */
  function GetSource(h: Host): (r: Option<Source>)
    ensures r.Some? <==> 0 < h.port < 65536 && (h.protocols.Some? ==> NamesKnown(h.protocols.value))
    ensures r.Some? ==> 0 < r.value.port < 65536 && r.value.port == h.port
    ensures r.Some? ==> r.value.protocols == match h.protocols case None => ["tcp"] case Some(ps) => ps
    ensures r.Some? ==> r.value.ip == match h.address case None => "0.0.0.0" case Some(a) => a
    ensures r.Some? ==> r.value.protocols != [] && forall p :: p in r.value.protocols ==> ValidProtocol(p)
  {
    var ps := if h.protocols.Some? then h.protocols.value else DEFAULT_PROTOCOLS;
    if ps == [] || exists k :: 0 <= k < |ps| && !ValidProtocol(ps[k]) then None
    else if h.port <= 0 || h.port >= 65536 then None
    else Some(Source(if h.address.Some? then h.address.value else ADDRESS_ALL, h.port, ps))
  }

  function Decimal(n: int): string {
    if n < 0 then "-" + Numeral(-n) else Numeral(n)
  }

  function ForwardId(namespace: string, host: int, dest: int): string {
    "socat-" + namespace + "-" + Decimal(host) + "-" + Decimal(dest)
  }

  /** What `RemoveAll` takes for a forward of the namespace. */
  predicate InNamespace(namespace: string, id: string) {
    "socat-" + namespace <= id
  }

  /** `Rules`: one body for each protocol. */
  function Render(r: Rule): (bodies: seq<Body>)
    ensures |bodies| == |r.source.protocols|
    ensures forall k :: 0 <= k < |bodies| ==>
      bodies[k] == Forward(r.source.ip, r.source.protocols[k], r.source.port, r.ip, r.port)
  {
    seq(|r.source.protocols|,
        k requires 0 <= k < |r.source.protocols| =>
          Forward(r.source.ip, r.source.protocols[k], r.source.port, r.ip, r.port))
  }

  /** There is a forward at each of the ports. */
  predicate Known(rules: map<int, Rule>, ports: seq<int>) {
    forall k :: 0 <= k < |ports| ==> ports[k] in rules
  }

  function RenderAll(rules: map<int, Rule>, ports: seq<int>): seq<Body>
    requires Known(rules, ports)
  {
    if ports == [] then []
    else Render(rules[ports[0]]) + RenderAll(rules, ports[1..])
  }

  // ---- The table and the chain ---------------------------------------------------------------

  /** Every forward stands under its own host port and renders at least one rule. */
  predicate Keyed(rules: map<int, Rule>) {
    forall p :: p in rules ==> rules[p].source.port == p && rules[p].source.protocols != []
  }

  /** How often the table asks for a body. */
  function Wanted(rules: map<int, Rule>, b: Body): nat {
    if b.Forward? && b.host in rules then Times(Render(rules[b.host]), b) else 0
  }

  /** The forwards, the chain, and the handle the kernel gives out next. */
  datatype Table = Table(rules: map<int, Rule>, chain: seq<Entry>, next: nat)

  /** The chain holds exactly the rules rendered from the table, besides what others put in it. */
  ghost predicate InStep(t: Table) {
    forall b: Body :: b.Forward? ==> Count(t.chain, b) == Wanted(t.rules, b)
  }

  /** The chain holds no rule that the table does not ask for. */
  ghost predicate Bounded(t: Table) {
    forall b: Body :: b.Forward? ==> Count(t.chain, b) <= Wanted(t.rules, b)
  }

  ghost predicate Consistent(t: Table) {
    Keyed(t.rules) && Bounded(t) && Sound(t.chain, t.next) && t.next > 0
  }

  predicate Missing(t: Table, p: int, b: Body) {
    b.Forward? && b.host == p && Count(t.chain, b) < Wanted(t.rules, b)
  }

  /** The forward at this port lacks a rule. */
  ghost predicate Short(t: Table, p: int) {
    exists b :: Missing(t, p, b)
  }

  ghost predicate NoneShort(t: Table, ports: seq<int>) {
    forall k :: 0 <= k < |ports| ==> !Short(t, ports[k])
  }

  /** The chain is in step exactly if no forward lacks a rule. */
  lemma InStepIff(t: Table)
    requires Bounded(t)
    ensures InStep(t) <==> forall p :: !Short(t, p)
  {
    if forall p :: !Short(t, p) {
      forall b: Body | b.Forward? ensures Count(t.chain, b) == Wanted(t.rules, b) {
        assert !Short(t, b.host);
        assert !Missing(t, b.host, b);
      }
    }
  }

  lemma {:induction false} TimesConcat(a: seq<Body>, c: seq<Body>, b: Body)
    ensures Times(a + c, b) == Times(a, b) + Times(c, b)
  {
    if a == [] {
      assert a + c == c;
    } else {
      assert (a + c)[1..] == a[1..] + c;
      TimesConcat(a[1..], c, b);
    }
  }

  lemma {:induction false} TimesIn(bodies: seq<Body>, b: Body)
    ensures Times(bodies, b) > 0 <==> b in bodies
  {
    if bodies != [] {
      TimesIn(bodies[1..], b);
      assert b in bodies <==> b == bodies[0] || b in bodies[1..];
    }
  }

  lemma DistinctTail<T>(s: seq<T>)
    requires Distinct(s) && s != []
    ensures Distinct(s[1..]) && s[0] !in s[1..]
  {
    assert forall k :: 0 <= k < |s[1..]| ==> s[1..][k] == s[k + 1];
  }

  lemma {:induction false} TimesOnce(bodies: seq<Body>, b: Body)
    requires Distinct(bodies) && b in bodies
    ensures Times(bodies, b) == 1
  {
    var rest := bodies[1..];
    TimesIn(rest, b);
    if bodies[0] == b {
      DistinctTail(bodies);
    } else {
      assert b in rest by {
        var k :| 0 <= k < |bodies| && bodies[k] == b;
        assert rest[k - 1] == b;
      }
      DistinctTail(bodies);
      TimesOnce(rest, b);
    }
  }

  /** A body of a rule carries the rule's host port. */
  lemma RenderedHost(r: Rule, b: Body)
    ensures b in Render(r) ==> b.Forward? && b.host == r.source.port
  {
  }

  lemma {:induction false} RenderAllTimes(rules: map<int, Rule>, ports: seq<int>, b: Body)
    requires Keyed(rules) && Known(rules, ports) && Distinct(ports)
    ensures Times(RenderAll(rules, ports), b) == if b.Forward? && b.host in ports then Wanted(rules, b) else 0
    decreases |ports|
  {
    if ports != [] {
      var rest := ports[1..];
      DistinctTail(ports);
      RenderAllTimes(rules, rest, b);
      TimesConcat(Render(rules[ports[0]]), RenderAll(rules, rest), b);
      RenderedHost(rules[ports[0]], b);
      TimesIn(Render(rules[ports[0]]), b);
      assert forall p :: p in ports <==> p == ports[0] || p in rest;
    }
  }

  lemma RenderDistinctIff(r: Rule)
    ensures Distinct(Render(r)) <==> Distinct(r.source.protocols)
  {
    var b, ps := Render(r), r.source.protocols;
    if Distinct(b) {
      forall i, j | 0 <= i < j < |ps| ensures ps[i] != ps[j] { assert b[i] != b[j]; }
    }
    if Distinct(ps) {
      forall i, j | 0 <= i < j < |b| ensures b[i] != b[j] { assert ps[i] != ps[j]; }
    }
  }

  ghost predicate NoDoubles(rules: map<int, Rule>, ports: seq<int>)
    requires Known(rules, ports)
  {
    forall k :: 0 <= k < |ports| ==> Distinct(rules[ports[k]].source.protocols)
  }

  lemma DistinctConcat<T>(a: seq<T>, b: seq<T>)
    ensures Distinct(a + b) <==> Distinct(a) && Distinct(b) && forall x :: x in a ==> x !in b
  {
    var s := a + b;
    if Distinct(s) {
      forall i, j | 0 <= i < j < |a| ensures a[i] != a[j] { assert s[i] != s[j]; }
      forall i, j | 0 <= i < j < |b| ensures b[i] != b[j] { assert s[|a| + i] != s[|a| + j]; }
      forall i, j | 0 <= i < |a| && 0 <= j < |b| ensures a[i] != b[j] { assert s[i] != s[|a| + j]; }
    }
    if Distinct(a) && Distinct(b) && forall x :: x in a ==> x !in b {
      forall i, j | 0 <= i < j < |s| ensures s[i] != s[j] {
        if j < |a| { assert a[i] != a[j]; }
        else if i >= |a| { assert b[i - |a|] != b[j - |a|]; }
        else { assert a[i] in a && b[j - |a|] in b; }
      }
    }
  }

  lemma {:induction false} RenderAllHosts(rules: map<int, Rule>, ports: seq<int>, b: Body)
    requires Keyed(rules) && Known(rules, ports)
    ensures b in RenderAll(rules, ports) ==> b.Forward? && b.host in ports
    decreases |ports|
  {
    if ports != [] {
      var p := ports[0];
      assert p in ports && p in rules && rules[p].source.port == p;
      RenderAllHosts(rules, ports[1..], b);
      RenderedHost(rules[p], b);
      assert b in RenderAll(rules, ports) <==> b in Render(rules[ports[0]]) || b in RenderAll(rules, ports[1..]);
    }
  }

  lemma RenderAllEmptyIff(rules: map<int, Rule>, ports: seq<int>)
    requires Keyed(rules) && Known(rules, ports)
    ensures RenderAll(rules, ports) == [] <==> ports == []
  {
    if ports != [] {
      var p := ports[0];
      assert p in rules && rules[p].source.protocols != [];
      assert |Render(rules[p])| > 0;
    }
  }

  lemma {:induction false} RenderAllDistinctIff(rules: map<int, Rule>, ports: seq<int>)
    requires Keyed(rules) && Known(rules, ports) && Distinct(ports)
    ensures Distinct(RenderAll(rules, ports)) <==> NoDoubles(rules, ports)
    decreases |ports|
  {
    if ports != [] {
      var rest := ports[1..];
      DistinctTail(ports);
      RenderAllDistinctIff(rules, rest);
      RenderDistinctIff(rules[ports[0]]);
      DistinctConcat(Render(rules[ports[0]]), RenderAll(rules, rest));
      forall b | b in Render(rules[ports[0]]) ensures b !in RenderAll(rules, rest) {
        RenderAllHosts(rules, rest, b);
        RenderedHost(rules[ports[0]], b);
      }
      assert forall p :: p in ports <==> p == ports[0] || p in rest;
    }
  }

  // ---- Dropping forwards ---------------------------------------------------------------------

  /** The rules of forwards that lack none are all in the chain. */
  lemma AllAreFound(t: Table, ports: seq<int>)
    requires Consistent(t) && Known(t.rules, ports) && Distinct(ports) && NoneShort(t, ports)
    ensures FindRules(t.chain, RenderAll(t.rules, ports)).Some?
  {
    var bodies := RenderAll(t.rules, ports);
    forall k | 0 <= k < |bodies| ensures HandleOf(t.chain, bodies[k]) != 0 {
      var b := bodies[k];
      RenderAllHosts(t.rules, ports, b);
      RenderAllTimes(t.rules, ports, b);
      TimesIn(bodies, b);
      assert !Missing(t, b.host, b);
      FoundIffCounted(t.chain, t.next, b);
    }
  }

  /** If the rules of forwards without a doubled protocol are all in the chain, they lack none. */
  lemma FoundLackNone(t: Table, ports: seq<int>, p: int)
    requires Consistent(t) && Known(t.rules, ports) && Distinct(ports) && NoDoubles(t.rules, ports) && p in ports
    requires FindRules(t.chain, RenderAll(t.rules, ports)).Some?
    ensures !Short(t, p)
  {
    var bodies := RenderAll(t.rules, ports);
    RenderAllDistinctIff(t.rules, ports);
    forall b ensures !Missing(t, p, b) {
      RenderAllTimes(t.rules, ports, b);
      TimesIn(bodies, b);
      if b in bodies {
        TimesOnce(bodies, b);
        FoundIffCounted(t.chain, t.next, b);
      }
    }
  }

  /** Dropping the rules of some forwards succeeds exactly if the ruleset can be read, the command works for
      each rule, none of the forwards names a protocol twice, and none of them lacks a rule. */
  lemma DroppingSucceedsIff(t: Table, ports: seq<int>, listed: bool, works: nat)
    requires Consistent(t) && Known(t.rules, ports) && Distinct(ports)
    ensures var bodies := RenderAll(t.rules, ports);
      DropsAll(t.chain, bodies, listed, works) <==>
        listed && |bodies| <= works && NoDoubles(t.rules, ports) && NoneShort(t, ports)
  {
    var bodies := RenderAll(t.rules, ports);
    RenderAllDistinctIff(t.rules, ports);
    if NoneShort(t, ports) { AllAreFound(t, ports); }
    if FindRules(t.chain, bodies).Some? {
      var hs := FindRules(t.chain, bodies).value;
      FoundHandles(t.chain, t.next, bodies, hs);
      AllSucceedIff(t.chain, hs, works);
      if NoDoubles(t.rules, ports) {
        forall k | 0 <= k < |ports| ensures !Short(t, ports[k]) { FoundLackNone(t, ports, ports[k]); }
      }
    }
  }

  /** However far the drop commands get, each body they got to loses one rule, and no other does. */
  lemma DropCounts(t: Table, bodies: seq<Body>, listed: bool, works: nat, b: Body)
    requires Sound(t.chain, t.next)
    ensures var n := DropCount(t.chain, bodies, listed, works);
      Count(AfterDrops(t.chain, bodies, listed, works), b) == Count(t.chain, b) - if b in bodies[..n] then 1 else 0
  {
    var n := DropCount(t.chain, bodies, listed, works);
    if FindRules(t.chain, bodies).Some? {
      var hs := FindRules(t.chain, bodies).value;
      if b in bodies[..n] {
        AskedAreDropped(t.chain, t.next, bodies, hs, n, b);
      } else {
        OthersKeepTheirRules(t.chain, t.next, bodies, hs, n, b);
      }
    }
  }

  lemma DropsKeepSound(t: Table, bodies: seq<Body>, listed: bool, works: nat)
    requires Sound(t.chain, t.next)
    ensures Sound(AfterDrops(t.chain, bodies, listed, works), t.next)
  {
    if FindRules(t.chain, bodies).Some? {
      var hs := FindRules(t.chain, bodies).value;
      SoundWithout(t.chain, t.next, Set(hs[..DropCount(t.chain, bodies, listed, works)]));
    }
  }

  /** One of the first `n` bodies is a rule of the forward at `p`. */
  ghost predicate Hit(bodies: seq<Body>, n: nat, p: int)
    requires n <= |bodies|
  {
    exists b :: b in bodies[..n] && b.Forward? && b.host == p
  }

  /** When the drops fail and the table stays as it is: the chain still holds nothing the table does not ask
      for, and exactly the forwards that a command got to lack a rule now, besides those that did already. */
  lemma FailedDropping(t: Table, ports: seq<int>, listed: bool, works: nat)
    requires Consistent(t) && Known(t.rules, ports)
    ensures var bodies := RenderAll(t.rules, ports);
      var t' := t.(chain := AfterDrops(t.chain, bodies, listed, works));
      && Consistent(t')
      && forall p :: Short(t', p) <==> Short(t, p) || Hit(bodies, DropCount(t.chain, bodies, listed, works), p)
  {
    var bodies := RenderAll(t.rules, ports);
    var n := DropCount(t.chain, bodies, listed, works);
    var t' := t.(chain := AfterDrops(t.chain, bodies, listed, works));
    DropsKeepSound(t, bodies, listed, works);
    forall b: Body | b.Forward? ensures Count(t'.chain, b) <= Wanted(t'.rules, b) {
      DropCounts(t, bodies, listed, works, b);
    }
    forall p ensures Short(t', p) <==> Short(t, p) || Hit(bodies, n, p) {
      if b :| Missing(t, p, b) {
        DropCounts(t, bodies, listed, works, b);
        assert Missing(t', p, b);
      }
      if b :| b in bodies[..n] && b.Forward? && b.host == p {
        DropCounts(t, bodies, listed, works, b);
        assert Missing(t', p, b);
      }
      if b :| Missing(t', p, b) {
        DropCounts(t, bodies, listed, works, b);
        assert Missing(t, p, b) || b in bodies[..n];
      }
    }
  }

  /** When the drops succeed and the forwards leave the table, no other forward gains or loses a rule. */
  lemma DroppingKeepsStep(t: Table, ports: seq<int>, listed: bool, works: nat)
    requires Consistent(t) && Known(t.rules, ports) && Distinct(ports)
    requires DropsAll(t.chain, RenderAll(t.rules, ports), listed, works)
    ensures
      var t' := Table(t.rules - Set(ports), AfterDrops(t.chain, RenderAll(t.rules, ports), listed, works), t.next);
      && Consistent(t')
      && forall p :: Short(t', p) <==> Short(t, p)
  {
    var bodies := RenderAll(t.rules, ports);
    var t' := Table(t.rules - Set(ports), AfterDrops(t.chain, bodies, listed, works), t.next);
    DroppingSucceedsIff(t, ports, listed, works);
    DropsKeepSound(t, bodies, listed, works);
    forall b: Body | b.Forward?
      ensures Count(t'.chain, b) <= Wanted(t'.rules, b)
      ensures forall p :: Missing(t', p, b) <==> Missing(t, p, b)
    {
      DroppedCount(t, ports, listed, works, b);
    }
    forall p ensures Short(t', p) <==> Short(t, p) {
      if b :| Missing(t, p, b) { assert Missing(t', p, b); }
      if b :| Missing(t', p, b) { assert Missing(t, p, b); }
    }
  }

  lemma DroppedCount(t: Table, ports: seq<int>, listed: bool, works: nat, b: Body)
    requires Consistent(t) && Known(t.rules, ports) && Distinct(ports) && b.Forward?
    requires DropsAll(t.chain, RenderAll(t.rules, ports), listed, works)
    requires NoDoubles(t.rules, ports) && NoneShort(t, ports)
    ensures var after := AfterDrops(t.chain, RenderAll(t.rules, ports), listed, works);
      if b.host in ports
      then Count(after, b) == Wanted(t.rules - Set(ports), b) == 0 && Count(t.chain, b) == Wanted(t.rules, b)
      else Count(after, b) == Count(t.chain, b) && Wanted(t.rules - Set(ports), b) == Wanted(t.rules, b)
  {
    var bodies := RenderAll(t.rules, ports);
    assert bodies[..|bodies|] == bodies;
    DropCounts(t, bodies, listed, works, b);
    RenderAllDistinctIff(t.rules, ports);
    RenderAllTimes(t.rules, ports, b);
    TimesIn(bodies, b);
    if b.host in ports {
      assert !Missing(t, b.host, b);
      if b in bodies { TimesOnce(bodies, b); }
    }
  }

  /** Adding a forward at a free port gives it all its rules, and leaves every other forward its own. */
  lemma AddingKeepsStep(t: Table, r: Rule)
    requires Consistent(t) && r.source.port !in t.rules && r.source.protocols != []
    ensures var t' := Table(t.rules[r.source.port := r], Added(t.chain, t.next, Render(r)), t.next + |Render(r)|);
      Consistent(t') && forall p :: Short(t', p) <==> Short(t, p)
  {
    var t' := Table(t.rules[r.source.port := r], Added(t.chain, t.next, Render(r)), t.next + |Render(r)|);
    CountAdded(t.chain, t.next, Render(r), Foreign(""));
    forall b: Body | b.Forward?
      ensures Count(t'.chain, b) <= Wanted(t'.rules, b)
      ensures forall p :: Missing(t', p, b) <==> Missing(t, p, b)
    {
      CountAdded(t.chain, t.next, Render(r), b);
      TimesIn(Render(r), b);
    }
    forall p ensures Short(t', p) <==> Short(t, p) {
      if b :| Missing(t, p, b) { assert Missing(t', p, b); }
      if b :| Missing(t', p, b) { assert Missing(t, p, b); }
    }
  }
}
