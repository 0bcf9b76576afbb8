/**
 The port forward manager (apps/plugins/socat/plugin/socat.go): forwards are set and removed together with
 their firewall rules, one by one or by namespace, and free ports are handed out for a while.
 */
module SocatManager {
  import opened Wrappers
  import opened Firewall
  import opened PortForward
  import opened ForwardTable
  import opened Reservation

  class Manager {
    const nft: Nft
    var rules: map<int, Rule>
    var reserved: map<int, int>

    ghost function View(): Table
      reads this, nft
    {
      Table(rules, nft.chain, nft.next)
    }

    /** The reservations and the ports that have a forward, as the runs of `Reservation` see them. */
    ghost function Ports(): State
      reads this
    {
      State(reserved, rules.Keys)
    }

    /** Holds before and after every call, whatever its outcome. */
    ghost predicate Valid()
      reads this, nft
    {
      Consistent(View()) && InRange()
    }

    ghost predicate InRange()
      reads this
    {
      (forall p :: p in rules ==> 0 < p <= LAST) && (forall p :: p in reserved ==> p <= LAST)
    }

    constructor ()
      ensures Valid() && rules == map[] && reserved == map[] && fresh(nft) && nft.chain == []
    {
      nft := new Nft();
      rules := map[];
      reserved := map[];
    }

    /** A forward is refused for a bad host or a port that has one; otherwise it stands in the table exactly if
        the firewall took all its rules. */
    method SetPortForward(namespace: string, ip: string, host: Host, dest: int, works: bool) returns (r: Outcome)
      requires Valid()
      modifies this, nft
      ensures Valid()
      ensures var op := SetForward(namespace, ip, host, dest, works);
        r == OutcomeOf(old(View()), op) && View() == Step(old(View()), op)
      ensures r == (if GetSource(host) == None then InvalidHost
                    else if host.port in old(rules) then PortInUse
                    else if !works then CommandFailed else Ok)
      ensures Ports() == if r == Ok then Next(old(Ports()), Event.Forward(host.port)) else old(Ports())
      ensures r != Ok ==> rules == old(rules) && reserved == old(reserved) && nft.chain == old(nft.chain)
      ensures r == Ok ==>
        var rule := Rule(ForwardId(namespace, host.port, dest), GetSource(host).value, dest, ip);
        && rules == old(rules)[host.port := rule] && reserved == old(reserved) - {host.port}
        && nft.chain == Added(old(nft.chain), old(nft.next), Render(rule))
      ensures r == Ok ==> forall b ::
        Count(nft.chain, b) == Count(old(nft.chain), b) + RulesAsked(host, ip, dest, b)
    {
      StepKeepsTable(View(), SetForward(namespace, ip, host, dest, works));
      var src := GetSource(host);
      if src == None {
        return InvalidHost;
      }
      var port := src.value.port;
      if port in rules {
        return PortInUse;
      }
      var rule := Rule(ForwardId(namespace, port, dest), src.value, dest, ip);
      var ok := nft.Apply(Render(rule), works);
      forall b ensures Count(Added(old(nft.chain), old(nft.next), Render(rule)), b) ==
                       Count(old(nft.chain), b) + RulesAsked(host, ip, dest, b)
      {
        RenderedAsAsked(old(View()), rule, host, ip, dest, b);
      }
      if !ok {
        return CommandFailed;
      }
      rules := rules[port := rule];
      reserved := reserved - {port};
      return Ok;
    }

    /**
     Only the namespace and target that set a forward remove it. It goes, with exactly its rules, when the
     commands work, it does not name a protocol twice and it lacks no rule; no outcome costs any other rule.
     */
    method RemovePortForward(namespace: string, host: Host, dest: int, listed: bool, works: nat) returns (r: Outcome)
      requires Valid()
      modifies this`rules, nft`chain
      ensures Valid()
      ensures var op := RemoveForward(namespace, host, dest, listed, works);
        r == OutcomeOf(old(View()), op) && View() == Step(old(View()), op)
      ensures r == (if GetSource(host) == None then InvalidHost
                    else if host.port !in old(rules) then NoForward
                    else if old(rules)[host.port].id != ForwardId(namespace, host.port, dest) then Denied
                    else if listed && |old(rules)[host.port].source.protocols| <= works &&
                            Distinct(old(rules)[host.port].source.protocols) && !old(Short(View(), host.port)) then Ok
                    else CommandFailed)
      ensures Ports() == if r == Ok then Next(old(Ports()), Unforward(host.port)) else old(Ports())
      ensures r == Ok ==> rules == old(rules) - {host.port}
      ensures r != Ok ==> rules == old(rules) && (r != CommandFailed || !listed ==> nft.chain == old(nft.chain))
      ensures forall b :: (host.port in old(rules) ==> b !in Render(old(rules)[host.port])) ==>
                Count(nft.chain, b) == Count(old(nft.chain), b)
    {
      StepKeepsTable(View(), RemoveForward(namespace, host, dest, listed, works));
      var src := GetSource(host);
      if src == None {
        return InvalidHost;
      }
      var port := src.value.port;
      if port !in rules {
        return NoForward;
      }
      var rule := rules[port];
      if rule.id != ForwardId(namespace, port, dest) {
        return Denied;
      }
      OneTarget(View(), port);
      var ok := DropForwards([port], Render(rule), listed, works);
      if !ok {
        return CommandFailed;
      }
      rules := rules - {port};
      return Ok;
    }

    /** `DropRules` for the rules of the forwards at `ports`. */
    method DropForwards(ghost ports: seq<int>, bodies: seq<Body>, listed: bool, works: nat) returns (ok: bool)
      requires Valid() && Known(rules, ports) && Distinct(ports)
      requires bodies == RenderAll(rules, ports)
      modifies nft`chain
      ensures ok == DropsAll(old(nft.chain), bodies, listed, works)
      ensures nft.chain == AfterDrops(old(nft.chain), bodies, listed, works)
      ensures ok <==> listed && |bodies| <= works && NoDoubles(rules, ports) && old(NoneShort(View(), ports))
      ensures !listed ==> nft.chain == old(nft.chain)
      ensures forall b :: b !in bodies ==> Count(nft.chain, b) == Count(old(nft.chain), b)
    {
      ghost var t := View();
      DroppingSucceedsIff(t, ports, listed, works);
      WithoutNone(t.chain);
      ok := nft.DropRules(bodies, listed, works);
      forall b | b !in bodies ensures Count(nft.chain, b) == Count(t.chain, b) {
        DropCounts(t, bodies, listed, works, b);
      }
    }

    /** Removes the forwards whose identity begins with the namespace, and no others; all of them, or none. */
    method RemoveAll(namespace: string, order: seq<int>, listed: bool, works: nat) returns (ok: bool)
      requires Valid() && Distinct(order) && Set(order) == rules.Keys
      modifies this`rules, nft`chain
      ensures Valid()
      ensures var t, op := old(View()), RemoveNamespace(namespace, order, listed, works);
        Legal(t, op) && ok == (OutcomeOf(t, op) == Ok) && View() == Step(t, op)
      ensures var ports := Matching(old(rules), namespace, order, 0);
        && (ok <==> ports == [] || (listed && |RenderAll(old(rules), ports)| <= works && NoDoubles(old(rules), ports)
                                    && old(NoneShort(View(), ports))))
        && (forall b :: b !in RenderAll(old(rules), ports) ==> Count(nft.chain, b) == Count(old(nft.chain), b))
      ensures rules == if ok then OutsideOf(old(rules), namespace) else old(rules)
    {
      assert forall k :: 0 <= k < |order| ==> order[k] in Set(order);
      ghost var t, op := View(), RemoveNamespace(namespace, order, listed, works);
      StepKeepsTable(t, op);
      RemovesNamespace(t, namespace, order, listed, works);
      ok := RemoveMatching(namespace, order, listed, works);
    }

    method RemoveMatching(namespace: string, order: seq<int>, listed: bool, works: nat) returns (ok: bool)
      requires Valid() && Legal(View(), RemoveNamespace(namespace, order, listed, works))
      modifies this`rules, nft`chain
      ensures var t, op := old(View()), RemoveNamespace(namespace, order, listed, works);
        ok == (OutcomeOf(t, op) == Ok) && View() == Step(t, op)
    {
      ghost var ports := Matching(rules, namespace, order, 0);
      MatchingDistinct(rules, namespace, order, 0);
      var toDelete, hostPorts := Collect(namespace, order);
      RenderAllEmptyIff(rules, ports);
      if |toDelete| == 0 {
        return true;
      }
      ok := DropForwards(ports, toDelete, listed, works);
      if ok {
        rules := rules - Set(hostPorts);
      }
    }

    method Collect(namespace: string, order: seq<int>) returns (toDelete: seq<Body>, hostPorts: seq<int>)
      requires Known(rules, order)
      ensures hostPorts == Matching(rules, namespace, order, 0)
      ensures toDelete == RenderAll(rules, hostPorts)
    {
      toDelete, hostPorts := [], [];
      ghost var all := Matching(rules, namespace, order, 0);
      var i := 0;
      while i < |order|
        invariant i <= |order| && Known(rules, hostPorts)
        invariant hostPorts + Matching(rules, namespace, order, i) == all
        invariant toDelete == RenderAll(rules, hostPorts)
      {
        var host := order[i];
        if InNamespace(namespace, rules[host].id) {
          RenderAllSnoc(rules, hostPorts, host);
          Associative(hostPorts, [host], Matching(rules, namespace, order, i + 1));
          toDelete := toDelete + Render(rules[host]);
          hostPorts := hostPorts + [host];
        }
        i := i + 1;
      }
    }

    /** The ports that are taken: by a listening service, a forward, or an unexpired reservation. */
    function Taken(listening: set<int>, now: int): set<int>
      reads this
    {
      listening + rules.Keys + Held(reserved, now)
    }

    /** Reserves the `n` lowest free ports. `listening` are the TCP ports that services listen on; `full` says
        that there were not as many, and then the ports that there were stay reserved. */
    method Reserve(n: int, listening: set<int>, now: int) returns (ports: seq<int>, full: bool)
      requires InRange() && forall p :: p in listening ==> p <= LAST
      modifies this`reserved
      ensures InRange()
      ensures ports == Lowest(FIRST, n, old(Taken(listening, now)))
      ensures full <==> |ports| < n
      ensures ports == Granted(old(Ports()), Event.Reserve(n, listening, now))
      ensures Ports() == Next(old(Ports()), Event.Reserve(n, listening, now))
      ensures reserved == Reserved(old(reserved), ports, now)
    {
      ports, full := [], false;
      var p, i := FIRST, 0;
      ghost var taken := Taken(listening, now);
      ghost var all := Lowest(FIRST, n, taken);
      while i < n
        invariant 0 <= i == |ports| && (n >= 0 ==> i <= n) && FIRST <= p <= LAST + 1
        invariant InRange() && Taken(listening, now) == taken
        invariant Remaining(all, ports, p, n - i, taken)
        invariant reserved == Reserved(old(reserved), ports, now)
      {
        p := NextFree(p, n - i, listening, now, all, ports, taken);
        if p == LAST + 1 {
          full := true;
          return;
        }
        ReserveOne(p, listening, now);
        TakeOne(all, ports, p, n - i, taken);
        ReservedSnoc(old(reserved), ports, p, now);
        taken := taken + {p};
        ports := ports + [p];
        i := i + 1;
      }
    }

    method ReserveOne(p: int, ghost listening: set<int>, now: int)
      requires InRange() && p <= LAST
      modifies this`reserved
      ensures InRange() && reserved == old(reserved)[p := now + LIFETIME]
      ensures Taken(listening, now) == old(Taken(listening, now)) + {p}
    {
      reserved := reserved[p := now + LIFETIME];
    }

    /** The inner loop of `Reserve`: the first port from `from` on that is not taken, or one past the last. */
    method NextFree(from: int, ghost m: int, listening: set<int>, now: int,
                    ghost all: seq<int>, ghost ports: seq<int>, ghost taken: set<int>) returns (p: int)
      requires FIRST <= from <= LAST + 1 && m > 0
      requires InRange() && (forall q :: q in listening ==> q <= LAST) && Taken(listening, now) == taken
      requires Remaining(all, ports, from, m, taken)
      ensures from <= p <= LAST + 1 && (p <= LAST ==> p !in taken) && forall q :: from <= q < p ==> q in taken
      ensures Remaining(all, ports, p, m, taken)
    {
      p := from;
      while p <= LAST + 1
        invariant from <= p <= LAST + 1 && forall q :: from <= q < p ==> q in taken
        invariant Remaining(all, ports, p, m, taken)
        decreases LAST + 1 - p
      {
        if p in listening || p in rules {
          assert p in taken;
          p := p + 1;
          continue;
        }
        if p in reserved && now <= reserved[p] {
          assert p in taken;
          p := p + 1;
          continue;
        }
        break;
      }
    }
  }

  /** After `ports`, what is left of `all` are the `m` lowest ports from `p` on. */
  ghost predicate Remaining(all: seq<int>, ports: seq<int>, p: int, m: int, taken: set<int>) {
    ports + Lowest(p, m, taken) == all
  }

  lemma TakeOne(all: seq<int>, ports: seq<int>, p: int, m: int, taken: set<int>)
    requires Remaining(all, ports, p, m, taken) && m > 0 && p <= LAST && p !in taken
    ensures Remaining(all, ports + [p], p, m - 1, taken + {p})
  {
    LowestStep(p, m, taken);
    Associative(ports, [p], Lowest(p, m - 1, taken + {p}));
  }

  lemma {:induction false} RenderAllSnoc(rules: map<int, Rule>, ports: seq<int>, p: int)
    requires Known(rules, ports) && p in rules
    ensures RenderAll(rules, ports + [p]) == RenderAll(rules, ports) + Render(rules[p])
    decreases |ports|
  {
    if ports == [] {
      assert [p][1..] == [];
      assert ports + [p] == [p];
    } else {
      assert (ports + [p])[1..] == ports[1..] + [p];
      RenderAllSnoc(rules, ports[1..], p);
    }
  }
}
