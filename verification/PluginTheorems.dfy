/**
 What loading plugins comes to: which are open afterwards, whatever the order, and when each was opened.
 */
module PluginTheorems {
  import opened Plugins

  /** The plugin opens, and all that it requires, directly or not, is there and opens. */
  ghost predicate Loads(t: Table, rank: map<string, nat>, p: string)
    requires Acyclic(t, rank)
    decreases if p in t then rank[p] + 1 else 0
  {
    && p in t && t[p].opens
    && forall k :: 0 <= k < |t[p].requirements| ==> RequirementLoads(t, rank, p, k)
  }

  ghost predicate RequirementLoads(t: Table, rank: map<string, nat>, p: string, k: nat)
    requires Acyclic(t, rank) && p in t && k < |t[p].requirements|
    decreases rank[p] + 1, -1
  {
    t[p].requirements[k] in t && Loads(t, rank, t[p].requirements[k])
  }

  /** What is open can be, and its requirements are open. */
  ghost predicate Sane(t: Table, rank: map<string, nat>, open: set<string>)
    requires Acyclic(t, rank)
  {
    forall p :: p in open ==> Loads(t, rank, p) && RequirementsIn(t, p, open)
  }

  ghost predicate RequirementsIn(t: Table, p: string, open: set<string>) {
    p in t && forall k :: 0 <= k < |t[p].requirements| ==> t[p].requirements[k] in open
  }

  /** Every call is for a plugin that is not open, with its requirements open; from `open` to `last`. */
  ghost predicate InOrder(t: Table, open: set<string>, calls: seq<Call>, last: set<string>)
    decreases |calls|
  {
    if calls == [] then open == last
    else
      var c := calls[0];
      && RequirementsIn(t, c.name, open) && c.ok == t[c.name].opens && c.name !in open
      && InOrder(t, if c.ok then open + {c.name} else open, calls[1..], last)
  }

  lemma {:induction false} InOrderConcat(t: Table, open: set<string>, a: seq<Call>, mid: set<string>, b: seq<Call>,
                                         last: set<string>)
    requires InOrder(t, open, a, mid) && InOrder(t, mid, b, last)
    ensures InOrder(t, open, a + b, last)
    decreases |a|
  {
    if a == [] {
      assert a + b == b;
    } else {
      var c := a[0];
      InOrderConcat(t, if c.ok then open + {c.name} else open, a[1..], mid, b, last);
      assert (a + b)[1..] == a[1..] + b && (a + b)[0] == c;
    }
  }

  lemma InOrderOne(t: Table, open: set<string>, c: Call)
    requires RequirementsIn(t, c.name, open) && c.ok == t[c.name].opens && c.name !in open
    ensures InOrder(t, open, [c], if c.ok then open + {c.name} else open)
  {
    assert [c][1..] == [];
  }

  /** From `open`, a call sequence leads to a sane `r.open`, and opens nothing above `rank`. */
  ghost predicate Proper(t: Table, rank: map<string, nat>, open: set<string>, r: Opened, top: nat)
    requires Acyclic(t, rank)
  {
    && open <= r.open && Sane(t, rank, r.open) && InOrder(t, open, r.calls, r.open)
    && forall q :: q in r.open && q !in open ==> q in t && rank[q] < top
  }

  lemma {:induction false} OpensIff(t: Table, rank: map<string, nat>, open: set<string>, name: string)
    requires Acyclic(t, rank) && name in t && Sane(t, rank, open)
    ensures var r := OpenRecursive(t, rank, open, name);
      && Proper(t, rank, open, r, rank[name] + 1)
      && (r.ok <==> Loads(t, rank, name)) && (r.ok ==> name in r.open)
    decreases rank[name], 1, 0
  {
    if name !in open {
      var r := OpenRequired(t, rank, open, name, 0);
      RequiredOpensIff(t, rank, open, name, 0);
      if r.ok {
        var c := Call(name, t[name].opens);
        InOrderOne(t, r.open, c);
        InOrderConcat(t, open, r.calls, r.open, [c], if c.ok then r.open + {name} else r.open);
        if c.ok {
          SaneWith(t, rank, r.open, name);
        }
      } else {
        var k :| 0 <= k < |t[name].requirements| && !RequirementLoads(t, rank, name, k);
      }
    }
  }

  lemma SaneWith(t: Table, rank: map<string, nat>, open: set<string>, name: string)
    requires Acyclic(t, rank) && Sane(t, rank, open) && RequirementsIn(t, name, open) && t[name].opens
    requires forall k :: 0 <= k < |t[name].requirements| ==> RequirementLoads(t, rank, name, k)
    ensures Loads(t, rank, name) && Sane(t, rank, open + {name})
  {
    forall p | p in open + {name} ensures RequirementsIn(t, p, open + {name}) {
      assert RequirementsIn(t, p, open);
    }
  }

  /** The requirements from the `k`th on load. */
  ghost predicate RestLoads(t: Table, rank: map<string, nat>, p: string, k: nat)
    requires Acyclic(t, rank) && p in t
  {
    forall j :: k <= j < |t[p].requirements| ==> RequirementLoads(t, rank, p, j)
  }

  lemma {:induction false} RequiredOpensIff(t: Table, rank: map<string, nat>, open: set<string>, name: string, k: nat)
    requires Acyclic(t, rank) && name in t && Sane(t, rank, open) && k <= |t[name].requirements|
    ensures var r := OpenRequired(t, rank, open, name, k);
      && Proper(t, rank, open, r, rank[name])
      && (r.ok <==> RestLoads(t, rank, name, k))
      && (r.ok ==> forall j :: k <= j < |t[name].requirements| ==> t[name].requirements[j] in r.open)
    decreases rank[name], 0, |t[name].requirements| - k
  {
    var reqs := t[name].requirements;
    if k < |reqs| {
      if reqs[k] !in t {
        assert !RestLoads(t, rank, name, k) by { assert !RequirementLoads(t, rank, name, k); }
      } else {
        var first := OpenRecursive(t, rank, open, reqs[k]);
        OpensIff(t, rank, open, reqs[k]);
        assert first.ok <==> RequirementLoads(t, rank, name, k);
        if first.ok {
          var rest := OpenRequired(t, rank, first.open, name, k + 1);
          RequiredOpensIff(t, rank, first.open, name, k + 1);
          InOrderConcat(t, open, first.calls, first.open, rest.calls, rest.open);
        }
      }
    }
  }

  lemma {:induction false} AllOpenIff(t: Table, rank: map<string, nat>, open: set<string>, order: seq<string>)
    requires Acyclic(t, rank) && Sane(t, rank, open) && forall p :: p in order ==> p in t
    ensures var (r, errored) := OpenAll(t, rank, open, order);
      && open <= r.open && Sane(t, rank, r.open) && InOrder(t, open, r.calls, r.open)
      && (forall p :: p in errored <==> p in order && !Loads(t, rank, p))
      && (forall p :: p in order && Loads(t, rank, p) ==> p in r.open)
    decreases |order|
  {
    if order != [] {
      var first := OpenRecursive(t, rank, open, order[0]);
      OpensIff(t, rank, open, order[0]);
      AllOpenIff(t, rank, first.open, order[1..]);
      var rest := OpenAll(t, rank, first.open, order[1..]).0;
      InOrderConcat(t, open, first.calls, first.open, rest.calls, rest.open);
      assert forall p :: p in order <==> p == order[0] || p in order[1..];
    }
  }

  /**
   Whatever the order in which `Load` goes through the table, it leaves in the table exactly the plugins that
   open with all their requirements, transitively, and those are the ones that are open.
   */
  lemma LoadKeepsExactlyWhatLoads(t: Table, rank: map<string, nat>, order: seq<string>)
    requires Acyclic(t, rank) && forall p :: p in order <==> p in t
    ensures var (r, errored) := OpenAll(t, rank, {}, order);
      && (forall p :: p in t.Keys - errored <==> Loads(t, rank, p))
      && r.open == t.Keys - errored && InOrder(t, {}, r.calls, r.open)
  {
    AllOpenIff(t, rank, {}, order);
    var (r, errored) := OpenAll(t, rank, {}, order);
    forall p ensures p in r.open <==> p in t.Keys - errored {
      if p in r.open { assert Loads(t, rank, p); }
    }
  }

  function Successes(calls: seq<Call>): set<string> {
    set k | 0 <= k < |calls| && calls[k].ok :: calls[k].name
  }

  /** A plugin opens successfully at most once, and only after all that it requires has. */
  lemma {:induction false} OpenedOnceAndInOrder(t: Table, open: set<string>, calls: seq<Call>, last: set<string>,
                                                i: nat)
    requires InOrder(t, open, calls, last) && i < |calls|
    ensures calls[i].name in t && calls[i].ok == t[calls[i].name].opens
    ensures calls[i].name !in open + Successes(calls[..i])
    ensures RequirementsIn(t, calls[i].name, open + Successes(calls[..i]))
    decreases i
  {
    if i == 0 {
      assert Successes(calls[..0]) == {};
      assert open + Successes(calls[..0]) == open;
    } else {
      var c := calls[0];
      var open' := if c.ok then open + {c.name} else open;
      OpenedOnceAndInOrder(t, open', calls[1..], last, i - 1);
      SuccessesTail(calls, i);
      assert open + Successes(calls[..i]) == open' + Successes(calls[1..][..i - 1]);
    }
  }

  lemma SuccessesTail(calls: seq<Call>, i: nat)
    requires 0 < i <= |calls|
    ensures Successes(calls[..i]) == Successes(calls[1..][..i - 1]) + if calls[0].ok then {calls[0].name} else {}
  {
    var tail := calls[1..][..i - 1];
    forall k | 0 <= k < i && calls[..i][k].ok ensures k > 0 ==> tail[k - 1] == calls[k] { }
    forall n | n in Successes(calls[..i]) ensures n in Successes(tail) || (calls[0].ok && n == calls[0].name) {
      var k :| 0 <= k < i && calls[..i][k].ok && calls[..i][k].name == n;
      if k > 0 { assert tail[k - 1].ok && tail[k - 1].name == n; }
    }
    forall n | n in Successes(tail) ensures n in Successes(calls[..i]) {
      var k :| 0 <= k < |tail| && tail[k].ok && tail[k].name == n;
      assert calls[..i][k + 1].ok && calls[..i][k + 1].name == n;
    }
    if calls[0].ok { assert calls[..i][0].ok; }
  }

  // ---- Nothing more is opened after a failure ------------------------------------------------

  /** Every call but perhaps the last one succeeded. */
  predicate OnlyLastFails(calls: seq<Call>) {
    forall i :: 0 <= i < |calls| - 1 ==> calls[i].ok
  }

  predicate NoneFails(calls: seq<Call>) {
    forall i :: 0 <= i < |calls| ==> calls[i].ok
  }

  /** Opening a plugin stops at the first failure: no plugin is opened after one that failed, and none failed if
      it succeeds. */
  lemma {:induction false} StopsAtFirstFailure(t: Table, rank: map<string, nat>, open: set<string>, name: string)
    requires Acyclic(t, rank) && name in t
    ensures var r := OpenRecursive(t, rank, open, name); OnlyLastFails(r.calls) && (r.ok ==> NoneFails(r.calls))
    decreases rank[name], 1, 0
  {
    if name !in open { RequiredStopAtFirstFailure(t, rank, open, name, 0); }
  }

  lemma {:induction false} RequiredStopAtFirstFailure(t: Table, rank: map<string, nat>, open: set<string>,
                                                      name: string, k: nat)
    requires Acyclic(t, rank) && name in t && k <= |t[name].requirements|
    ensures var r := OpenRequired(t, rank, open, name, k); OnlyLastFails(r.calls) && (r.ok ==> NoneFails(r.calls))
    decreases rank[name], 0, |t[name].requirements| - k
  {
    var reqs := t[name].requirements;
    if k < |reqs| && reqs[k] in t {
      StopsAtFirstFailure(t, rank, open, reqs[k]);
      var first := OpenRecursive(t, rank, open, reqs[k]);
      if first.ok { RequiredStopAtFirstFailure(t, rank, first.open, name, k + 1); }
    }
  }
}
