/**
 What a weight is, without the recursion that computes it: the priorities at the ends of all the ways down from
 a service, added up.
 */
module WeightPaths {
  import opened Wrappers
  import opened Settings

  /** Going down from service `k` by these positions in the lists of names leads to an end: to a milestone, or to
      a service that names nothing. */
  predicate Leads(inc: Included, k: string, way: seq<nat>)
    decreases |way|
  {
    k in inc &&
    if way == [] then inc[k].after == []
    else
      way[0] < |inc[k].after| &&
      var name := inc[k].after[way[0]];
      if name in PRIORITY then way[1..] == [] else Leads(inc, name, way[1..])
  }

  /** The milestone at that end; a service that names nothing belongs to the last one. */
  function EndOf(inc: Included, k: string, way: seq<nat>): (m: string)
    requires Leads(inc, k, way)
    ensures m in PRIORITY
    decreases |way|
  {
    if way == [] then BOOT
    else
      var name := inc[k].after[way[0]];
      if name in PRIORITY then name else EndOf(inc, name, way[1..])
  }

  predicate AllLead(inc: Included, k: string, ways: seq<seq<nat>>) {
    forall i :: 0 <= i < |ways| ==> Leads(inc, k, ways[i])
  }

  function EndTotal(inc: Included, k: string, ways: seq<seq<nat>>): int
    requires AllLead(inc, k, ways)
  {
    if ways == [] then 0
    else PRIORITY[EndOf(inc, k, ways[|ways| - 1])] + EndTotal(inc, k, ways[..|ways| - 1])
  }

  lemma {:induction false} EndTotalConcat(inc: Included, k: string, a: seq<seq<nat>>, b: seq<seq<nat>>)
    requires AllLead(inc, k, a) && AllLead(inc, k, b)
    ensures AllLead(inc, k, a + b) && EndTotal(inc, k, a + b) == EndTotal(inc, k, a) + EndTotal(inc, k, b)
    decreases |b|
  {
    if b == [] {
      assert a + b == a;
    } else {
      var last := |b| - 1;
      EndTotalConcat(inc, k, a, b[..last]);
      assert (a + b)[..|a + b| - 1] == a + b[..last];
    }
  }

  /** All the ways, each with one more step in front. */
  function Prefixed(n: nat, ways: seq<seq<nat>>): (r: seq<seq<nat>>)
    ensures |r| == |ways| && forall i :: 0 <= i < |r| ==> r[i] == [n] + ways[i]
  {
    seq(|ways|, i requires 0 <= i < |ways| => [n] + ways[i])
  }

  lemma {:induction false} PrefixedTotal(inc: Included, k: string, n: nat, ways: seq<seq<nat>>)
    requires k in inc && n < |inc[k].after| && inc[k].after[n] !in PRIORITY && AllLead(inc, inc[k].after[n], ways)
    ensures AllLead(inc, k, Prefixed(n, ways))
    ensures EndTotal(inc, k, Prefixed(n, ways)) == EndTotal(inc, inc[k].after[n], ways)
    decreases |ways|
  {
    forall i | 0 <= i < |ways| ensures Leads(inc, k, Prefixed(n, ways)[i]) {
      assert ([n] + ways[i])[1..] == ways[i];
    }
    if ways != [] {
      var last := |ways| - 1;
      PrefixedTotal(inc, k, n, ways[..last]);
      assert Prefixed(n, ways)[..last] == Prefixed(n, ways[..last]);
      assert ([n] + ways[last])[1..] == ways[last];
    }
  }

  /** Exactly the ways down from `k` whose first step is `n` or a later one, each once. */
  ghost predicate WaysFrom(inc: Included, k: string, n: nat, ways: seq<seq<nat>>) {
    && Distinct(ways)
    && forall way :: way in ways <==> way != [] && way[0] >= n && Leads(inc, k, way)
  }

  /** Exactly the ways down from `k` that go through its name `n`. */
  ghost predicate WaysThrough(inc: Included, k: string, n: nat, ways: seq<seq<nat>>) {
    && Distinct(ways)
    && forall way :: way in ways <==> way != [] && way[0] == n && Leads(inc, k, way)
  }

  /** Exactly the ways down from `k`. */
  ghost predicate AllWays(inc: Included, k: string, ways: seq<seq<nat>>) {
    && Distinct(ways)
    && forall way :: way in ways <==> Leads(inc, k, way)
  }

  /** The weight of a kept service is the sum, over all the ways down from it, of the priority of the milestone
      each of them ends at. */
  lemma WeightIsEndTotal(inc: Included, k: string) returns (ways: seq<seq<nat>>)
    requires Kept(inc, k)
    ensures AllWays(inc, k, ways) && AllLead(inc, k, ways) && WeightOf(inc, k) == EndTotal(inc, k, ways)
  {
    ways := ServiceWays(inc, k, []);
  }

  lemma {:induction false} ServiceWays(inc: Included, k: string, chain: seq<string>) returns (ways: seq<seq<nat>>)
    requires k in inc && Weight(inc, k, chain).Success?
    ensures AllWays(inc, k, ways) && AllLead(inc, k, ways)
    ensures Weight(inc, k, chain).value == EndTotal(inc, k, ways)
    decreases Left(inc, chain), 0
  {
    if inc[k].after == [] {
      ways := [[]];
      OneWay(inc, k, []);
    } else {
      LeftDecreases(inc, k, chain);
      assert inc[k].after[0..] == inc[k].after;
      ways := NameWays(inc, k, 0, chain + [k]);
    }
  }

  lemma OneWay(inc: Included, k: string, way: seq<nat>)
    requires Leads(inc, k, way)
    ensures AllLead(inc, k, [way]) && EndTotal(inc, k, [way]) == PRIORITY[EndOf(inc, k, way)]
  {
    assert [way][..0] == [];
    assert EndTotal(inc, k, []) == 0;
  }

  lemma {:induction false} NameWays(inc: Included, k: string, n: nat, chain: seq<string>) returns (ways: seq<seq<nat>>)
    requires k in inc && n <= |inc[k].after| && SumWeights(inc, inc[k].after[n..], chain).Success?
    ensures WaysFrom(inc, k, n, ways) && AllLead(inc, k, ways)
    ensures SumWeights(inc, inc[k].after[n..], chain).value == EndTotal(inc, k, ways)
    decreases Left(inc, chain), |inc[k].after| - n + 2
  {
    if n == |inc[k].after| {
      ways := [];
    } else {
      var names := inc[k].after[n..];
      assert names[0] == inc[k].after[n] && names[1..] == inc[k].after[n + 1..];
      var first := WaysOfName(inc, k, n, chain);
      var rest := NameWays(inc, k, n + 1, chain);
      ways := first + rest;
      EndTotalConcat(inc, k, first, rest);
      JoinWays(inc, k, n, first, rest);
    }
  }

  lemma JoinWays(inc: Included, k: string, n: nat, first: seq<seq<nat>>, rest: seq<seq<nat>>)
    requires WaysThrough(inc, k, n, first) && WaysFrom(inc, k, n + 1, rest)
    ensures WaysFrom(inc, k, n, first + rest)
  {
    forall i, j | 0 <= i < j < |first + rest| ensures (first + rest)[i] != (first + rest)[j] {
      if i < |first| <= j {
        assert first[i] in first && rest[j - |first|] in rest;
      }
    }
    forall way ensures way in first + rest <==> way in first || way in rest {}
  }

  lemma {:induction false} WaysOfName(inc: Included, k: string, n: nat, chain: seq<string>)
    returns (ways: seq<seq<nat>>)
    requires k in inc && n < |inc[k].after| && NameWeight(inc, inc[k].after[n], chain).Success?
    ensures WaysThrough(inc, k, n, ways) && AllLead(inc, k, ways)
    ensures NameWeight(inc, inc[k].after[n], chain).value == EndTotal(inc, k, ways)
    decreases Left(inc, chain), 1
  {
    var name := inc[k].after[n];
    if name in PRIORITY {
      ways := [[n]];
      assert [n][1..] == [];
      OneWay(inc, k, [n]);
      forall way | way != [] && way[0] == n && Leads(inc, k, way) ensures way == [n] { assert way[1..] == []; }
    } else {
      var below := ServiceWays(inc, name, chain);
      ways := Prefixed(n, below);
      PrefixedTotal(inc, k, n, below);
      PrefixedWays(inc, k, n, below);
    }
  }

  lemma PrefixedWays(inc: Included, k: string, n: nat, below: seq<seq<nat>>)
    requires k in inc && n < |inc[k].after| && inc[k].after[n] !in PRIORITY && AllWays(inc, inc[k].after[n], below)
    ensures WaysThrough(inc, k, n, Prefixed(n, below))
  {
    var ways := Prefixed(n, below);
    forall i, j | 0 <= i < j < |ways| ensures ways[i] != ways[j] {
      assert ways[i][1..] == below[i] && ways[j][1..] == below[j];
    }
    forall way ensures way in ways <==> way != [] && way[0] == n && Leads(inc, k, way) {
      if way in ways {
        var i :| 0 <= i < |ways| && ways[i] == way;
        assert way[1..] == below[i] && below[i] in below;
      }
      if way != [] && way[0] == n && Leads(inc, k, way) {
        assert way[1..] in below;
        var i :| 0 <= i < |below| && below[i] == way[1..];
        assert ways[i] == way;
      }
    }
  }
}
