/**
 Startup settings: the dependency weight of a service (base/settings/startup.go, include.go).

 A service names what it must start after. A name is either a milestone with a fixed priority or
 another service, whose own weight is added. The recursion carries the chain of services it is inside
 of, and gives up when a service meets itself.
 */
module Settings {
  import opened Wrappers

  const INIT := "init"
  const NET := "net"
  const BOOT := "boot"
  const END := "----"

  const PRIORITY: map<string, int> := map[INIT := 1, NET := 1000, BOOT := 1000000, END := -1]

  datatype Startup = Startup(key: string, after: seq<string>)

  /** The included services by name; `Prepared` is what `prepare` establishes. */
  type Included = map<string, Startup>

  predicate Prepared(inc: Included) {
    forall k :: k in inc ==> inc[k].key == k
  }

  datatype WeightError = CyclicDependency | UnknownDependency(name: string)

  type WeightResult = Result<int, WeightError>

  /** How many services are not yet on the chain: what the recursion uses up. */
  ghost function Left(inc: Included, chain: seq<string>): nat {
    |inc.Keys - (set c | c in chain)|
  }

  lemma LeftDecreases(inc: Included, k: string, chain: seq<string>)
    requires k in inc && k !in chain
    ensures Left(inc, chain + [k]) < Left(inc, chain)
  {
    var small, big := inc.Keys - (set c | c in chain + [k]), inc.Keys - (set c | c in chain);
    assert k in big && k !in small;
    assert small <= big - {k};
    SubsetSize(small, big - {k});
  }

  /** The weight of service `k`, reached through the services on `chain`. */
  function Weight(inc: Included, k: string, chain: seq<string>): (r: WeightResult)
    requires k in inc
    decreases Left(inc, chain), 0
  {
    if k in chain then Failure(CyclicDependency)
    else if inc[k].after == [] then Success(PRIORITY[BOOT])
    else LeftDecreases(inc, k, chain); SumWeights(inc, inc[k].after, chain + [k])
  }

  /** The summed contribution of a list of names; the first name that fails decides the error. */
  function SumWeights(inc: Included, names: seq<string>, chain: seq<string>): (r: WeightResult)
    decreases Left(inc, chain), |names| + 1
  {
    if names == [] then Success(0)
    else
      match NameWeight(inc, names[0], chain)
      case Failure(e) => Failure(e)
      case Success(w) =>
        match SumWeights(inc, names[1..], chain)
        case Failure(e) => Failure(e)
        case Success(rest) => Success(w + rest)
  }

  function NameWeight(inc: Included, a: string, chain: seq<string>): (r: WeightResult)
    decreases Left(inc, chain), 1
  {
    if a in PRIORITY then Success(PRIORITY[a])
    else if a in inc then Weight(inc, a, chain)
    else Failure(UnknownDependency(a))
  }

  /** `Startup.Weight` as the source runs it: a loop over the names that adds up and returns early. */
  method ComputeWeight(inc: Included, k: string, chain: seq<string>) returns (r: WeightResult)
    requires k in inc
    ensures r == Weight(inc, k, chain)
    decreases Left(inc, chain)
  {
    if k in chain { return Failure(CyclicDependency); }
    var longer := chain + [k];
    var after := inc[k].after;
    if |after| == 0 { return Success(PRIORITY[BOOT]); }
    LeftDecreases(inc, k, chain);
    var w := 0;
    for i := 0 to |after|
      invariant Weight(inc, k, chain) ==
                match SumWeights(inc, after[i..], longer)
                case Failure(e) => Failure(e)
                case Success(rest) => Success(w + rest)
    {
      var a := after[i];
      assert after[i..][1..] == after[i + 1..];
      if a in PRIORITY {
        w := w + PRIORITY[a];
      } else if a in inc {
        var d := ComputeWeight(inc, a, longer);
        if d.Failure? { return d; }
        w := w + d.value;
      } else {
        return Failure(UnknownDependency(a));
      }
    }
    return Success(w);
  }

  // ---- What a failing name means -------------------------------------------------------------

  /** A list fails exactly when one of its names does. */
  lemma {:induction false} SumFailsIff(inc: Included, names: seq<string>, chain: seq<string>)
    ensures SumWeights(inc, names, chain).Failure? <==> exists a :: a in names && NameWeight(inc, a, chain).Failure?
  {
    if names != [] {
      SumFailsIff(inc, names[1..], chain);
      assert names == [names[0]] + names[1..];
      if NameWeight(inc, names[0], chain).Failure? { assert names[0] in names; }
    }
  }

  /** The error is that of the first name that fails. */
  lemma {:induction false} FirstFailure(inc: Included, names: seq<string>, chain: seq<string>) returns (i: nat)
    requires SumWeights(inc, names, chain).Failure?
    ensures i < |names| && NameWeight(inc, names[i], chain) == Failure(SumWeights(inc, names, chain).error)
    ensures forall j :: 0 <= j < i ==> NameWeight(inc, names[j], chain).Success?
  {
    i := 0;
    if NameWeight(inc, names[0], chain).Success? {
      var j := FirstFailure(inc, names[1..], chain);
      i := j + 1;
      assert names[i] == names[1..][j] && forall k :: 1 <= k < i ==> names[k] == names[1..][k - 1];
    }
  }

  /** A service that does not fail adds up names that do not fail. */
  lemma NamesSucceed(inc: Included, k: string, chain: seq<string>, a: string)
    requires k in inc && a in inc[k].after && Weight(inc, k, chain).Success?
    ensures NameWeight(inc, a, chain + [k]).Success?
  {
    LeftDecreases(inc, k, chain);
    SumFailsIff(inc, inc[k].after, chain + [k]);
  }

  // ---- Dependency paths ----------------------------------------------------------------------

  /** `b` is a service name that `a` waits for (milestones are not services). */
  predicate Edge(inc: Included, a: string, b: string) {
    a in inc && b in inc[a].after && b !in PRIORITY
  }

  predicate Path(inc: Included, p: seq<string>) {
    && |p| > 0
    && (forall i :: 0 <= i < |p| ==> p[i] in inc)
    && (forall i :: 0 <= i < |p| - 1 ==> Edge(inc, p[i], p[i + 1]))
  }

  ghost predicate NamesUnknown(inc: Included, k: string) {
    exists a :: Edge(inc, k, a) && a !in inc
  }

  /** The path ends where it has been before. */
  predicate Loops(p: seq<string>) {
    exists i :: 0 <= i < |p| - 1 && p[i] == p[|p| - 1]
  }

  ghost predicate BadPath(inc: Included, p: seq<string>, k: string) {
    Path(inc, p) && p[0] == k && (NamesUnknown(inc, p[|p| - 1]) || Loops(p))
  }

  /** From `k` one can reach an unknown name or a cycle. */
  ghost predicate Broken(inc: Included, k: string) {
    exists p :: BadPath(inc, p, k)
  }

  lemma ConsPath(inc: Included, k: string, p: seq<string>)
    requires Path(inc, p) && Edge(inc, k, p[0])
    ensures Path(inc, [k] + p) && ([k] + p)[|p|] == p[|p| - 1]
  {
  }

  /** What the end of a path says about an error: an unknown name is one that the last service on it names, and a
      cyclic dependency comes back to the chain or to the path itself. */
  ghost predicate Blames(inc: Included, p: seq<string>, chain: seq<string>, e: WeightError)
    requires p != []
  {
    match e
    case UnknownDependency(name) => Edge(inc, p[|p| - 1], name) && name !in inc
    case CyclicDependency => p[|p| - 1] in chain || Loops(p)
  }

  /** A failing service shows a path to blame, which says which error it is. */
  lemma {:induction false} FailurePath(inc: Included, k: string, chain: seq<string>) returns (p: seq<string>)
    requires k in inc && Weight(inc, k, chain).Failure?
    ensures Path(inc, p) && p[0] == k && Blames(inc, p, chain, Weight(inc, k, chain).error)
    decreases Left(inc, chain)
  {
    p := [k];
    if k !in chain {
      LeftDecreases(inc, k, chain);
      var i := FirstFailure(inc, inc[k].after, chain + [k]);
      var a := inc[k].after[i];
      assert Edge(inc, k, a);
      if a in inc {
        var q := FailurePath(inc, a, chain + [k]);
        ConsPath(inc, k, q);
        p := [k] + q;
        LongerBlames(inc, k, q, chain, Weight(inc, k, chain).error);
      }
    }
  }

  lemma LongerBlames(inc: Included, k: string, q: seq<string>, chain: seq<string>, e: WeightError)
    requires q != [] && Blames(inc, q, chain + [k], e)
    ensures Blames(inc, [k] + q, chain, e)
  {
    var p, last := [k] + q, q[|q| - 1];
    assert p[|p| - 1] == last;
    if e.CyclicDependency? && last !in chain {
      if last == k {
        assert p[0] == p[|p| - 1];
      } else {
        var i :| 0 <= i < |q| - 1 && q[i] == last;
        assert p[i + 1] == p[|p| - 1];
      }
    }
  }

  /** A service whose path ends in an unknown name or on the chain fails. */
  lemma {:induction false} PathFails(inc: Included, p: seq<string>, chain: seq<string>)
    requires Path(inc, p)
    requires NamesUnknown(inc, p[|p| - 1]) || p[|p| - 1] in chain
    ensures Weight(inc, p[0], chain).Failure?
    decreases |p|
  {
    var k := p[0];
    if k !in chain {
      LeftDecreases(inc, k, chain);
      SumFailsIff(inc, inc[k].after, chain + [k]);
      if |p| == 1 {
        var a :| Edge(inc, k, a) && a !in inc;
        assert NameWeight(inc, a, chain + [k]).Failure?;
      } else {
        assert Edge(inc, p[0], p[1]);
        PathFails(inc, p[1..], chain + [k]);
        assert NameWeight(inc, p[1], chain + [k]).Failure?;
      }
    }
  }

  lemma {:induction false} LoopFails(inc: Included, p: seq<string>, chain: seq<string>)
    requires Path(inc, p) && Loops(p)
    ensures Weight(inc, p[0], chain).Failure?
    decreases |p|
  {
    var k := p[0];
    if k !in chain {
      LeftDecreases(inc, k, chain);
      SumFailsIff(inc, inc[k].after, chain + [k]);
      assert Edge(inc, p[0], p[1]);
      var rest := p[1..];
      assert Path(inc, rest);
      var i :| 0 <= i < |p| - 1 && p[i] == p[|p| - 1];
      if i == 0 {
        PathFails(inc, rest, chain + [k]);
      } else {
        assert rest[i - 1] == rest[|rest| - 1];
        LoopFails(inc, rest, chain + [k]);
      }
      assert NameWeight(inc, p[1], chain + [k]).Failure?;
    }
  }

  /** From an empty chain, `Weight` fails exactly when an unknown name or a cycle is reachable. */
  lemma {:induction false} WeightFailsIffBroken(inc: Included, k: string)
    requires k in inc
    ensures Weight(inc, k, []).Failure? <==> Broken(inc, k)
  {
    if Weight(inc, k, []).Failure? {
      var p := FailurePath(inc, k, []);
      if Weight(inc, k, []).error.UnknownDependency? { assert NamesUnknown(inc, p[|p| - 1]); }
      assert BadPath(inc, p, k);
    }
    if Broken(inc, k) {
      var p :| BadPath(inc, p, k);
      if Loops(p) { LoopFails(inc, p, []); } else { PathFails(inc, p, []); }
    }
  }

  // ---- The chain only guards -----------------------------------------------------------------

  /** What succeeds below a longer chain succeeds below a shorter one, with the same weight. */
  lemma {:induction false} ShorterChain(inc: Included, k: string, long: seq<string>, short: seq<string>)
    requires k in inc && Weight(inc, k, long).Success?
    requires forall c :: c in short ==> c in long
    ensures Weight(inc, k, short) == Weight(inc, k, long)
    decreases Left(inc, long), 0
  {
    LeftDecreases(inc, k, long);
    if inc[k].after != [] {
      ShorterChainSum(inc, inc[k].after, long + [k], short + [k]);
    }
  }

  lemma {:induction false} ShorterChainSum(inc: Included, names: seq<string>, long: seq<string>, short: seq<string>)
    requires SumWeights(inc, names, long).Success?
    requires forall c :: c in short ==> c in long
    ensures SumWeights(inc, names, short) == SumWeights(inc, names, long)
    decreases Left(inc, long), |names| + 1
  {
    if names != [] {
      if names[0] !in PRIORITY { ShorterChain(inc, names[0], long, short); }
      ShorterChainSum(inc, names[1..], long, short);
    }
  }

  // ---- The services that are kept ------------------------------------------------------------

  /** The services `GetStartupTree` keeps. */
  predicate Kept(inc: Included, k: string) {
    k in inc && Weight(inc, k, []).Success?
  }

  function WeightOf(inc: Included, k: string): int
    requires Kept(inc, k)
  {
    Weight(inc, k, []).value
  }

  /** Kept services only wait for kept services. */
  lemma KeptIsClosed(inc: Included, k: string, d: string)
    requires Kept(inc, k) && Edge(inc, k, d)
    ensures Kept(inc, d)
  {
    NamesSucceed(inc, k, [], d);
    assert [] + [k] == [k];
    ShorterChain(inc, d, [k], []);
  }

  // ---- Weights along dependencies ------------------------------------------------------------

  /** What a name adds to the weight of a service, wherever the name stands. */
  function NameWeightOf(inc: Included, a: string): int {
    if a in PRIORITY then PRIORITY[a] else if Kept(inc, a) then WeightOf(inc, a) else 0
  }

  function Total(inc: Included, names: seq<string>): int {
    if names == [] then 0 else NameWeightOf(inc, names[0]) + Total(inc, names[1..])
  }

  lemma {:induction false} SumIsTotal(inc: Included, names: seq<string>, chain: seq<string>)
    requires SumWeights(inc, names, chain).Success?
    ensures SumWeights(inc, names, chain).value == Total(inc, names)
    decreases |names|
  {
    if names != [] {
      if names[0] !in PRIORITY { ShorterChain(inc, names[0], chain, []); }
      SumIsTotal(inc, names[1..], chain);
    }
  }

  lemma {:induction false} TotalWithout(inc: Included, names: seq<string>, n: nat)
    requires n < |names|
    ensures Total(inc, names) == NameWeightOf(inc, names[n]) + Total(inc, names[..n] + names[n + 1..])
  {
    if n == 0 {
      assert names[..0] + names[1..] == names[1..];
    } else {
      TotalWithout(inc, names[1..], n - 1);
      assert (names[..n] + names[n + 1..])[1..] == names[1..][..n - 1] + names[1..][n..];
    }
  }

  /** A kept service with names to wait for weighs what they weigh together, so it weighs at least as much
      as one of them exactly if the others together are not negative. */
  lemma WeighsAtLeastIff(inc: Included, k: string, n: nat)
    requires Kept(inc, k) && n < |inc[k].after|
    ensures var after := inc[k].after;
      && WeightOf(inc, k) == Total(inc, after)
      && (WeightOf(inc, k) >= NameWeightOf(inc, after[n]) <==> Total(inc, after[..n] + after[n + 1..]) >= 0)
  {
    SumIsTotal(inc, inc[k].after, [] + [k]);
    TotalWithout(inc, inc[k].after, n);
  }

  /** `k`, or a service it waits for, however indirectly, is ordered after the end marker, whose priority
      is negative. */
  ghost predicate ReachesEnd(inc: Included, k: string) {
    exists p :: EndPath(inc, p, k)
  }

  ghost predicate EndPath(inc: Included, p: seq<string>, k: string) {
    Path(inc, p) && p[0] == k && END in inc[p[|p| - 1]].after
  }

  ghost predicate ClearName(inc: Included, a: string) {
    a != END && (a !in PRIORITY && a in inc ==> !ReachesEnd(inc, a))
  }

  lemma NamesAreClear(inc: Included, k: string)
    requires k in inc && !ReachesEnd(inc, k)
    ensures forall a :: a in inc[k].after ==> ClearName(inc, a)
  {
    assert END !in inc[k].after by { assert !EndPath(inc, [k], k); }
    forall a | a in inc[k].after && a !in PRIORITY && a in inc ensures !ReachesEnd(inc, a) {
      forall p ensures !EndPath(inc, p, a) {
        assert !EndPath(inc, [k] + p, k);
        if EndPath(inc, p, a) { ConsPath(inc, k, p); }
      }
    }
  }

  lemma {:induction false} SumAtLeast(inc: Included, names: seq<string>, chain: seq<string>, a: string)
    requires forall b :: b in names ==> ClearName(inc, b)
    requires SumWeights(inc, names, chain).Success?
    requires a in names
    ensures NameWeight(inc, a, chain).Success?
    ensures SumWeights(inc, names, chain).value >= NameWeight(inc, a, chain).value >= 1
    decreases Left(inc, chain), |names| + 1
  {
    var head := names[0];
    NameAtLeastOne(inc, head, chain);
    if names[1..] != [] {
      var b := if a in names[1..] then a else names[1];
      SumAtLeast(inc, names[1..], chain, b);
    }
  }

  lemma {:induction false} NameAtLeastOne(inc: Included, a: string, chain: seq<string>)
    requires ClearName(inc, a) && NameWeight(inc, a, chain).Success?
    ensures NameWeight(inc, a, chain).value >= 1
    decreases Left(inc, chain), 1
  {
    if a !in PRIORITY && inc[a].after != [] {
      LeftDecreases(inc, a, chain);
      NamesAreClear(inc, a);
      SumAtLeast(inc, inc[a].after, chain + [a], inc[a].after[0]);
    }
  }

  /** As long as no end marker can be reached, weights never decrease along a dependency, and a kept service
      weighs at least as much as `init`. */
  lemma {:induction false} WeightsFollowDependencies(inc: Included, k: string, a: string)
    requires Kept(inc, k) && !ReachesEnd(inc, k)
    ensures WeightOf(inc, k) >= PRIORITY[INIT]
    ensures a in inc[k].after && a in PRIORITY ==> WeightOf(inc, k) >= PRIORITY[a]
    ensures Edge(inc, k, a) ==> Kept(inc, a) && WeightOf(inc, k) >= WeightOf(inc, a) >= PRIORITY[INIT]
  {
    if inc[k].after != [] {
      assert [] + [k] == [k];
      NamesAreClear(inc, k);
      SumAtLeast(inc, inc[k].after, [k], inc[k].after[0]);
      if a in inc[k].after {
        SumAtLeast(inc, inc[k].after, [k], a);
        if a !in PRIORITY { ShorterChain(inc, a, [k], []); }
      }
    }
  }

  /** Among any non-empty set of kept services, one waits for none of the others. */
  lemma {:induction false} FindIndependent(inc: Included, some: set<string>, k: string, chain: seq<string>)
    returns (m: string)
    requires k in some && some <= inc.Keys
    requires Weight(inc, k, chain).Success?
    ensures m in some && forall d :: d in some ==> !Edge(inc, m, d)
    decreases Left(inc, chain)
  {
    if d :| d in some && Edge(inc, k, d) {
      NamesSucceed(inc, k, chain, d);
      LeftDecreases(inc, k, chain);
      m := FindIndependent(inc, some, d, chain + [k]);
    } else {
      m := k;
    }
  }
}
