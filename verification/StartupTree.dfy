/**
 The sorted startup tree (base/settings/tree.go): services beside a side table of weights, sorted by
 swapping both, and cut into weight ranges.
 */
module StartupTree {
  import opened Wrappers
  import opened Settings

  /** A service with the weight the side table holds for its position. */
  datatype Entry = Entry(service: Startup, weight: int)

  predicate Sorted(es: seq<Entry>) {
    forall i, j :: 0 <= i < j < |es| ==> es[i].weight <= es[j].weight
  }

  predicate DistinctKeys(es: seq<Entry>) {
    forall i, j :: 0 <= i < j < |es| ==> es[i].service.key != es[j].service.key
  }

  function Swapped(es: seq<Entry>, i: nat, j: nat): (r: seq<Entry>)
    requires i < |es| && j < |es|
  {
    es[i := es[j]][j := es[i]]
  }

  function Services(es: seq<Entry>): (r: seq<Startup>)
    ensures |r| == |es| && forall i :: 0 <= i < |es| ==> r[i] == es[i].service
  {
    seq(|es|, i requires 0 <= i < |es| => es[i].service)
  }

  predicate InRange(w: int, s: int, e: int) {
    w >= s && (w < e || e == -1)
  }

  /** The services of a weight range, in tree order. */
  function Select(es: seq<Entry>, s: int, e: int): seq<Startup> {
    if es == [] then []
    else if InRange(es[0].weight, s, e) then [es[0].service] + Select(es[1..], s, e)
    else Select(es[1..], s, e)
  }

  lemma {:induction false} SelectAppend(es: seq<Entry>, x: Entry, s: int, e: int)
    ensures Select(es + [x], s, e) ==
            if InRange(x.weight, s, e) then Select(es, s, e) + [x.service] else Select(es, s, e)
  {
    if es == [] {
      assert es + [x] == [x] && [x][1..] == [];
    } else {
      assert (es + [x])[1..] == es[1..] + [x];
      SelectAppend(es[1..], x, s, e);
      Associative([es[0].service], Select(es[1..], s, e), [x.service]);
    }
  }

  lemma SwappedIsPermutation(es: seq<Entry>, i: nat, j: nat)
    requires i < |es| && j < |es|
    ensures multiset(Swapped(es, i, j)) == multiset(es)
  {
  }

  /** The effect of a run of `Swap` calls. */
  function SwapRun(es: seq<Entry>, run: seq<(nat, nat)>): (r: seq<Entry>)
    requires forall s :: s in run ==> s.0 < |es| && s.1 < |es|
    decreases |run|
  {
    if run == [] then es else SwapRun(Swapped(es, run[0].0, run[0].1), run[1..])
  }

  /** However a sort swaps, each service keeps its own weight: the pairs are only permuted. */
  lemma {:induction false} SwapRunIsPermutation(es: seq<Entry>, run: seq<(nat, nat)>)
    requires forall s :: s in run ==> s.0 < |es| && s.1 < |es|
    ensures multiset(SwapRun(es, run)) == multiset(es)
    decreases |run|
  {
    if run != [] {
      SwappedIsPermutation(es, run[0].0, run[0].1);
      SwapRunIsPermutation(Swapped(es, run[0].0, run[0].1), run[1..]);
    }
  }

  /** What a tree made from `inc` is: every kept service once with its weight, in weight order. */
  ghost predicate IsTree(inc: Included, es: seq<Entry>) {
    && Sorted(es)
    && DistinctKeys(es)
    && (forall x :: x in es ==> TreeEntry(inc, x))
    && (forall k :: Kept(inc, k) ==> Entry(inc[k], WeightOf(inc, k)) in es)
  }

  ghost predicate TreeEntry(inc: Included, x: Entry) {
    && Kept(inc, x.service.key)
    && x.service == inc[x.service.key]
    && x.weight == WeightOf(inc, x.service.key)
  }

  class Tree {
    var startups: seq<Startup>
    var weights: map<int, int>

    ghost predicate Valid()
      reads this
    {
      forall i :: i in weights <==> 0 <= i < |startups|
    }

    ghost function Entries(): (es: seq<Entry>)
      requires Valid()
      reads this
      ensures |es| == |startups|
      ensures forall i :: 0 <= i < |es| ==> es[i] == Entry(startups[i], weights[i])
    {
      seq(|startups|, i requires 0 <= i < |startups| && i in weights reads this => Entry(startups[i], weights[i]))
    }

    constructor ()
      ensures Valid() && Entries() == []
    {
      startups := [];
      weights := map[];
    }

    method Add(s: Startup, w: int)
      requires Valid()
      modifies this
      ensures Valid() && Entries() == old(Entries()) + [Entry(s, w)]
    {
      startups := startups + [s];
      weights := weights[|startups| - 1 := w];
    }

    method Less(i: nat, j: nat) returns (r: bool)
      requires Valid() && i < |startups| && j < |startups|
      ensures r == (Entries()[i].weight < Entries()[j].weight)
    {
      r := weights[i] < weights[j];
    }

    method Swap(i: nat, j: nat)
      requires Valid() && i < |startups| && j < |startups|
      modifies this
      ensures Valid() && Entries() == Swapped(old(Entries()), i, j)
    {
      startups := startups[i := startups[j]][j := startups[i]];
      weights := weights[i := weights[j]][j := weights[i]];
    }

    /** Go's `sort.Sort` on this tree (its insertion form): it only ever calls `Less` and `Swap`. */
    method Sort()
      requires Valid()
      modifies this
      ensures Valid() && Sorted(Entries())
      ensures multiset(Entries()) == multiset(old(Entries()))
    {
      for i := 0 to |startups|
        invariant Valid() && |startups| == old(|startups|)
        invariant Sorted(Entries()[..i])
        invariant multiset(Entries()) == multiset(old(Entries()))
      {
        Sink(i);
      }
      assert Entries()[..|startups|] == Entries();
    }

    /** The inner loop: move the element at `i` down to its place among the sorted ones before it. */
    method Sink(i: nat)
      requires Valid() && i < |startups| && Sorted(Entries()[..i])
      modifies this
      ensures Valid() && |startups| == old(|startups|)
      ensures Sorted(Entries()[..i + 1])
      ensures multiset(Entries()) == multiset(old(Entries()))
    {
      var j: nat := i;
      var sinking := true;
      ghost var es := Entries();
      while j > 0 && sinking
        invariant Valid() && Entries() == es && Sinking(old(Entries()), es, i, j)
        invariant !sinking ==> j > 0 && es[j - 1].weight <= es[j].weight
        decreases j, sinking
      {
        sinking := Less(j, j - 1);
        if sinking {
          SinkStep(old(Entries()), es, i, j);
          Swap(j, j - 1);
          es := Swapped(es, j, j - 1);
          j := j - 1;
        }
      }
      SettledIsSorted(es[..i + 1], j);
    }

    method Slice(s: int, e: int) returns (slice: seq<Startup>)
      requires Valid()
      ensures slice == Select(Entries(), s, e)
    {
      slice := [];
      for i := 0 to |startups|
        invariant slice == Select(Entries()[..i], s, e)
      {
        SelectAppend(Entries()[..i], Entries()[i], s, e);
        assert Entries()[..i + 1] == Entries()[..i] + [Entries()[i]];
        var w := weights[i];
        if w < s { continue; }
        if w >= e && e != -1 { continue; }
        slice := slice + [startups[i]];
      }
      assert Entries()[..|startups|] == Entries();
    }
  }

  /** Sorted except that the element at `j` may be too small for its place. */
  ghost predicate SortedBut(es: seq<Entry>, j: nat) {
    && (forall a, b :: 0 <= a < b < |es| && a != j && b != j ==> es[a].weight <= es[b].weight)
    && (forall b :: j < b < |es| ==> j < |es| && es[j].weight <= es[b].weight)
  }

  lemma SinkOnce(es: seq<Entry>, j: nat)
    requires 0 < j < |es| && SortedBut(es, j) && es[j].weight < es[j - 1].weight
    ensures SortedBut(Swapped(es, j, j - 1), j - 1)
  {
  }

  /** On its way down from `i` the element has come to `j`. */
  ghost predicate Sinking(before: seq<Entry>, es: seq<Entry>, i: nat, j: nat) {
    |es| == |before| && multiset(es) == multiset(before) && j <= i < |es| && SortedBut(es[..i + 1], j)
  }

  lemma SinkStep(before: seq<Entry>, es: seq<Entry>, i: nat, j: nat)
    requires Sinking(before, es, i, j) && 0 < j && es[j].weight < es[j - 1].weight
    ensures Sinking(before, Swapped(es, j, j - 1), i, j - 1)
  {
    SinkOnce(es[..i + 1], j);
    assert Swapped(es, j, j - 1)[..i + 1] == Swapped(es[..i + 1], j, j - 1);
    SwappedIsPermutation(es, j, j - 1);
  }

  lemma SettledIsSorted(es: seq<Entry>, j: nat)
    requires j < |es| && SortedBut(es, j) && (j > 0 ==> es[j - 1].weight <= es[j].weight)
    ensures Sorted(es)
  {
    forall a, b | 0 <= a < b < |es| ensures es[a].weight <= es[b].weight {
      if b == j && a < j - 1 { assert es[a].weight <= es[j - 1].weight; }
    }
  }

  /** `prepare`: every service learns its own name. */
  function WithKeys(inc: Included): (r: Included)
    ensures Prepared(r)
    ensures r.Keys == inc.Keys && forall k :: k in inc ==> r[k].after == inc[k].after
  {
    map k | k in inc :: inc[k].(key := k)
  }

  method Prepare(inc: Included) returns (r: Included)
    ensures r == WithKeys(inc)
  {
    r := inc;
    var todo := inc.Keys;
    while todo != {}
      invariant todo <= inc.Keys == r.Keys
      invariant forall k :: k in inc ==> r[k] == if k in todo then inc[k] else inc[k].(key := k)
      decreases |todo|
    {
      var k :| k in todo;
      r := r[k := r[k].(key := k)];
      todo := todo - {k};
    }
  }

  datatype TreeError = TreeError(key: string, error: WeightError)

  /** Every service that was dropped is reported once, with the reason its weight failed. */
  ghost predicate Reported(inc: Included, errors: seq<TreeError>) {
    && (forall i, j :: 0 <= i < j < |errors| ==> errors[i].key != errors[j].key)
    && (forall x :: x in errors ==> x.key in inc && Weight(inc, x.key, []) == Failure(x.error))
    && (forall k :: k in inc && !Kept(inc, k) ==> TreeError(k, Weight(inc, k, []).error) in errors)
  }

  /** `GetStartupTree` part way: everything but `todo` is in the tree or reported. */
  ghost predicate Collected(inc: Included, todo: set<string>, es: seq<Entry>, errors: seq<TreeError>) {
    && todo <= inc.Keys
    && DistinctKeys(es)
    && (forall x :: x in es ==> TreeEntry(inc, x) && x.service.key !in todo)
    && (forall k :: Kept(inc, k) && k !in todo ==> Entry(inc[k], WeightOf(inc, k)) in es)
    && (forall i, j :: 0 <= i < j < |errors| ==> errors[i].key != errors[j].key)
    && (forall x :: x in errors ==> x.key in inc && x.key !in todo && Weight(inc, x.key, []) == Failure(x.error))
    && (forall k :: k in inc && k !in todo && !Kept(inc, k) ==> TreeError(k, Weight(inc, k, []).error) in errors)
  }

  lemma CollectOne(inc: Included, todo: set<string>, es: seq<Entry>, errors: seq<TreeError>, k: string)
    requires Prepared(inc) && Collected(inc, todo, es, errors) && k in todo
    ensures Kept(inc, k) ==> Collected(inc, todo - {k}, es + [Entry(inc[k], WeightOf(inc, k))], errors)
    ensures !Kept(inc, k) ==> Collected(inc, todo - {k}, es, errors + [TreeError(k, Weight(inc, k, []).error)])
  {
    if Kept(inc, k) {
      CollectKept(inc, todo, es, errors, k);
    } else {
      var more := errors + [TreeError(k, Weight(inc, k, []).error)];
      assert more[|errors|].key == k;
    }
  }

  lemma CollectKept(inc: Included, todo: set<string>, es: seq<Entry>, errors: seq<TreeError>, k: string)
    requires Prepared(inc) && Collected(inc, todo, es, errors) && k in todo && Kept(inc, k)
    ensures Collected(inc, todo - {k}, es + [Entry(inc[k], WeightOf(inc, k))], errors)
  {
    var x := Entry(inc[k], WeightOf(inc, k));
    assert forall y :: y in es ==> y.service.key != k;
    assert (es + [x])[|es|] == x;
  }

  method GetStartupTree(included: Included) returns (tree: Tree, errors: seq<TreeError>)
    ensures fresh(tree) && tree.Valid()
    ensures IsTree(WithKeys(included), tree.Entries())
    ensures Reported(WithKeys(included), errors)
  {
    var inc := Prepare(included);
    tree := new Tree();
    errors := [];
    var todo := inc.Keys;
    while todo != {}
      invariant tree.Valid() && fresh(tree)
      invariant Collected(inc, todo, tree.Entries(), errors)
      decreases |todo|
    {
      var k :| k in todo;
      CollectOne(inc, todo, tree.Entries(), errors, k);
      todo := todo - {k};
      var w := ComputeWeight(inc, k, []);
      if w.Failure? {
        errors := errors + [TreeError(k, w.error)];
        continue;
      }
      tree.Add(inc[k], w.value);
    }
    ghost var unsorted := tree.Entries();
    tree.Sort();
    PermutationKeepsTree(inc, unsorted, tree.Entries());
  }

  lemma PermutationKeepsTree(inc: Included, a: seq<Entry>, b: seq<Entry>)
    requires multiset(a) == multiset(b) && DistinctKeys(a) && Sorted(b)
    requires forall x :: x in a ==> TreeEntry(inc, x)
    requires forall k :: Kept(inc, k) ==> Entry(inc[k], WeightOf(inc, k)) in a
    ensures IsTree(inc, b)
  {
    forall x ensures x in a <==> x in b {
      assert x in multiset(a) <==> x in multiset(b);
    }
    forall i, j | 0 <= i < j < |b| ensures b[i].service.key != b[j].service.key {
      if b[i].service.key == b[j].service.key {
        assert TreeEntry(inc, b[i]) && TreeEntry(inc, b[j]);
        TwiceInMultiset(b, i, j);
        OnceInMultiset(a, b[i]);
      }
    }
  }

  lemma TwiceInMultiset(es: seq<Entry>, i: nat, j: nat)
    requires i < j < |es| && es[i] == es[j]
    ensures multiset(es)[es[i]] >= 2
  {
    assert es == es[..j] + [es[j]] + es[j + 1..];
    assert es[..j][i] == es[i];
    assert es[i] in multiset(es[..j]);
  }

  lemma {:induction false} OnceInMultiset(es: seq<Entry>, x: Entry)
    requires DistinctKeys(es)
    ensures multiset(es)[x] <= 1
  {
    if es != [] {
      assert es == [es[0]] + es[1..];
      OnceInMultiset(es[1..], x);
      if x in es[1..] {
        var i :| 0 <= i < |es| - 1 && es[1..][i] == x;
        assert es[0].service.key != es[i + 1].service.key;
      } else {
        assert x !in multiset(es[1..]);
      }
    }
  }

  // ---- The three stages ----------------------------------------------------------------------

  /** The weight range of stage 0, 1 or 2: init up to net, net up to boot, boot to the end. */
  function StageStart(stage: nat): int {
    if stage == 0 then PRIORITY[INIT] else if stage == 1 then PRIORITY[NET] else PRIORITY[BOOT]
  }

  function StageEnd(stage: nat): int {
    if stage == 0 then PRIORITY[NET] else if stage == 1 then PRIORITY[BOOT] else PRIORITY[END]
  }

  function Stage(es: seq<Entry>, stage: nat): seq<Startup> {
    Select(es, StageStart(stage), StageEnd(stage))
  }

  lemma {:induction false} SelectMembers(es: seq<Entry>, s: int, e: int, x: Startup)
    ensures x in Select(es, s, e) <==> exists y :: y in es && y.service == x && InRange(y.weight, s, e)
  {
    if es != [] {
      SelectMembers(es[1..], s, e, x);
      assert es == [es[0]] + es[1..];
      assert es[0] in es;
      assert forall y :: y in es <==> y == es[0] || y in es[1..];
    }
  }

  lemma {:induction false} SelectDistinct(es: seq<Entry>, s: int, e: int)
    requires DistinctKeys(es)
    ensures forall i, j :: 0 <= i < j < |Select(es, s, e)| ==> Select(es, s, e)[i].key != Select(es, s, e)[j].key
  {
    if es != [] {
      SelectDistinct(es[1..], s, e);
      forall x | x in Select(es[1..], s, e) ensures x.key != es[0].service.key {
        SelectMembers(es[1..], s, e, x);
        var y :| y in es[1..] && y.service == x;
        var i :| 0 <= i < |es| - 1 && es[1..][i] == y;
        assert es[i + 1] == y;
      }
    }
  }

  lemma {:induction false} SelectNothing(es: seq<Entry>, s: int, e: int)
    requires forall x :: x in es ==> !InRange(x.weight, s, e)
    ensures Select(es, s, e) == []
  {
    if es != [] {
      assert es[0] in es;
      SelectNothing(es[1..], s, e);
    }
  }

  lemma TailWeighsMore(es: seq<Entry>)
    requires Sorted(es) && es != []
    ensures forall x :: x in es[1..] ==> x.weight >= es[0].weight
  {
    forall x | x in es[1..] ensures x.weight >= es[0].weight {
      var i :| 0 <= i < |es[1..]| && es[1..][i] == x;
      assert es[i + 1] == x;
    }
  }

  /** Cutting a range of a sorted tree in two loses nothing and keeps the order. */
  lemma {:induction false} SelectSplit(es: seq<Entry>, p: int, q: int, e: int)
    requires Sorted(es) && p <= q && q != -1 && (q <= e || e == -1)
    ensures Select(es, p, q) + Select(es, q, e) == Select(es, p, e)
  {
    if es != [] {
      SelectSplit(es[1..], p, q, e);
      TailWeighsMore(es);
      var head, a, b := [es[0].service], Select(es[1..], p, q), Select(es[1..], q, e);
      SelectHead(es, p, q);
      SelectHead(es, q, e);
      SelectHead(es, p, e);
      if es[0].weight >= q {
        SelectNothing(es[1..], p, q);
      } else if es[0].weight >= p {
        Associative(head, a, b);
      }
    }
  }

  lemma SelectHead(es: seq<Entry>, s: int, e: int)
    requires es != []
    ensures InRange(es[0].weight, s, e) ==> Select(es, s, e) == [es[0].service] + Select(es[1..], s, e)
    ensures !InRange(es[0].weight, s, e) ==> Select(es, s, e) == Select(es[1..], s, e)
  {
  }

  /** A range without an upper bound keeps everything exactly if nothing weighs less. */
  lemma {:induction false} SelectAllIff(es: seq<Entry>, p: int)
    ensures |Select(es, p, -1)| <= |es|
    ensures |Select(es, p, -1)| == |es| ==> Select(es, p, -1) == Services(es)
    ensures |Select(es, p, -1)| == |es| <==> forall x :: x in es ==> x.weight >= p
  {
    if es != [] {
      SelectHead(es, p, -1);
      SelectAllIff(es[1..], p);
      assert es == [es[0]] + es[1..];
      assert forall x :: x in es <==> x == es[0] || x in es[1..];
      assert Services(es) == [es[0].service] + Services(es[1..]);
    }
  }

  /** The three stages cut what weighs at least as much as `init` out of a sorted tree, into consecutive
      pieces; they leave nothing out exactly if nothing weighs less. */
  lemma StagesPartition(es: seq<Entry>)
    requires Sorted(es)
    ensures Stage(es, 0) + Stage(es, 1) + Stage(es, 2) == Select(es, PRIORITY[INIT], -1)
    ensures Stage(es, 0) + Stage(es, 1) + Stage(es, 2) == Services(es) <==>
      forall x :: x in es ==> x.weight >= PRIORITY[INIT]
  {
    SelectSplit(es, PRIORITY[INIT], PRIORITY[NET], PRIORITY[BOOT]);
    SelectSplit(es, PRIORITY[INIT], PRIORITY[BOOT], -1);
    SelectAllIff(es, PRIORITY[INIT]);
  }
}
