/**
 Which ports a reservation hands out, and for how long they are not handed out again
 (apps/plugins/socat/plugin/socat.go).
 */
module Reservation {
  import opened Wrappers

  const FIRST := 1024
  const LAST := 65535
  /** Two minutes, in nanoseconds. */
  const LIFETIME := 120_000_000_000

  /** The first `n` ports from `p` on that are not taken; fewer if there are fewer. */
  function Lowest(p: int, n: int, taken: set<int>): (r: seq<int>)
    decreases LAST + 1 - p
  {
    if n <= 0 || p > LAST then []
    else if p in taken then Lowest(p + 1, n, taken)
    else [p] + Lowest(p + 1, n - 1, taken)
  }

  /** The ports with a reservation that has not expired. */
  function Held(reserved: map<int, int>, now: int): set<int> {
    set p | p in reserved && now <= reserved[p]
  }

  /** The reservations with new ones for `ports`, in turn. */
  function Reserved(reserved: map<int, int>, ports: seq<int>, now: int): map<int, int> {
    if ports == [] then reserved
    else Reserved(reserved, ports[..|ports| - 1], now)[ports[|ports| - 1] := now + LIFETIME]
  }

  lemma {:induction false} ReservedAt(reserved: map<int, int>, ports: seq<int>, now: int, p: int)
    ensures var r := Reserved(reserved, ports, now);
      && (p in r <==> p in ports || p in reserved)
      && (p in ports ==> r[p] == now + LIFETIME) && (p !in ports && p in reserved ==> r[p] == reserved[p])
    decreases |ports|
  {
    if ports != [] {
      var before := ports[..|ports| - 1];
      ReservedAt(reserved, before, now, p);
      assert ports == before + [ports[|ports| - 1]];
    }
  }

  lemma ReservedSnoc(reserved: map<int, int>, ports: seq<int>, p: int, now: int)
    ensures Reserved(reserved, ports + [p], now) == Reserved(reserved, ports, now)[p := now + LIFETIME]
  {
    assert (ports + [p])[..|ports|] == ports;
  }

  /** Taking a port below the search does not change it. */
  lemma {:induction false} LowestIgnores(p: int, n: int, taken: set<int>, q: int)
    requires q < p
    ensures Lowest(p, n, taken + {q}) == Lowest(p, n, taken)
    decreases LAST + 1 - p
  {
    if n > 0 && p <= LAST {
      LowestIgnores(p + 1, if p in taken then n else n - 1, taken, q);
    }
  }

  /** Taking the port that comes next leaves what comes after it. */
  lemma LowestStep(p: int, n: int, taken: set<int>)
    requires 0 < n && p <= LAST && p !in taken
    ensures Lowest(p, n, taken) == [p] + Lowest(p, n - 1, taken + {p})
  {
    LowestIgnores(p + 1, n - 1, taken, p);
    LowestSkips(p, n - 1, taken + {p});
  }

  lemma LowestSkips(p: int, n: int, taken: set<int>)
    requires p in taken
    ensures Lowest(p, n, taken) == Lowest(p + 1, n, taken)
  {
  }

  /** The ports a reservation can choose from. */
  function Free(taken: set<int>): set<int> {
    set p: int | 1024 <= p <= 65535 && p !in taken
  }

  predicate Ascending(s: seq<int>) {
    forall i, j :: 0 <= i < j < |s| ==> s[i] < s[j]
  }

  /** The ports from `p` on that are not taken, up to `n` of them; a port left out is above all of them. */
  lemma {:induction false} LowestFrom(p: int, n: int, taken: set<int>)
    ensures var r := Lowest(p, n, taken);
      && |r| <= (if n > 0 then n else 0)
      && (forall q :: q in r ==> p <= q <= LAST && q !in taken)
      && (forall q :: p <= q <= LAST && q !in taken && q !in r ==> |r| == if n > 0 then n else 0)
    decreases LAST + 1 - p
  {
    if n > 0 && p <= LAST {
      LowestFrom(p + 1, if p in taken then n else n - 1, taken);
    }
  }

  lemma {:induction false} LowestAscends(p: int, n: int, taken: set<int>)
    ensures Ascending(Lowest(p, n, taken))
    decreases LAST + 1 - p
  {
    if n > 0 && p <= LAST {
      var m := if p in taken then n else n - 1;
      LowestAscends(p + 1, m, taken);
      LowestFrom(p + 1, m, taken);
      var rest := Lowest(p + 1, m, taken);
      assert forall k :: 0 <= k < |rest| ==> rest[k] in rest;
    }
  }

  lemma {:induction false} LeftOutIsAbove(p: int, n: int, taken: set<int>, q: int, k: int)
    requires p <= q <= LAST && q !in taken && q !in Lowest(p, n, taken) && 0 <= k < |Lowest(p, n, taken)|
    ensures Lowest(p, n, taken)[k] < q
    decreases LAST + 1 - p
  {
    if p in taken {
      LeftOutIsAbove(p + 1, n, taken, q, k);
    } else {
      assert Lowest(p, n, taken)[0] == p;
      if k > 0 { LeftOutIsAbove(p + 1, n - 1, taken, q, k - 1); }
    }
  }

  lemma {:induction false} DistinctSize(s: seq<int>)
    requires Ascending(s)
    ensures |(set x | x in s)| == |s|
  {
    if s != [] {
      var rest := s[..|s| - 1];
      DistinctSize(rest);
      var last := s[|s| - 1];
      assert s == rest + [last];
      assert (set x | x in s) == (set x | x in rest) + {last};
      assert last !in rest;
    } else {
      assert (set x | x in s) == {};
    }
  }

  /**
   A reservation of `n` ports gives free ones in ascending order, lower than every free one it leaves; it is
   short exactly when there are not `n` free ports, and then it has them all.
   */
  lemma ReservesTheLowest(n: nat, taken: set<int>)
    ensures var r := Lowest(FIRST, n, taken);
      && Ascending(r) && (set x | x in r) <= Free(taken)
      && (forall q, k :: q in Free(taken) && q !in r && 0 <= k < |r| ==> r[k] < q)
      && (|r| < n <==> |Free(taken)| < n)
      && (|r| < n ==> (set x | x in r) == Free(taken))
  {
    var r := Lowest(FIRST, n, taken);
    var given := set x | x in r;
    LowestFrom(FIRST, n, taken);
    LowestAscends(FIRST, n, taken);
    forall q, k | q in Free(taken) && q !in r && 0 <= k < |r| ensures r[k] < q {
      LeftOutIsAbove(FIRST, n, taken, q, k);
    }
    DistinctSize(r);
    assert given <= Free(taken);
    SubsetSize(given, Free(taken));
    if |r| < n {
      assert Free(taken) <= given;
      assert given == Free(taken);
    }
  }

  // ---- Runs ----------------------------------------------------------------------------------

  /** What happens to the reservations: ports are reserved, or a forward takes one over, or is removed. */
  datatype Event = Reserve(n: int, listening: set<int>, now: int) | Forward(port: int) | Unforward(port: int)

  datatype State = State(reserved: map<int, int>, forwarded: set<int>)

  function Granted(s: State, e: Event): seq<int> {
    if e.Reserve? then Lowest(FIRST, e.n, e.listening + s.forwarded + Held(s.reserved, e.now)) else []
  }

  function Next(s: State, e: Event): State {
    match e
    case Reserve(_, _, now) => State(Reserved(s.reserved, Granted(s, e), now), s.forwarded)
    case Forward(p) => State(s.reserved - {p}, s.forwarded + {p})
    case Unforward(p) => State(s.reserved, s.forwarded - {p})
  }

  function After(s: State, run: seq<Event>): State {
    if run == [] then s else Next(After(s, run[..|run| - 1]), run[|run| - 1])
  }

  function GrantedAt(s: State, run: seq<Event>, i: nat): seq<int>
    requires i < |run|
  {
    Granted(After(s, run[..i]), run[i])
  }

  ghost predicate ForwardedBetween(run: seq<Event>, p: int, i: int, j: int) {
    exists k :: i < k < j && 0 <= k < |run| && run[k] == Forward(p)
  }

  /** The port is reserved up to `end` at least. */
  ghost predicate Until(s: State, p: int, end: int) {
    p in s.reserved && end <= s.reserved[p]
  }

  lemma StepKeeps(s: State, e: Event, p: int, end: int)
    requires (e.Reserve? && p in Granted(s, e)) || (Until(s, p, end) && e != Forward(p))
    requires e.Reserve? ==> end <= e.now + LIFETIME
    ensures Until(Next(s, e), p, end)
  {
    if e.Reserve? {
      ReservedAt(s.reserved, Granted(s, e), e.now, p);
    }
  }

  lemma AfterStep(s: State, run: seq<Event>, j: nat)
    requires j < |run|
    ensures After(s, run[..j + 1]) == Next(After(s, run[..j]), run[j])
  {
    assert run[..j + 1][..j] == run[..j];
  }

  /** A reservation lasts until its time is over, unless a forward takes the port. */
  lemma {:induction false} ReservationLasts(s: State, run: seq<Event>, p: int, i: nat, j: nat)
    requires i < j <= |run| && run[i].Reserve? && p in GrantedAt(s, run, i)
    requires !ForwardedBetween(run, p, i, j)
    requires forall k :: i < k < j && run[k].Reserve? ==> run[i].now <= run[k].now
    ensures Until(After(s, run[..j]), p, run[i].now + 120_000_000_000)
    decreases j
  {
    if j > i + 1 {
      assert run[j - 1] != Forward(p);
      assert !ForwardedBetween(run, p, i, j - 1);
      ReservationLasts(s, run, p, i, j - 1);
    }
    AfterStep(s, run, j - 1);
    StepKeeps(After(s, run[..j - 1]), run[j - 1], p, run[i].now + LIFETIME);
  }

  /**
   While time does not go back, a port is handed out twice only if a forward took it over in between, or
   the first reservation's time is over.
   */
  lemma HandedOutOnce(s: State, run: seq<Event>, p: int, i: nat, j: nat)
    requires i < j < |run| && run[i].Reserve? && run[j].Reserve?
    requires forall k :: i < k <= j && run[k].Reserve? ==> run[i].now <= run[k].now
    requires p in GrantedAt(s, run, i) && p in GrantedAt(s, run, j)
    ensures ForwardedBetween(run, p, i, j) || run[i].now + LIFETIME < run[j].now
  {
    if !ForwardedBetween(run, p, i, j) {
      ReservationLasts(s, run, p, i, j);
      var t := After(s, run[..j]);
      LowestFrom(FIRST, run[j].n, run[j].listening + t.forwarded + Held(t.reserved, run[j].now));
    }
  }
}
