/**
 The respawn delay of protected jobs (base/mgr/backoff.go). Durations and instants are in nanoseconds.
 */
module BackOff {
  const SECOND: int := 1000000000

  /** `Delay`, `Multiply` and `Max` with the defaults filled in. */
  datatype Policy = Policy(delay: int, multiply: real, max: int)

  predicate ValidPolicy(p: Policy) {
    p.delay >= 0 && p.multiply >= 0.0 && p.max >= 0
  }

  /** A duration times a factor, cut down to whole nanoseconds. */
  function Scaled(duration: int, factor: real): (r: int)
    requires duration >= 0 && factor >= 0.0
    ensures r >= 0
    ensures r as real <= duration as real * factor < r as real + 1.0
  {
    var exact := duration as real * factor;
    assert exact >= 0.0;
    exact.Floor
  }

  /** Whole seconds only, and never above the maximum. */
  function Rounded(p: Policy, duration: int): (r: int)
    requires ValidPolicy(p) && duration >= 0
    ensures 0 <= r <= p.max
  {
    var whole := duration / SECOND * SECOND;
    if whole >= p.max then p.max else whole
  }

  /** The delay after a call `since` nanoseconds later than the last one, whose delay was `last`. */
  function Next(p: Policy, last: int, since: int): (r: int)
    requires ValidPolicy(p) && last >= 0
    ensures 0 <= r <= p.max
  {
    if since < last * 2 then Rounded(p, Scaled(last, p.multiply)) else Rounded(p, p.delay)
  }

  class BackOff {
    var delay: int
    var multiply: real
    var max: int
    var lastDelay: int
    var lastCall: int
    var initialized: bool

    function Settings(): Policy
      reads this
    {
      if initialized then Policy(delay, multiply, max)
      else Policy(
        if delay == 0 then 30 * SECOND else delay,
        if multiply == 0.0 then 2.0 else multiply,
        if max == 0 then 600 * SECOND else max)
    }

    predicate Valid()
      reads this
    {
      ValidPolicy(Settings()) && lastDelay >= 0 && (!initialized ==> lastDelay == 0)
    }

    constructor (delay: int, multiply: real, max: int)
      requires delay >= 0 && multiply >= 0.0 && max >= 0
      ensures Valid() && !initialized
      ensures this.delay == delay && this.multiply == multiply && this.max == max
      ensures Settings() == Policy(if delay == 0 then 30_000_000_000 else delay,
                                   if multiply == 0.0 then 2.0 else multiply,
                                   if max == 0 then 600_000_000_000 else max)
    {
      this.delay, this.multiply, this.max := delay, multiply, max;
      lastDelay, lastCall, initialized := 0, 0, false;
    }

    /** The first call gives the base delay; a later one is judged by the time since the previous. */
    method Duration(now: int) returns (duration: int)
      requires Valid()
      modifies this
      ensures Valid() && initialized && Settings() == old(Settings())
      ensures lastCall == now && lastDelay == duration
      ensures duration == if old(initialized) then Next(Settings(), old(lastDelay), now - old(lastCall))
                          else Rounded(Settings(), Settings().delay)
    {
      if !initialized {
        lastCall := now;
        if delay == 0 { delay := 30 * SECOND; }
        if multiply == 0.0 { multiply := 2.0; }
        if max == 0 { max := 600 * SECOND; }
        initialized := true;
      }
      var since := now - lastCall;
      if since < lastDelay * 2 {
        duration := Scaled(lastDelay, multiply);
      } else {
        duration := delay;
      }
      lastCall := now;
      duration := duration / SECOND * SECOND;
      if duration >= max { duration := max; }
      lastDelay := duration;
    }
  }

  /** Below the maximum, a call within twice the last delay lengthens the delay exactly when multiplying
      adds at least a second; otherwise rounding down to seconds eats the increase. */
  lemma GrowsIff(p: Policy, last: int, since: int)
    requires ValidPolicy(p) && 0 <= last < p.max && last % SECOND == 0 && since < last * 2
    ensures Next(p, last, since) > last <==> last as real * p.multiply >= (last + SECOND) as real
  {
    WholeSeconds(Scaled(last, p.multiply), last);
  }

  lemma WholeSeconds(raw: int, last: int)
    requires last % SECOND == 0
    ensures raw / SECOND * SECOND > last <==> raw >= last + SECOND
  {
    var q := last / SECOND;
    assert last == q * SECOND;
    assert raw / SECOND > q <==> raw >= (q + 1) * SECOND;
  }

  /** The delays a protected job is respawned after, given the times between its respawns. */
  function Delays(p: Policy, last: int, sinces: seq<int>): seq<int>
    requires ValidPolicy(p) && last >= 0
    decreases |sinces|
  {
    if sinces == [] then [] else var d := Next(p, last, sinces[0]); [d] + Delays(p, d, sinces[1..])
  }

  /** The policy every job is created with: two seconds, half as much again each time, at most five minutes. */
  const JOB_POLICY: Policy := Policy(2 * SECOND, 1.5, 300 * SECOND)

  /** Every call came within twice the delay before it. */
  predicate AllFast(last: int, delays: seq<int>, sinces: seq<int>)
    requires |delays| == |sinces|
  {
    forall i :: 0 <= i < |sinces| ==> sinces[i] < 2 * (if i == 0 then last else delays[i - 1])
  }

  lemma {:induction false} DelaysLength(p: Policy, last: int, sinces: seq<int>)
    requires ValidPolicy(p) && last >= 0
    ensures |Delays(p, last, sinces)| == |sinces|
    decreases |sinces|
  {
    if sinces != [] { DelaysLength(p, Next(p, last, sinces[0]), sinces[1..]); }
  }

  /** While a protected job keeps dying quickly, its delays strictly grow until they stay at the maximum. */
  lemma {:induction false} JobDelaysGrow(last: int, sinces: seq<int>, i: nat)
    requires 2 * SECOND <= last <= JOB_POLICY.max && last % SECOND == 0
    requires |Delays(JOB_POLICY, last, sinces)| == |sinces| && i < |sinces|
    requires AllFast(last, Delays(JOB_POLICY, last, sinces), sinces)
    ensures var ds := Delays(JOB_POLICY, last, sinces);
      var before := if i == 0 then last else ds[i - 1];
      if before < JOB_POLICY.max then before < ds[i] <= JOB_POLICY.max else ds[i] == JOB_POLICY.max
    decreases |sinces|
  {
    var d := Next(JOB_POLICY, last, sinces[0]);
    var ds, rest := Delays(JOB_POLICY, last, sinces), Delays(JOB_POLICY, d, sinces[1..]);
    assert sinces[0] < 2 * last;
    NextInRange(last, sinces[0]);
    if i > 0 {
      DelaysLength(JOB_POLICY, d, sinces[1..]);
      forall k | 0 <= k < |sinces[1..]|
        ensures sinces[1..][k] < 2 * (if k == 0 then d else rest[k - 1])
      {
        assert sinces[k + 1] < 2 * ds[k];
      }
      JobDelaysGrow(d, sinces[1..], i - 1);
      assert ds[i] == rest[i - 1] && (i > 1 ==> ds[i - 1] == rest[i - 2]);
    }
  }

  lemma NextInRange(last: int, since: int)
    requires 2 * SECOND <= last <= JOB_POLICY.max && last % SECOND == 0 && since < 2 * last
    ensures var d := Next(JOB_POLICY, last, since);
      && 2 * SECOND <= d <= JOB_POLICY.max && d % SECOND == 0
      && if last < JOB_POLICY.max then last < d else d == JOB_POLICY.max
  {
    var raw := Scaled(last, 1.5);
    assert 2 * raw <= 3 * last < 2 * raw + 2;
    if last < JOB_POLICY.max {
      GrowsIff(JOB_POLICY, last, since);
    } else {
      assert raw / SECOND >= 300;
    }
  }

  /** Where a run of respawns has got to: its last delay, or what it started from. */
  function LastOf(last: int, delays: seq<int>): int {
    if delays == [] then last else delays[|delays| - 1]
  }

  lemma {:induction false} DelaysConcat(p: Policy, last: int, a: seq<int>, b: seq<int>)
    requires ValidPolicy(p) && last >= 0
    ensures LastOf(last, Delays(p, last, a)) >= 0
    ensures Delays(p, last, a + b) == Delays(p, last, a) + Delays(p, LastOf(last, Delays(p, last, a)), b)
    decreases |a|
  {
    if a == [] {
      assert a + b == b;
    } else {
      var d := Next(p, last, a[0]);
      assert (a + b)[1..] == a[1..] + b;
      DelaysConcat(p, d, a[1..], b);
      assert LastOf(last, Delays(p, last, a)) == LastOf(d, Delays(p, d, a[1..]));
    }
  }

  /** A protected job that lived long enough starts over: whatever its delays were before, the next one is two
      seconds, and those after it are what they would be for a job that has only just begun to die. */
  lemma SlowCallForgets(last: int, before: seq<int>, since: int, after: seq<int>)
    requires last >= 0 && since >= 2 * LastOf(last, Delays(JOB_POLICY, last, before))
    ensures Delays(JOB_POLICY, last, before + ([since] + after)) ==
            Delays(JOB_POLICY, last, before) + ([2 * SECOND] + Delays(JOB_POLICY, 2 * SECOND, after))
  {
    DelaysConcat(JOB_POLICY, last, before, [since] + after);
    assert ([since] + after)[1..] == after;
  }
}
