/**
 Windowed statistics (apps/plugins/aggregator/plugin/stats.go): values are collected in windows aligned to a
 duration; a window is returned and logged when a value for a later one arrives. Floats are reals here.
 */
module Stats {
  import opened Wrappers

  const HISTORY_LENGTH := 5

  datatype Operation = Average | Differential

  /** The value of a `Sample`. */
  datatype Window = Window(avg: real, total: real, max: real, count: nat, start: nat)

  const FRESH := Window(0.0, 0.0, 0.0, 0, 0)

  /** The time rounded down to a multiple of the duration. */
  function Period(now: nat, duration: nat): nat
    requires duration > 0
  {
    if now < duration then 0 else duration + Period(now - duration, duration)
  }

  lemma {:induction false} PeriodIsAligned(now: nat, duration: nat)
    requires duration > 0
    ensures Period(now, duration) == now / duration * duration
    decreases now
  {
    if now >= duration {
      PeriodIsAligned(now - duration, duration);
      OneLess(now, duration);
    } else {
      assert now / duration == 0;
    }
  }

  lemma OneLess(now: nat, duration: nat)
    requires 0 < duration <= now
    ensures now / duration * duration == duration + (now - duration) / duration * duration
  {
    QuotientIsUnique(now, duration, (now - duration) / duration + 1, (now - duration) % duration);
  }

  lemma QuotientIsUnique(n: nat, d: nat, q: nat, r: nat)
    requires d > 0 && r < d && n == q * d + r
    ensures n / d == q
  {
    var p := n / d;
    if p < q { MulMono(p + 1, q, d); }
    if q < p { MulMono(q + 1, p, d); }
  }

  lemma MulMono(a: nat, b: nat, d: nat)
    requires a <= b
    ensures a * d <= b * d
  {
  }

  /** `Sample.Feed` opens a new window for a later period. */
  predicate Opens(w: Window, now: nat, duration: nat)
    requires duration > 0
  {
    Period(now, duration) != 0 && w.start < Period(now, duration)
  }

  function FeedWindow(w: Window, value: real, now: nat, duration: nat): Window
    requires duration > 0
  {
    var period := Period(now, duration);
    if Opens(w, now, duration) then Window(value, value, value, 1, period)
    else
      Window((w.total + value) / (w.count + 1) as real, w.total + value, if value > w.max then value else w.max,
             w.count + 1, if w.start == 0 then period else w.start)
  }

  function LastFew<T>(s: seq<T>): (r: seq<T>)
    ensures |r| == (if |s| > 5 then 5 else |s|) && r == s[|s| - |r|..]
  {
    if |s| > HISTORY_LENGTH then s[|s| - HISTORY_LENGTH..] else s
  }

  /** `log`: a window that never got a period is not kept. */
  function Logged(history: seq<Window>, w: Window): seq<Window> {
    if w.start == 0 then history else LastFew(history + [w])
  }

  /** One duration of a state: the current window and the history. */
  datatype Track = Track(current: Window, history: seq<Window>)

  /** The track after a value; with `keep`, the window that it closes is logged. */
  function FeedTrack(t: Track, value: real, now: nat, duration: nat, keep: bool): Track
    requires duration > 0
  {
    Track(FeedWindow(t.current, value, now, duration),
          if keep && Opens(t.current, now, duration) then Logged(t.history, t.current) else t.history)
  }

  /** The value that goes into the windows; none for the first call of a differential state or when the time
      has not moved on. */
  function ValueFor(op: Operation, lastTime: int, lastValue: real, now: nat, value: real): Option<real>
    requires lastTime >= -1
  {
    if lastTime == -1 then (if op == Average then Some(value) else None)
    else if lastTime >= now then None
    else if op == Differential then Some((value - lastValue) / (now - lastTime) as real)
    else Some(value)
  }

  class Sample {
    var avg: real
    var total: real
    var max: real
    var count: nat
    var start: nat

    function View(): Window
      reads this
    {
      Window(avg, total, max, count, start)
    }

    constructor ()
      ensures View() == FRESH
    {
      avg, total, max, count, start := 0.0, 0.0, 0.0, 0, 0;
    }

    /** The window that was closed, if the value belongs to a later one. */
    method Feed(value: real, now: nat, duration: nat) returns (update: Option<Window>)
      requires duration > 0
      modifies this
      ensures View() == FeedWindow(old(View()), value, now, duration)
      ensures update == if Opens(old(View()), now, duration) then Some(old(View())) else None
    {
      var period := now / duration * duration;
      PeriodIsAligned(now, duration);
      if period != 0 && start < period {
        update := Some(View());
        total, avg, max, count, start := value, value, value, 1, period;
        return;
      }
      if start == 0 {
        start := period;
      }
      total := total + value;
      count := count + 1;
      avg := total / count as real;
      if value > max {
        max := value;
      }
      update := None;
    }
  }

  /** Without its recursion: a value for a later period than the window's begins a window with nothing but itself;
      any other is added to the window, which gets a period if it had none. */
  lemma FeedWindowIs(w: Window, value: real, now: nat, duration: nat)
    requires duration > 0
    ensures var p, t := now / duration * duration, FeedWindow(w, value, now, duration);
      && (Opens(w, now, duration) <==> p > 0 && p > w.start)
      && (p > 0 && p > w.start ==> t == Window(value, value, value, 1, p))
      && (p == 0 || p <= w.start ==>
           && t.total == w.total + value && t.count == w.count + 1 && t.avg == t.total / t.count as real
           && t.max >= w.max && t.max >= value && (t.max == w.max || t.max == value)
           && t.start == if w.start == 0 then p else w.start)
  {
    PeriodIsAligned(now, duration);
  }

  class State {
    const operation: Operation
    var lastValue: real
    var lastTime: int
    var current: map<nat, Sample>
    var history: map<nat, seq<Window>>

    /** Every duration has a sample of its own. */
    ghost predicate Valid()
      reads this
    {
      && lastTime >= -1 && history.Keys <= current.Keys
      && (forall d :: d in current ==> d > 0)
      && (forall d, e :: d in current && e in current && d != e ==> current[d] != current[e])
    }

    function HistoryOf(d: nat): seq<Window>
      reads this
    {
      if d in history then history[d] else []
    }

    function TrackOf(d: nat): Track
      requires d in current
      reads this, current[d]
    {
      Track(current[d].View(), HistoryOf(d))
    }

    constructor (operation: Operation, durations: seq<nat>)
      requires forall d :: d in durations ==> d > 0
      ensures Valid() && this.operation == operation && lastTime == -1
      ensures current.Keys == set d | d in durations
      ensures forall d :: d in current ==> fresh(current[d]) && TrackOf(d) == Track(FRESH, [])
    {
      this.operation := operation;
      lastValue, lastTime := 0.0, -1;
      current, history := map[], map[];
      new;
      var i := 0;
      while i < |durations|
        invariant i <= |durations| && lastTime == -1 && history == map[]
        invariant current.Keys == set d | d in durations[..i]
        invariant forall d :: d in current ==> fresh(current[d]) && current[d].View() == FRESH
        invariant forall d, e :: d in current && e in current && d != e ==> current[d] != current[e]
      {
        var sample := new Sample();
        assert durations[..i + 1] == durations[..i] + [durations[i]];
        current := current[durations[i] := sample];
        i := i + 1;
      }
      assert durations[..i] == durations;
    }

    /** One duration takes the value; with `keep`, the window that it closes is logged. */
    method FeedOne(d: nat, value: real, now: nat, keep: bool) returns (update: Option<Window>)
      requires Valid() && d in current
      modifies this`history, current[d]
      ensures Valid() && TrackOf(d) == FeedTrack(old(TrackOf(d)), value, now, d, keep)
      ensures forall e :: e in current && e != d ==> TrackOf(e) == old(TrackOf(e))
      ensures update == if keep && Opens(old(TrackOf(d)).current, now, d) then Some(old(TrackOf(d)).current) else None
    {
      update := current[d].Feed(value, now, d);
      if !keep {
        update := None;
      } else if update.Some? {
        history := history[d := Logged(HistoryOf(d), update.value)];
      }
    }

    /** The loop over all the durations; `order` is the order in which the map is gone through. */
    method FeedAll(value: real, now: nat, order: seq<nat>, keep: bool) returns (updates: map<nat, Window>)
      requires Valid() && (forall d :: d in order <==> d in current)
      requires forall i, j :: 0 <= i < j < |order| ==> order[i] != order[j]
      modifies this`history, set d | d in current :: current[d]
      ensures Valid()
      ensures forall d :: d in current ==> TrackOf(d) == FeedTrack(old(TrackOf(d)), value, now, d, keep)
      ensures forall d :: d in updates <==> keep && d in current && Opens(old(TrackOf(d)).current, now, d)
      ensures forall d :: d in updates ==> updates[d] == old(TrackOf(d)).current
    {
      updates := map[];
      ghost var before := map d | d in current :: TrackOf(d);
      var i := 0;
      while i < |order|
        invariant i <= |order| && Valid()
        invariant forall d :: d in current ==>
          TrackOf(d) == if d in order[..i] then FeedTrack(before[d], value, now, d, keep) else before[d]
        invariant Collected(updates, before, order[..i], now, keep)
      {
        var d := order[i];
        NotYet(order, i);
        var update := FeedOne(d, value, now, keep);
        CollectedStep(updates, before, order, i, now, keep);
        if update.Some? {
          updates := updates[d := update.value];
        }
        i := i + 1;
      }
      assert order[..i] == order;
    }

    /**
     The first call only starts the windows; a call whose time has not moved on is remembered but not fed; any
     other is fed to every duration, and the windows that it closes are returned and logged.
     */
    method FeedOn(now: nat, value: real, order: seq<nat>) returns (updates: map<nat, Window>)
      requires Valid() && (forall d :: d in order <==> d in current)
      requires forall i, j :: 0 <= i < j < |order| ==> order[i] != order[j]
      modifies this`history, this`lastValue, this`lastTime, set d | d in current :: current[d]
      ensures Valid() && lastValue == value && lastTime == now
      ensures var v := ValueFor(operation, old(lastTime), old(lastValue), now, value);
        forall d :: d in current ==>
          TrackOf(d) == if v == None then old(TrackOf(d))
                        else FeedTrack(old(TrackOf(d)), v.value, now, d, old(lastTime) != -1)
      ensures var v := ValueFor(operation, old(lastTime), old(lastValue), now, value);
        forall d :: d in updates <==>
          v.Some? && old(lastTime) != -1 && d in current && Opens(old(TrackOf(d)).current, now, d)
      ensures forall d :: d in updates ==> updates[d] == old(TrackOf(d)).current
    {
      updates := map[];
      if lastTime == -1 {
        if operation == Average {
          updates := FeedAll(value, now, order, false);
        }
      } else if lastTime < now {
        var fed := value;
        if operation == Differential {
          fed := (value - lastValue) / (now - lastTime) as real;
        }
        updates := FeedAll(fed, now, order, true);
      }
      lastValue, lastTime := value, now;
    }
  }

  /** The windows that the durations in `done` close. */
  ghost predicate Collected(updates: map<nat, Window>, before: map<nat, Track>, done: seq<nat>, now: nat, keep: bool) {
    && (forall d :: d in updates <==> keep && d in done && d in before && d > 0 && Opens(before[d].current, now, d))
    && (forall d :: d in updates ==> updates[d] == before[d].current)
  }

  lemma NotYet(order: seq<nat>, i: nat)
    requires i < |order| && forall i, j :: 0 <= i < j < |order| ==> order[i] != order[j]
    ensures order[i] !in order[..i] && order[..i + 1] == order[..i] + [order[i]]
  {
  }

  lemma CollectedStep(updates: map<nat, Window>, before: map<nat, Track>, order: seq<nat>, i: nat, now: nat, keep: bool)
    requires i < |order| && order[i] in before && order[i] > 0 && Collected(updates, before, order[..i], now, keep)
    ensures var d := order[i];
      Collected(if keep && Opens(before[d].current, now, d) then updates[d := before[d].current] else updates,
                before, order[..i + 1], now, keep)
  {
    assert order[..i + 1] == order[..i] + [order[i]];
  }
}
