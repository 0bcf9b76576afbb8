/**
 What the windows and the history of a statistic hold, in terms of the log of the values fed to it.
 */
module StatsTheorems {
  import opened Wrappers
  import opened Stats

  datatype Entry = Entry(now: nat, value: real)

  function Init<T>(s: seq<T>): seq<T>
    requires s != []
  {
    s[..|s| - 1]
  }

  function Last<T>(s: seq<T>): T
    requires s != []
  {
    s[|s| - 1]
  }

  // ---- The calls and what they feed ----------------------------------------------------------

  function LastTime(calls: seq<Entry>): int {
    if calls == [] then -1 else Last(calls).now
  }

  function LastValue(calls: seq<Entry>): real {
    if calls == [] then 0.0 else Last(calls).value
  }

  function FedBy(op: Operation, before: seq<Entry>, e: Entry): Option<real> {
    ValueFor(op, LastTime(before), LastValue(before), e.now, e.value)
  }

  /** The values that the calls put into the windows. */
  function Log(op: Operation, calls: seq<Entry>): seq<Entry> {
    if calls == [] then []
    else
      match FedBy(op, Init(calls), Last(calls))
      case None => Log(op, Init(calls))
      case Some(v) => Log(op, Init(calls)) + [Entry(Last(calls).now, v)]
  }

  /** One duration after the calls, as `FeedOn` leaves it. */
  function AfterCalls(op: Operation, calls: seq<Entry>, d: nat): Track
    requires d > 0
  {
    if calls == [] then Track(FRESH, [])
    else
      match FedBy(op, Init(calls), Last(calls))
      case None => AfterCalls(op, Init(calls), d)
      case Some(v) => FeedTrack(AfterCalls(op, Init(calls), d), v, Last(calls).now, d, Init(calls) != [])
  }

  /** What call `i` adds to the calls before it. */
  ghost predicate OneMore(op: Operation, calls: seq<Entry>, i: nat, d: nat)
    requires i < |calls| && d > 0
  {
    var before, e := calls[..i], calls[i];
    && LastTime(calls[..i + 1]) == e.now && LastValue(calls[..i + 1]) == e.value
    && AfterCalls(op, calls[..i + 1], d) ==
       match FedBy(op, before, e)
       case None => AfterCalls(op, before, d)
       case Some(v) => FeedTrack(AfterCalls(op, before, d), v, e.now, d, i != 0)
  }

  lemma OneMoreCall(op: Operation, calls: seq<Entry>, i: nat, d: nat)
    requires i < |calls| && d > 0
    ensures OneMore(op, calls, i, d)
  {
    assert Init(calls[..i + 1]) == calls[..i];
  }

  /** The windows of one duration that the calls have returned, in order: those that a fed value closes, other
      than at the first call. */
  function Returned(op: Operation, calls: seq<Entry>, d: nat): seq<Window>
    requires d > 0
  {
    if calls == [] then []
    else
      var before := Init(calls);
      var current := AfterCalls(op, before, d).current;
      if FedBy(op, before, Last(calls)).Some? && before != [] && Opens(current, Last(calls).now, d)
      then Returned(op, before, d) + [current] else Returned(op, before, d)
  }

  /** What a sequence of answers holds for one duration. */
  function Answered(answers: seq<map<nat, Window>>, d: nat): seq<Window> {
    if answers == [] then []
    else Answered(Init(answers), d) + if d in Last(answers) then [Last(answers)[d]] else []
  }

  /** Calls of `FeedOn`, one after another, on a new state: every duration holds what `AfterCalls` says, and
      `Returned` is what was returned for it. */
  method FeedCalls(s: State, calls: seq<Entry>, orders: seq<seq<nat>>) returns (answers: seq<map<nat, Window>>)
    requires s.Valid() && s.lastTime == -1 && forall d :: d in s.current ==> s.TrackOf(d) == Track(FRESH, [])
    requires |orders| == |calls| && forall i :: 0 <= i < |calls| ==> Goes(orders[i], s.current.Keys)
    modifies s`history, s`lastValue, s`lastTime, set d | d in s.current :: s.current[d]
    ensures s.Valid() && s.lastTime == LastTime(calls) && |answers| == |calls|
    ensures forall d :: d in s.current ==> s.TrackOf(d) == AfterCalls(s.operation, calls, d)
    ensures forall d :: d in s.current ==> Answered(answers, d) == Returned(s.operation, calls, d)
  {
    answers := [];
    var i := 0;
    while i < |calls|
      invariant i <= |calls| == |orders| && |answers| == i && s.Valid()
      invariant s.lastTime == LastTime(calls[..i]) && (i > 0 ==> s.lastValue == LastValue(calls[..i]))
      invariant forall d :: d in s.current ==> s.TrackOf(d) == AfterCalls(s.operation, calls[..i], d)
      invariant forall d :: d in s.current ==> Answered(answers, d) == Returned(s.operation, calls[..i], d)
    {
      assert Goes(orders[i], s.current.Keys);
      forall d | d in s.current ensures OneMore(s.operation, calls, i, d) { OneMoreCall(s.operation, calls, i, d); }
      var updates := s.FeedOn(calls[i].now, calls[i].value, orders[i]);
      forall d | d in s.current
        ensures Answered(answers + [updates], d) == Returned(s.operation, calls[..i + 1], d)
      {
        OneMoreAnswer(s.operation, calls, i, answers, updates, d);
      }
      answers := answers + [updates];
      i := i + 1;
    }
    assert calls[..i] == calls;
  }

  lemma OneMoreAnswer(op: Operation, calls: seq<Entry>, i: nat, answers: seq<map<nat, Window>>,
                      updates: map<nat, Window>, d: nat)
    requires i < |calls| && d > 0 && Answered(answers, d) == Returned(op, calls[..i], d)
    requires var current := AfterCalls(op, calls[..i], d).current;
      && (d in updates <==> FedBy(op, calls[..i], calls[i]).Some? && i != 0 && Opens(current, calls[i].now, d))
      && (d in updates ==> updates[d] == current)
    ensures Answered(answers + [updates], d) == Returned(op, calls[..i + 1], d)
  {
    assert Init(calls[..i + 1]) == calls[..i] && Last(calls[..i + 1]) == calls[i];
    assert Init(answers + [updates]) == answers && Last(answers + [updates]) == updates;
  }

  /** The order in which a map with these keys is gone through. */
  ghost predicate Goes(order: seq<nat>, keys: set<nat>) {
    (forall d :: d in order <==> d in keys) && forall i, j :: 0 <= i < j < |order| ==> order[i] != order[j]
  }

  function AfterLog(log: seq<Entry>, d: nat): Track
    requires d > 0
  {
    if log == [] then Track(FRESH, [])
    else FeedTrack(AfterLog(Init(log), d), Last(log).value, Last(log).now, d, true)
  }

  lemma {:induction false} CallsFeedTheLog(op: Operation, calls: seq<Entry>, d: nat)
    requires d > 0
    ensures AfterCalls(op, calls, d) == AfterLog(Log(op, calls), d)
  {
    if calls != [] {
      CallsFeedTheLog(op, Init(calls), d);
      var v := FedBy(op, Init(calls), Last(calls));
      if v.Some? {
        var before := Log(op, Init(calls));
        assert Init(before + [Entry(Last(calls).now, v.value)]) == before;
      }
    }
  }

  predicate Increasing(s: seq<Entry>) {
    forall i, j :: 0 <= i < j < |s| ==> s[i].now < s[j].now
  }

  lemma IncreasingInit(s: seq<Entry>)
    requires Increasing(s) && s != []
    ensures Increasing(Init(s)) && forall i :: 0 <= i < |s| - 1 ==> Init(s)[i].now < Last(s).now
  {
  }

  lemma {:induction false} LogIncreases(op: Operation, calls: seq<Entry>)
    requires Increasing(calls)
    ensures Increasing(Log(op, calls))
    ensures forall e :: e in Log(op, calls) ==> calls != [] && e.now <= Last(calls).now
  {
    if calls != [] {
      IncreasingInit(calls);
      LogIncreases(op, Init(calls));
      var before := Log(op, Init(calls));
      assert forall i :: 0 <= i < |before| ==> before[i] in before;
      if |calls| > 1 { assert Last(Init(calls)).now < Last(calls).now; }
    }
  }

  // ---- What is fed ---------------------------------------------------------------------------

  /** A rate kept up for some time: their product. */
  function Over(rate: real, time: nat): real {
    if time == 0 then 0.0 else Over(rate, time - 1) + rate
  }

  lemma {:induction false} OverIsProduct(rate: real, time: nat)
    ensures Over(rate, time) == rate * time as real
  {
    if time > 0 { OverIsProduct(rate, time - 1); }
  }

  lemma QuotientOver(x: real, time: nat)
    requires time > 0
    ensures Over(x / time as real, time) == x
  {
    OverIsProduct(x / time as real, time);
  }

  /** What a call feeds: nothing if its time has not moved on; the value itself for an average; for a differential
      what makes up the change since the previous call when multiplied by the time since then, and nothing at the
      first call. */
  lemma FedByIs(op: Operation, before: seq<Entry>, e: Entry)
    ensures FedBy(op, before, e).Some? <==>
      (before == [] && op == Average) || (before != [] && Last(before).now < e.now)
    ensures FedBy(op, before, e).Some? && op == Average ==> FedBy(op, before, e).value == e.value
    ensures FedBy(op, before, e).Some? && op == Differential ==>
      before != [] && Last(before).now < e.now &&
      Over(FedBy(op, before, e).value, e.now - Last(before).now) == e.value - Last(before).value
  {
    if before != [] && Last(before).now < e.now {
      QuotientOver(e.value - Last(before).value, e.now - Last(before).now);
    }
  }

  /** At increasing times an average is fed every value. */
  lemma {:induction false} AverageFeedsAll(calls: seq<Entry>)
    requires Increasing(calls)
    ensures Log(Average, calls) == calls
  {
    if calls != [] {
      IncreasingInit(calls);
      AverageFeedsAll(Init(calls));
      FedByIs(Average, Init(calls), Last(calls));
      if |calls| > 1 { assert Last(Init(calls)).now < Last(calls).now; }
      assert calls == Init(calls) + [Last(calls)];
    }
  }

  /** What the values of a log add up to, each over the time since the call before it. */
  function Change(log: seq<Entry>, calls: seq<Entry>): real
    requires |calls| == |log| + 1 && Increasing(calls)
  {
    if log == [] then 0.0
    else
      IncreasingInit(calls);
      Change(Init(log), Init(calls)) + Over(Last(log).value, Last(calls).now - Last(Init(calls)).now)
  }

  /** One value for every call but the first, at the time of that call, which over the time since the call
      before it makes up the change between the two. */
  ghost predicate FeedsChange(log: seq<Entry>, calls: seq<Entry>) {
    |calls| == |log| + 1 && forall i :: 0 <= i < |log| ==> StepIs(log[i], calls[i], calls[i + 1])
  }

  predicate StepIs(fed: Entry, before: Entry, e: Entry) {
    fed.now == e.now && before.now < e.now && Over(fed.value, e.now - before.now) == e.value - before.value
  }

  lemma LogSnoc(calls: seq<Entry>) returns (v: real)
    requires |calls| > 1 && Last(Init(calls)).now < Last(calls).now
    ensures Log(Differential, calls) == Log(Differential, Init(calls)) + [Entry(Last(calls).now, v)]
    ensures StepIs(Entry(Last(calls).now, v), Last(Init(calls)), Last(calls))
  {
    FedByIs(Differential, Init(calls), Last(calls));
    v := FedBy(Differential, Init(calls), Last(calls)).value;
  }

  lemma FeedsSnoc(log: seq<Entry>, calls: seq<Entry>, fed: Entry)
    requires |calls| > 1 && FeedsChange(log, Init(calls)) && StepIs(fed, Last(Init(calls)), Last(calls))
    ensures FeedsChange(log + [fed], calls)
  {
    forall i | 0 <= i < |log + [fed]| ensures StepIs((log + [fed])[i], calls[i], calls[i + 1]) {
      if i < |log| { assert StepIs(log[i], Init(calls)[i], Init(calls)[i + 1]); }
    }
  }

  /** What a differential is fed at increasing times. */
  lemma {:induction false} DifferentialFeeds(calls: seq<Entry>)
    requires Increasing(calls) && calls != []
    ensures FeedsChange(Log(Differential, calls), calls)
  {
    if |calls| == 1 {
      FedByIs(Differential, Init(calls), Last(calls));
      assert Log(Differential, Init(calls)) == [];
    } else {
      IncreasingInit(calls);
      DifferentialFeeds(Init(calls));
      var v := LogSnoc(calls);
      FeedsSnoc(Log(Differential, Init(calls)), calls, Entry(Last(calls).now, v));
    }
  }

  lemma {:induction false} ChangeTelescopes(log: seq<Entry>, calls: seq<Entry>)
    requires Increasing(calls) && FeedsChange(log, calls)
    ensures Change(log, calls) == Last(calls).value - calls[0].value
  {
    if log != [] {
      IncreasingInit(calls);
      var n := |log| - 1;
      assert StepIs(log[n], calls[n], calls[n + 1]);
      forall i | 0 <= i < n ensures StepIs(Init(log)[i], Init(calls)[i], Init(calls)[i + 1]) {
        assert StepIs(log[i], calls[i], calls[i + 1]);
      }
      ChangeTelescopes(Init(log), Init(calls));
    }
  }

  /** Over the time between the calls, the values a differential is fed at increasing times add up to the change
      from the first value to the last. */
  lemma DifferentialFeedsChange(calls: seq<Entry>)
    requires Increasing(calls) && calls != []
    ensures FeedsChange(Log(Differential, calls), calls)
    ensures Change(Log(Differential, calls), calls) == Last(calls).value - calls[0].value
  {
    DifferentialFeeds(calls);
    ChangeTelescopes(Log(Differential, calls), calls);
  }

  // ---- What a log holds ----------------------------------------------------------------------

  lemma {:induction false} PeriodMono(a: nat, b: nat, d: nat)
    requires a <= b && d > 0
    ensures Period(a, d) <= Period(b, d)
    decreases a
  {
    if a >= d { PeriodMono(a - d, b - d, d); }
  }

  /** The periods in which something was fed, in order. */
  function Periods(log: seq<Entry>, d: nat): (ps: seq<nat>)
    requires d > 0
    ensures log != [] ==> ps != [] && Last(ps) == Period(Last(log).now, d)
  {
    if log == [] then []
    else
      var before := Periods(Init(log), d);
      var p := Period(Last(log).now, d);
      if before != [] && Last(before) == p then before else before + [p]
  }

  /** The values fed in a period, in order. */
  function Values(log: seq<Entry>, p: nat, d: nat): seq<real>
    requires d > 0
  {
    if log == [] then []
    else if Period(Last(log).now, d) == p then Values(Init(log), p, d) + [Last(log).value]
    else Values(Init(log), p, d)
  }

  function Sum(vs: seq<real>): real {
    if vs == [] then 0.0 else Sum(Init(vs)) + Last(vs)
  }

  /** The greatest of `floor` and the values. */
  function MaxAbove(floor: real, vs: seq<real>): real {
    if vs == [] then floor
    else if Last(vs) > MaxAbove(floor, Init(vs)) then Last(vs) else MaxAbove(floor, Init(vs))
  }

  /** The maximum that a window reports: before the first whole duration is over it starts from 0. */
  function Top(vs: seq<real>, p: nat): real
    requires vs != []
  {
    MaxAbove(if p == 0 then 0.0 else vs[0], vs)
  }

  /** Count, total, maximum and average of the values of a period. */
  function Summary(vs: seq<real>, p: nat): Window
    requires vs != []
  {
    Window(Sum(vs) / |vs| as real, Sum(vs), Top(vs, p), |vs|, p)
  }

  /** The summaries of these periods, but for period 0. */
  function Summaries(log: seq<Entry>, ps: seq<nat>, d: nat): seq<Window>
    requires d > 0
  {
    if ps == [] then []
    else if Last(ps) == 0 || Values(log, Last(ps), d) == [] then Summaries(log, Init(ps), d)
    else Summaries(log, Init(ps), d) + [Summary(Values(log, Last(ps), d), Last(ps))]
  }

  /** What the log says of a duration: the latest window, and the last five of the windows before it. */
  function Plain(log: seq<Entry>, d: nat): Track
    requires d > 0
  {
    if log == [] || Values(log, Last(Periods(log, d)), d) == [] then Track(FRESH, [])
    else
      var ps := Periods(log, d);
      Track(Summary(Values(log, Last(ps), d), Last(ps)), LastFew(Summaries(log, Init(ps), d)))
  }

  predicate Rises(ps: seq<nat>) {
    forall i, j :: 0 <= i < j < |ps| ==> ps[i] < ps[j]
  }

  lemma {:induction false} PeriodsRise(log: seq<Entry>, d: nat)
    requires d > 0 && Increasing(log)
    ensures Rises(Periods(log, d))
    ensures forall i :: 0 <= i < |Periods(log, d)| ==> Values(log, Periods(log, d)[i], d) != []
  {
    if log != [] {
      IncreasingInit(log);
      var before := Periods(Init(log), d);
      var p := Period(Last(log).now, d);
      PeriodsRise(Init(log), d);
      assert Rises(before);
      if Init(log) != [] {
        PeriodMono(Last(Init(log)).now, Last(log).now, d);
        assert Last(before) <= p;
      }
      forall i | 0 <= i < |before| ensures before[i] <= p {
        if i < |before| - 1 { assert before[i] < before[|before| - 1]; }
      }
      assert Values(log, p, d) == Values(Init(log), p, d) + [Last(log).value] != [];
    }
  }

  /** A value for another period changes nothing about these periods. */
  lemma {:induction false} SameSummaries(log: seq<Entry>, ps: seq<nat>, d: nat)
    requires d > 0 && log != [] && forall i :: 0 <= i < |ps| ==> ps[i] != Period(Last(log).now, d)
    ensures Summaries(log, ps, d) == Summaries(Init(log), ps, d)
  {
    if ps != [] {
      SameSummaries(log, Init(ps), d);
    }
  }

  lemma LastFewLogged<T>(s: seq<T>, x: T)
    ensures LastFew(LastFew(s) + [x]) == LastFew(s + [x])
  {
    if |s| > HISTORY_LENGTH {
      var n := |s| - HISTORY_LENGTH;
      assert s[n..] + [x] == (s + [x])[n..];
    }
  }

  lemma SnocParts<T>(s: seq<T>, x: T)
    ensures Init(s + [x]) == s && Last(s + [x]) == x
  {
  }

  /** Another value of the same period. */
  lemma SummaryGrows(vs: seq<real>, v: real, p: nat, d: nat, now: nat)
    requires vs != [] && d > 0 && Period(now, d) == p
    ensures FeedWindow(Summary(vs, p), v, now, d) == Summary(vs + [v], p) && !Opens(Summary(vs, p), now, d)
  {
    SnocParts(vs, v);
    assert (vs + [v])[0] == vs[0];
    assert Sum(vs + [v]) == Sum(vs) + v && |vs + [v]| == |vs| + 1;
    assert Top(vs + [v], p) == if v > Top(vs, p) then v else Top(vs, p);
    var w, w' := FeedWindow(Summary(vs, p), v, now, d), Summary(vs + [v], p);
    assert w.total == w'.total && w.count == w'.count;
    assert w.start == w'.start;
    assert w.max == w'.max;
    assert w.avg == w'.avg;
    assert w == Window(w.avg, w.total, w.max, w.count, w.start);
    assert w == w';
  }

  lemma SummaryOfOne(v: real, p: nat)
    ensures Summary([v], p) == Window(v, v, if p == 0 && v <= 0.0 then 0.0 else v, 1, p)
  {
    SnocParts([], v);
    assert [] + [v] == [v] && Init([v]) == [];
    assert Sum([v]) == 0.0 + v;
    assert forall f: real :: MaxAbove(f, [v]) == if v > f then v else f;
  }

  /** The first value of a period. */
  lemma SummaryStarts(w: Window, v: real, p: nat, d: nat, now: nat)
    requires d > 0 && Period(now, d) == p && (if p == 0 then w == FRESH else w.start < p)
    ensures FeedWindow(w, v, now, d) == Summary([v], p) && (Opens(w, now, d) <==> p != 0)
  {
    SummaryOfOne(v, p);
  }

  lemma {:induction false} LogRefines(log: seq<Entry>, d: nat)
    requires d > 0 && Increasing(log)
    ensures AfterLog(log, d) == Plain(log, d)
  {
    if log != [] {
      var before := Init(log);
      IncreasingInit(log);
      LogRefines(before, d);
      PeriodsRise(log, d);
      PeriodsRise(before, d);
      if before == [] {
        FirstEntry(log, d);
      } else {
        PeriodMono(Last(before).now, Last(log).now, d);
        if Period(Last(before).now, d) == Period(Last(log).now, d) {
          SamePeriod(log, d);
        } else {
          NextPeriod(log, d);
        }
      }
    }
  }

  lemma FirstEntry(log: seq<Entry>, d: nat)
    requires d > 0 && |log| == 1
    ensures AfterLog(log, d) == Plain(log, d)
  {
    var p := Period(Last(log).now, d);
    assert Init(log) == [];
    assert Periods(log, d) == [] + [p] == [p];
    assert Values(log, p, d) == [] + [Last(log).value] == [Last(log).value];
    assert Init([p]) == [];
    SummaryStarts(FRESH, Last(log).value, p, d, Last(log).now);
  }

  lemma SamePeriod(log: seq<Entry>, d: nat)
    requires d > 0 && |log| > 1 && AfterLog(Init(log), d) == Plain(Init(log), d)
    requires Period(Last(Init(log)).now, d) == Period(Last(log).now, d)
    requires Values(Init(log), Last(Periods(Init(log), d)), d) != []
    requires forall i :: 0 <= i < |Periods(log, d)| - 1 ==> Periods(log, d)[i] < Last(Periods(log, d))
    ensures AfterLog(log, d) == Plain(log, d)
  {
    var ps := Periods(log, d);
    var p := Last(ps);
    assert ps == Periods(Init(log), d);
    SummaryGrows(Values(Init(log), p, d), Last(log).value, p, d, Last(log).now);
    SameSummaries(log, Init(ps), d);
    assert Values(log, p, d) == Values(Init(log), p, d) + [Last(log).value];
    assert Plain(log, d).history == Plain(Init(log), d).history;
  }

  lemma NextPeriod(log: seq<Entry>, d: nat)
    requires d > 0 && |log| > 1 && AfterLog(Init(log), d) == Plain(Init(log), d)
    requires Period(Last(Init(log)).now, d) < Period(Last(log).now, d)
    requires var ps := Periods(Init(log), d);
      && Values(Init(log), Last(ps), d) != []
      && forall i :: 0 <= i < |ps| ==> ps[i] <= Last(ps)
    ensures AfterLog(log, d) == Plain(log, d)
  {
    var ps := Periods(Init(log), d);
    var p := Period(Last(log).now, d);
    var w := AfterLog(Init(log), d).current;
    SnocParts(ps, p);
    assert Periods(log, d) == ps + [p];
    NothingYet(Init(log), p, d);
    assert Values(log, p, d) == [] + [Last(log).value] == [Last(log).value];
    SummaryStarts(w, Last(log).value, p, d, Last(log).now);
    SameSummaries(log, ps, d);
    LastFewLogged(Summaries(Init(log), Init(ps), d), w);
  }

  /** No value lies in a period that is not among the periods. */
  lemma {:induction false} NothingYet(log: seq<Entry>, p: nat, d: nat)
    requires d > 0 && p !in Periods(log, d)
    ensures Values(log, p, d) == []
  {
    if log != [] {
      assert forall q :: q in Periods(Init(log), d) ==> q in Periods(log, d);
      assert Last(Periods(log, d)) in Periods(log, d);
      NothingYet(Init(log), p, d);
    }
  }

  /**
   For calls at strictly increasing times, each duration holds what a plain log of the fed values says: the
   count, total, maximum and average of exactly the values in the latest aligned window, and the last five
   of the windows before it, in order and without the one before the first whole duration.
   */
  lemma WindowsRefineTheLog(op: Operation, calls: seq<Entry>, d: nat)
    requires d > 0 && Increasing(calls)
    ensures AfterCalls(op, calls, d) == Plain(Log(op, calls), d)
  {
    CallsFeedTheLog(op, calls, d);
    LogIncreases(op, calls);
    LogRefines(Log(op, calls), d);
  }

  // ---- The maximum ---------------------------------------------------------------------------

  lemma {:induction false} MaxAboveIs(floor: real, vs: seq<real>)
    ensures var m := MaxAbove(floor, vs);
      m >= floor && (forall v :: v in vs ==> v <= m) && (m == floor || m in vs)
  {
    if vs != [] {
      MaxAboveIs(floor, Init(vs));
      assert vs == Init(vs) + [Last(vs)];
    }
  }

  ghost predicate IsMaximum(m: real, vs: seq<real>) {
    m in vs && forall v :: v in vs ==> v <= m
  }

  /** A window's maximum is that of its values, except before the first whole duration when all are negative. */
  lemma TopIsMaximumIff(vs: seq<real>, p: nat)
    requires vs != []
    ensures IsMaximum(Top(vs, p), vs) <==> p != 0 || exists v :: v in vs && v >= 0.0
  {
    MaxAboveIs(if p == 0 then 0.0 else vs[0], vs);
    assert vs[0] in vs;
  }

  // ---- Conservation --------------------------------------------------------------------------

  function Total(ws: seq<Window>): real {
    if ws == [] then 0.0 else Total(Init(ws)) + Last(ws).total
  }

  function Counted(ws: seq<Window>): nat {
    if ws == [] then 0 else Counted(Init(ws)) + Last(ws).count
  }

  function Fed(log: seq<Entry>): real {
    if log == [] then 0.0 else Fed(Init(log)) + Last(log).value
  }

  /** Whatever the times, the returned windows and the current one together hold every value fed, once. */
  lemma {:induction false} NothingIsLost(op: Operation, calls: seq<Entry>, d: nat)
    requires d > 0
    ensures Total(Returned(op, calls, d)) + AfterCalls(op, calls, d).current.total == Fed(Log(op, calls))
    ensures Counted(Returned(op, calls, d)) + AfterCalls(op, calls, d).current.count == |Log(op, calls)|
  {
    if calls != [] {
      var before := Init(calls);
      NothingIsLost(op, before, d);
      SnocParts(Returned(op, before, d), AfterCalls(op, before, d).current);
      var v := FedBy(op, before, Last(calls));
      if v.Some? { SnocParts(Log(op, before), Entry(Last(calls).now, v.value)); }
    }
  }
}
