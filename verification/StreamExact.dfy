/**
 Exactly how a chunk is taken apart, said without the scan that does it: where headers are looked for, how far
 a line, a block and a text of the stream's own level reach; and that there is only one such way.
 */
module StreamExact {
  import opened Wrappers
  import opened Text
  import opened Stream
  import opened StreamTheorems
  import opened StreamFraming
  import opened StreamHeaders
  import opened StreamRoundTrip

  // ---- Headers -------------------------------------------------------------------------------

  /** The number that digits stand for, read from the left. */
  function Reading(digits: string, read: nat): nat {
    if digits == "" then read
    else Reading(digits[1..], read * 10 + if IsDigit(digits[0]) then digits[0] as int - '0' as int else 0)
  }

  /** At `at` there are `n` digits and two colons, or three; a level above the largest one is the largest one. */
  ghost predicate HeaderStands(b: string, at: nat, n: nat, h: Header) {
    && n > 0 && at + n + 2 <= |b| && (forall k :: at <= k < at + n ==> '0' <= b[k] <= '9')
    && b[at + n] == ':' && b[at + n + 1] == ':'
    && (h.multiline <==> at + n + 2 < |b| && b[at + n + 2] == ':')
    && h.length == n + (if h.multiline then 3 else 2)
    && h.level == if Reading(b[at..at + n], 0) > 65535 then 65535 else Reading(b[at..at + n], 0)
  }

  lemma {:induction false} ReadingSnoc(digits: string, c: char, read: nat)
    requires IsDigit(c)
    ensures Reading(digits + [c], read) == Reading(digits, read) * 10 + (c as int - '0' as int)
    decreases |digits|
  {
    if digits == "" {
      assert "" + [c] == [c] && [c][1..] == "";
    } else {
      assert (digits + [c])[1..] == digits[1..] + [c];
      ReadingSnoc(digits[1..], c, read * 10 + if IsDigit(digits[0]) then digits[0] as int - '0' as int else 0);
    }
  }

  lemma {:induction false} ValueIsReading(b: string, at: nat, end: nat)
    requires at <= end <= |b| && forall k :: at <= k < end ==> IsDigit(b[k])
    ensures Value(b, at, end) == Reading(b[at..end], 0)
    decreases end
  {
    if at < end {
      ValueIsReading(b, at, end - 1);
      assert b[at..end] == b[at..end - 1] + [b[end - 1]];
      ReadingSnoc(b[at..end - 1], b[end - 1], 0);
    }
  }

  lemma {:induction false} DigitsAre(b: string, at: nat)
    requires at <= |b|
    ensures var n := Digits(b, at);
      (forall k :: at <= k < at + n ==> IsDigit(b[k])) && (at + n < |b| ==> !IsDigit(b[at + n]))
    decreases |b| - at
  {
    if at < |b| && IsDigit(b[at]) { DigitsAre(b, at + 1); }
  }

  /** A header is matched exactly where one stands. */
  lemma HeaderIff(b: string, at: nat, h: Header)
    requires at <= |b|
    ensures MatchHeader(b, at) == Some(h) <==> exists n: nat :: HeaderStands(b, at, n, h)
  {
    var d := Digits(b, at);
    DigitsAre(b, at);
    ValueIsReading(b, at, at + d);
    if MatchHeader(b, at) == Some(h) { assert HeaderStands(b, at, d, h); }
    if n: nat :| HeaderStands(b, at, n, h) { CountDigits(b, at, at + n); }
  }

  // ---- A chunk -------------------------------------------------------------------------------

  /** Where a header is looked for in text that begins at `start`: at its beginning, or one character late if it
      directly follows a block; and behind every line feed. */
  predicate Candidate(b: string, start: nat, late: bool, q: nat) {
    start <= q < |b| && if q == start then !late else b[q - 1] == '\n' || (late && q == start + 1)
  }

  ghost predicate NoneBefore(b: string, start: nat, late: bool, end: nat) {
    forall q: nat :: q < end && Candidate(b, start, late, q) ==> MatchHeader(b, q) == None
  }

  /** `text` stands at `at`. */
  predicate Part(b: string, at: nat, text: string) {
    at + |text| <= |b| && b[at..at + |text|] == text
  }

  /** The chunk `b` from `start` on, taken apart: text of the stream's own level up to the first header that is
      found where one is looked for, and then what that header leads to. */
  ghost predicate TakenApart(level: nat, b: string, start: nat, late: bool, pieces: seq<Piece>,
                             pending: Option<Pending>)
    decreases |pieces|, 1
  {
    if start >= |b| then pieces == [] && pending == None
    else
      pieces != [] &&
      match pieces[0]
      case Close(_) => false
      case Head(_) => Candidate(b, start, late, start) && AtHeader(level, b, start, pieces, pending)
      case Emit(l, text) =>
        var end := start + |text|;
        && l == level && text != "" && Part(b, start, text) && NoneBefore(b, start, late, end)
        && if end == |b| then pieces[1..] == [] && pending == None
           else Candidate(b, start, late, end) && AtHeader(level, b, end, pieces[1..], pending)
  }

  /** A line: up to its line feed, which belongs to it, or to the end. */
  predicate WholeLine(b: string, at: nat, text: string) {
    && Part(b, at, text) && IsLine(text)
    && (at + |text| == |b| || (text != "" && text[|text| - 1] == '\n'))
  }

  ghost predicate NoTerminator(b: string, at: nat, end: nat) {
    forall k: nat :: at <= k < end ==> !Matches(b, k, TERM)
  }

  /** At the header at `i`: it and its line, or it and its block with the first terminator behind it, and what
      comes after; or it alone, with a block left open. */
  ghost predicate AtHeader(level: nat, b: string, i: nat, pieces: seq<Piece>, pending: Option<Pending>)
    decreases |pieces|, 0
  {
    && i < |b| && MatchHeader(b, i).Some? && pieces != []
    && var h := MatchHeader(b, i).value;
       var body := i + h.length;
       && pieces[0] == Head(b[i..body])
       && if !h.multiline then
            && |pieces| > 1 && pieces[1].Emit? && pieces[1].level == h.level && WholeLine(b, body, pieces[1].text)
            && TakenApart(level, b, body + |pieces[1].text|, false, pieces[2..], pending)
          else if |pieces| == 1 then NoTerminator(b, body, |b|) && pending == Some(Pending(h.level, b[body..]))
          else
            && |pieces| > 2 && pieces[1].Emit? && pieces[1].level == h.level && pieces[2] == Close(TERM)
            && Part(b, body, pieces[1].text)
            && var end := body + |pieces[1].text|;
               && Matches(b, end, TERM) && NoTerminator(b, body, end)
               && TakenApart(level, b, end + |TERM|, true, pieces[3..], pending)
  }

  // ---- The scan takes a chunk apart like that ------------------------------------------------

  /** The scan has come from `start` to `i`. */
  ghost predicate CameTo(b: string, start: nat, late: bool, i: nat) {
    start <= i && NoneBefore(b, start, late, i) && (i < |b| ==> Candidate(b, start, late, i))
  }

  lemma {:induction false} LineFeedThere(b: string, at: nat)
    requires at <= |b|
    ensures var e := at + NewLineOrEOF(b, at); e < |b| ==> b[e] == '\n' && e + 1 < |b|
    decreases |b| - at
  {
    if at + 1 < |b| && b[at] != '\n' { LineFeedThere(b, at + 1); }
  }

  lemma SkipComesTo(b: string, start: nat, late: bool, i: nat)
    requires CameTo(b, start, late, i) && i < |b| && MatchHeader(b, i) == None
    ensures CameTo(b, start, late, i + NewLineOrEOF(b, i) + 1)
  {
    LineFeedThere(b, i);
    forall q: nat | q < i + NewLineOrEOF(b, i) + 1 && Candidate(b, start, late, q) ensures MatchHeader(b, q) == None {
      if q > i { NoCandidateBetween(b, start, late, i, q); }
    }
  }

  /** Between the beginning of a line and its line feed nothing else is looked at. */
  lemma NoCandidateBetween(b: string, start: nat, late: bool, i: nat, q: nat)
    requires start <= i < |b| && Candidate(b, start, late, i) && i < q < i + NewLineOrEOF(b, i) + 1
    ensures !Candidate(b, start, late, q)
  {
    NoEarlierLineFeed(b, i);
  }

  ghost predicate Right(level: nat, b: string, start: nat, late: bool, r: Parsed) {
    TakenApart(level, b, start, late, r.pieces, r.pending)
  }

  /** However far the scan has come, what it gives is the chunk taken apart. */
  lemma {:induction false} ScanIsRight(level: nat, b: string, start: nat, late: bool, i: nat)
    requires CameTo(b, start, late, i)
    ensures Right(level, b, start, late, Scan(level, b, start, i))
    decreases if i > |b| then 0 else |b| - i + 1
  {
    if i >= |b| {
      ScanEnds(level, b, start, i);
      EndIsRight(level, b, start, late);
    } else if MatchHeader(b, i) == None {
      ScanSkips(level, b, start, i);
      SkipComesTo(b, start, late, i);
      ScanIsRight(level, b, start, late, i + NewLineOrEOF(b, i) + 1);
    } else {
      var h := MatchHeader(b, i).value;
      ScanAt(level, b, start, i, h);
      var f, rest := JointOf(Scan(level, b, start, i), level, b, start, i, h);
      HeaderIsRight(level, b, start, late, i, h, f, rest, Scan(level, b, start, i));
    }
  }

  lemma EndIsRight(level: nat, b: string, start: nat, late: bool)
    requires NoneBefore(b, start, late, |b|)
    ensures TakenApart(level, b, start, late, EmitText(level, From(b, start)), None)
  {
    if start < |b| {
      assert b[start..start + |From(b, start)|] == From(b, start);
      assert EmitText(level, From(b, start))[1..] == [];
    }
  }

  lemma {:induction false} HeaderIsRight(level: nat, b: string, start: nat, late: bool, i: nat, h: Header, f: Found,
                                         rest: Parsed, r: Parsed)
    requires JointAt(r, level, b, start, i, h, f, rest) && MatchHeader(b, i) == Some(h) && CameTo(b, start, late, i)
    requires f == FindBody(b, i + h.length, h.multiline)
    ensures Right(level, b, start, late, r)
    decreases |b| - i + 1, 0
  {
    RestIsRight(level, b, i + h.length, h.level, f, rest);
    FoundIsRight(level, b, i, h, f, rest);
    JointPieces(level, b, start, i, h, f, rest, r);
    TextAndTail(level, b, start, late, i,
                FoundPieces(b[i..i + h.length], h.level, b[i + h.length..f.end], f) + rest.pieces, rest.pending);
  }

  lemma {:induction false} RestIsRight(level: nat, b: string, body: nat, found: nat, f: Found, rest: Parsed)
    requires GoesOn(rest, level, b, body, found, f)
    ensures !f.Open? ==> Right(level, b, f.next, f.Block?, rest)
    decreases |b| - body + 1, 2
  {
    if !f.Open? { ScanIsRight(level, b, f.next, f.Block?, if f.Line? then f.next else f.next + 1); }
  }

  lemma LineIsRight(level: nat, b: string, i: nat, h: Header, text: string, rest: seq<Piece>, pending: Option<Pending>)
    requires i < |b| && MatchHeader(b, i) == Some(h) && !h.multiline && WholeLine(b, i + h.length, text)
    requires TakenApart(level, b, i + h.length + |text|, false, rest, pending)
    ensures AtHeader(level, b, i, [Head(b[i..i + h.length]), Emit(h.level, text)] + rest, pending)
  {
    assert ([Head(b[i..i + h.length]), Emit(h.level, text)] + rest)[2..] == rest;
  }

  lemma BlockIsRight(level: nat, b: string, i: nat, h: Header, text: string, rest: seq<Piece>, pending: Option<Pending>)
    requires i < |b| && MatchHeader(b, i) == Some(h) && h.multiline && Part(b, i + h.length, text)
    requires Matches(b, i + h.length + |text|, TERM) && NoTerminator(b, i + h.length, i + h.length + |text|)
    requires TakenApart(level, b, i + h.length + |text| + |TERM|, true, rest, pending)
    ensures AtHeader(level, b, i, [Head(b[i..i + h.length]), Emit(h.level, text), Close(TERM)] + rest, pending)
  {
    var pieces := [Head(b[i..i + h.length]), Emit(h.level, text), Close(TERM)] + rest;
    assert pieces[3..] == rest;
    BlockMade(level, b, i, h, pieces, rest, pending);
    BlockStandsThere(level, b, i, h, pieces, pending);
  }

  lemma BlockMade(level: nat, b: string, i: nat, h: Header, p: seq<Piece>, rest: seq<Piece>, x: Option<Pending>)
    requires |p| > 2 && i + h.length <= |b| && p[0] == Head(b[i..i + h.length]) && p[1].Emit? && p[1].level == h.level
    requires p[2] == Close(TERM) && Part(b, i + h.length, p[1].text) && p[3..] == rest
    requires Matches(b, i + h.length + |p[1].text|, TERM) && NoTerminator(b, i + h.length, i + h.length + |p[1].text|)
    requires TakenApart(level, b, i + h.length + |p[1].text| + |TERM|, true, rest, x)
    ensures BlockIs(level, b, i, h, p, x)
  {
  }

  lemma BlockStandsThere(level: nat, b: string, i: nat, h: Header, p: seq<Piece>, x: Option<Pending>)
    requires BlockIs(level, b, i, h, p, x) && i < |b| && MatchHeader(b, i) == Some(h) && h.multiline
    ensures AtHeader(level, b, i, p, x)
  {
  }

  lemma OpenIsRight(level: nat, b: string, i: nat, h: Header)
    requires i < |b| && MatchHeader(b, i) == Some(h) && h.multiline && NoTerminator(b, i + h.length, |b|)
    ensures AtHeader(level, b, i, [Head(b[i..i + h.length])], Some(Pending(h.level, b[i + h.length..])))
  {
  }

  /** The header at `i` with what it leads to, and then the rest. */
  lemma FoundIsRight(level: nat, b: string, i: nat, h: Header, f: Found, rest: Parsed)
    requires i < |b| && MatchHeader(b, i) == Some(h) && f == FindBody(b, i + h.length, h.multiline)
    requires GoesOn(rest, level, b, i + h.length, h.level, f)
    requires !f.Open? ==> Right(level, b, f.next, f.Block?, rest)
    ensures AtHeader(level, b, i,
                     FoundPieces(b[i..i + h.length], h.level, b[i + h.length..f.end], f) + rest.pieces, rest.pending)
  {
    match f
    case Line(end, next) => FoundLine(level, b, i, h, f, rest);
    case Block(end, next) => FoundBlock(level, b, i, h, f, rest);
    case Open(_) => FoundOpen(level, b, i, h, f, rest);
  }

  lemma FoundLine(level: nat, b: string, i: nat, h: Header, f: Found, rest: Parsed)
    requires i < |b| && MatchHeader(b, i) == Some(h) && f == FindBody(b, i + h.length, h.multiline) && f.Line?
    requires Right(level, b, f.next, false, rest)
    ensures AtHeader(level, b, i, [Head(b[i..i + h.length]), Emit(h.level, b[i + h.length..f.end])] + rest.pieces,
                     rest.pending)
  {
    LineIsWhole(b, i + h.length);
    if f.next != f.end { AtTheEnd(level, b, f.end, f.next, rest); }
    LineIsRight(level, b, i, h, b[i + h.length..f.end], rest.pieces, rest.pending);
  }

  lemma FoundBlock(level: nat, b: string, i: nat, h: Header, f: Found, rest: Parsed)
    requires i < |b| && MatchHeader(b, i) == Some(h) && f == FindBody(b, i + h.length, h.multiline) && f.Block?
    requires Right(level, b, f.next, true, rest)
    ensures AtHeader(level, b, i,
                     [Head(b[i..i + h.length]), Emit(h.level, b[i + h.length..f.end]), Close(TERM)] + rest.pieces,
                     rest.pending)
  {
    TerminatorFound(b, i + h.length, f);
    BlockIsRight(level, b, i, h, b[i + h.length..f.end], rest.pieces, rest.pending);
  }

  lemma TerminatorFound(b: string, body: nat, f: Found)
    requires body <= |b| && f == FindBody(b, body, true) && f.Block?
    ensures body <= f.end <= |b| && f.next == f.end + |TERM| && Part(b, body, b[body..f.end])
    ensures Matches(b, f.end, TERM) && NoTerminator(b, body, f.end)
  {
    FindFirst(b, body, TERM);
  }

  lemma FoundOpen(level: nat, b: string, i: nat, h: Header, f: Found, rest: Parsed)
    requires i < |b| && MatchHeader(b, i) == Some(h) && f == FindBody(b, i + h.length, h.multiline) && f.Open?
    requires GoesOn(rest, level, b, i + h.length, h.level, f)
    ensures AtHeader(level, b, i, [Head(b[i..i + h.length])] + rest.pieces, rest.pending)
  {
    FindFirst(b, i + h.length, TERM);
    OpenIsRight(level, b, i, h);
    assert [Head(b[i..i + h.length])] + rest.pieces == [Head(b[i..i + h.length])];
    assert b[i + h.length..f.end] == b[i + h.length..];
  }

  lemma LineIsWhole(b: string, body: nat)
    requires body <= |b|
    ensures var f := FindBody(b, body, false); WholeLine(b, body, b[body..f.end])
  {
    NoEarlierLineFeed(b, body);
    LineFeedThere(b, body);
  }

  lemma AtTheEnd(level: nat, b: string, end: nat, next: nat, rest: Parsed)
    requires |b| <= end <= next && Right(level, b, next, false, rest)
    ensures Right(level, b, end, false, rest)
  {
  }

  lemma JointPieces(level: nat, b: string, start: nat, i: nat, h: Header, f: Found, rest: Parsed, r: Parsed)
    requires JointAt(r, level, b, start, i, h, f, rest)
    ensures r.pending == rest.pending
    ensures r.pieces == EmitText(level, b[start..i]) +
                        (FoundPieces(b[i..i + h.length], h.level, b[i + h.length..f.end], f) + rest.pieces)
  {
    Associative(EmitText(level, b[start..i]), FoundPieces(b[i..i + h.length], h.level, b[i + h.length..f.end], f),
                rest.pieces);
  }

  lemma TextAndTail(level: nat, b: string, start: nat, late: bool, i: nat, tail: seq<Piece>, pending: Option<Pending>)
    requires CameTo(b, start, late, i) && i < |b| && AtHeader(level, b, i, tail, pending)
    ensures TakenApart(level, b, start, late, EmitText(level, b[start..i]) + tail, pending)
  {
    if start == i {
      assert b[start..i] == "" && EmitText(level, "") + tail == tail;
      HeaderAtStart(level, b, start, late, tail, pending);
    } else {
      TextThenHeader(level, b, start, late, i, tail, pending);
    }
  }

  lemma HeaderAtStart(level: nat, b: string, start: nat, late: bool, tail: seq<Piece>, pending: Option<Pending>)
    requires start < |b| && Candidate(b, start, late, start) && AtHeader(level, b, start, tail, pending)
    ensures TakenApart(level, b, start, late, tail, pending)
  {
  }

  lemma TextThenHeader(level: nat, b: string, start: nat, late: bool, i: nat, tail: seq<Piece>,
                       pending: Option<Pending>)
    requires start < i < |b| && CameTo(b, start, late, i) && AtHeader(level, b, i, tail, pending)
    ensures TakenApart(level, b, start, late, [Emit(level, b[start..i])] + tail, pending)
  {
    assert ([Emit(level, b[start..i])] + tail)[1..] == tail;
  }

  /** A chunk that finds no block open is taken apart like that. */
  lemma ChunkIsRight(level: nat, b: string)
    ensures Right(level, b, 0, false, ProcessChunk(level, None, b))
  {
    ScanIsRight(level, b, 0, false, 0);
  }

  /** What a chunk does to an open block: the rest of a terminator whose line feed was collected ends it, if the
      chunk begins with that; or else the first terminator in the chunk; what comes behind is a chunk of its own.
      Without either the block collects the chunk. */
  ghost predicate GoesOnWith(level: nat, p: Pending, b: string, pieces: seq<Piece>, pending: Option<Pending>) {
    if EndsInLineFeed(p.text) && Matches(b, 0, ":::\n") then
      && |pieces| > 1 && pieces[..2] == [Emit(p.level, p.text), Close(":::\n")]
      && TakenApart(level, b[4..], 0, false, pieces[2..], pending)
    else if NoTerminator(b, 0, |b|) then pieces == [] && pending == Some(Pending(p.level, p.text + b))
    else
      && |pieces| > 1 && pieces[0].Emit? && pieces[0].level == p.level && pieces[1] == Close("\n:::\n")
      && exists n: nat :: EndsAtTerminator(level, p, b, n, pieces, pending)
  }

  ghost predicate EndsAtTerminator(level: nat, p: Pending, b: string, n: nat, pieces: seq<Piece>,
                                   pending: Option<Pending>)
  {
    && |pieces| > 1 && Matches(b, n, "\n:::\n") && NoTerminator(b, 0, n)
    && pieces[0].text == p.text + b[..n] && TakenApart(level, b[n + 5..], 0, false, pieces[2..], pending)
  }

  lemma EndsAtFirst(level: nat, p: Pending, b: string, n: nat)
    requires Find(b, 0, TERM) == Some(n)
    ensures n + 5 <= |b| && var r := Closed(p, b[..n], TERM, Scan(level, b[n + 5..], 0, 0));
      && |r.pieces| > 1 && r.pieces[0].Emit? && r.pieces[0].level == p.level && r.pieces[1] == Close("\n:::\n")
      && EndsAtTerminator(level, p, b, n, r.pieces, r.pending)
  {
    FindFirst(b, 0, TERM);
    EndedIsRight(level, p, b[..n], TERM, b[n + 5..]);
    var r := Closed(p, b[..n], TERM, Scan(level, b[n + 5..], 0, 0));
    assert r.pieces[0] == r.pieces[..2][0] && r.pieces[1] == r.pieces[..2][1];
  }

  lemma OpenChunkIsRight(level: nat, p: Pending, b: string)
    ensures var r := ProcessChunk(level, Some(p), b); GoesOnWith(level, p, b, r.pieces, r.pending)
  {
    FindFirst(b, 0, TERM);
    if EndsInLineFeed(p.text) && CLOSING <= b {
      EndedIsRight(level, p, "", CLOSING, b[4..]);
      assert Matches(b, 0, CLOSING) && p.text + "" == p.text;
    } else {
      assert !(EndsInLineFeed(p.text) && Matches(b, 0, CLOSING)) by {
        if Matches(b, 0, CLOSING) { assert b[..4] == CLOSING; }
      }
      if Find(b, 0, TERM).Some? {
        EndsAtFirst(level, p, b, Find(b, 0, TERM).value);
      }
    }
  }

  lemma EndedIsRight(level: nat, p: Pending, text: string, terminator: string, after: string)
    ensures var r := Closed(p, text, terminator, Scan(level, after, 0, 0));
      && |r.pieces| > 1 && r.pieces[..2] == [Emit(p.level, p.text + text), Close(terminator)]
      && TakenApart(level, after, 0, false, r.pieces[2..], r.pending)
  {
    var rest := Scan(level, after, 0, 0);
    ScanIsRight(level, after, 0, false, 0);
    assert Closed(p, text, terminator, rest).pieces[2..] == rest.pieces;
  }

  // ---- There is only one way -----------------------------------------------------------------

  /** Two ways to take the same chunk apart are the same. */
  lemma {:induction false} OnlyOneWay(level: nat, b: string, start: nat, late: bool, p: seq<Piece>, x: Option<Pending>,
                                      q: seq<Piece>, y: Option<Pending>)
    requires TakenApart(level, b, start, late, p, x) && TakenApart(level, b, start, late, q, y)
    ensures p == q && x == y
    decreases |p|, 2
  {
    if start < |b| {
      if p[0].Head? {
        HeaderFirst(level, b, start, late, p, x, q, y);
        OnlyOneAtHeader(level, b, start, p, x, q, y);
      } else {
        if q[0].Head? { HeaderFirst(level, b, start, late, q, y, p, x); }
        SameText(level, b, start, late, p, x, q, y);
        if start + |p[0].text| < |b| {
          OnlyOneAtHeader(level, b, start + |p[0].text|, p[1..], x, q[1..], y);
        }
        assert p == [p[0]] + p[1..] && q == [q[0]] + q[1..];
      }
    }
  }

  lemma HeaderFirst(level: nat, b: string, start: nat, late: bool, p: seq<Piece>, x: Option<Pending>, q: seq<Piece>,
                    y: Option<Pending>)
    requires start < |b| && TakenApart(level, b, start, late, p, x) && TakenApart(level, b, start, late, q, y)
    requires p[0].Head?
    ensures q[0].Head?
  {
    assert Candidate(b, start, late, start) && MatchHeader(b, start).Some?;
  }

  lemma SameText(level: nat, b: string, start: nat, late: bool, p: seq<Piece>, x: Option<Pending>, q: seq<Piece>,
                 y: Option<Pending>)
    requires start < |b| && TakenApart(level, b, start, late, p, x) && TakenApart(level, b, start, late, q, y)
    requires p[0].Emit? && q[0].Emit?
    ensures p[0] == q[0]
  {
    TextReaches(level, b, start, late, p, x, start + |q[0].text|);
    TextReaches(level, b, start, late, q, y, start + |p[0].text|);
  }

  /** A text does not end before a header that is found where one is looked for. */
  lemma TextReaches(level: nat, b: string, start: nat, late: bool, p: seq<Piece>, x: Option<Pending>, end: nat)
    requires start < |b| && TakenApart(level, b, start, late, p, x) && p[0].Emit?
    requires end <= |b| && NoneBefore(b, start, late, end)
    ensures start + |p[0].text| >= end
  {
  }

  lemma {:induction false} OnlyOneAtHeader(level: nat, b: string, i: nat, p: seq<Piece>, x: Option<Pending>,
                                           q: seq<Piece>, y: Option<Pending>)
    requires AtHeader(level, b, i, p, x) && AtHeader(level, b, i, q, y)
    ensures p == q && x == y
    decreases |p|, 1
  {
    var h := MatchHeader(b, i).value;
    if !h.multiline {
      OnlyOneLine(level, b, i, h, p, x, q, y);
    } else if |p| == 1 {
      OpenIsOpen(level, b, i, p, x, q, y);
      assert p == [p[0]] && q == [q[0]];
    } else if |q| == 1 {
      OpenIsOpen(level, b, i, q, y, p, x);
    } else {
      BlockFound(level, b, i, h, p, x);
      BlockFound(level, b, i, h, q, y);
      OnlyOneBlock(level, b, i, h, p, x, q, y);
    }
  }

  lemma {:induction false} OnlyOneLine(level: nat, b: string, i: nat, h: Header, p: seq<Piece>, x: Option<Pending>,
                                       q: seq<Piece>, y: Option<Pending>)
    requires AtHeader(level, b, i, p, x) && AtHeader(level, b, i, q, y)
    requires MatchHeader(b, i) == Some(h) && !h.multiline
    ensures p == q && x == y
    decreases |p|, 0
  {
    var body := i + h.length;
    LineReaches(b, body, p[1].text, q[1].text);
    LineReaches(b, body, q[1].text, p[1].text);
    OnlyOneWay(level, b, body + |p[1].text|, false, p[2..], x, q[2..], y);
    SameFrom(p, q, 2);
  }

  /** What a block consists of: its header, its text up to the first terminator, and that terminator. */
  ghost predicate BlockIs(level: nat, b: string, i: nat, h: Header, p: seq<Piece>, x: Option<Pending>) {
    var body := i + h.length;
    && |p| > 2 && body <= |b| && p[0] == Head(b[i..body]) && p[1].Emit? && p[1].level == h.level && p[2] == Close(TERM)
    && Part(b, body, p[1].text)
    && Matches(b, body + |p[1].text|, TERM) && NoTerminator(b, body, body + |p[1].text|)
    && TakenApart(level, b, body + |p[1].text| + |TERM|, true, p[3..], x)
  }

  lemma BlockFound(level: nat, b: string, i: nat, h: Header, p: seq<Piece>, x: Option<Pending>)
    requires AtHeader(level, b, i, p, x) && MatchHeader(b, i) == Some(h) && h.multiline && |p| != 1
    ensures BlockIs(level, b, i, h, p, x)
  {
  }

  lemma {:induction false} OnlyOneBlock(level: nat, b: string, i: nat, h: Header, p: seq<Piece>, x: Option<Pending>,
                                        q: seq<Piece>, y: Option<Pending>)
    requires BlockIs(level, b, i, h, p, x) && BlockIs(level, b, i, h, q, y)
    ensures p == q && x == y
    decreases |p|, 0
  {
    var body := i + h.length;
    SameBlock(b, body, p[1].text, q[1].text);
    OnlyOneWay(level, b, body + |p[1].text| + |TERM|, true, p[3..], x, q[3..], y);
    SameFrom(p, q, 3);
  }

  lemma SameFrom<T>(p: seq<T>, q: seq<T>, n: nat)
    requires n <= |p| && n <= |q| && p[n..] == q[n..] && forall k :: 0 <= k < n ==> p[k] == q[k]
    ensures p == q
  {
    assert p == p[..n] + p[n..] && q == q[..n] + q[n..];
  }

  /** Where one way leaves a block open, so does any other. */
  lemma OpenIsOpen(level: nat, b: string, i: nat, p: seq<Piece>, x: Option<Pending>, q: seq<Piece>, y: Option<Pending>)
    requires AtHeader(level, b, i, p, x) && AtHeader(level, b, i, q, y) && MatchHeader(b, i).value.multiline && |p| == 1
    ensures |q| == 1
  {
    if |q| != 1 { BlockHasTerminator(level, b, i, q, y); }
  }

  lemma BlockHasTerminator(level: nat, b: string, i: nat, q: seq<Piece>, y: Option<Pending>)
    requires AtHeader(level, b, i, q, y) && MatchHeader(b, i).value.multiline && |q| != 1
    ensures !NoTerminator(b, i + MatchHeader(b, i).value.length, |b|)
  {
    var end := i + MatchHeader(b, i).value.length + |q[1].text|;
    assert Matches(b, end, TERM) && end < |b|;
  }

  lemma PartsAgree(b: string, at: nat, s: string, t: string, k: nat)
    requires Part(b, at, s) && Part(b, at, t) && k < |s| && k < |t|
    ensures s[k] == t[k]
  {
    assert s[k] == b[at + k] && t[k] == b[at + k];
  }

  lemma LineReaches(b: string, at: nat, s: string, t: string)
    requires WholeLine(b, at, s) && WholeLine(b, at, t)
    ensures |s| >= |t| && (|s| == |t| ==> s == t)
  {
    if s != "" && |s| < |t| { PartsAgree(b, at, s, t, |s| - 1); }
  }

  lemma SameBlock(b: string, at: nat, s: string, t: string)
    requires Part(b, at, s) && Part(b, at, t)
    requires Matches(b, at + |s|, TERM) && NoTerminator(b, at, at + |s|)
    requires Matches(b, at + |t|, TERM) && NoTerminator(b, at, at + |t|)
    ensures s == t
  {
  }
}
