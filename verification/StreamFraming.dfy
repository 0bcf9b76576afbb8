/**
 The shape of what the stream parser emits, whatever the input: text of the stream's own level, a header
 with one line of its level, or a header, a block of its level and a terminator.
 */
module StreamFraming {
  import opened Wrappers
  import opened Stream

  predicate IsLine(text: string) {
    forall k :: 0 <= k < |text| - 1 ==> text[k] != '\n'
  }

  predicate EndsInLineFeed(text: string) {
    text != "" && text[|text| - 1] == '\n'
  }

  /** A terminator is a whole one, or the rest of one whose line feed ended the block's text. */
  predicate Terminates(text: string, terminator: string) {
    terminator == TERM || (terminator == CLOSING && EndsInLineFeed(text))
  }

  /** `head` is a header and nothing more. */
  predicate IsHeader(head: string, h: Header) {
    MatchHeader(head, 0) == Some(h) && h.length == |head|
  }

  /** The pieces from a state with block `open` to one with block `last` (the levels of open blocks). */
  predicate Framed(level: nat, open: Option<nat>, pieces: seq<Piece>, last: Option<nat>)
    decreases |pieces|
  {
    if pieces == [] then open == last
    else
      match open
      case Some(l) =>
        && |pieces| > 1 && pieces[0].Emit? && pieces[0].level == l
        && pieces[1].Close? && Terminates(pieces[0].text, pieces[1].text)
        && Framed(level, None, pieces[2..], last)
      case None =>
        match pieces[0]
        case Emit(l, text) => l == level && text != "" && Framed(level, None, pieces[1..], last)
        case Close(_) => false
        case Head(text) =>
          var m := MatchHeader(text, 0);
          && m.Some? && m.value.length == |text|
          && if m.value.multiline then Framed(level, Some(m.value.level), pieces[1..], last)
             else |pieces| > 1 && pieces[1].Emit? && pieces[1].level == m.value.level && IsLine(pieces[1].text) &&
                  Framed(level, None, pieces[2..], last)
  }

  function OpenLevel(pending: Option<Pending>): Option<nat> {
    if pending.Some? then Some(pending.value.level) else None
  }

  lemma {:induction false} FramedConcat(level: nat, open: Option<nat>, a: seq<Piece>, mid: Option<nat>,
                                        b: seq<Piece>, last: Option<nat>)
    requires Framed(level, open, a, mid) && Framed(level, mid, b, last)
    ensures Framed(level, open, a + b, last)
    decreases |a|
  {
    if a == [] {
      assert a + b == b;
    } else if open.Some? {
      FramedConcat(level, None, a[2..], mid, b, last);
      assert (a + b)[2..] == a[2..] + b && (a + b)[0] == a[0] && (a + b)[1] == a[1];
    } else {
      assert (a + b)[1..] == a[1..] + b && (a + b)[0] == a[0];
      match a[0]
      case Emit(_, _) => FramedConcat(level, None, a[1..], mid, b, last);
      case Head(text) =>
        if MatchHeader(text, 0).value.multiline {
          FramedConcat(level, Some(MatchHeader(text, 0).value.level), a[1..], mid, b, last);
        } else {
          assert (a + b)[2..] == a[2..] + b && (a + b)[1] == a[1];
          FramedConcat(level, None, a[2..], mid, b, last);
        }
    }
  }

  // ---- Headers and lines ---------------------------------------------------------------------

  lemma {:induction false} DigitsOfSlice(b: string, i: nat, at: nat, j: nat)
    requires i <= at <= j <= |b|
    ensures Digits(b[i..j], at - i) == if at + Digits(b, at) <= j then Digits(b, at) else j - at
    decreases j - at
  {
    if at < j && IsDigit(b[at]) {
      DigitsOfSlice(b, i, at + 1, j);
    }
  }

  lemma {:induction false} ValueOfSlice(b: string, i: nat, end: nat, j: nat)
    requires i <= end <= j <= |b|
    ensures Value(b[i..j], 0, end - i) == Value(b, i, end)
    decreases end
  {
    if end > i && IsDigit(b[end - 1]) {
      ValueOfSlice(b, i, end - 1, j);
    }
  }

  /** The text of a header is a header on its own: the same one. */
  lemma HeaderOfSlice(b: string, i: nat, h: Header)
    requires i <= |b| && MatchHeader(b, i) == Some(h)
    ensures IsHeader(b[i..i + h.length], h)
  {
    var j, n := i + h.length, Digits(b, i);
    var t := b[i..j];
    DigitsOfSlice(b, i, i, j);
    ValueOfSlice(b, i, i + n, j);
    assert Digits(t, 0) == n && Value(t, 0, n) == Value(b, i, i + n);
    assert t[n] == b[i + n] && t[n + 1] == b[i + n + 1];
    assert h.multiline ==> t[n + 2] == b[i + n + 2];
  }

  lemma {:induction false} NoEarlierLineFeed(b: string, at: nat)
    requires at <= |b|
    ensures forall k :: at <= k < at + NewLineOrEOF(b, at) && k + 1 < |b| ==> b[k] != '\n'
    decreases |b| - at
  {
    if at + 1 < |b| && b[at] != '\n' {
      NoEarlierLineFeed(b, at + 1);
    }
  }

  // ---- The parser frames what it emits -------------------------------------------------------

  lemma FoundFramed(level: nat, buffer: string, i: nat, h: Header)
    requires i <= |buffer| && MatchHeader(buffer, i) == Some(h)
    ensures i + h.length <= |buffer|
    ensures FoundIsFramed(level, buffer, i, h, FindBody(buffer, i + h.length, h.multiline))
  {
    var body := i + h.length;
    var f := FindBody(buffer, body, h.multiline);
    var p := FoundPieces(buffer[i..body], h.level, buffer[body..f.end], f);
    HeaderOfSlice(buffer, i, h);
    match f
    case Open(_) => assert p[1..] == [];
    case Line(end, _) =>
      NoEarlierLineFeed(buffer, body);
      assert p[2..] == [];
    case Block(_, _) => assert p[1..][2..] == [];
  }

  lemma JointFramed(level: nat, before: string, head: string, found: nat, text: string, f: Found, rest: Parsed,
                    mid: Option<nat>, r: Parsed)
    requires Framed(level, None, FoundPieces(head, found, text, f), mid) && WellFramed(level, mid, rest)
    requires r == Joint(level, before, head, found, text, f, rest)
    ensures WellFramed(level, None, r)
  {
    var a, b := EmitText(level, before), FoundPieces(head, found, text, f);
    if before != "" { assert a[1..] == []; }
    FramedConcat(level, None, a, None, b, mid);
    FramedConcat(level, None, a + b, mid, rest.pieces, OpenLevel(rest.pending));
  }

  ghost predicate WellFramed(level: nat, open: Option<nat>, r: Parsed) {
    Framed(level, open, r.pieces, OpenLevel(r.pending))
  }

  lemma {:induction false} ScanFramed(level: nat, buffer: string, start: nat, i: nat)
    requires start <= i
    ensures WellFramed(level, None, Scan(level, buffer, start, i))
    decreases if i > |buffer| then 0 else |buffer| - i + 1
  {
    if i >= |buffer| {
      ScanEnds(level, buffer, start, i);
      if From(buffer, start) != "" { assert EmitText(level, From(buffer, start))[1..] == []; }
    } else if MatchHeader(buffer, i) == None {
      ScanSkips(level, buffer, start, i);
      ScanFramed(level, buffer, start, i + NewLineOrEOF(buffer, i) + 1);
    } else {
      ScanAtFramed(level, buffer, start, i, MatchHeader(buffer, i).value);
    }
  }

  lemma {:induction false} ScanAtFramed(level: nat, buffer: string, start: nat, i: nat, h: Header)
    requires start <= i < |buffer| && MatchHeader(buffer, i) == Some(h)
    ensures WellFramed(level, None, Scan(level, buffer, start, i))
    decreases |buffer| - i + 1, 1
  {
    ScanAt(level, buffer, start, i, h);
    FoundFramed(level, buffer, i, h);
    var f, rest := JointOf(Scan(level, buffer, start, i), level, buffer, start, i, h);
    HeaderFramed(level, buffer, start, i, h, f, rest, Scan(level, buffer, start, i));
  }

  ghost predicate FoundIsFramed(level: nat, buffer: string, i: nat, h: Header, f: Found) {
    && i + h.length <= |buffer| && Fits(buffer, i + h.length, f)
    && Framed(level, None, FoundPieces(buffer[i..i + h.length], h.level, buffer[i + h.length..f.end], f),
              if f.Open? then Some(h.level) else None)
  }

  lemma {:induction false} HeaderFramed(level: nat, buffer: string, start: nat, i: nat, h: Header, f: Found,
                                      rest: Parsed, r: Parsed)
    requires JointAt(r, level, buffer, start, i, h, f, rest) && FoundIsFramed(level, buffer, i, h, f)
    ensures WellFramed(level, None, r)
    decreases |buffer| - i + 1, 0
  {
    var body := i + h.length;
    RestFramed(level, buffer, body, h.level, f, rest);
    JointFramed(level, buffer[start..i], buffer[i..body], h.level, buffer[body..f.end], f, rest,
                if f.Open? then Some(h.level) else None, r);
  }

  lemma {:induction false} RestFramed(level: nat, buffer: string, body: nat, found: nat, f: Found, rest: Parsed)
    requires GoesOn(rest, level, buffer, body, found, f)
    ensures WellFramed(level, if f.Open? then Some(found) else None, rest)
    decreases |buffer| - body + 1, 2
  {
    if !f.Open? {
      ScanFramed(level, buffer, f.next, if f.Line? then f.next else f.next + 1);
    }
  }

  lemma ChunkFramed(level: nat, pending: Option<Pending>, buffer: string)
    ensures WellFramed(level, OpenLevel(pending), ProcessChunk(level, pending, buffer))
  {
    match pending
    case None => ScanFramed(level, buffer, 0, 0);
    case Some(p) =>
      if EndsInLineFeed(p.text) && CLOSING <= buffer {
        ClosedFramed(level, p, "", CLOSING, buffer[|CLOSING|..]);
      } else if Find(buffer, 0, TERM).Some? {
        var n := Find(buffer, 0, TERM).value;
        ClosedFramed(level, p, buffer[..n], TERM, buffer[n + |TERM|..]);
      }
  }

  lemma ClosedFramed(level: nat, p: Pending, text: string, terminator: string, after: string)
    requires Terminates(p.text + text, terminator)
    ensures WellFramed(level, Some(p.level), Closed(p, text, terminator, Scan(level, after, 0, 0)))
  {
    var rest := Scan(level, after, 0, 0);
    ScanFramed(level, after, 0, 0);
    assert Closed(p, text, terminator, rest).pieces[2..] == rest.pieces;
  }

  /** Over any chunks, what is emitted is framed by the headers and terminators stripped from around it. */
  lemma {:induction false} EmittedIsFramed(level: nat, pending: Option<Pending>, chunks: seq<string>)
    ensures WellFramed(level, OpenLevel(pending), ProcessChunks(level, pending, chunks))
    decreases |chunks|
  {
    if chunks != [] {
      var first := ProcessChunk(level, pending, chunks[0]);
      var rest := ProcessChunks(level, first.pending, chunks[1..]);
      ChunkFramed(level, pending, chunks[0]);
      EmittedIsFramed(level, first.pending, chunks[1..]);
      FramedConcat(level, OpenLevel(pending), first.pieces, OpenLevel(first.pending), rest.pieces,
                   OpenLevel(rest.pending));
    }
  }
}
