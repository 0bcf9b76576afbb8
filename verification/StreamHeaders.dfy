/**
 No header is missed: text that the parser emits at the stream's own level has no header at the beginning of
 any line in it, except that its first line is not looked at when it directly follows a terminated block.
 */
module StreamHeaders {
  import opened Wrappers
  import opened Stream
  import opened StreamFraming

  /** A line begins at `k`; the first one does not count in text that directly follows a block. */
  predicate LineStart(text: string, late: bool, k: nat) {
    k < |text| && if k == 0 then !late else text[k - 1] == '\n'
  }

  predicate NoHeaderIn(text: string, late: bool) {
    forall k: nat :: k < |text| && LineStart(text, late, k) ==> MatchHeader(text, k) == None
  }

  /** In the pieces from a state with block `open` on, right after a block or not, own-level text is free of
      headers. */
  predicate HeadersTaken(open: Option<nat>, late: bool, pieces: seq<Piece>)
    decreases |pieces|
  {
    pieces == [] ||
    match open
    case Some(_) => |pieces| > 1 ==> HeadersTaken(None, true, pieces[2..])
    case None =>
      match pieces[0]
      case Emit(_, text) => NoHeaderIn(text, late) && HeadersTaken(None, false, pieces[1..])
      case Close(_) => true
      case Head(text) =>
        var m := MatchHeader(text, 0);
        m.Some? ==>
          if m.value.multiline then HeadersTaken(Some(m.value.level), late, pieces[1..])
          else |pieces| > 1 ==> HeadersTaken(None, false, pieces[2..])
  }

  /** What holds without the exception holds with it. */
  lemma {:induction false} LateIsWeaker(open: Option<nat>, pieces: seq<Piece>)
    requires HeadersTaken(open, false, pieces)
    ensures HeadersTaken(open, true, pieces)
    decreases |pieces|
  {
    if pieces != [] && open == None && pieces[0].Head? && MatchHeader(pieces[0].text, 0).Some? {
      var m := MatchHeader(pieces[0].text, 0).value;
      if m.multiline { LateIsWeaker(Some(m.level), pieces[1..]); }
    }
  }

  lemma {:induction false} TakenConcat(level: nat, open: Option<nat>, late: bool, a: seq<Piece>, mid: Option<nat>,
                                       b: seq<Piece>)
    requires Framed(level, open, a, mid) && HeadersTaken(open, late, a) && HeadersTaken(mid, false, b)
    ensures HeadersTaken(open, late, a + b)
    decreases |a|
  {
    if a == [] {
      assert a + b == b;
      if late { LateIsWeaker(open, b); }
    } else if open.Some? {
      TakenConcat(level, None, true, a[2..], mid, b);
      assert (a + b)[2..] == a[2..] + b;
    } else {
      assert (a + b)[1..] == a[1..] + b && (a + b)[0] == a[0];
      match a[0]
      case Emit(_, _) => TakenConcat(level, None, false, a[1..], mid, b);
      case Head(text) =>
        var m := MatchHeader(text, 0).value;
        if m.multiline {
          TakenConcat(level, Some(m.level), late, a[1..], mid, b);
        } else {
          TakenConcat(level, None, false, a[2..], mid, b);
          assert (a + b)[2..] == a[2..] + b;
        }
    }
  }

  // ---- One chunk -----------------------------------------------------------------------------

  /** Scanning from `start` has come to `i` and has found no header at a beginning of a line. */
  predicate Clear(buffer: string, start: nat, i: nat, late: bool) {
    forall q: nat :: start <= q < i && q < |buffer| && (if q == start then !late else buffer[q - 1] == '\n') ==>
      MatchHeader(buffer, q) == None
  }

  /** A header in a part of a buffer is one in the buffer. */
  lemma HeaderInSlice(b: string, start: nat, end: nat, k: nat)
    requires start + k <= end <= |b| && MatchHeader(b[start..end], k).Some?
    ensures MatchHeader(b, start + k).Some?
  {
    var t, n := b[start..end], Digits(b, start + k);
    DigitsOfSlice(b, start, start + k, end);
    assert t[k + Digits(t, k)] == b[start + k + n] && t[k + Digits(t, k) + 1] == b[start + k + n + 1];
  }

  lemma ClearText(buffer: string, start: nat, end: nat, late: bool)
    requires start <= end <= |buffer| && Clear(buffer, start, end, late)
    ensures NoHeaderIn(buffer[start..end], late)
  {
    var text := buffer[start..end];
    forall k: nat | k < |text| && LineStart(text, late, k) ensures MatchHeader(text, k) == None {
      assert k > 0 ==> text[k - 1] == buffer[start + k - 1];
      assert MatchHeader(buffer, start + k) == None;
      if MatchHeader(text, k).Some? { HeaderInSlice(buffer, start, end, k); }
    }
  }

  lemma SkipIsClear(buffer: string, start: nat, i: nat, late: bool)
    requires start <= i < |buffer| && MatchHeader(buffer, i) == None && Clear(buffer, start, i, late)
    ensures Clear(buffer, start, i + NewLineOrEOF(buffer, i) + 1, late)
  {
    NoEarlierLineFeed(buffer, i);
  }

  ghost predicate Taken(r: Parsed, late: bool) {
    HeadersTaken(None, late, r.pieces)
  }

  lemma {:induction false} ScanTaken(level: nat, buffer: string, start: nat, i: nat, late: bool)
    requires start <= i && Clear(buffer, start, i, late)
    ensures Taken(Scan(level, buffer, start, i), late)
    decreases if i > |buffer| then 0 else |buffer| - i + 1
  {
    if i >= |buffer| {
      ScanEnds(level, buffer, start, i);
      EndTaken(level, buffer, start, late);
    } else if MatchHeader(buffer, i) == None {
      ScanSkips(level, buffer, start, i);
      SkipIsClear(buffer, start, i, late);
      ScanTaken(level, buffer, start, i + NewLineOrEOF(buffer, i) + 1, late);
    } else {
      var h := MatchHeader(buffer, i).value;
      ScanAt(level, buffer, start, i, h);
      HeaderOfSlice(buffer, i, h);
      var f, rest := JointOf(Scan(level, buffer, start, i), level, buffer, start, i, h);
      HeaderTaken(level, buffer, start, i, h, late, f, rest, Scan(level, buffer, start, i));
    }
  }

  lemma EndTaken(level: nat, buffer: string, start: nat, late: bool)
    requires Clear(buffer, start, |buffer|, late)
    ensures HeadersTaken(None, late, EmitText(level, From(buffer, start)))
  {
    if start < |buffer| {
      ClearText(buffer, start, |buffer|, late);
      assert buffer[start..|buffer|] == From(buffer, start);
      assert EmitText(level, From(buffer, start))[1..] == [];
    }
  }

  lemma {:induction false} HeaderTaken(level: nat, buffer: string, start: nat, i: nat, h: Header, late: bool,
                                       f: Found, rest: Parsed, r: Parsed)
    requires JointAt(r, level, buffer, start, i, h, f, rest) && IsHeader(buffer[i..i + h.length], h)
    requires f == FindBody(buffer, i + h.length, h.multiline) && Clear(buffer, start, i, late)
    ensures Taken(r, late)
    decreases |buffer| - i + 1, 0
  {
    RestTaken(level, buffer, i + h.length, h.level, f, rest);
    ClearText(buffer, start, i, late);
    JointTaken(level, buffer[start..i], buffer[i..i + h.length], h, buffer[i + h.length..f.end], f, rest, late, r);
  }

  lemma {:induction false} RestTaken(level: nat, buffer: string, body: nat, found: nat, f: Found, rest: Parsed)
    requires GoesOn(rest, level, buffer, body, found, f)
    ensures Taken(rest, f.Block?)
    decreases |buffer| - body + 1, 2
  {
    if !f.Open? {
      ScanTaken(level, buffer, f.next, if f.Line? then f.next else f.next + 1, f.Block?);
    }
  }

  lemma JointTaken(level: nat, before: string, head: string, h: Header, text: string, f: Found, rest: Parsed,
                   late: bool, r: Parsed)
    requires IsHeader(head, h) && (f.Line? <==> !h.multiline) && NoHeaderIn(before, late)
    requires Taken(rest, f.Block?) && (f.Open? ==> rest.pieces == [])
    requires r == Joint(level, before, head, h.level, text, f, rest)
    ensures Taken(r, late)
  {
    var tail := FoundPieces(head, h.level, text, f) + rest.pieces;
    FoundTaken(head, h, text, f, rest);
    if before == "" {
      assert r.pieces == tail;
    } else {
      assert r.pieces == [Emit(level, before)] + tail;
      assert r.pieces[1..] == tail;
    }
  }

  lemma FoundTaken(head: string, h: Header, text: string, f: Found, rest: Parsed)
    requires IsHeader(head, h) && (f.Line? <==> !h.multiline)
    requires Taken(rest, f.Block?) && (f.Open? ==> rest.pieces == [])
    ensures forall late :: HeadersTaken(None, late, FoundPieces(head, h.level, text, f) + rest.pieces)
  {
    var tail := FoundPieces(head, h.level, text, f) + rest.pieces;
    assert tail[0] == Head(head);
    match f
    case Line(_, _) => assert tail[2..] == rest.pieces;
    case Block(_, _) =>
      assert tail[1..][2..] == rest.pieces;
      assert forall late :: HeadersTaken(Some(h.level), late, tail[1..]);
    case Open(_) => assert tail[1..] == [];
  }

  lemma ChunkTaken(level: nat, pending: Option<Pending>, buffer: string)
    ensures HeadersTaken(OpenLevel(pending), false, ProcessChunk(level, pending, buffer).pieces)
  {
    match pending
    case None => ScanTaken(level, buffer, 0, 0, false);
    case Some(p) =>
      if EndsInLineFeed(p.text) && CLOSING <= buffer {
        ClosedTaken(level, p, "", CLOSING, buffer[|CLOSING|..]);
      } else if Find(buffer, 0, TERM).Some? {
        var n := Find(buffer, 0, TERM).value;
        ClosedTaken(level, p, buffer[..n], TERM, buffer[n + |TERM|..]);
      }
  }

  lemma ClosedTaken(level: nat, p: Pending, text: string, terminator: string, after: string)
    ensures HeadersTaken(Some(p.level), false, Closed(p, text, terminator, Scan(level, after, 0, 0)).pieces)
  {
    var rest := Scan(level, after, 0, 0);
    ScanTaken(level, after, 0, 0, false);
    LateIsWeaker(None, rest.pieces);
    assert Closed(p, text, terminator, rest).pieces[2..] == rest.pieces;
  }

  // ---- Any chunks ----------------------------------------------------------------------------

  /** Over any chunks, a header at the beginning of a line is never emitted as text of the stream's own level,
      except on the first line directly behind a terminated block. */
  lemma {:induction false} NoHeaderMissed(level: nat, pending: Option<Pending>, chunks: seq<string>)
    ensures HeadersTaken(OpenLevel(pending), false, ProcessChunks(level, pending, chunks).pieces)
    decreases |chunks|
  {
    if chunks != [] {
      var first := ProcessChunk(level, pending, chunks[0]);
      var rest := ProcessChunks(level, first.pending, chunks[1..]);
      ChunkFramed(level, pending, chunks[0]);
      ChunkTaken(level, pending, chunks[0]);
      NoHeaderMissed(level, first.pending, chunks[1..]);
      TakenConcat(level, OpenLevel(pending), false, first.pieces, OpenLevel(first.pending), rest.pieces);
    }
  }
}
