/**
 What the stream parser does with any input: nothing is lost or reordered, whatever is emitted is framed by
 the headers and terminators that were stripped, and printed messages are read back.
 */
module StreamTheorems {
  import opened Wrappers
  import opened Text
  import opened Stream

  // ---- Conservation --------------------------------------------------------------------------

  function Bytes(pieces: seq<Piece>): string {
    if pieces == [] then "" else pieces[0].text + Bytes(pieces[1..])
  }

  lemma {:induction false} BytesConcat(a: seq<Piece>, b: seq<Piece>)
    ensures Bytes(a + b) == Bytes(a) + Bytes(b)
  {
    if a == [] {
      assert a + b == b;
    } else {
      assert (a + b)[1..] == a[1..] + b;
      BytesConcat(a[1..], b);
    }
  }

  function PendingText(pending: Option<Pending>): string {
    if pending.Some? then pending.value.text else ""
  }

  function Joined(chunks: seq<string>): string {
    if chunks == [] then "" else chunks[0] + Joined(chunks[1..])
  }

  /** All the text of `r`, in order. */
  function AllText(r: Parsed): string {
    Bytes(r.pieces) + PendingText(r.pending)
  }

  ghost predicate StandsFor(r: Parsed, text: string) {
    AllText(r) == text
  }

  lemma BytesOfOne(a: Piece)
    ensures Bytes([a]) == a.text
  {
    assert [a][1..] == [];
  }

  lemma BytesOfFew(a: Piece, b: Piece, c: Piece)
    ensures Bytes([a, b]) == a.text + b.text && Bytes([a, b, c]) == a.text + b.text + c.text
  {
    BytesOfOne(a);
    BytesOfOne(b);
    BytesOfOne(c);
    BytesConcat([a], [b]);
    assert [a] + [b] == [a, b];
    BytesConcat([a, b], [c]);
    assert [a, b] + [c] == [a, b, c];
  }

  lemma Slices(b: string, i: nat, j: nat, k: nat)
    requires i <= j <= k <= |b|
    ensures b[i..j] + b[j..k] == b[i..k] && b[i..j] + b[j..k] + b[k..] == b[i..]
  {
    assert b[i..j] + b[j..k] == b[i..k];
    assert b[i..k] + b[k..] == b[i..];
  }

  lemma SlicesToo(b: string, i: nat, j: nat, k: nat, l: nat)
    requires i <= j <= k <= l <= |b|
    ensures b[i..j] + b[j..k] + b[k..l] == b[i..l]
  {
    Slices(b, i, j, k);
    Slices(b, i, k, l);
  }

  lemma CutAt(before: string, b: string, n: nat, t: string)
    requires n + |t| <= |b| && b[n..n + |t|] == t
    ensures before + b[..n] + t + b[n + |t|..] == before + b
  {
    assert b[..n] + (t + b[n + |t|..]) == b;
    Associative(before, b[..n], t);
    Associative(before, b[..n] + t, b[n + |t|..]);
    Associative(b[..n], t, b[n + |t|..]);
  }

  /** Where the text that `f` stands for ends. */
  function EndOf(body: nat, f: Found): nat {
    match f
    case Open(_) => body
    case Line(end, _) => end
    case Block(_, next) => next
  }

  /** A header and what it leads to stand for the text from `i` to where `f` ends. */
  lemma FoundBytes(buffer: string, i: nat, body: nat, multiline: bool, level: nat)
    requires i <= body <= |buffer|
    ensures var f := FindBody(buffer, body, multiline);
      body <= EndOf(body, f) <= |buffer| &&
      Bytes(FoundPieces(buffer[i..body], level, buffer[body..f.end], f)) == buffer[i..EndOf(body, f)]
  {
    var head := Head(buffer[i..body]);
    var f := FindBody(buffer, body, multiline);
    var emit := Emit(level, buffer[body..f.end]);
    match f
    case Open(_) =>
      BytesOfOne(head);
    case Line(end, _) =>
      BytesOfFew(head, emit, head);
      Slices(buffer, i, body, end);
    case Block(end, next) =>
      BytesOfFew(head, emit, Close(TERM));
      FindFirst(buffer, body, TERM);
      SlicesToo(buffer, i, body, end, next);
  }

  lemma FlushedText(level: nat, text: string)
    ensures StandsFor(Parsed(EmitText(level, text), Flushed(level, text), None), text)
  {
    BytesOfOne(Emit(level, text));
  }

  lemma {:induction false} ScanConserves(level: nat, buffer: string, start: nat, i: nat)
    requires start <= i
    ensures StandsFor(Scan(level, buffer, start, i), From(buffer, start))
    decreases if i > |buffer| then 0 else |buffer| - i + 1
  {
    if i >= |buffer| {
      ScanEnds(level, buffer, start, i);
      FlushedText(level, From(buffer, start));
    } else if MatchHeader(buffer, i) == None {
      ScanSkips(level, buffer, start, i);
      ScanConserves(level, buffer, start, i + NewLineOrEOF(buffer, i) + 1);
    } else {
      ScanAtConserves(level, buffer, start, i, MatchHeader(buffer, i).value);
    }
  }

  lemma {:induction false} ScanAtConserves(level: nat, buffer: string, start: nat, i: nat, h: Header)
    requires start <= i < |buffer| && MatchHeader(buffer, i) == Some(h)
    ensures StandsFor(Scan(level, buffer, start, i), From(buffer, start))
    decreases |buffer| - i + 1, 1
  {
    ScanAt(level, buffer, start, i, h);
    var f, rest := JointOf(Scan(level, buffer, start, i), level, buffer, start, i, h);
    HeaderConserves(level, buffer, start, i, h, f, rest, Scan(level, buffer, start, i));
  }

  lemma {:induction false} HeaderConserves(level: nat, buffer: string, start: nat, i: nat, h: Header, f: Found,
                                         rest: Parsed, r: Parsed)
    requires JointAt(r, level, buffer, start, i, h, f, rest) && start < |buffer|
    requires f == FindBody(buffer, i + h.length, h.multiline)
    ensures StandsFor(r, From(buffer, start))
    decreases |buffer| - i + 1, 0
  {
    var body := i + h.length;
    FoundBytes(buffer, i, body, h.multiline, h.level);
    RestConserves(level, buffer, body, h.level, f, rest);
    JointText(level, buffer, start, i, EndOf(body, f), buffer[i..body], h.level, buffer[body..f.end], f,
              rest, r);
  }

  lemma {:induction false} RestConserves(level: nat, buffer: string, body: nat, found: nat, f: Found, rest: Parsed)
    requires GoesOn(rest, level, buffer, body, found, f) && EndOf(body, f) <= |buffer|
    requires f.Open? ==> f.end == |buffer|
    requires !f.Open? ==> From(buffer, f.next) == buffer[EndOf(body, f)..]
    ensures StandsFor(rest, buffer[EndOf(body, f)..])
    decreases |buffer| - body + 1, 2
  {
    if f.Open? {
      OpenStands(found, buffer[body..f.end]);
    } else {
      ScanConserves(level, buffer, f.next, if f.Line? then f.next else f.next + 1);
    }
  }

  lemma OpenStands(level: nat, text: string)
    ensures StandsFor(Parsed([], [], Some(Pending(level, text))), text)
  {
  }

  lemma JointText(level: nat, b: string, start: nat, i: nat, end: nat, head: string, found: nat, text: string,
                  f: Found, rest: Parsed, r: Parsed)
    requires start <= i <= end <= |b| && start < |b|
    requires r == Joint(level, b[start..i], head, found, text, f, rest)
    requires Bytes(FoundPieces(head, found, text, f)) == b[i..end] && StandsFor(rest, b[end..])
    ensures StandsFor(r, From(b, start))
  {
    var before, after := EmitText(level, b[start..i]), FoundPieces(head, found, text, f);
    BytesConcat(before + after, rest.pieces);
    BytesConcat(before, after);
    BytesOfOne(Emit(level, b[start..i]));
    assert Bytes(before) == b[start..i];
    Associative(b[start..i] + Bytes(after), Bytes(rest.pieces), PendingText(rest.pending));
    Slices(b, start, i, end);
  }

  /** A match is the first one, and there is none at all when the search fails. */
  lemma {:induction false} FindFirst(b: string, at: nat, what: string)
    requires at <= |b|
    ensures var r := Find(b, at, what);
      if r.Some? then Matches(b, r.value, what) && b[r.value..r.value + |what|] == what &&
                      forall k: nat :: at <= k < r.value ==> !Matches(b, k, what)
      else forall k: nat :: at <= k ==> !Matches(b, k, what)
    decreases |b| - at
  {
    if !Matches(b, at, what) && at < |b| {
      FindFirst(b, at + 1, what);
    }
  }

  lemma ChunkConserves(level: nat, pending: Option<Pending>, buffer: string)
    ensures AllText(ProcessChunk(level, pending, buffer)) == PendingText(pending) + buffer
  {
    match pending
    case None => ScanConserves(level, buffer, 0, 0);
    case Some(p) => OpenConserves(level, p, buffer);
  }

  lemma OpenConserves(level: nat, p: Pending, buffer: string)
    ensures AllText(ProcessChunk(level, Some(p), buffer)) == p.text + buffer
  {
    if p.text != "" && p.text[|p.text| - 1] == '\n' && CLOSING <= buffer {
      ClosedConserves(level, p, buffer, 0, CLOSING);
    } else if Find(buffer, 0, TERM).Some? {
      FindFirst(buffer, 0, TERM);
      ClosedConserves(level, p, buffer, Find(buffer, 0, TERM).value, TERM);
    } else {
      assert AllText(ProcessChunk(level, Some(p), buffer)) == "" + (p.text + buffer);
    }
  }

  lemma ClosedConserves(level: nat, p: Pending, buffer: string, n: nat, terminator: string)
    requires n + |terminator| <= |buffer| && buffer[n..n + |terminator|] == terminator
    ensures var rest := Scan(level, buffer[n + |terminator|..], 0, 0);
      AllText(Closed(p, buffer[..n], terminator, rest)) == p.text + buffer
  {
    var m := n + |terminator|;
    var after := buffer[m..];
    var rest := Scan(level, after, 0, 0);
    ScanConserves(level, after, 0, 0);
    assert From(after, 0) == after;
    ClosedText(p, buffer[..n], terminator, rest);
    CutAt(p.text, buffer, n, terminator);
  }

  lemma ClosedText(p: Pending, text: string, terminator: string, rest: Parsed)
    ensures AllText(Closed(p, text, terminator, rest)) == p.text + text + terminator + AllText(rest)
  {
    var a := [Emit(p.level, p.text + text), Close(terminator)];
    BytesConcat(a, rest.pieces);
    BytesOfFew(Emit(p.level, p.text + text), Close(terminator), Close(terminator));
    Associative(Bytes(a), Bytes(rest.pieces), PendingText(rest.pending));
  }

  /**
   For any chunks, the payloads in call order with the stripped headers and terminators put back between
   them, and the open block at the end, are the input: nothing is lost, duplicated or reordered.
   */
  lemma {:induction false} NothingLost(level: nat, pending: Option<Pending>, chunks: seq<string>)
    ensures AllText(ProcessChunks(level, pending, chunks)) == PendingText(pending) + Joined(chunks)
    decreases |chunks|
  {
    if chunks != [] {
      var first := ProcessChunk(level, pending, chunks[0]);
      var rest := ProcessChunks(level, first.pending, chunks[1..]);
      ChunkConserves(level, pending, chunks[0]);
      NothingLost(level, first.pending, chunks[1..]);
      BytesConcat(first.pieces, rest.pieces);
      Associative(Bytes(first.pieces), Bytes(rest.pieces), PendingText(rest.pending));
      Associative(Bytes(first.pieces), PendingText(first.pending), Joined(chunks[1..]));
      Associative(PendingText(pending), chunks[0], Joined(chunks[1..]));
    }
  }

  // ---- The handler's calls are the emitted pieces --------------------------------------------

  lemma FoundAreMessages(head: string, level: nat, text: string, f: Found)
    ensures Messages(FoundPieces(head, level, text, f)) == FoundMessages(level, text, f)
  {
    var p := FoundPieces(head, level, text, f);
    if !f.Open? {
      assert p[1..][0] == Emit(level, text) && Messages(p[1..][1..]) == [];
    }
  }

  ghost predicate Faithful(r: Parsed) {
    r.messages == Messages(r.pieces)
  }

  lemma JointMessages(level: nat, before: string, head: string, found: nat, text: string, f: Found, rest: Parsed)
    requires Faithful(rest)
    ensures Faithful(Joint(level, before, head, found, text, f, rest))
  {
    var a, b := EmitText(level, before), FoundPieces(head, found, text, f);
    MessagesConcat(a + b, rest.pieces);
    MessagesConcat(a, b);
    FoundAreMessages(head, found, text, f);
    assert Messages(a) == Flushed(level, before);
  }

  lemma {:induction false} ScanMessages(level: nat, buffer: string, start: nat, i: nat)
    requires start <= i
    ensures Faithful(Scan(level, buffer, start, i))
    decreases if i > |buffer| then 0 else |buffer| - i + 1, 1
  {
    if i < |buffer| {
      match MatchHeader(buffer, i)
      case None => ScanMessages(level, buffer, start, i + NewLineOrEOF(buffer, i) + 1);
      case Some(h) =>
        ScanAt(level, buffer, start, i, h);
        HeaderMessages(level, buffer, start, i, h, Scan(level, buffer, start, i));
    }
  }

  lemma {:induction false} HeaderMessages(level: nat, buffer: string, start: nat, i: nat, h: Header, r: Parsed)
    requires IsAt(r, level, buffer, start, i, h)
    ensures Faithful(r)
    decreases |buffer| - i + 1, 0
  {
    var body := i + h.length;
    var f := FindBody(buffer, body, h.multiline);
    RestMessages(level, buffer, body, h.level, f);
    JointMessages(level, buffer[start..i], buffer[i..body], h.level, buffer[body..f.end], f,
                  ScanOn(level, buffer, body, h.level, f));
  }

  lemma {:induction false} RestMessages(level: nat, buffer: string, body: nat, found: nat, f: Found)
    requires Fits(buffer, body, f)
    ensures Faithful(ScanOn(level, buffer, body, found, f))
    decreases |buffer| - body + 1, 2
  {
    if !f.Open? {
      ScanMessages(level, buffer, f.next, if f.Line? then f.next else f.next + 1);
    }
  }

  lemma ClosedMessages(p: Pending, text: string, terminator: string, rest: Parsed)
    requires Faithful(rest)
    ensures Faithful(Closed(p, text, terminator, rest))
  {
    var a := [Emit(p.level, p.text + text), Close(terminator)];
    MessagesConcat(a, rest.pieces);
    assert a[1..] == [Close(terminator)];
  }

  lemma ChunkMessages(level: nat, pending: Option<Pending>, buffer: string)
    ensures Faithful(ProcessChunk(level, pending, buffer))
  {
    match pending
    case None => ScanMessages(level, buffer, 0, 0);
    case Some(p) =>
      if p.text != "" && p.text[|p.text| - 1] == '\n' && CLOSING <= buffer {
        ScanMessages(level, buffer[|CLOSING|..], 0, 0);
        ClosedMessages(p, "", CLOSING, Scan(level, buffer[|CLOSING|..], 0, 0));
      } else if Find(buffer, 0, TERM).Some? {
        var n := Find(buffer, 0, TERM).value;
        ScanMessages(level, buffer[n + |TERM|..], 0, 0);
        ClosedMessages(p, buffer[..n], TERM, Scan(level, buffer[n + |TERM|..], 0, 0));
      }
  }

  /** The handler is called with the emitted pieces and nothing else, in their order. */
  lemma {:induction false} HandlerSeesThePieces(level: nat, pending: Option<Pending>, chunks: seq<string>)
    ensures var r := ProcessChunks(level, pending, chunks); r.messages == Messages(r.pieces)
    decreases |chunks|
  {
    if chunks != [] {
      var first := ProcessChunk(level, pending, chunks[0]);
      var rest := ProcessChunks(level, first.pending, chunks[1..]);
      ChunkMessages(level, pending, chunks[0]);
      HandlerSeesThePieces(level, first.pending, chunks[1..]);
      MessagesConcat(first.pieces, rest.pieces);
    }
  }
}
