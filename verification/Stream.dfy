/**
 The output stream parser (base/stream/input.go). Output comes in chunks of ASCII text. A line that starts
 with digits and two colons is one message of that level; digits and three colons open a block that lasts
 to a line of three colons, possibly chunks later; everything else is a message of the stream's own level.
 */
module Stream {
  import opened Wrappers
  import opened Text

  const TERM := "\n:::\n"
  const CLOSING := ":::\n"
  const MAX_LEVEL := 65535

  datatype Header = Header(level: nat, multiline: bool, length: nat)

  datatype Message = Message(level: nat, text: string)

  /** An open block: its level and what has been collected of it. */
  datatype Pending = Pending(level: nat, text: string)

  /** The input taken apart: emitted messages, and the headers and terminators stripped from between them. */
  datatype Piece = Emit(level: nat, text: string) | Head(text: string) | Close(text: string)

  /** The pieces, what the handler is called with, and the block left open. */
  datatype Parsed = Parsed(pieces: seq<Piece>, messages: seq<Message>, pending: Option<Pending>)

  // ---- Lines and headers ---------------------------------------------------------------------

  predicate IsDigit(c: char) {
    '0' <= c <= '9'
  }

  /** How many digits stand at `at`. */
  function Digits(b: string, at: nat): (n: nat)
    requires at <= |b|
    ensures at + n <= |b|
    decreases |b| - at
  {
    if at < |b| && IsDigit(b[at]) then 1 + Digits(b, at + 1) else 0
  }

  /** The number the characters before `to` stand for, from `at` on. */
  function Value(b: string, at: nat, to: nat): nat
    requires at <= to <= |b|
  {
    if at == to || !IsDigit(b[to - 1]) then 0
    else Value(b, at, to - 1) * 10 + (b[to - 1] as int - '0' as int)
  }

  /** A level that does not fit sixteen bits becomes the largest one: the parse error is ignored. */
  function Level(b: string, at: nat, to: nat): nat
    requires at <= to <= |b|
  {
    if Value(b, at, to) > MAX_LEVEL then MAX_LEVEL else Value(b, at, to)
  }

  /** A header at `at`: digits, then two colons, or three if there are three. */
  function MatchHeader(b: string, at: nat): (r: Option<Header>)
    requires at <= |b|
    ensures r.Some? ==> 3 <= r.value.length <= |b| - at
  {
    var colon := at + Digits(b, at);
    if colon == at || |b| < colon + 2 || b[colon] != ':' || b[colon + 1] != ':' then None
    else
      var multiline := |b| > colon + 2 && b[colon + 2] == ':';
      Some(Header(Level(b, at, colon), multiline, colon - at + if multiline then 3 else 2))
  }

  /** The distance from `at` to the next line feed; to the end when that is the last character or there is none. */
  function NewLineOrEOF(b: string, at: nat): (n: nat)
    requires at <= |b|
    ensures at + n <= |b|
    decreases |b| - at
  {
    if at + 1 >= |b| then |b| - at
    else if b[at] == '\n' then 0
    else 1 + NewLineOrEOF(b, at + 1)
  }

  /** The first occurrence at `at` or later. */
  function Find(b: string, at: nat, what: string): (r: Option<nat>)
    requires at <= |b|
    ensures r.Some? ==> at <= r.value && r.value + |what| <= |b|
    decreases |b| - at
  {
    if Matches(b, at, what) then Some(at)
    else if at == |b| then None
    else Find(b, at + 1, what)
  }

  // ---- The parser ----------------------------------------------------------------------------

  function EmitText(level: nat, text: string): seq<Piece> {
    if text == "" then [] else [Emit(level, text)]
  }

  function Flushed(level: nat, text: string): seq<Message> {
    if text == "" then [] else [Message(level, text)]
  }

  function From(buffer: string, start: nat): string {
    if start < |buffer| then buffer[start..] else ""
  }

  /** What a header leads to, as positions: a line or a block ending at `end`, with the place where scanning
      goes on; or a block that the buffer leaves open. */
  datatype Found = Line(end: nat, next: nat) | Block(end: nat, next: nat) | Open(end: nat)

  /** What follows a header whose text begins at `body`. A line keeps its line feed, if it has one. */
  function FindBody(buffer: string, body: nat, multiline: bool): (f: Found)
    requires body <= |buffer|
    ensures body <= f.end <= |buffer| && (!f.Open? ==> body < f.next) && (f.Open? ==> f.end == |buffer|)
    ensures f.Line? ==> f.next == f.end || f.end == |buffer|
    ensures f.Block? ==> f.next == f.end + |TERM| <= |buffer|
  {
    if !multiline then
      var end := body + NewLineOrEOF(buffer, body);
      Line(if end == |buffer| then end else end + 1, end + 1)
    else
      match Find(buffer, body, TERM)
      case None => Open(|buffer|)
      case Some(end) => Block(end, end + |TERM|)
  }

  /** A header with what it leads to. */
  function FoundPieces(head: string, level: nat, text: string, f: Found): seq<Piece> {
    match f
    case Line(_, _) => [Head(head), Emit(level, text)]
    case Block(_, _) => [Head(head), Emit(level, text), Close(TERM)]
    case Open(_) => [Head(head)]
  }

  function FoundMessages(level: nat, text: string, f: Found): seq<Message> {
    if f.Open? then [] else [Message(level, text)]
  }

  /** The text before a header, the header with what it leads to, and the rest. */
  function Joint(level: nat, before: string, head: string, found: nat, text: string, f: Found, rest: Parsed): Parsed {
    Parsed(EmitText(level, before) + FoundPieces(head, found, text, f) + rest.pieces,
           Flushed(level, before) + FoundMessages(found, text, f) + rest.messages, rest.pending)
  }

  /** Scanning from position `i`; the text from `start` has not been emitted yet. */
  function Scan(level: nat, buffer: string, start: nat, i: nat): Parsed
    requires start <= i
    decreases if i > |buffer| then 0 else |buffer| - i + 1, 1
  {
    if i >= |buffer| then
      Parsed(EmitText(level, From(buffer, start)), Flushed(level, From(buffer, start)), None)
    else
      match MatchHeader(buffer, i)
      case None => Scan(level, buffer, start, i + NewLineOrEOF(buffer, i) + 1)
      case Some(h) =>
        var body := i + h.length;
        var f := FindBody(buffer, body, h.multiline);
        Joint(level, buffer[start..i], buffer[i..body], h.level, buffer[body..f.end], f,
              ScanOn(level, buffer, body, h.level, f))
  }

  predicate Fits(buffer: string, body: nat, f: Found) {
    body <= f.end <= |buffer| && (!f.Open? ==> body < f.next)
  }

  /** Scanning goes on after a line; after a block it goes on one character late. */
  function ScanOn(level: nat, buffer: string, body: nat, found: nat, f: Found): Parsed
    requires Fits(buffer, body, f)
    decreases |buffer| - body + 1, 2
  {
    if f.Open? then Parsed([], [], Some(Pending(found, buffer[body..f.end])))
    else Scan(level, buffer, f.next, if f.Line? then f.next else f.next + 1)
  }

  function Closed(p: Pending, text: string, terminator: string, rest: Parsed): Parsed {
    Parsed([Emit(p.level, p.text + text), Close(terminator)] + rest.pieces,
           [Message(p.level, p.text + text)] + rest.messages, rest.pending)
  }

  /** One chunk, with the block that was open before it. */
  function ProcessChunk(level: nat, pending: Option<Pending>, buffer: string): Parsed {
    match pending
    case None => Scan(level, buffer, 0, 0)
    case Some(p) =>
      if p.text != "" && p.text[|p.text| - 1] == '\n' && CLOSING <= buffer then
        Closed(p, "", CLOSING, Scan(level, buffer[|CLOSING|..], 0, 0))
      else
        match Find(buffer, 0, TERM)
        case Some(n) => Closed(p, buffer[..n], TERM, Scan(level, buffer[n + |TERM|..], 0, 0))
        case None => Parsed([], [], Some(Pending(p.level, p.text + buffer)))
  }

  function ProcessChunks(level: nat, pending: Option<Pending>, chunks: seq<string>): Parsed
    decreases |chunks|
  {
    if chunks == [] then Parsed([], [], pending)
    else
      var first := ProcessChunk(level, pending, chunks[0]);
      var rest := ProcessChunks(level, first.pending, chunks[1..]);
      Parsed(first.pieces + rest.pieces, first.messages + rest.messages, rest.pending)
  }

  function Messages(pieces: seq<Piece>): seq<Message> {
    if pieces == [] then []
    else if pieces[0].Emit? then [Message(pieces[0].level, pieces[0].text)] + Messages(pieces[1..])
    else Messages(pieces[1..])
  }

  lemma {:induction false} MessagesConcat(a: seq<Piece>, b: seq<Piece>)
    ensures Messages(a + b) == Messages(a) + Messages(b)
  {
    if a == [] {
      assert a + b == b;
    } else {
      assert (a + b)[1..] == a[1..] + b;
      MessagesConcat(a[1..], b);
    }
  }

  // ---- The consumer as the source runs it ----------------------------------------------------

  class Consumer {
    const level: nat
    var multi: Option<Pending>

    constructor (level: nat)
      ensures this.level == level && multi == None
    {
      this.level := level;
      multi := None;
    }

    /** `newLineOrEOF` of the rest of the buffer from `at` on. */
    static method SeekNewLineOrEOF(b: string, at: nat) returns (i: nat)
      requires at <= |b|
      ensures i == NewLineOrEOF(b, at)
    {
      i := 0;
      if at < |b| {
        while at + i < |b| - 1 && b[at + i] != '\n'
          invariant at + i < |b|
          invariant NewLineOrEOF(b, at) == i + NewLineOrEOF(b, at + i)
        {
          i := i + 1;
        }
        if at + i + 1 == |b| { i := i + 1; }
      }
    }

    /** Calls the handler with the messages of one chunk: `out` is what it is called with, in order. */
    method Process(chunk: string) returns (out: seq<Message>)
      modifies this`multi
      ensures var r := ProcessChunk(level, old(multi), chunk); out == r.messages && multi == r.pending
    {
      out := [];
      var buffer := chunk;
      if multi.Some? {
        var p := multi.value;
        if p.text != "" && p.text[|p.text| - 1] == '\n' && CLOSING <= buffer {
          out := [Message(p.level, p.text)];
          assert p.text + "" == p.text;
          multi := None;
          buffer := buffer[|CLOSING|..];
        } else {
          var end := Find(buffer, 0, TERM);
          if end == None {
            multi := Some(Pending(p.level, p.text + buffer));
            return;
          }
          out := [Message(p.level, p.text + buffer[..end.value])];
          multi := None;
          buffer := buffer[end.value + |TERM|..];
        }
      }
      var rest := ProcessText(buffer);
      out := out + rest;
    }

    /** Where the text that follows a header ends. */
    static method SeekBody(buffer: string, body: nat, multiline: bool) returns (f: Found)
      requires body <= |buffer|
      ensures f == FindBody(buffer, body, multiline)
    {
      if !multiline {
        var skip := SeekNewLineOrEOF(buffer, body);
        var end := body + skip;
        if end == |buffer| {
          f := Line(end, end + 1);
        } else {
          f := Line(end + 1, end + 1);
        }
      } else {
        var end := Find(buffer, body, TERM);
        if end == None {
          f := Open(|buffer|);
        } else {
          f := Block(end.value, end.value + |TERM|);
        }
      }
    }

    /** At a header `h` found at `i`: the text before it is flushed, and what it introduces is emitted. */
    method ProcessHeader(buffer: string, start: nat, i: nat, h: Header) returns (out: seq<Message>, f: Found)
      requires start <= i && i + h.length <= |buffer|
      ensures f == FindBody(buffer, i + h.length, h.multiline)
      ensures out == Flushed(level, buffer[start..i]) + FoundMessages(h.level, buffer[i + h.length..f.end], f)
    {
      out := [];
      if i > start {
        out := out + [Message(level, buffer[start..i])];
      }
      f := SeekBody(buffer, i + h.length, h.multiline);
      if !f.Open? {
        out := out + [Message(h.level, buffer[i + h.length..f.end])];
      }
    }

    method ProcessText(buffer: string) returns (out: seq<Message>)
      requires multi == None
      modifies this`multi
      ensures var r := Scan(level, buffer, 0, 0); out == r.messages && multi == r.pending
    {
      out := [];
      ghost var whole := Scan(level, buffer, 0, 0);
      var start, i := 0, 0;
      while i < |buffer|
        invariant 0 <= start <= i && multi == None
        invariant ToScan(whole, out, level, buffer, start, i)
        decreases |buffer| - i
      {
        var m := MatchHeader(buffer, i);
        if m == None {
          var skip := SeekNewLineOrEOF(buffer, i);
          SkipStep(level, buffer, start, i, whole, out);
          i := i + skip + 1;
        } else {
          var h := m.value;
          var more, f := ProcessHeader(buffer, start, i, h);
          ScanStep(level, buffer, start, i, h, f, whole, out);
          out := out + more;
          if f.Open? {
            multi := Some(Pending(h.level, buffer[i + h.length..f.end]));
            return;
          }
          start, i := f.next, if f.Line? then f.next else f.next + 1;
        }
      }
      ScanDone(level, buffer, start, i, whole, out);
      if start < |buffer| {
        out := out + [Message(level, buffer[start..])];
      }
    }

    /** `consume`: the chunks that the reader returns, until it reports the end; an open block is then lost. */
    method Consume(chunks: seq<string>) returns (out: seq<Message>)
      modifies this`multi
      ensures var r := ProcessChunks(level, old(multi), chunks); out == r.messages && multi == r.pending
    {
      out := [];
      var n := 0;
      ghost var whole := ProcessChunks(level, multi, chunks);
      while n < |chunks|
        invariant n <= |chunks|
        invariant Remains(whole, out, ProcessChunks(level, multi, chunks[n..]))
      {
        assert chunks[n..][1..] == chunks[n + 1..];
        var more := Process(chunks[n]);
        out := out + more;
        n := n + 1;
      }
    }
  }

  /** After `out`, what is left of `whole` is `rest`. */
  ghost predicate Remains(whole: Parsed, out: seq<Message>, rest: Parsed) {
    whole.messages == out + rest.messages && whole.pending == rest.pending
  }

  /** After `out`, what is left of `whole` is the scan from `i` on. */
  ghost predicate ToScan(whole: Parsed, out: seq<Message>, level: nat, buffer: string, start: nat, i: nat) {
    start <= i && Remains(whole, out, Scan(level, buffer, start, i))
  }

  /** A header emits the text in front of it and what it introduces; scanning stops at a block left open. */
  lemma ScanStep(level: nat, buffer: string, start: nat, i: nat, h: Header, f: Found, whole: Parsed, out: seq<Message>)
    requires i < |buffer| && MatchHeader(buffer, i) == Some(h)
    requires f == FindBody(buffer, i + h.length, h.multiline)
    requires ToScan(whole, out, level, buffer, start, i)
    ensures var body := i + h.length;
      var more := Flushed(level, buffer[start..i]) + FoundMessages(h.level, buffer[body..f.end], f);
      if f.Open? then Remains(whole, out + more, Parsed([], [], Some(Pending(h.level, buffer[body..f.end]))))
      else ToScan(whole, out + more, level, buffer, f.next, if f.Line? then f.next else f.next + 1)
  {
    ScanAt(level, buffer, start, i, h);
    AtStep(level, buffer, start, i, h, f, Scan(level, buffer, start, i), whole, out);
  }

  lemma AtStep(level: nat, buffer: string, start: nat, i: nat, h: Header, f: Found, r: Parsed, whole: Parsed,
               out: seq<Message>)
    requires IsAt(r, level, buffer, start, i, h) && f == FindBody(buffer, i + h.length, h.multiline)
    requires Remains(whole, out, r)
    ensures var body := i + h.length;
      var more := Flushed(level, buffer[start..i]) + FoundMessages(h.level, buffer[body..f.end], f);
      if f.Open? then Remains(whole, out + more, Parsed([], [], Some(Pending(h.level, buffer[body..f.end]))))
      else ToScan(whole, out + more, level, buffer, f.next, if f.Line? then f.next else f.next + 1)
  {
    var body := i + h.length;
    JointStep(level, buffer[start..i], buffer[i..body], h.level, buffer[body..f.end], f,
              ScanOn(level, buffer, body, h.level, f), whole, out);
  }

  lemma SkipStep(level: nat, buffer: string, start: nat, i: nat, whole: Parsed, out: seq<Message>)
    requires i < |buffer| && MatchHeader(buffer, i).None?
    requires ToScan(whole, out, level, buffer, start, i)
    ensures ToScan(whole, out, level, buffer, start, i + NewLineOrEOF(buffer, i) + 1)
  {
    ScanSkips(level, buffer, start, i);
  }

  lemma ScanSkips(level: nat, buffer: string, start: nat, i: nat)
    requires start <= i < |buffer| && MatchHeader(buffer, i).None?
    ensures Scan(level, buffer, start, i) == Scan(level, buffer, start, i + NewLineOrEOF(buffer, i) + 1)
  {
  }

  lemma ScanDone(level: nat, buffer: string, start: nat, i: nat, whole: Parsed, out: seq<Message>)
    requires |buffer| <= i && ToScan(whole, out, level, buffer, start, i)
    ensures Remains(whole, out + Flushed(level, From(buffer, start)), Parsed([], [], None))
  {
    ScanEnds(level, buffer, start, i);
  }

  /** `r` is what comes of a header `h` at `i`. */
  ghost predicate IsAt(r: Parsed, level: nat, buffer: string, start: nat, i: nat, h: Header) {
    && start <= i && i < i + h.length <= |buffer|
    && var body := i + h.length;
       var f := FindBody(buffer, body, h.multiline);
       r == Joint(level, buffer[start..i], buffer[i..body], h.level, buffer[body..f.end], f,
                  ScanOn(level, buffer, body, h.level, f))
  }

  /** What a header leads to decides where scanning goes on. */
  ghost predicate GoesOn(r: Parsed, level: nat, buffer: string, body: nat, found: nat, f: Found) {
    && Fits(buffer, body, f)
    && r == if f.Open? then Parsed([], [], Some(Pending(found, buffer[body..f.end])))
            else Scan(level, buffer, f.next, if f.Line? then f.next else f.next + 1)
  }

  lemma ScanGoesOn(level: nat, buffer: string, body: nat, found: nat, f: Found)
    requires Fits(buffer, body, f)
    ensures GoesOn(ScanOn(level, buffer, body, found, f), level, buffer, body, found, f)
  {
  }

  /** The same, given what the header leads to and what comes of the rest. */
  ghost predicate JointAt(r: Parsed, level: nat, buffer: string, start: nat, i: nat, h: Header, f: Found,
                          rest: Parsed)
  {
    && start <= i && i < i + h.length <= |buffer|
    && GoesOn(rest, level, buffer, i + h.length, h.level, f)
    && r == Joint(level, buffer[start..i], buffer[i..i + h.length], h.level, buffer[i + h.length..f.end], f, rest)
  }

  lemma JointOf(r: Parsed, level: nat, buffer: string, start: nat, i: nat, h: Header) returns (f: Found, rest: Parsed)
    requires IsAt(r, level, buffer, start, i, h)
    ensures f == FindBody(buffer, i + h.length, h.multiline) && JointAt(r, level, buffer, start, i, h, f, rest)
  {
    f := FindBody(buffer, i + h.length, h.multiline);
    rest := ScanOn(level, buffer, i + h.length, h.level, f);
    ScanGoesOn(level, buffer, i + h.length, h.level, f);
  }

  lemma ScanAt(level: nat, buffer: string, start: nat, i: nat, h: Header)
    requires start <= i < |buffer| && MatchHeader(buffer, i) == Some(h)
    ensures IsAt(Scan(level, buffer, start, i), level, buffer, start, i, h)
  {
  }

  lemma JointStep(level: nat, before: string, head: string, found: nat, text: string, f: Found, rest: Parsed,
                  whole: Parsed, out: seq<Message>)
    requires Remains(whole, out, Joint(level, before, head, found, text, f, rest))
    ensures Remains(whole, out + (Flushed(level, before) + FoundMessages(found, text, f)), rest)
  {
  }

  lemma ScanEnds(level: nat, buffer: string, start: nat, i: nat)
    requires start <= i && |buffer| <= i
    ensures Scan(level, buffer, start, i) ==
            Parsed(EmitText(level, From(buffer, start)), Flushed(level, From(buffer, start)), None)
  {
  }
}
