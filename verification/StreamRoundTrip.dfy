/**
 Printed messages are read back; a block is read across chunks; and where the parser does not see what the
 text says.
 */
module StreamRoundTrip {
  import opened Wrappers
  import opened Text
  import opened Stream

  // ---- Printing ------------------------------------------------------------------------------

  /** A single-line message as a program writes it. */
  function PrintLine(m: Message): string {
    Numeral(m.level) + "::" + m.text + "\n"
  }

  function PrintLines(ms: seq<Message>): string {
    if ms == [] then "" else PrintLine(ms[0]) + PrintLines(ms[1..])
  }

  function PrintBlock(m: Message): string {
    Numeral(m.level) + ":::" + m.text + TERM
  }

  /** The text of one line; a colon in front would be taken for part of the header. */
  predicate LineText(m: Message) {
    m.level <= MAX_LEVEL && '\n' !in m.text && (m.text == "" || m.text[0] != ':')
  }

  /** The text of a block must not be ended early by what stands in it. */
  predicate BlockText(m: Message) {
    m.level <= MAX_LEVEL && (forall k: nat :: k < |m.text| ==> !Matches(m.text + TERM, k, TERM))
  }

  predicate EndsWith(s: string, t: string) {
    |t| <= |s| && s[|s| - |t|..] == t
  }

  /** A block text is ended early exactly by a terminator in it, or by one less its last line feed at its end. */
  lemma BlockTextIff(m: Message)
    requires m.level <= MAX_LEVEL
    ensures BlockText(m) <==> (forall k: nat :: !Matches(m.text, k, TERM)) && !EndsWith(m.text, "\n:::")
  {
    var s := m.text + TERM;
    var n := |m.text|;
    if BlockText(m) {
      forall k: nat | Matches(m.text, k, TERM) ensures false {
        assert Matches(s, k, TERM);
      }
      if EndsWith(m.text, "\n:::") {
        EndsEarly(m.text);
      }
    }
    if (forall k: nat :: !Matches(m.text, k, TERM)) && !EndsWith(m.text, "\n:::") {
      forall k: nat | k < n && Matches(s, k, TERM) ensures false {
        EarlyMatch(m.text, k);
      }
    }
  }

  lemma EndsEarly(text: string)
    requires EndsWith(text, "\n:::")
    ensures Matches(text + TERM, |text| - 4, TERM)
  {
    var n, t := |text|, text[|text| - 4..];
    assert text[n - 4] == t[0] && text[n - 3] == t[1] && text[n - 2] == t[2] && text[n - 1] == t[3];
  }

  /** A terminator found before the end of a text followed by one lies in it, or ends it but for a line feed. */
  lemma EarlyMatch(text: string, k: nat)
    requires k < |text| && Matches(text + TERM, k, TERM)
    ensures Matches(text, k, TERM) || EndsWith(text, "\n:::")
  {
    var s := text + TERM;
    var n := |text|;
    assert TERM == ['\n', ':', ':', ':', '\n'];
    assert s[k] == TERM[0] && s[k + 1] == TERM[1] && s[k + 2] == TERM[2] && s[k + 3] == TERM[3] && s[k + 4] == TERM[4];
    if k + 5 <= n {
      assert Matches(text, k, TERM);
    } else {
      assert k + 4 == n;
      assert text[n - 4..] == "\n:::";
    }
  }

  // ---- A header is read back -----------------------------------------------------------------

  lemma {:induction false} DecimalDigits(b: string, at: nat, n: nat)
    requires Matches(b, at, Numeral(n))
    ensures forall k :: at <= k < at + |Numeral(n)| ==> IsDigit(b[k])
    ensures Value(b, at, at + |Numeral(n)|) == n
    decreases n
  {
    var d := Numeral(n);
    var last := at + |d| - 1;
    assert b[last] == d[|d| - 1];
    if n >= 10 {
      assert Matches(b, at, Numeral(n / 10)) by {
        assert forall k :: 0 <= k < |d| - 1 ==> b[at + k] == d[k] == Numeral(n / 10)[k];
      }
      DecimalDigits(b, at, n / 10);
    } else {
      assert Value(b, at, at) == 0;
    }
  }

  lemma {:induction false} CountDigits(b: string, at: nat, end: nat)
    requires at <= end < |b| && (forall k :: at <= k < end ==> IsDigit(b[k])) && !IsDigit(b[end])
    ensures Digits(b, at) == end - at
    decreases end - at
  {
    if at < end {
      CountDigits(b, at + 1, end);
    }
  }

  /** A printed header is found, with its level. */
  lemma HeaderReadsBack(b: string, at: nat, n: nat)
    requires n <= MAX_LEVEL && Matches(b, at, Numeral(n)) && Matches(b, at + |Numeral(n)|, "::")
    ensures at <= |b|
    ensures var colon := at + |Numeral(n)|;
      var multiline := colon + 2 < |b| && b[colon + 2] == ':';
      MatchHeader(b, at) == Some(Header(n, multiline, colon - at + if multiline then 3 else 2))
  {
    var colon := at + |Numeral(n)|;
    DecimalDigits(b, at, n);
    assert b[colon] == "::"[0] && b[colon + 1] == "::"[1];
    CountDigits(b, at, colon);
  }

  lemma MatchesThree(b: string, at: nat, s: string, t: string, u: string)
    requires Matches(b, at, s + (t + u))
    ensures Matches(b, at, s) && Matches(b, at + |s|, t) && Matches(b, at + |s| + |t|, u)
  {
    MatchesConcat(b, at, s, t + u);
    MatchesConcat(b, at + |s|, t, u);
  }

  lemma MatchesSlice(b: string, at: nat, s: string)
    requires Matches(b, at, s)
    ensures b[at..at + |s|] == s
  {
  }

  lemma {:induction false} LineFeedAt(b: string, at: nat, end: nat)
    requires at <= end < |b| && b[end] == '\n' && (forall k :: at <= k < end ==> b[k] != '\n')
    ensures NewLineOrEOF(b, at) == if end + 1 == |b| then end + 1 - at else end - at
    decreases end - at
  {
    if at < end {
      LineFeedAt(b, at + 1, end);
    }
  }

  /** `r` is the messages `ms` and then whatever `rest` is. */
  ghost predicate Then(r: Parsed, ms: seq<Message>, rest: Parsed) {
    r.messages == ms + rest.messages && r.pending == rest.pending
  }

  /** At `i`, header `h` leads to a line with this text, which ends at `next`. */
  ghost predicate LineAt(b: string, i: nat, h: Header, text: string, next: nat) {
    && i < i + h.length <= |b| && MatchHeader(b, i) == Some(h)
    && var f := FindBody(b, i + h.length, h.multiline);
       f.Line? && f.end == next && b[i + h.length..next] == text
  }

  lemma LineStands(b: string, i: nat, m: Message)
    requires LineText(m) && Matches(b, i, PrintLine(m))
    ensures LineAt(b, i, Header(m.level, false, |Numeral(m.level)| + 2), m.text + "\n", i + |PrintLine(m)|)
  {
    var d := Numeral(m.level);
    var colon := i + |d|;
    var body := colon + 2;
    assert PrintLine(m) == d + ("::" + (m.text + "\n"));
    MatchesThree(b, i, d, "::", m.text + "\n");
    HeaderReadsBack(b, i, m.level);
    assert b[body] == (m.text + "\n")[0];
    LineEnds(b, body, m.text);
  }

  lemma LineEnds(b: string, body: nat, text: string)
    requires Matches(b, body, text + "\n") && '\n' !in text
    ensures var end := body + |text| + 1;
      FindBody(b, body, false).Line? && FindBody(b, body, false).end == end && b[body..end] == text + "\n"
  {
    MatchesConcat(b, body, text, "\n");
    MatchesSlice(b, body, text + "\n");
    assert b[body + |text|] == "\n"[0];
    LineFeedAt(b, body, body + |text|);
  }

  /** A printed line at `i` is read as its message, line feed included, and scanning goes on behind it. */
  lemma LineReadsBack(level: nat, b: string, i: nat, m: Message, next: nat)
    requires LineText(m) && Matches(b, i, PrintLine(m)) && next == i + |PrintLine(m)|
    ensures next <= |b| && Then(Scan(level, b, i, i), [Message(m.level, m.text + "\n")], Scan(level, b, next, next))
  {
    var h := Header(m.level, false, |Numeral(m.level)| + 2);
    LineStands(b, i, m);
    ScanAt(level, b, i, i, h);
    LineIs(level, b, i, h, m.text + "\n", next, Scan(level, b, i, i));
  }

  /** At a header with nothing before it: its message, and then the scan of what follows. */
  lemma LineIs(level: nat, b: string, i: nat, h: Header, text: string, next: nat, r: Parsed)
    requires IsAt(r, level, b, i, i, h) && LineAt(b, i, h, text, next)
    ensures next <= |b| && Then(r, [Message(h.level, text)], Scan(level, b, next, next))
  {
    var f := FindBody(b, i + h.length, h.multiline);
    if f.next != f.end {
      ScanEnds(level, b, f.next, f.next);
      ScanEnds(level, b, f.end, f.end);
    }
  }

  /** The messages that printed lines stand for. */
  function WithLineFeeds(ms: seq<Message>): (r: seq<Message>)
    ensures |r| == |ms| && forall k :: 0 <= k < |ms| ==> r[k] == Message(ms[k].level, ms[k].text + "\n")
  {
    seq(|ms|, k requires 0 <= k < |ms| => Message(ms[k].level, ms[k].text + "\n"))
  }

  lemma ThenThen(r: Parsed, a: seq<Message>, mid: Parsed, b: seq<Message>, rest: Parsed)
    requires Then(r, a, mid) && Then(mid, b, rest)
    ensures Then(r, a + b, rest)
  {
  }

  lemma ThenLines(r: Parsed, ms: seq<Message>, mid: Parsed, rest: Parsed)
    requires ms != [] && Then(r, [Message(ms[0].level, ms[0].text + "\n")], mid)
    requires Then(mid, WithLineFeeds(ms[1..]), rest)
    ensures Then(r, WithLineFeeds(ms), rest)
  {
    ThenThen(r, [Message(ms[0].level, ms[0].text + "\n")], mid, WithLineFeeds(ms[1..]), rest);
    assert WithLineFeeds(ms) == [Message(ms[0].level, ms[0].text + "\n")] + WithLineFeeds(ms[1..]);
  }

  lemma {:induction false} LinesReadBack(level: nat, b: string, i: nat, ms: seq<Message>, next: nat)
    requires (forall k :: 0 <= k < |ms| ==> LineText(ms[k])) && Matches(b, i, PrintLines(ms))
    requires next == i + |PrintLines(ms)|
    ensures Then(Scan(level, b, i, i), WithLineFeeds(ms), Scan(level, b, next, next))
    decreases |ms|
  {
    if ms != [] {
      var mid := i + |PrintLine(ms[0])|;
      MatchesConcat(b, i, PrintLine(ms[0]), PrintLines(ms[1..]));
      LineReadsBack(level, b, i, ms[0], mid);
      LinesReadBack(level, b, mid, ms[1..], next);
      ThenLines(Scan(level, b, i, i), ms, Scan(level, b, mid, mid), Scan(level, b, next, next));
    }
  }

  lemma {:induction false} FindAt(b: string, at: nat, end: nat, what: string)
    requires at <= end && Matches(b, end, what) && forall k: nat :: at <= k < end ==> !Matches(b, k, what)
    ensures at <= |b| && Find(b, at, what) == Some(end)
    decreases end - at
  {
    if at < end {
      FindAt(b, at + 1, end, what);
    }
  }

  /** At `i`, header `h` leads to a block with this text, terminated at the end of the buffer. */
  ghost predicate BlockAt(b: string, i: nat, h: Header, text: string) {
    && i < i + h.length <= |b| && MatchHeader(b, i) == Some(h)
    && var f := FindBody(b, i + h.length, h.multiline);
       f.Block? && f.next == |b| && b[i + h.length..f.end] == text
  }

  lemma BlockStands(b: string, i: nat, m: Message)
    requires BlockText(m) && Matches(b, i, PrintBlock(m)) && |b| == i + |PrintBlock(m)|
    ensures BlockAt(b, i, Header(m.level, true, |Numeral(m.level)| + 3), m.text)
  {
    var d := Numeral(m.level);
    var colon := i + |d|;
    assert PrintBlock(m) == d + (":::" + (m.text + TERM));
    MatchesThree(b, i, d, ":::", m.text + TERM);
    BlockHeader(b, i, m.level);
    BlockEnds(b, colon + 3, m);
  }

  lemma BlockHeader(b: string, i: nat, n: nat)
    requires n <= MAX_LEVEL && Matches(b, i, Numeral(n)) && Matches(b, i + |Numeral(n)|, ":::")
    ensures i <= |b| && MatchHeader(b, i) == Some(Header(n, true, |Numeral(n)| + 3))
  {
    var colon := i + |Numeral(n)|;
    assert b[colon] == ":::"[0] && b[colon + 1] == ":::"[1] && b[colon + 2] == ":::"[2];
    HeaderReadsBack(b, i, n);
  }

  lemma BlockEnds(b: string, body: nat, m: Message)
    requires BlockText(m) && Matches(b, body, m.text + TERM)
    ensures var end := body + |m.text|;
      FindBody(b, body, true) == Block(end, end + |TERM|) && b[body..end] == m.text
  {
    var end := body + |m.text|;
    MatchesConcat(b, body, m.text, TERM);
    MatchesSlice(b, body, m.text);
    forall k: nat | body <= k < end ensures Matches(b, k, TERM) ==> Matches(m.text + TERM, k - body, TERM) {
      if Matches(b, k, TERM) { MatchInside(b, body, m.text + TERM, k - body, TERM); }
    }
    FindAt(b, body, end, TERM);
  }

  /** A printed block that ends the buffer is read as its message. */
  lemma BlockReadsBack(level: nat, b: string, i: nat, m: Message)
    requires BlockText(m) && Matches(b, i, PrintBlock(m)) && |b| == i + |PrintBlock(m)|
    ensures var r := Scan(level, b, i, i); r.messages == [m] && r.pending == None
  {
    var h := Header(m.level, true, |Numeral(m.level)| + 3);
    BlockStands(b, i, m);
    ScanAt(level, b, i, i, h);
    BlockIs(level, b, i, h, m.text, Scan(level, b, i, i));
  }

  lemma MatchInside(b: string, at: nat, s: string, k: nat, what: string)
    requires Matches(b, at, s) && k + |what| <= |s| && Matches(b, at + k, what)
    ensures Matches(s, k, what)
  {
    forall j | 0 <= j < |what| ensures s[k + j] == what[j] {
      assert b[at + k + j] == what[j] && b[at + (k + j)] == s[k + j];
    }
  }

  lemma BlockIs(level: nat, b: string, i: nat, h: Header, text: string, r: Parsed)
    requires IsAt(r, level, b, i, i, h) && BlockAt(b, i, h, text)
    ensures r.messages == [Message(h.level, text)] && r.pending == None
  {
    ScanEnds(level, b, |b|, |b| + 1);
  }

  /**
   Parsing inverts printing: single-line messages, ended or not by one terminated block, come back in order
   with their levels and texts when they arrive in one chunk.
   */
  lemma PrintedMessagesReadBack(level: nat, ms: seq<Message>, block: Option<Message>)
    requires (forall k :: 0 <= k < |ms| ==> LineText(ms[k])) && (block.Some? ==> BlockText(block.value))
    ensures var r := ProcessChunk(level, None, PrintLines(ms) + if block.Some? then PrintBlock(block.value) else "");
      r.messages == WithLineFeeds(ms) + (if block.Some? then [block.value] else []) && r.pending == None
  {
    var tail := if block.Some? then PrintBlock(block.value) else "";
    var b := PrintLines(ms) + tail;
    var i := |PrintLines(ms)|;
    LinesReadBack(level, b, 0, ms, i);
    TailReadsBack(level, b, i, block);
  }

  lemma TailReadsBack(level: nat, b: string, i: nat, block: Option<Message>)
    requires i <= |b| && (block.Some? ==> BlockText(block.value))
    requires b[i..] == if block.Some? then PrintBlock(block.value) else ""
    ensures var r := Scan(level, b, i, i);
      r.messages == (if block.Some? then [block.value] else []) && r.pending == None
  {
    if block.Some? {
      assert Matches(b, i, b[i..]);
      BlockReadsBack(level, b, i, block.value);
    } else {
      ScanEnds(level, b, i, i);
    }
  }
}
