/**
 A block that is left open by one chunk: what ends it in a later one, and what the parser misses.
 */
module StreamBlocks {
  import opened Wrappers
  import opened Text
  import opened Stream
  import opened StreamTheorems
  import opened StreamRoundTrip
  import StreamFraming

  /** What ends an open block in the next chunk: a whole terminator in the chunk, or the collected text ending
      in a line feed and the chunk beginning with the rest of a terminator. */
  ghost predicate Ends(text: string, chunk: string) {
    (StreamFraming.EndsInLineFeed(text) && CLOSING <= chunk) || exists k: nat :: Matches(chunk, k, TERM)
  }

  /** No chunk ends the block that has collected `text` before the first of them. */
  ghost predicate NeverEnds(text: string, chunks: seq<string>)
    decreases |chunks|
  {
    chunks == [] || (!Ends(text, chunks[0]) && NeverEnds(text + chunks[0], chunks[1..]))
  }

  lemma FindIff(b: string, what: string)
    ensures Find(b, 0, what).Some? <==> exists k: nat :: Matches(b, k, what)
  {
    FindFirst(b, 0, what);
  }

  /** While nothing ends it a block only collects, and says nothing; what ends it makes a message of it. */
  lemma {:induction false} StaysOpenIff(level: nat, p: Pending, chunks: seq<string>)
    ensures NeverEnds(p.text, chunks) ==>
      ProcessChunks(level, Some(p), chunks) == Parsed([], [], Some(Pending(p.level, p.text + Joined(chunks))))
    ensures !NeverEnds(p.text, chunks) ==> ProcessChunks(level, Some(p), chunks).messages != []
    decreases |chunks|
  {
    if chunks == [] {
      assert p.text + "" == p.text;
    } else {
      FindIff(chunks[0], TERM);
      var first := ProcessChunk(level, Some(p), chunks[0]);
      if !Ends(p.text, chunks[0]) {
        var q := Pending(p.level, p.text + chunks[0]);
        assert first == Parsed([], [], Some(q));
        StaysOpenIff(level, q, chunks[1..]);
        Associative(p.text, chunks[0], Joined(chunks[1..]));
      }
    }
  }

  lemma {:induction false} ChunksConcat(level: nat, pending: Option<Pending>, a: seq<string>, b: seq<string>)
    ensures var first := ProcessChunks(level, pending, a);
      var rest := ProcessChunks(level, first.pending, b);
      ProcessChunks(level, pending, a + b) ==
      Parsed(first.pieces + rest.pieces, first.messages + rest.messages, rest.pending)
    decreases |a|
  {
    if a == [] {
      assert a + b == b;
    } else {
      assert (a + b)[1..] == a[1..] + b;
      var one := ProcessChunk(level, pending, a[0]);
      ChunksConcat(level, one.pending, a[1..], b);
      var more := ProcessChunks(level, one.pending, a[1..]);
      var rest := ProcessChunks(level, more.pending, b);
      Associative(one.pieces, more.pieces, rest.pieces);
      Associative(one.messages, more.messages, rest.messages);
    }
  }

  /**
   A block opened before, not ended by the chunks `middle`, and ended in the chunk `last` by its first
   terminator at `n`: one message, whose text is all that came between, and then the rest of that chunk.
   */
  lemma BlockAcrossChunks(level: nat, p: Pending, middle: seq<string>, last: string, n: nat)
    requires NeverEnds(p.text, middle)
    requires Matches(last, n, TERM) && forall k: nat :: k < n ==> !Matches(last, k, TERM)
    requires !(StreamFraming.EndsInLineFeed(p.text + Joined(middle)) && CLOSING <= last)
    ensures var r := ProcessChunks(level, Some(p), middle + [last]);
      var rest := ProcessChunk(level, None, last[n + |TERM|..]);
      && r.messages == [Message(p.level, p.text + Joined(middle) + last[..n])] + rest.messages
      && r.pending == rest.pending
  {
    var q := Pending(p.level, p.text + Joined(middle));
    StaysOpenIff(level, p, middle);
    EndedInChunk(level, q, last, n);
    AfterMiddle(level, p, middle, last, q);
  }

  lemma EndedInChunk(level: nat, q: Pending, last: string, n: nat)
    requires Matches(last, n, TERM) && forall k: nat :: k < n ==> !Matches(last, k, TERM)
    requires !(StreamFraming.EndsInLineFeed(q.text) && CLOSING <= last)
    ensures var r := ProcessChunk(level, Some(q), last);
      var rest := ProcessChunk(level, None, last[n + |TERM|..]);
      r.messages == [Message(q.level, q.text + last[..n])] + rest.messages && r.pending == rest.pending
  {
    FindFirst(last, 0, TERM);
  }

  /** Chunks that only collect, and then one more. */
  lemma AfterMiddle(level: nat, p: Pending, middle: seq<string>, last: string, q: Pending)
    requires ProcessChunks(level, Some(p), middle) == Parsed([], [], Some(q))
    ensures var r, s := ProcessChunks(level, Some(p), middle + [last]), ProcessChunk(level, Some(q), last);
      r.messages == s.messages && r.pending == s.pending
  {
    ChunksConcat(level, Some(p), middle, [last]);
    OneChunk(level, Some(q), last);
  }

  /** The same when the terminator's line feed was the last thing collected. */
  lemma BlockEndedByClosing(level: nat, p: Pending, middle: seq<string>, last: string)
    requires NeverEnds(p.text, middle)
    requires StreamFraming.EndsInLineFeed(p.text + Joined(middle)) && CLOSING <= last
    ensures var r := ProcessChunks(level, Some(p), middle + [last]);
      var rest := ProcessChunk(level, None, last[|CLOSING|..]);
      && r.messages == [Message(p.level, p.text + Joined(middle))] + rest.messages
      && r.pending == rest.pending
  {
    var q := Pending(p.level, p.text + Joined(middle));
    StaysOpenIff(level, p, middle);
    AfterMiddle(level, p, middle, last, q);
    assert q.text + "" == q.text;
  }

  lemma OneChunk(level: nat, pending: Option<Pending>, chunk: string)
    ensures var r := ProcessChunk(level, pending, chunk);
      var s := ProcessChunks(level, pending, [chunk]);
      s.pieces == r.pieces && s.messages == r.messages && s.pending == r.pending
  {
    assert [chunk][1..] == [];
    assert ProcessChunks(level, ProcessChunk(level, pending, chunk).pending, []).messages == [];
  }

  // ---- The chunk that opens a block ----------------------------------------------------------

  /** The header of a block with the first part of its text, and no terminator. */
  function PrintOpening(p: Pending): string {
    Numeral(p.level) + (":::" + p.text)
  }

  predicate OpenText(p: Pending) {
    p.level <= MAX_LEVEL && forall k: nat :: k < |p.text| ==> !Matches(p.text, k, TERM)
  }

  /** At `i`, header `h` leads to a block that the buffer leaves open. */
  ghost predicate OpenAt(b: string, i: nat, h: Header, text: string) {
    && i < i + h.length <= |b| && MatchHeader(b, i) == Some(h)
    && FindBody(b, i + h.length, h.multiline) == Open(|b|) && b[i + h.length..] == text
  }

  lemma NotEnded(b: string, body: nat, text: string)
    requires Matches(b, body, text) && |b| == body + |text|
    requires forall k: nat :: k < |text| ==> !Matches(text, k, TERM)
    ensures FindBody(b, body, true) == Open(|b|) && b[body..] == text
  {
    FindFirst(b, body, TERM);
    var found := Find(b, body, TERM);
    if found.Some? { MatchInside(b, body, text, found.value - body, TERM); }
  }

  lemma OpeningStands(b: string, i: nat, p: Pending)
    requires OpenText(p) && Matches(b, i, PrintOpening(p)) && |b| == i + |PrintOpening(p)|
    ensures OpenAt(b, i, Header(p.level, true, |Numeral(p.level)| + 3), p.text)
  {
    MatchesThree(b, i, Numeral(p.level), ":::", p.text);
    BlockHeader(b, i, p.level);
    NotEnded(b, i + |Numeral(p.level)| + 3, p.text);
  }

  lemma OpenIs(level: nat, b: string, i: nat, h: Header, text: string, r: Parsed)
    requires IsAt(r, level, b, i, i, h) && OpenAt(b, i, h, text)
    ensures r.messages == [] && r.pending == Some(Pending(h.level, text))
  {
    var f, rest := JointOf(r, level, b, i, i, h);
    OpenJoint(level, b, i, h, text, rest, r);
  }

  lemma OpenJoint(level: nat, b: string, i: nat, h: Header, text: string, rest: Parsed, r: Parsed)
    requires JointAt(r, level, b, i, i, h, Open(|b|), rest) && b[i + h.length..] == text
    ensures r.messages == [] && r.pending == Some(Pending(h.level, text))
  {
    var body := i + h.length;
    assert b[i..i] == "" && b[body..|b|] == text;
  }

  lemma OpeningReadsBack(level: nat, b: string, i: nat, p: Pending)
    requires OpenText(p) && Matches(b, i, PrintOpening(p)) && |b| == i + |PrintOpening(p)|
    ensures var r := Scan(level, b, i, i); r.messages == [] && r.pending == Some(p)
  {
    var h := Header(p.level, true, |Numeral(p.level)| + 3);
    OpeningStands(b, i, p);
    ScanAt(level, b, i, i, h);
    OpenIs(level, b, i, h, p.text, Scan(level, b, i, i));
  }

  /** Printed lines and then the header of a block whose terminator is not there yet. */
  lemma OpeningChunk(level: nat, ms: seq<Message>, p: Pending)
    requires (forall k :: 0 <= k < |ms| ==> LineText(ms[k])) && OpenText(p)
    ensures var r := ProcessChunk(level, None, PrintLines(ms) + PrintOpening(p));
      r.messages == WithLineFeeds(ms) && r.pending == Some(p)
  {
    var b, i := PrintLines(ms) + PrintOpening(p), |PrintLines(ms)|;
    MatchesParts(PrintLines(ms), PrintOpening(p));
    LinesReadBack(level, b, 0, ms, i);
    OpeningReadsBack(level, b, i, p);
    ThenOpen(Scan(level, b, 0, 0), WithLineFeeds(ms), Scan(level, b, i, i), p);
  }

  lemma MatchesParts(s: string, t: string)
    ensures Matches(s + t, 0, s) && Matches(s + t, |s|, t)
  {
  }

  lemma ThenOpen(r: Parsed, ms: seq<Message>, mid: Parsed, p: Pending)
    requires Then(r, ms, mid) && mid.messages == [] && mid.pending == Some(p)
    ensures r.messages == ms && r.pending == Some(p)
  {
  }

  /**
   A block from its header to its end: printed lines and the header in one chunk, text in any number of chunks
   that do not end it, and the terminator in a last one. The lines come out as they are, then one message with
   all the text of the block, and then what the rest of the last chunk holds.
   */
  lemma PrintedBlockAcrossChunks(level: nat, ms: seq<Message>, p: Pending, middle: seq<string>, last: string, n: nat)
    requires (forall k :: 0 <= k < |ms| ==> LineText(ms[k])) && OpenText(p) && NeverEnds(p.text, middle)
    requires Matches(last, n, TERM) && forall k: nat :: k < n ==> !Matches(last, k, TERM)
    requires !(StreamFraming.EndsInLineFeed(p.text + Joined(middle)) && CLOSING <= last)
    ensures var r := ProcessChunks(level, None, [PrintLines(ms) + PrintOpening(p)] + (middle + [last]));
      var rest := ProcessChunk(level, None, last[n + |TERM|..]);
      && r.messages == WithLineFeeds(ms) + ([Message(p.level, p.text + Joined(middle) + last[..n])] + rest.messages)
      && r.pending == rest.pending
  {
    var first := PrintLines(ms) + PrintOpening(p);
    OpeningChunk(level, ms, p);
    OneChunk(level, None, first);
    ChunksConcat(level, None, [first], middle + [last]);
    BlockAcrossChunks(level, p, middle, last, n);
  }

  // ---- What the parser misses ----------------------------------------------------------------

  /** A terminator cut between its colons by the end of a chunk is not seen: the block stays open. */
  lemma CutTerminatorIsMissed(level: nat)
    ensures ProcessChunks(level, Some(Pending(1, "a")), ["\n::", ":\n"]) ==
            Parsed([], [], Some(Pending(1, "a" + ("\n::" + (":\n" + "")))))
    ensures "a" + ("\n::" + (":\n" + "")) == "a" + TERM
  {
    var chunks := ["\n::", ":\n"];
    assert chunks[1..] == [":\n"] && [":\n"][1..] == [];
    assert NeverEnds("a", chunks) by {
      forall k: nat ensures !Matches("\n::", k, TERM) && !Matches(":\n", k, TERM) { }
      assert !Ends("a", "\n::");
      assert !Ends("a" + "\n::", ":\n");
      assert NeverEnds("a" + "\n::" + ":\n", []);
      assert NeverEnds("a" + "\n::", [":\n"]);
    }
    StaysOpenIff(level, Pending(1, "a"), chunks);
    assert Joined([":\n"]) == ":\n" + "";
    assert Joined(chunks) == "\n::" + (":\n" + "");
  }

  /** The first message is of this level and begins with this character. */
  ghost predicate Leads(r: Parsed, level: nat, c: char) {
    r.messages != [] && r.messages[0].level == level && r.messages[0].text != "" && r.messages[0].text[0] == c
  }

  ghost predicate ScanLeads(level: nat, buffer: string, start: nat, i: nat) {
    start < i && start < |buffer| && Leads(Scan(level, buffer, start, i), level, buffer[start])
  }

  /**
   Text right after a terminated block in the same chunk is emitted at the stream's own level, whatever it
   is: scanning goes on one character late, so no header is found where the block ended.
   */
  lemma {:induction false} TextAfterBlockIsPlain(level: nat, buffer: string, start: nat, i: nat)
    requires start < i && start < |buffer|
    ensures ScanLeads(level, buffer, start, i)
    decreases if i > |buffer| then 0 else |buffer| - i + 1
  {
    if i < |buffer| && MatchHeader(buffer, i) == None {
      TextAfterBlockIsPlain(level, buffer, start, i + NewLineOrEOF(buffer, i) + 1);
    }
    StepLeads(level, buffer, start, i);
  }

  lemma StepLeads(level: nat, buffer: string, start: nat, i: nat)
    requires start < i && start < |buffer|
    requires i < |buffer| && MatchHeader(buffer, i) == None ==>
      ScanLeads(level, buffer, start, i + NewLineOrEOF(buffer, i) + 1)
    ensures ScanLeads(level, buffer, start, i)
  {
    if i >= |buffer| {
      EndLeads(level, buffer, start, i);
    } else if MatchHeader(buffer, i) == None {
      SkipLeads(level, buffer, start, i);
    } else {
      HeaderLeads(level, buffer, start, i, MatchHeader(buffer, i).value);
    }
  }

  lemma SkipLeads(level: nat, buffer: string, start: nat, i: nat)
    requires start < i < |buffer| && MatchHeader(buffer, i).None?
    requires ScanLeads(level, buffer, start, i + NewLineOrEOF(buffer, i) + 1)
    ensures ScanLeads(level, buffer, start, i)
  {
    ScanSkips(level, buffer, start, i);
  }

  lemma EndLeads(level: nat, buffer: string, start: nat, i: nat)
    requires start < i && start < |buffer| <= i
    ensures ScanLeads(level, buffer, start, i)
  {
    ScanEnds(level, buffer, start, i);
  }

  lemma HeaderLeads(level: nat, buffer: string, start: nat, i: nat, h: Header)
    requires start < i < |buffer| && MatchHeader(buffer, i) == Some(h)
    ensures ScanLeads(level, buffer, start, i)
  {
    ScanAt(level, buffer, start, i, h);
    TextBeforeHeader(level, buffer, start, i, h, Scan(level, buffer, start, i));
  }

  lemma TextBeforeHeader(level: nat, buffer: string, start: nat, i: nat, h: Header, r: Parsed)
    requires start < i && start < |buffer| && IsAt(r, level, buffer, start, i, h)
    ensures Leads(r, level, buffer[start])
  {
    assert buffer[start..i] != "" && buffer[start..i][0] == buffer[start];
  }
}
