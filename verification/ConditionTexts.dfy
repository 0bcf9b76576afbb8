/**
 Exactly which texts are loaded as conditions, and as what: a layout is a text with its words, spaces,
 parentheses and commas, and a text is loaded exactly if it is laid out that way.
 */
module ConditionTexts {
  import opened Wrappers
  import opened Condition

  /** A word, or a word with an argument list behind `gap` spaces. */
  datatype Layout = Word(word: string) | Call(word: string, gap: nat, slots: seq<Slot>)

  /** One position of an argument list: spaces, an argument or nothing, spaces. */
  datatype Slot = Slot(before: nat, item: Option<Layout>, after: nat)

  // ---- What a layout means -------------------------------------------------------------------

  /** The words `and`, `or` and `not` make operators of their arguments, `true` and `false` are values, and any
      other word is a key; words that are not operators ignore what stands in parentheses behind them. */
  function Meaning(t: Layout): Expression
    decreases t
  {
    match t
    case Word(w) => Reading(w, [])
    case Call(w, _, slots) => Reading(w, Meanings(slots))
  }

  function Reading(w: string, args: seq<Expression>): Expression {
    match w
    case "and" => And(args)
    case "or" => Or(args)
    case "not" => Not(args)
    case "true" => Bool(true)
    case "false" => Bool(false)
    case _ => User(w)
  }

  function Meanings(slots: seq<Slot>): (r: seq<Expression>)
    ensures |r| == |slots|
    decreases slots
  {
    if slots == [] then [] else [SlotMeaning(slots[0])] + Meanings(slots[1..])
  }

  function SlotMeaning(slot: Slot): Expression
    decreases slot
  {
    match slot.item case None => Nil case Some(t) => Meaning(t)
  }

  // ---- Where a layout stands -----------------------------------------------------------------

  function Length(t: Layout): nat
    decreases t
  {
    match t
    case Word(w) => |w|
    case Call(w, gap, slots) => |w| + gap + SlotsLength(slots)
  }

  /** The length of an argument list from its opening parenthesis, or the comma in front of its rest, on. */
  function SlotsLength(slots: seq<Slot>): nat
    decreases slots
  {
    if slots == [] then 0
    else 1 + SlotLength(slots[0]) + if |slots| == 1 then 1 else SlotsLength(slots[1..])
  }

  function SlotLength(slot: Slot): nat
    decreases slot
  {
    slot.before + (match slot.item case None => 0 case Some(t) => Length(t)) + slot.after
  }

  predicate Spaces(s: string, i: nat, j: nat) {
    i <= j <= |s| && forall k :: i <= k < j ==> s[k] == ' '
  }

  /** The whole word at `i`. */
  predicate WordStands(s: string, i: nat, w: string) {
    && w != "" && i + |w| <= |s| && s[i..i + |w|] == w
    && (forall k :: 0 <= k < |w| ==>
         'a' <= w[k] <= 'z' || 'A' <= w[k] <= 'Z' || '0' <= w[k] <= '9' || w[k] == '_' || w[k] == '-')
    && (i + |w| < |s| ==> !IsWord(s[i + |w|]))
  }

  /** The layout stands in `s` at `i`. */
  predicate Stands(s: string, i: nat, t: Layout)
    decreases t
  {
    match t
    case Word(w) => WordStands(s, i, w)
    case Call(w, gap, slots) =>
      && WordStands(s, i, w) && Spaces(s, i + |w|, i + |w| + gap)
      && i + |w| + gap < |s| && s[i + |w| + gap] == '(' && SlotsStand(s, i + |w| + gap, slots)
  }

  /** The positions of an argument list stand behind the parenthesis or comma at `p`, with commas between them and
      a closing parenthesis behind the last one. */
  predicate SlotsStand(s: string, p: nat, slots: seq<Slot>)
    decreases slots
  {
    && slots != [] && SlotStands(s, p + 1, slots[0])
    && var c := p + 1 + SlotLength(slots[0]);
       && c < |s|
       && if |slots| == 1 then s[c] == ')' else s[c] == ',' && SlotsStand(s, c, slots[1..])
  }

  predicate SlotStands(s: string, i: nat, slot: Slot)
    decreases slot
  {
    && Spaces(s, i, i + slot.before)
    && match slot.item
       case None => slot.after == 0
       case Some(t) =>
         var a := i + slot.before;
         Stands(s, a, t) && Spaces(s, a + Length(t), a + Length(t) + slot.after)
  }

  /** The whole text is spaces and then the layout. */
  ghost predicate IsText(s: string, t: Layout) {
    Length(t) <= |s| && Spaces(s, 0, |s| - Length(t)) && Stands(s, |s| - Length(t), t)
  }

  // ---- Scanning ------------------------------------------------------------------------------

  lemma {:induction false} SkipsTo(s: string, i: nat, j: nat)
    requires Spaces(s, i, j) && (j < |s| ==> s[j] != ' ')
    ensures SkipSpaces(s, i) == j
    decreases j - i
  {
    if i < j { SkipsTo(s, i + 1, j); }
  }

  lemma {:induction false} EndsAt(s: string, i: nat, j: nat)
    requires i <= j <= |s| && (forall k :: i <= k < j ==> IsWord(s[k])) && (j < |s| ==> !IsWord(s[j]))
    ensures WordEnd(s, i) == j
    decreases j - i
  {
    if i < j { EndsAt(s, i + 1, j); }
  }

  lemma ReadingIsBuild(w: string, args: seq<Expression>)
    ensures Build(w, args) == Reading(w, args)
  {
  }

  lemma WordIsThere(s: string, start: nat, i: nat, w: string)
    requires Spaces(s, start, i) && WordStands(s, i, w)
    ensures Forward(s, start) == i && WordEnd(s, i) == i + |w| && s[i..i + |w|] == w
  {
    forall k | i <= k < i + |w| ensures IsWord(s[k]) { assert s[k] == s[i..i + |w|][k - i]; }
    SkipsTo(s, start, i);
    EndsAt(s, i, i + |w|);
  }

  // ---- One step of the parser ----------------------------------------------------------------

  /** What `GetOne` answers, given what the argument list behind the word is, if there is one. */
  ghost predicate OneIs(s: string, start: nat, p: Parse, list: List) {
    start <= |s| &&
    var at := Forward(s, start);
    var end := WordEnd(s, at);
    var next := Forward(s, end);
    if end == at then p == Done(Nil, at, NoError)
    else if next < |s| - 1 && s[next] == '(' then
      (match list
       case Endless => p == Loops
       case Fail(n, err) => p == Done(Nil, n, err)
       case Args(args, n) => p == Finish(s, Build(s[at..end], args), n))
    else p == Finish(s, Build(s[at..end], []), next)
  }

  lemma OneUnfolds(s: string, start: nat, list: List)
    requires start <= |s|
    requires var next := Forward(s, WordEnd(s, Forward(s, start)));
      next < |s| - 1 && s[next] == '(' ==> list == GetArgs(s, next, [])
    ensures OneIs(s, start, GetOne(s, start), list)
  {
  }

  lemma OneAlone(s: string, start: nat, next: nat)
    requires start <= |s| && next == Forward(s, WordEnd(s, Forward(s, start)))
    requires next >= |s| - 1 || s[next] != '('
    ensures OneIs(s, start, GetOne(s, start), Endless)
  {
  }

  lemma OneAtList(s: string, start: nat, next: nat, list: List)
    requires start <= |s| && next == Forward(s, WordEnd(s, Forward(s, start)))
    requires next < |s| - 1 && s[next] == '(' && list == GetArgs(s, next, [])
    ensures OneIs(s, start, GetOne(s, start), list)
  {
  }

  // ---- A laid out text is loaded -------------------------------------------------------------

  /** `p` is the expression `e`, and what it leaves up to `c` are spaces. */
  ghost predicate Found(s: string, p: Parse, e: Expression, c: nat) {
    p.Done? && p.exp == e && p.err == NoError && p.next <= c < |s| && Spaces(s, p.next, c)
  }

  ghost predicate Finds(s: string, start: nat, e: Expression, c: nat) {
    start <= |s| && Found(s, GetOne(s, start), e, c)
  }

  predicate Delimiter(c: char) {
    c == ',' || c == ')'
  }

  /** The list at `p` has these arguments and ends at `n`. */
  ghost predicate Lists(s: string, p: nat, before: seq<Expression>, all: seq<Expression>, n: nat) {
    p < |s| && p + 1 < n <= |s| && GetArgs(s, p, before) == Args(all, n)
  }

  lemma {:induction false} LayoutIsFound(s: string, start: nat, i: nat, t: Layout, c: nat)
    requires Spaces(s, start, i) && Stands(s, i, t)
    requires Spaces(s, i + Length(t), c) && c < |s| && Delimiter(s[c])
    ensures Finds(s, start, Meaning(t), c)
    decreases t, 1
  {
    match t
    case Word(w) => WordIsFound(s, start, i, w, c);
    case Call(w, gap, slots) =>
      var p := i + |w| + gap;
      SlotsAreFound(s, p, [], slots);
      assert [] + Meanings(slots) == Meanings(slots);
      CallIsFound(s, start, i, w, p, Meanings(slots), p + SlotsLength(slots));
  }

  lemma WordIsFound(s: string, start: nat, i: nat, w: string, c: nat)
    requires Spaces(s, start, i) && WordStands(s, i, w) && Spaces(s, i + |w|, c) && c < |s| && Delimiter(s[c])
    ensures Finds(s, start, Reading(w, []), c)
  {
    WordIsThere(s, start, i, w);
    SkipsTo(s, i + |w|, c);
    assert Forward(s, i + |w|) == c;
    OneAlone(s, start, c);
    WordIsOne(s, start, i, w, c, GetOne(s, start));
  }

  lemma WordIsOne(s: string, start: nat, i: nat, w: string, c: nat, p: Parse)
    requires Spaces(s, start, i) && WordStands(s, i, w) && Spaces(s, i + |w|, c) && c < |s| && Delimiter(s[c])
    requires SkipSpaces(s, i + |w|) == c && OneIs(s, start, p, Endless)
    ensures Found(s, p, Reading(w, []), c)
  {
    WordIsThere(s, start, i, w);
    ReadingIsBuild(w, []);
  }

  lemma CallIsFound(s: string, start: nat, i: nat, w: string, p: nat, args: seq<Expression>, n: nat)
    requires Spaces(s, start, i) && WordStands(s, i, w) && Spaces(s, i + |w|, p) && p < |s| && s[p] == '('
    requires Lists(s, p, [], args, n)
    ensures start <= |s| && GetOne(s, start) == Done(Reading(w, args), n, if n >= |s| then Eol else NoError)
  {
    WordIsThere(s, start, i, w);
    SkipsTo(s, i + |w|, p);
    assert Forward(s, i + |w|) == p;
    OneAtList(s, start, p, Args(args, n));
    CallIsOne(s, start, i, w, p, args, n, GetOne(s, start));
  }

  lemma CallIsOne(s: string, start: nat, i: nat, w: string, q: nat, args: seq<Expression>, n: nat, p: Parse)
    requires start <= i && i + |w| <= q < |s| - 1 && s[q] == '(' && w != "" && OneIs(s, start, p, Args(args, n))
    requires Forward(s, start) == i && WordEnd(s, i) == i + |w| && s[i..i + |w|] == w && Forward(s, i + |w|) == q
    ensures p == Done(Reading(w, args), n, if n >= |s| then Eol else NoError)
  {
    ReadingIsBuild(w, args);
  }

  lemma {:induction false} SlotIsFound(s: string, start: nat, slot: Slot, c: nat)
    requires SlotStands(s, start, slot) && c == start + SlotLength(slot) && c < |s| && Delimiter(s[c])
    ensures Finds(s, start, SlotMeaning(slot), c)
    decreases slot, 2
  {
    match slot.item
    case None => BlankIsFound(s, start, c);
    case Some(t) => LayoutIsFound(s, start, start + slot.before, t, c);
  }

  lemma {:induction false} SlotsAreFound(s: string, p: nat, before: seq<Expression>, slots: seq<Slot>)
    requires p < |s| && SlotsStand(s, p, slots)
    ensures Lists(s, p, before, before + Meanings(slots), p + SlotsLength(slots))
    decreases slots, 3
  {
    var c := p + 1 + SlotLength(slots[0]);
    var e := SlotMeaning(slots[0]);
    SlotIsFound(s, p + 1, slots[0], c);
    if |slots| > 1 {
      SlotsAreFound(s, c, before + [e], slots[1..]);
      assert before + [e] + Meanings(slots[1..]) == before + Meanings(slots);
      CommaIsFound(s, p, before, e, c, before + Meanings(slots), c + SlotsLength(slots[1..]));
    } else {
      LastMeaning(slots);
      CloseIsFound(s, p, before, e, c);
    }
  }

  lemma LastMeaning(slots: seq<Slot>)
    requires |slots| == 1
    ensures Meanings(slots) == [SlotMeaning(slots[0])]
  {
    assert slots[1..] == [];
  }

  lemma BlankIsFound(s: string, start: nat, c: nat)
    requires Spaces(s, start, c) && c < |s| && Delimiter(s[c])
    ensures Finds(s, start, Nil, c)
  {
    SkipsTo(s, start, c);
    EndsAt(s, c, c);
    OneUnfolds(s, start, Endless);
  }

  lemma CloseIsFound(s: string, p: nat, before: seq<Expression>, e: Expression, c: nat)
    requires p < |s| && Finds(s, p + 1, e, c) && s[c] == ')'
    ensures Lists(s, p, before, before + [e], c + 1)
  {
    var after := GetOne(s, p + 1).next;
    SkipsTo(s, after, c);
    OneTurn(s, p, before, e, after);
  }

  lemma CommaIsFound(s: string, p: nat, before: seq<Expression>, e: Expression, c: nat, all: seq<Expression>, n: nat)
    requires p < |s| && Finds(s, p + 1, e, c) && s[c] == ',' && Lists(s, c, before + [e], all, n)
    ensures Lists(s, p, before, all, n)
  {
    var after := GetOne(s, p + 1).next;
    SkipsTo(s, after, c);
    OneTurn(s, p, before, e, after);
  }

  /** Any layout, with whatever spaces in front of it, is loaded as what it means. */
  lemma LaidOutIsLoaded(s: string, t: Layout)
    requires IsText(s, t)
    ensures GetExpression(s) == Loaded(Meaning(t))
  {
    var i := |s| - Length(t);
    match t
    case Word(w) => WordIsLoaded(s, i, w);
    case Call(w, gap, slots) =>
      SlotsAreFound(s, i + |w| + gap, [], slots);
      assert [] + Meanings(slots) == Meanings(slots);
      CallIsLoaded(s, i, w, i + |w| + gap, Meanings(slots));
  }

  lemma CallIsLoaded(s: string, i: nat, w: string, p: nat, args: seq<Expression>)
    requires Spaces(s, 0, i) && WordStands(s, i, w) && Spaces(s, i + |w|, p) && p < |s| && s[p] == '('
    requires Lists(s, p, [], args, |s|)
    ensures GetExpression(s) == Loaded(Reading(w, args))
  {
    CallIsFound(s, 0, i, w, p, args, |s|);
    WholeIsLoaded(s, Reading(w, args));
  }

  lemma WholeIsLoaded(s: string, e: Expression)
    requires s != "" && e != Nil && GetOne(s, 0) == Done(e, |s|, Eol)
    ensures GetExpression(s) == Loaded(e)
  {
  }

  lemma WordIsLoaded(s: string, i: nat, w: string)
    requires Spaces(s, 0, i) && WordStands(s, i, w) && i + |w| == |s|
    ensures GetExpression(s) == Loaded(Reading(w, []))
  {
    WordIsThere(s, 0, i, w);
    ReadingIsBuild(w, []);
    OneUnfolds(s, 0, Endless);
  }

  // ---- What is loaded is laid out ------------------------------------------------------------

  predicate Solid(s: string) {
    s != "" && s[|s| - 1] != ' '
  }

  lemma NoSpacesToTheEnd(s: string, i: nat)
    requires Solid(s) && i < |s|
    ensures SkipSpaces(s, i) < |s| && Spaces(s, i, SkipSpaces(s, i))
  {
  }

  /** From `start` there are spaces and then the layout, behind which the parser goes on at `p.next`. */
  ghost predicate Laid(s: string, start: nat, i: nat, t: Layout, p: Parse) {
    p.Done? && Spaces(s, start, i) && Stands(s, i, t) && Meaning(t) == p.exp && Spaces(s, i + Length(t), p.next)
  }

  /** The slots stand behind `p` and are the arguments `all`, but for those before, and end at `n`. */
  ghost predicate LaidList(s: string, p: nat, slots: seq<Slot>, before: seq<Expression>, all: seq<Expression>, n: nat) {
    SlotsStand(s, p, slots) && all == before + Meanings(slots) && n == p + SlotsLength(slots)
  }

  lemma {:induction false} WhatWasRead(s: string, start: nat) returns (i: nat, t: Layout)
    requires Solid(s) && start <= |s| && GetOne(s, start).Done? && GetOne(s, start).exp != Nil
    ensures Laid(s, start, i, t, GetOne(s, start))
    decreases |s| - start, 1
  {
    i := Forward(s, start);
    var end := WordEnd(s, i);
    var p := Forward(s, end);
    if p < |s| - 1 && s[p] == '(' {
      var list := GetArgs(s, p, []);
      OneUnfolds(s, start, list);
      var slots := WhatWasListed(s, p, []);
      t := CallIsLaid(s, start, i, end, p, slots, list, GetOne(s, start));
    } else {
      OneUnfolds(s, start, Endless);
      t := WordIsLaid(s, start, i, end, GetOne(s, start));
    }
  }

  lemma WordsAreThere(s: string, start: nat, i: nat, end: nat)
    requires Solid(s) && start <= |s| && i == Forward(s, start) && end == WordEnd(s, i) && end != i
    ensures Spaces(s, start, i) && WordStands(s, i, s[i..end]) && Spaces(s, end, Forward(s, end))
  {
    if start < |s| { NoSpacesToTheEnd(s, start); }
    if end < |s| { NoSpacesToTheEnd(s, end); }
    assert forall k :: 0 <= k < |s[i..end]| ==> s[i..end][k] == s[i + k];
  }

  lemma WordIsLaid(s: string, start: nat, i: nat, end: nat, p: Parse) returns (t: Layout)
    requires Solid(s) && OneIs(s, start, p, Endless) && i == Forward(s, start) && end == WordEnd(s, i)
    requires p.Done? && p.exp != Nil
    ensures Laid(s, start, i, t, p)
  {
    WordsAreThere(s, start, i, end);
    ReadingIsBuild(s[i..end], []);
    t := Word(s[i..end]);
  }

  lemma CallIsLaid(s: string, start: nat, i: nat, end: nat, q: nat, slots: seq<Slot>, list: List, p: Parse)
    returns (t: Layout)
    requires Solid(s) && OneIs(s, start, p, list) && i == Forward(s, start) && end == WordEnd(s, i)
    requires q == Forward(s, end) && q < |s| - 1 && s[q] == '(' && p.Done? && p.exp != Nil
    requires list.Args? && list.next <= |s| && LaidList(s, q, slots, [], list.args, list.next)
    ensures Laid(s, start, i, t, p)
  {
    WordsAreThere(s, start, i, end);
    assert [] + Meanings(slots) == Meanings(slots);
    ReadingIsBuild(s[i..end], Meanings(slots));
    t := Call(s[i..end], q - end, slots);
  }

  lemma {:induction false} WhatWasListed(s: string, p: nat, before: seq<Expression>) returns (slots: seq<Slot>)
    requires Solid(s) && p < |s| && (s[p] == '(' || s[p] == ',') && GetArgs(s, p, before).Args?
    ensures var r := GetArgs(s, p, before); LaidList(s, p, slots, before, r.args, r.next)
    decreases |s| - p, 0
  {
    var one := GetOne(s, p + 1);
    var c := TurnOf(s, p, before, one);
    var slot := WhatTookASlot(s, p + 1, c);
    if s[c] == ')' {
      slots := [slot];
      LastIsLaid(s, p, c, slot, before);
    } else {
      var rest := WhatWasListed(s, c, before + [one.exp]);
      slots := [slot] + rest;
      var r := GetArgs(s, c, before + [one.exp]);
      MoreAreLaid(s, p, c, slot, rest, before, r.args, r.next);
    }
  }

  /** Without spaces at the end of the text, an argument is followed by a parenthesis or a comma. */
  lemma TurnOf(s: string, p: nat, before: seq<Expression>, one: Parse) returns (c: nat)
    requires Solid(s) && p < |s| && (s[p] == '(' || s[p] == ',')
    requires GetArgs(s, p, before).Args? && one == GetOne(s, p + 1)
    ensures one.Done? && one.err == NoError && p < one.next <= c < |s|
    ensures c == SkipSpaces(s, one.next) && Delimiter(s[c])
    ensures s[c] == ')' ==> GetArgs(s, p, before) == Args(before + [one.exp], c + 1)
    ensures s[c] == ',' ==> GetArgs(s, p, before) == GetArgs(s, c, before + [one.exp])
  {
    OneTurn(s, p, before, one.exp, one.next);
    c := SkipSpaces(s, one.next);
    NoSpacesToTheEnd(s, one.next);
  }

  lemma LastIsLaid(s: string, p: nat, c: nat, slot: Slot, before: seq<Expression>)
    requires SlotStands(s, p + 1, slot) && c == p + 1 + SlotLength(slot) && c < |s| && s[c] == ')'
    ensures LaidList(s, p, [slot], before, before + [SlotMeaning(slot)], c + 1)
  {
    LastMeaning([slot]);
  }

  lemma MoreAreLaid(s: string, p: nat, c: nat, slot: Slot, rest: seq<Slot>, before: seq<Expression>,
                    all: seq<Expression>, n: nat)
    requires SlotStands(s, p + 1, slot) && c == p + 1 + SlotLength(slot) && c < |s| && s[c] == ','
    requires LaidList(s, c, rest, before + [SlotMeaning(slot)], all, n)
    ensures LaidList(s, p, [slot] + rest, before, all, n)
  {
    var slots := [slot] + rest;
    assert slots[1..] == rest;
    assert before + [SlotMeaning(slot)] + Meanings(rest) == before + Meanings(slots);
  }

  lemma {:induction false} WhatTookASlot(s: string, start: nat, c: nat) returns (slot: Slot)
    requires Solid(s) && start <= |s| && GetOne(s, start).Done? && GetOne(s, start).err == NoError
    requires GetOne(s, start).next < |s| && c == SkipSpaces(s, GetOne(s, start).next)
    ensures SlotStands(s, start, slot) && start + SlotLength(slot) == c && SlotMeaning(slot) == GetOne(s, start).exp
    decreases |s| - start, 2
  {
    var one := GetOne(s, start);
    NoSpacesToTheEnd(s, one.next);
    if one.exp == Nil {
      slot := BlankIsLaid(s, start, c);
    } else {
      var i, t := WhatWasRead(s, start);
      slot := SlotIsLaid(s, start, i, t, one, c);
    }
  }

  lemma BlankIsLaid(s: string, start: nat, c: nat) returns (slot: Slot)
    requires Solid(s) && start <= |s| && GetOne(s, start).Done? && GetOne(s, start).err == NoError
    requires GetOne(s, start).exp == Nil && GetOne(s, start).next < |s| && c == SkipSpaces(s, GetOne(s, start).next)
    ensures SlotStands(s, start, slot) && start + SlotLength(slot) == c && SlotMeaning(slot) == Nil
  {
    NoSpacesToTheEnd(s, start);
    SkipsTo(s, Forward(s, start), Forward(s, start));
    slot := Slot(c - start, None, 0);
  }

  lemma SlotIsLaid(s: string, start: nat, i: nat, t: Layout, one: Parse, c: nat) returns (slot: Slot)
    requires Laid(s, start, i, t, one) && one.next <= c && Spaces(s, one.next, c)
    ensures SlotStands(s, start, slot) && start + SlotLength(slot) == c && SlotMeaning(slot) == one.exp
  {
    slot := Slot(i - start, Some(t), c - (i + Length(t)));
  }

  /** What is loaded does not end in a space. */
  lemma LoadedIsSolid(s: string)
    requires s != "" && GetExpression(s).Loaded?
    ensures Solid(s)
  {
    WhatWasLoaded(s);
    var list := OneWithList(s, 0);
    EndIsSolid(s, GetOne(s, 0), list);
  }

  lemma WhatWasLoaded(s: string)
    requires s != "" && GetExpression(s).Loaded?
    ensures var p := GetOne(s, 0); p.Done? && p.exp != Nil && p.err == Eol && p.exp == GetExpression(s).exp
  {
  }

  lemma OneWithList(s: string, start: nat) returns (list: List)
    requires start <= |s|
    ensures OneIs(s, start, GetOne(s, start), list)
    ensures list.Args? ==> 0 < list.next <= |s| && s[list.next - 1] == ')'
  {
    var next := Forward(s, WordEnd(s, Forward(s, start)));
    if next < |s| - 1 && s[next] == '(' {
      list := ListBehind(s, next);
      OneUnfolds(s, start, list);
    } else {
      list := Endless;
      OneUnfolds(s, start, list);
    }
  }

  lemma ListBehind(s: string, next: nat) returns (list: List)
    requires next < |s|
    ensures list == GetArgs(s, next, []) && (list.Args? ==> 0 < list.next <= |s| && s[list.next - 1] == ')')
  {
    list := GetArgs(s, next, []);
    if list.Args? { ListEndsInParenthesis(s, next, []); }
  }

  lemma EndIsSolid(s: string, p: Parse, list: List)
    requires s != "" && OneIs(s, 0, p, list) && p.Done? && p.exp != Nil && p.err == Eol
    requires list.Args? ==> 0 < list.next <= |s| && s[list.next - 1] == ')'
    ensures Solid(s)
  {
  }

  lemma {:induction false} ListEndsInParenthesis(s: string, p: nat, before: seq<Expression>)
    requires p < |s| && GetArgs(s, p, before).Args?
    ensures var n := GetArgs(s, p, before).next; 0 < n <= |s| && s[n - 1] == ')'
    decreases |s| - p
  {
    var one := GetOne(s, p + 1);
    OneTurn(s, p, before, one.exp, one.next);
    TurnCloses(s, p, one.next);
    var turn := TurnAt(s, p, one.next);
    if turn.Comma? { ListEndsInParenthesis(s, turn.next, before + [one.exp]); }
  }

  lemma TurnCloses(s: string, next: nat, after: nat)
    requires next < after <= |s|
    ensures var t := TurnAt(s, next, after); t.Close? ==> 0 < t.next && s[t.next - 1] == ')'
  {
  }

  /** The empty text is true; any other text is loaded as a condition exactly if it consists of spaces and a
      layout that means the condition. */
  lemma LoadedIff(s: string, e: Expression)
    ensures GetExpression(s) == Loaded(e) <==>
      if s == "" then e == Bool(true) else exists t :: IsText(s, t) && Meaning(t) == e
  {
    if s != "" {
      if GetExpression(s) == Loaded(e) { var t := LoadedIsLaidOut(s); }
      if t :| IsText(s, t) && Meaning(t) == e { LaidOutIsLoaded(s, t); }
    }
  }

  lemma LoadedIsLaidOut(s: string) returns (t: Layout)
    requires s != "" && GetExpression(s).Loaded?
    ensures IsText(s, t) && GetExpression(s) == Loaded(Meaning(t))
  {
    LoadedIsSolid(s);
    var i: nat;
    i, t := WhatWasRead(s, 0);
    assert i + Length(t) == |s| by { assert s[|s| - 1] != ' '; }
  }

  /** A text that is refused is reported as garbage from a position inside it on, or as one that ended early. */
  lemma RefusedWhere(s: string)
    requires GetExpression(s).Refused?
    ensures match GetExpression(s).why
            case Garbage(at) => at < |s|
            case Syntax(at, err) => at == |s| && err == Eol
  {
    ErrorsWhere(s, 0);
  }

  /** Only the end of the text is an error at the end of the text. */
  lemma {:induction false} ErrorsWhere(s: string, start: nat)
    requires start <= |s|
    ensures var p := GetOne(s, start); p.Done? && p.err != NoError ==> (p.next == |s| <==> p.err == Eol)
    ensures var p := GetOne(s, start); p.Done? && p.err == NoError && start < |s| ==> p.next < |s|
    decreases |s| - start, 1
  {
    var end := WordEnd(s, Forward(s, start));
    var next := Forward(s, end);
    if next < |s| - 1 && s[next] == '(' {
      OneUnfolds(s, start, GetArgs(s, next, []));
      ListErrorsWhere(s, next, []);
    } else {
      OneUnfolds(s, start, Endless);
    }
  }

  lemma {:induction false} ListErrorsWhere(s: string, p: nat, before: seq<Expression>)
    requires p < |s|
    ensures var r := GetArgs(s, p, before); r.Fail? ==> (r.next == |s| <==> r.err == Eol)
    decreases |s| - p, 0
  {
    ErrorsWhere(s, p + 1);
    var one := GetOne(s, p + 1);
    if one.Done? && one.err == NoError {
      OneTurn(s, p, before, one.exp, one.next);
      var turn := TurnAt(s, p, one.next);
      if turn.Comma? { ListErrorsWhere(s, turn.next, before + [one.exp]); }
    }
  }

  /** Anything behind the closing parenthesis of a whole condition is garbage, spaces included. */
  lemma GarbageBehindList(s: string, i: nat, w: string, gap: nat, slots: seq<Slot>)
    requires Spaces(s, 0, i) && Stands(s, i, Call(w, gap, slots)) && i + Length(Call(w, gap, slots)) < |s|
    ensures GetExpression(s) == Refused(Garbage(i + Length(Call(w, gap, slots))))
  {
    SlotsAreFound(s, i + |w| + gap, [], slots);
    GarbageBehindCall(s, i, w, i + |w| + gap, [] + Meanings(slots), i + |w| + gap + SlotsLength(slots));
  }

  lemma GarbageBehindCall(s: string, i: nat, w: string, p: nat, args: seq<Expression>, n: nat)
    requires Spaces(s, 0, i) && WordStands(s, i, w) && Spaces(s, i + |w|, p) && p < |s| && s[p] == '('
    requires Lists(s, p, [], args, n) && n < |s|
    ensures GetExpression(s) == Refused(Garbage(n))
  {
    CallIsFound(s, 0, i, w, p, args, n);
    StopsShort(s, Reading(w, args), n);
  }

  /** Behind a word it is garbage from the next character on that is no space. */
  lemma GarbageBehindWord(s: string, i: nat, w: string, c: nat)
    requires Spaces(s, 0, i) && WordStands(s, i, w) && Spaces(s, i + |w|, c) && c < |s| && s[c] != ' ' && s[c] != '('
    ensures GetExpression(s) == Refused(Garbage(c))
  {
    WordReadsTo(s, i, w, c);
    StopsShort(s, Build(w, []), c);
  }

  lemma WordReadsTo(s: string, i: nat, w: string, c: nat)
    requires Spaces(s, 0, i) && WordStands(s, i, w) && Spaces(s, i + |w|, c) && c < |s| && s[c] != ' ' && s[c] != '('
    ensures GetOne(s, 0) == Done(Build(w, []), c, NoError)
  {
    WordPositions(s, i, w, c);
    OneAlone(s, 0, c);
    WordStopsAt(s, i, w, c, GetOne(s, 0));
  }

  lemma WordPositions(s: string, i: nat, w: string, c: nat)
    requires Spaces(s, 0, i) && WordStands(s, i, w) && Spaces(s, i + |w|, c) && c < |s| && s[c] != ' '
    ensures Forward(s, 0) == i && WordEnd(s, i) == i + |w| && s[i..i + |w|] == w && Forward(s, i + |w|) == c
  {
    WordIsThere(s, 0, i, w);
    SkipsTo(s, i + |w|, c);
  }

  lemma WordStopsAt(s: string, i: nat, w: string, c: nat, p: Parse)
    requires OneIs(s, 0, p, Endless) && w != "" && c < |s| && s[c] != '('
    requires Forward(s, 0) == i && WordEnd(s, i) == i + |w| && s[i..i + |w|] == w && Forward(s, i + |w|) == c
    ensures p == Done(Build(w, []), c, NoError)
  {
  }

  lemma StopsShort(s: string, e: Expression, at: nat)
    requires s != "" && at < |s| && GetOne(s, 0) == Done(e, at, NoError)
    ensures GetExpression(s) == Refused(Garbage(at))
  {
  }
}
