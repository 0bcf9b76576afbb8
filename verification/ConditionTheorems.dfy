/**
 What the condition parser and the evaluation are for: conditions mean what they say, printed conditions are
 read back, and exactly when the parser does not return.
 */
module ConditionTheorems {
  import opened Wrappers
  import opened Text
  import opened Condition

  // ---- Evaluation ----------------------------------------------------------------------------

  /** No argument position was left empty. */
  predicate Filled(e: Expression) {
    match e
    case Nil => false
    case And(args) => forall k :: 0 <= k < |args| ==> Filled(args[k])
    case Or(args) => forall k :: 0 <= k < |args| ==> Filled(args[k])
    case Not(args) => forall k :: 0 <= k < |args| ==> Filled(args[k])
    case _ => true
  }

  /** A condition without empty positions evaluates, to what it means. */
  lemma {:induction false} ExamineIsMeaning(e: Expression, keys: set<string>)
    requires Filled(e)
    ensures Examine(e, keys) == Some(Holds(e, keys))
    decreases e, 0
  {
    match e
    case And(args) => UntilIsMeaning(args, keys, false);
    case Or(args) => UntilIsMeaning(args, keys, true);
    case Not(args) => if |args| == 1 { ExamineIsMeaning(args[0], keys); }
    case _ =>
  }

  lemma {:induction false} UntilIsMeaning(args: seq<Expression>, keys: set<string>, stop: bool)
    requires forall k :: 0 <= k < |args| ==> Filled(args[k])
    ensures ExamineUntil(args, keys, stop) ==
            Some(if exists k :: 0 <= k < |args| && Holds(args[k], keys) == stop then stop else !stop)
    decreases args, 1
  {
    if args != [] {
      ExamineIsMeaning(args[0], keys);
      UntilIsMeaning(args[1..], keys, stop);
      assert forall k :: 0 <= k < |args[1..]| ==> args[1..][k] == args[k + 1];
      assert forall k :: 0 < k < |args| ==> args[k] == args[1..][k - 1];
    }
  }

  // ---- Parsing inverts printing --------------------------------------------------------------

  predicate Reserved(w: string) {
    w == "true" || w == "false" || w == "and" || w == "or" || w == "not"
  }

  predicate Plain(w: string) {
    w != "" && forall k :: 0 <= k < |w| ==> IsWord(w[k])
  }

  /** Words are ones that the parser takes for keys, and no position is empty. */
  predicate WellFormed(e: Expression) {
    match e
    case Nil => false
    case Bool(_) => true
    case And(args) => forall k :: 0 <= k < |args| ==> WellFormed(args[k])
    case Or(args) => forall k :: 0 <= k < |args| ==> WellFormed(args[k])
    case Not(args) => forall k :: 0 <= k < |args| ==> WellFormed(args[k])
    case User(w) => Plain(w) && !Reserved(w)
  }

  function Word(e: Expression): (w: string)
    requires !e.Nil?
  {
    match e
    case Bool(b) => if b then "true" else "false"
    case And(_) => "and"
    case Or(_) => "or"
    case Not(_) => "not"
    case User(w) => w
  }

  function Arguments(e: Expression): seq<Expression> {
    match e
    case And(args) => args
    case Or(args) => args
    case Not(args) => args
    case _ => []
  }

  /** The canonical text: `and(a, b)`. */
  function Print(e: Expression): string
    requires WellFormed(e)
    decreases e, 0
  {
    match e
    case And(args) => "and" + PrintArgs(args)
    case Or(args) => "or" + PrintArgs(args)
    case Not(args) => "not" + PrintArgs(args)
    case Bool(b) => if b then "true" else "false"
    case User(w) => w
  }

  function PrintArgs(args: seq<Expression>): string
    requires forall k :: 0 <= k < |args| ==> WellFormed(args[k])
    decreases args, 1
  {
    if args == [] then "" else "(" + PrintList(args)
  }

  /** A nonempty argument list with its closing parenthesis. */
  function PrintList(args: seq<Expression>): string
    requires args != [] && forall k :: 0 <= k < |args| ==> WellFormed(args[k])
    decreases args, 0
  {
    if |args| == 1 then Print(args[0]) + ")"
    else Print(args[0]) + (", " + PrintList(args[1..]))
  }

  /** What may follow an expression: the end, a comma or a closing parenthesis. */
  predicate Delimited(s: string, at: nat) {
    at == |s| || (at < |s| && (s[at] == ',' || s[at] == ')'))
  }

  lemma {:induction false} WordStops(s: string, at: nat, end: nat)
    requires at <= end <= |s| && (forall k :: at <= k < end ==> IsWord(s[k])) && (end < |s| ==> !IsWord(s[end]))
    ensures WordEnd(s, at) == end
    decreases end - at
  {
    if at < end {
      WordStops(s, at + 1, end);
    }
  }

  /** A word is read as a word, wherever it stands. */
  lemma WordAt(s: string, at: nat, w: string)
    requires Plain(w) && Matches(s, at, w) && (at + |w| < |s| ==> !IsWord(s[at + |w|]))
    ensures Forward(s, at) == at && WordEnd(s, at) == at + |w| && s[at..at + |w|] == w
  {
    forall k | at <= k < at + |w| ensures IsWord(s[k]) {
      assert s[at + (k - at)] == w[k - at];
    }
    WordStops(s, at, at + |w|);
  }

  /** The result of `getOne` when `e` ends at `end`. */
  function Read(s: string, e: Expression, end: nat): Parse {
    Done(e, end, if end >= |s| then Eol else NoError)
  }

  ghost predicate Reads(s: string, at: nat, e: Expression, end: nat) {
    at <= |s| && GetOne(s, at) == Read(s, e, end)
  }

  ghost predicate Within(args: seq<Expression>, whole: Expression) {
    forall k :: 0 <= k < |args| ==> WellFormed(args[k]) && args[k] < whole
  }

  lemma PlainWord(e: Expression)
    requires WellFormed(e)
    ensures Plain(Word(e)) && Build(Word(e), Arguments(e)) == e
    ensures Print(e) == Word(e) + PrintArgs(Arguments(e))
    ensures Within(Arguments(e), e)
  {
    match e
    case User(w) =>
      assert w + "" == w;
    case Bool(_) =>
    case And(args) =>
    case Or(args) =>
    case Not(args) =>
  }

  lemma PrintedIsNotEmpty(e: Expression)
    requires WellFormed(e)
    ensures Print(e) != "" && IsWord(Print(e)[0])
  {
    PlainWord(e);
  }

  /** Leading spaces do not matter to `getOne`. */
  lemma SpacesAreSkipped(s: string, start: nat, at: nat, p: Parse)
    requires start <= at < |s| && Forward(s, start) == at && Forward(s, at) == at && GetOne(s, at) == p
    ensures GetOne(s, start) == p
  {
  }

  /** `getOne` at a word without a list behind it, and at one with a list. */
  lemma WordAlone(s: string, at: nat, w: string)
    requires Plain(w) && Matches(s, at, w) && Delimited(s, at + |w|)
    ensures Reads(s, at, Build(w, []), at + |w|)
  {
    WordAt(s, at, w);
    assert Forward(s, at + |w|) == at + |w|;
  }

  lemma WordWithList(s: string, at: nat, w: string, args: seq<Expression>, next: nat)
    requires Plain(w) && Matches(s, at, w) && at + |w| < |s| - 1 && s[at + |w|] == '('
    requires Collects(s, at + |w|, [], args, next)
    ensures Reads(s, at, Build(w, args), next)
  {
    WordAt(s, at, w);
    assert Forward(s, at + |w|) == at + |w|;
  }

  /** The list whose next argument stands behind `next` collects `all` and ends at `last`. */
  ghost predicate Collects(s: string, next: nat, before: seq<Expression>, all: seq<Expression>, last: nat) {
    next < |s| && GetArgs(s, next, before) == Args(all, last)
  }

  /** The argument behind `next` is `e`, and it ends at `end`. */
  ghost predicate Argument(s: string, next: nat, e: Expression, end: nat) {
    next < end < |s| && GetOne(s, next + 1) == Done(e, end, NoError)
  }

  lemma ArgThenClose(s: string, next: nat, before: seq<Expression>, e: Expression, end: nat)
    requires Argument(s, next, e, end) && s[end] == ')'
    ensures Collects(s, next, before, before + [e], end + 1)
  {
    assert SkipSpaces(s, end) == end;
  }

  lemma ArgThenComma(s: string, next: nat, before: seq<Expression>, e: Expression, end: nat, all: seq<Expression>,
                     last: nat)
    requires Argument(s, next, e, end) && s[end] == ',' && Collects(s, end, before + [e], all, last)
    ensures Collects(s, next, before, all, last)
  {
    assert SkipSpaces(s, end) == end;
  }

  /** A printed argument list stands at `at`, its closing parenthesis in front of `last`. */
  ghost predicate ListAt(s: string, at: nat, args: seq<Expression>, last: nat)
    requires forall k :: 0 <= k < |args| ==> WellFormed(args[k])
    decreases |args|
  {
    && args != [] && Matches(s, at, Print(args[0]))
    && var end := at + |Print(args[0])|;
       if |args| == 1 then end < |s| && s[end] == ')' && last == end + 1
       else end + 1 < |s| && s[end] == ',' && s[end + 1] == ' ' && ListAt(s, end + 2, args[1..], last)
  }

  lemma {:induction false} ListStands(s: string, at: nat, args: seq<Expression>)
    requires args != [] && (forall k :: 0 <= k < |args| ==> WellFormed(args[k])) && Matches(s, at, PrintList(args))
    ensures ListAt(s, at, args, at + |PrintList(args)|)
    decreases |args|
  {
    var end := at + |Print(args[0])|;
    if |args| == 1 {
      MatchesConcat(s, at, Print(args[0]), ")");
      assert s[end] == ")"[0];
    } else {
      var rest := PrintList(args[1..]);
      MatchesConcat(s, at, Print(args[0]), ", " + rest);
      MatchesConcat(s, end, ", ", rest);
      assert s[end] == ", "[0] && s[end + 1] == ", "[1];
      ListStands(s, end + 2, args[1..]);
    }
  }

  /** Where the parts of a printed expression stand. */
  lemma Parts(s: string, at: nat, e: Expression)
    requires WellFormed(e) && Matches(s, at, Print(e))
    ensures Matches(s, at, Word(e)) && Within(Arguments(e), e)
    ensures var end := at + |Word(e)|;
      if Arguments(e) == [] then at + |Print(e)| == end
      else end + 1 < |s| && s[end] == '(' && ListAt(s, end + 1, Arguments(e), at + |Print(e)|)
  {
    var args := Arguments(e);
    PlainWord(e);
    MatchesConcat(s, at, Word(e), PrintArgs(args));
    if args != [] {
      MatchesConcat(s, at + |Word(e)|, "(", PrintList(args));
      assert s[at + |Word(e)|] == "("[0];
      ListStands(s, at + |Word(e)| + 1, args);
    }
  }

  /** At any offset, with any suffix that is empty or begins with a comma or a parenthesis. */
  lemma {:induction false} ReadsBack(s: string, at: nat, e: Expression)
    requires WellFormed(e) && Matches(s, at, Print(e)) && Delimited(s, at + |Print(e)|)
    ensures Reads(s, at, e, at + |Print(e)|)
    decreases e, 2, 0, 0
  {
    PlainWord(e);
    Parts(s, at, e);
    OneReadsBack(s, at, e, Word(e), Arguments(e), at + |Print(e)|);
  }

  lemma {:induction false} OneReadsBack(s: string, at: nat, e: Expression, w: string, args: seq<Expression>, next: nat)
    requires Plain(w) && Matches(s, at, w) && Build(w, args) == e && Delimited(s, next) && Within(args, e)
    requires var end := at + |w|;
      if args == [] then next == end else end + 1 < |s| && s[end] == '(' && ListAt(s, end + 1, args, next)
    ensures Reads(s, at, e, next)
    decreases e, 1, 0, 0
  {
    if args == [] {
      WordAlone(s, at, w);
    } else {
      NodeReadsBack(s, at, e, w, args, next);
    }
  }

  lemma {:induction false} NodeReadsBack(s: string, at: nat, e: Expression, w: string, args: seq<Expression>, next: nat)
    requires Plain(w) && Matches(s, at, w) && Build(w, args) == e && Within(args, e)
    requires at + |w| + 1 < |s| && s[at + |w|] == '(' && ListAt(s, at + |w| + 1, args, next)
    ensures Reads(s, at, e, next)
    decreases e, 0, |args| + 1, 0
  {
    assert [] + args == args;
    ListReadsBack(s, at + |w|, at + |w| + 1, [], args, args, next, e);
    WordWithList(s, at, w, args, next);
  }

  lemma {:induction false} ListReadsBack(s: string, next: nat, at: nat, before: seq<Expression>, args: seq<Expression>,
                                         all: seq<Expression>, last: nat, whole: Expression)
    requires Within(args, whole) && ListAt(s, at, args, last) && before + args == all
    requires next < |s| && (at == next + 1 || (at == next + 2 <= |s| && s[next + 1] == ' '))
    ensures Collects(s, next, before, all, last)
    decreases whole, 0, |args|, 1
  {
    var e := args[0];
    var end := ListUnfolds(s, at, args, last, whole);
    HeadReadsBack(s, next, at, e, whole);
    if |args| > 1 {
      Shift(before, args);
      RestReadsBack(s, next, end, before, e, args[1..], all, last, whole);
    } else {
      ArgThenClose(s, next, before, e, end);
      assert before + [e] == all;
    }
  }

  lemma {:induction false} RestReadsBack(s: string, next: nat, end: nat, before: seq<Expression>, e: Expression,
                                         rest: seq<Expression>, all: seq<Expression>, last: nat, whole: Expression)
    requires Argument(s, next, e, end) && s[end] == ',' && end + 1 < |s| && s[end + 1] == ' '
    requires Within(rest, whole) && ListAt(s, end + 2, rest, last) && before + [e] + rest == all
    ensures Collects(s, next, before, all, last)
    decreases whole, 0, |rest| + 1, 0
  {
    ListReadsBack(s, end, end + 2, before + [e], rest, all, last, whole);
    ArgThenComma(s, next, before, e, end, all, last);
  }

  lemma ListUnfolds(s: string, at: nat, args: seq<Expression>, last: nat, whole: Expression) returns (end: nat)
    requires Within(args, whole) && ListAt(s, at, args, last)
    ensures args != [] && WellFormed(args[0]) && args[0] < whole
    ensures Matches(s, at, Print(args[0])) && end == at + |Print(args[0])| && end < |s|
    ensures |args| == 1 ==> s[end] == ')' && last == end + 1
    ensures |args| > 1 ==> s[end] == ',' && end + 1 < |s| && s[end + 1] == ' ' && Within(args[1..], whole) &&
                           ListAt(s, end + 2, args[1..], last)
  {
    end := at + |Print(args[0])|;
  }

  lemma {:induction false} HeadReadsBack(s: string, next: nat, at: nat, e: Expression, whole: Expression)
    requires WellFormed(e) && e < whole && Matches(s, at, Print(e)) && at + |Print(e)| < |s|
    requires Delimited(s, at + |Print(e)|)
    requires at == next + 1 || (at == next + 2 && s[next + 1] == ' ')
    ensures Argument(s, next, e, at + |Print(e)|)
    decreases whole, 0, 0, 0
  {
    ReadsBack(s, at, e);
    IsArgument(s, next, at, e);
  }

  lemma Shift<T>(a: seq<T>, b: seq<T>)
    requires b != []
    ensures a + [b[0]] + b[1..] == a + b
  {
  }

  lemma IsArgument(s: string, next: nat, at: nat, e: Expression)
    requires WellFormed(e) && Matches(s, at, Print(e)) && at + |Print(e)| < |s|
    requires Reads(s, at, e, at + |Print(e)|)
    requires at == next + 1 || (at == next + 2 && s[next + 1] == ' ')
    ensures Argument(s, next, e, at + |Print(e)|)
  {
    FirstIsWord(s, at, e);
    assert Forward(s, next + 1) == at;
    SpacesAreSkipped(s, next + 1, at, Read(s, e, at + |Print(e)|));
  }

  lemma FirstIsWord(s: string, at: nat, e: Expression)
    requires WellFormed(e) && Matches(s, at, Print(e))
    ensures at < |s| && IsWord(s[at]) && Forward(s, at) == at
  {
    PrintedIsNotEmpty(e);
    assert s[at + 0] == Print(e)[0];
  }

  /** Parsing inverts printing. */
  lemma PrintedConditionReadsBack(e: Expression)
    requires WellFormed(e)
    ensures GetExpression(Print(e)) == Loaded(e)
  {
    var s := Print(e);
    PrintedIsNotEmpty(e);
    ReadsBack(s, 0, e);
  }
}
