/**
 When the condition parser does not return, and what it returns otherwise.
 */
module ConditionLoops {
  import opened Condition
  import opened ConditionTheorems

  // ---- What is parsed can be printed ---------------------------------------------------------

  /** Every key is a plain word; argument positions may be empty. */
  predicate Parsed(e: Expression) {
    match e
    case Nil => true
    case Bool(_) => true
    case And(args) => forall k :: 0 <= k < |args| ==> Parsed(args[k])
    case Or(args) => forall k :: 0 <= k < |args| ==> Parsed(args[k])
    case Not(args) => forall k :: 0 <= k < |args| ==> Parsed(args[k])
    case User(w) => Plain(w) && !Reserved(w)
  }

  lemma {:induction false} FilledIsWellFormed(e: Expression)
    requires Parsed(e) && Filled(e)
    ensures WellFormed(e)
  {
    match e
    case And(args) => forall k | 0 <= k < |args| ensures WellFormed(args[k]) { FilledIsWellFormed(args[k]); }
    case Or(args) => forall k | 0 <= k < |args| ensures WellFormed(args[k]) { FilledIsWellFormed(args[k]); }
    case Not(args) => forall k | 0 <= k < |args| ensures WellFormed(args[k]) { FilledIsWellFormed(args[k]); }
    case _ =>
  }

  predicate AllParsed(args: seq<Expression>) {
    forall k :: 0 <= k < |args| ==> Parsed(args[k])
  }

  lemma {:induction false} OneIsParsed(s: string, start: nat)
    requires start <= |s|
    ensures var p := GetOne(s, start); p.Done? ==> Parsed(p.exp)
    decreases |s| - start, 1
  {
    var at := Forward(s, start);
    var end := WordEnd(s, at);
    if end != at {
      var next := Forward(s, end);
      BuiltIsParsed(s[at..end], []);
      if next < |s| - 1 && s[next] == '(' {
        ArgsAreParsed(s, next, []);
        var r := GetArgs(s, next, []);
        if r.Args? { BuiltIsParsed(s[at..end], r.args); }
      }
    }
  }

  lemma BuiltIsParsed(w: string, args: seq<Expression>)
    requires Plain(w) && AllParsed(args)
    ensures Parsed(Build(w, args))
  {
  }

  lemma {:induction false} ArgsAreParsed(s: string, next: nat, args: seq<Expression>)
    requires next < |s| && AllParsed(args)
    ensures var r := GetArgs(s, next, args); r.Args? ==> AllParsed(r.args)
    decreases |s| - next, 0
  {
    OneIsParsed(s, next + 1);
    var p := GetOne(s, next + 1);
    if p.Done? && p.err == NoError {
      OneTurn(s, next, args, p.exp, p.next);
      var t := TurnAt(s, next, p.next);
      if t.Comma? {
        ArgsAreParsed(s, t.next, args + [p.exp]);
      }
    }
  }

  /** A condition that was read, whatever its layout, and has no empty position reads the same when printed. */
  lemma LoadedConditionReadsBack(s: string, e: Expression)
    requires GetExpression(s) == Loaded(e) && Filled(e)
    ensures WellFormed(e) && GetExpression(Print(e)) == Loaded(e)
  {
    if s != "" {
      OneIsParsed(s, 0);
    }
    FilledIsWellFormed(e);
    PrintedConditionReadsBack(e);
  }

  // ---- When the parser does not return -------------------------------------------------------

  /** The last character that is not a space is the comma at `c`. */
  predicate LastIsComma(s: string, c: nat) {
    c < |s| && s[c] == ',' && forall k :: c < k < |s| ==> s[k] == ' '
  }

  ghost predicate TrailingComma(s: string) {
    exists c: nat :: LastIsComma(s, c)
  }

  lemma {:induction false} OnlyACommaLoops(s: string, start: nat)
    requires start <= |s|
    ensures GetOne(s, start).Loops? ==> TrailingComma(s)
    decreases |s| - start, 1
  {
    var end := WordEnd(s, Forward(s, start));
    var next := Forward(s, end);
    if end != Forward(s, start) && next < |s| - 1 && s[next] == '(' {
      OnlyACommaIsEndless(s, next, []);
    }
  }

  lemma {:induction false} OnlyACommaIsEndless(s: string, next: nat, args: seq<Expression>)
    requires next < |s|
    ensures GetArgs(s, next, args).Endless? ==> TrailingComma(s)
    decreases |s| - next, 0
  {
    OnlyACommaLoops(s, next + 1);
    var p := GetOne(s, next + 1);
    if p.Done? && p.err == NoError {
      OneTurn(s, next, args, p.exp, p.next);
      match TurnAt(s, next, p.next) {
        case Again => assert LastIsComma(s, next);
        case Comma(n) => OnlyACommaIsEndless(s, n, args + [p.exp]);
        case _ =>
      }
    }
  }

  lemma {:induction false} SameScan(s: string, t: string, c: nat, at: nat)
    requires LastIsComma(s, c) && t == s + "x" && at <= c
    ensures SkipSpaces(t, at) == SkipSpaces(s, at) <= c && Forward(t, at) == Forward(s, at) <= c
    ensures WordEnd(t, at) == WordEnd(s, at) <= c
    decreases c - at
  {
    assert t[at] == s[at];
    if at < c {
      SameScan(s, t, c, at + 1);
    }
  }

  /** Behind the last comma there is only the added word. */
  lemma BehindTheComma(s: string, t: string, c: nat)
    requires LastIsComma(s, c) && t == s + "x"
    ensures GetOne(s, c + 1) == Done(Nil, c + 1, NoError) && SkipSpaces(s, c + 1) == |s|
    ensures GetOne(t, c + 1) == Done(User("x"), |t|, Eol)
  {
    SpacesToTheEnd(s, c + 1);
    assert SkipSpaces(s, c + 1) == |s|;
    assert t[|s|] == 'x';
    SpacesToTheWord(t, c + 1, |s|);
    assert WordEnd(t, |t|) == |t|;
    assert WordEnd(t, |s|) == |t|;
    assert t[|s|..|t|] == "x";
  }

  lemma {:induction false} SpacesToTheEnd(s: string, at: nat)
    requires at <= |s| && forall k :: at <= k < |s| ==> s[k] == ' '
    ensures SkipSpaces(s, at) == |s|
    decreases |s| - at
  {
    if at < |s| {
      SpacesToTheEnd(s, at + 1);
    }
  }

  lemma {:induction false} SpacesToTheWord(s: string, at: nat, end: nat)
    requires at <= end < |s| && s[end] != ' ' && forall k :: at <= k < end ==> s[k] == ' '
    ensures SkipSpaces(s, at) == end
    decreases end - at
  {
    if at < end {
      SpacesToTheWord(s, at + 1, end);
    }
  }

  /** With a word added: a loop becomes an early end, and everything else stays as it was. */
  ghost predicate OneCarries(p: Parse, q: Parse, c: nat, end: nat) {
    if p.Loops? then q == Done(Nil, end, Eol)
    else q == p && (p.err == Expecting || (p.err == NoError && p.next <= c))
  }

  ghost predicate ArgsCarry(r: List, q: List, c: nat, end: nat) {
    match r
    case Endless => q == Fail(end, Eol)
    case Fail(_, err) => q == r && err == Expecting
    case Args(_, next) => q == r && next <= c
  }

  lemma {:induction false} OneExtends(s: string, t: string, c: nat, start: nat)
    requires LastIsComma(s, c) && t == s + "x" && start <= c
    ensures OneCarries(GetOne(s, start), GetOne(t, start), c, |t|)
    decreases |s| - start, 1
  {
    var next := SameFront(s, t, c, start);
    var at := Forward(s, start);
    if WordEnd(s, at) != at && s[next] == '(' {
      ArgsExtend(s, t, c, next, []);
    }
  }

  /** The word at `start` and what follows it are the same in both texts. */
  lemma SameFront(s: string, t: string, c: nat, start: nat) returns (next: nat)
    requires LastIsComma(s, c) && t == s + "x" && start <= c
    ensures var at := Forward(s, start);
      var end := WordEnd(s, at);
      && Forward(t, start) == at && WordEnd(t, at) == end && t[at..end] == s[at..end]
      && next == Forward(s, end) == Forward(t, end) <= c && t[next] == s[next]
      && at <= c
  {
    SameScan(s, t, c, start);
    var at := Forward(s, start);
    SameScan(s, t, c, at);
    var end := WordEnd(s, at);
    SameScan(s, t, c, end);
    next := Forward(s, end);
    assert t[at..end] == s[at..end];
    assert t[next] == s[next];
  }

  lemma {:induction false} ArgsExtend(s: string, t: string, c: nat, next: nat, args: seq<Expression>)
    requires LastIsComma(s, c) && t == s + "x" && next <= c
    ensures ArgsCarry(GetArgs(s, next, args), GetArgs(t, next, args), c, |t|)
    decreases |s| - next, 0
  {
    if next == c {
      EndlessAtTheComma(s, t, c, args);
    } else {
      OneExtends(s, t, c, next + 1);
      var p := GetOne(s, next + 1);
      if p.Done? && p.err == NoError {
        TurnExtends(s, t, c, next, args, p.exp, p.next);
      } else {
        FailureExtends(s, t, c, next, args);
      }
    }
  }

  lemma EndlessAtTheComma(s: string, t: string, c: nat, args: seq<Expression>)
    requires LastIsComma(s, c) && t == s + "x"
    ensures ArgsCarry(GetArgs(s, c, args), GetArgs(t, c, args), c, |t|)
  {
    BehindTheComma(s, t, c);
  }

  lemma FailureExtends(s: string, t: string, c: nat, next: nat, args: seq<Expression>)
    requires next < c < |s| && t == s + "x" && OneCarries(GetOne(s, next + 1), GetOne(t, next + 1), c, |t|)
    requires GetOne(s, next + 1).Loops? || GetOne(s, next + 1).err != NoError
    ensures ArgsCarry(GetArgs(s, next, args), GetArgs(t, next, args), c, |t|)
  {
  }

  lemma {:induction false} TurnExtends(s: string, t: string, c: nat, next: nat, args: seq<Expression>, e: Expression,
                                       after: nat)
    requires LastIsComma(s, c) && t == s + "x" && next < after <= c
    requires GetOne(s, next + 1) == Done(e, after, NoError) == GetOne(t, next + 1)
    ensures ArgsCarry(GetArgs(s, next, args), GetArgs(t, next, args), c, |t|)
    decreases |s| - next - 1, 2
  {
    SameTurn(s, t, c, next, after);
    OneTurn(s, next, args, e, after);
    OneTurn(t, next, args, e, after);
    match TurnAt(s, next, after) {
      case Comma(n) => ArgsExtend(s, t, c, n, args + [e]);
      case _ =>
    }
  }

  lemma SameTurn(s: string, t: string, c: nat, next: nat, after: nat)
    requires LastIsComma(s, c) && t == s + "x" && next < after <= c
    ensures TurnAt(t, next, after) == TurnAt(s, next, after) && !TurnAt(s, next, after).Again?
    ensures TurnAt(s, next, after).next <= c
  {
    SameScan(s, t, c, after);
    var stop := SkipSpaces(s, after);
    assert t[stop] == s[stop];
  }

  /**
   `GetExpression` does not return exactly for the texts that end in a comma, spaces aside, and in which a
   word put after that comma would be the last thing of an unfinished argument list.
   */
  lemma NeverReturnsIff(s: string)
    ensures GetExpression(s) == Never <==>
            TrailingComma(s) && GetExpression(s + "x") == Refused(Syntax(|s| + 1, Eol))
  {
    var t := s + "x";
    OnlyACommaLoops(s, 0);
    if TrailingComma(s) {
      var c: nat :| LastIsComma(s, c);
      OneExtends(s, t, c, 0);
    }
  }

  /** The check is one that itself always returns. */
  lemma TheCheckReturns(s: string)
    ensures GetExpression(s + "x") != Never
  {
    var t := s + "x";
    OnlyACommaLoops(t, 0);
    forall c: nat | LastIsComma(t, c) ensures t[|t| - 1] == ',' || t[|t| - 1] == ' ' {
    }
    assert t[|t| - 1] == 'x';
  }
}
