/**
 Exactly when evaluating a condition is a run-time panic, and a check of the text that rules it out.
 */
module ConditionPanics {
  import opened Wrappers
  import opened Text
  import opened Condition
  import opened ConditionTheorems

  // ---- Evaluation ----------------------------------------------------------------------------

  /** Evaluating `e` gets to its argument `k`: nothing to the left has settled an `and` or an `or`, and a
      `not` looks at its argument only if it has just one. */
  predicate GetsTo(e: Expression, keys: set<string>, k: nat) {
    k < |Arguments(e)| &&
    match e
    case And(args) => forall j :: 0 <= j < k ==> Holds(args[j], keys)
    case Or(args) => forall j :: 0 <= j < k ==> !Holds(args[j], keys)
    case _ => |Arguments(e)| == 1
  }

  /** Going down from `e` by these argument positions, evaluation gets to an empty one. */
  predicate NilAt(e: Expression, keys: set<string>, path: seq<nat>)
    decreases |path|
  {
    if path == [] then e.Nil? else GetsTo(e, keys, path[0]) && NilAt(Arguments(e)[path[0]], keys, path[1..])
  }

  ghost predicate ReachesNil(e: Expression, keys: set<string>) {
    exists path :: NilAt(e, keys, path)
  }

  ghost predicate ReachesThrough(e: Expression, keys: set<string>, k: nat) {
    GetsTo(e, keys, k) && ReachesNil(Arguments(e)[k], keys)
  }

  lemma ReachesByArgument(e: Expression, keys: set<string>)
    ensures ReachesNil(e, keys) <==> e.Nil? || exists k: nat :: ReachesThrough(e, keys, k)
  {
    if path :| NilAt(e, keys, path) {
      if path != [] {
        assert NilAt(Arguments(e)[path[0]], keys, path[1..]);
        assert ReachesThrough(e, keys, path[0]);
      }
    }
    if e.Nil? { assert NilAt(e, keys, []); }
    if k: nat :| ReachesThrough(e, keys, k) {
      var path :| NilAt(Arguments(e)[k], keys, path);
      assert ([k] + path)[1..] == path;
      assert NilAt(e, keys, [k] + path);
    }
  }

  /** The first `k` arguments do not settle the list. */
  predicate Unsettled(args: seq<Expression>, keys: set<string>, stop: bool, k: nat) {
    k <= |args| && forall j :: 0 <= j < k ==> Holds(args[j], keys) == !stop
  }

  ghost predicate PanicsIn(args: seq<Expression>, keys: set<string>, stop: bool, k: nat) {
    k < |args| && Unsettled(args, keys, stop, k) && ReachesNil(args[k], keys)
  }

  /** The arguments in order: a panic where an empty position is got to, or what settles them. */
  lemma {:induction false} UntilPanicsIff(args: seq<Expression>, keys: set<string>, stop: bool)
    ensures ExamineUntil(args, keys, stop) ==
            if exists k: nat :: PanicsIn(args, keys, stop, k) then None
            else Some(if Unsettled(args, keys, stop, |args|) then !stop else stop)
    decreases args, 1
  {
    if args != [] {
      var rest := args[1..];
      PanicsIff(args[0], keys);
      UntilPanicsIff(rest, keys, stop);
      FirstPanics(args, keys, stop);
      if !ReachesNil(args[0], keys) && Holds(args[0], keys) != stop { LaterPanics(args, keys, stop); }
    }
  }

  lemma FirstPanics(args: seq<Expression>, keys: set<string>, stop: bool)
    requires args != []
    ensures PanicsIn(args, keys, stop, 0) <==> ReachesNil(args[0], keys)
    ensures Holds(args[0], keys) == stop ==> forall k: nat :: k > 0 ==> !PanicsIn(args, keys, stop, k)
    ensures Holds(args[0], keys) == stop ==> !Unsettled(args, keys, stop, |args|)
  {
  }

  lemma LaterPanics(args: seq<Expression>, keys: set<string>, stop: bool)
    requires args != [] && !ReachesNil(args[0], keys) && Holds(args[0], keys) != stop
    ensures (exists k: nat :: PanicsIn(args, keys, stop, k)) <==> exists k: nat :: PanicsIn(args[1..], keys, stop, k)
    ensures Unsettled(args, keys, stop, |args|) <==> Unsettled(args[1..], keys, stop, |args| - 1)
  {
    var rest := args[1..];
    assert forall j :: 0 <= j < |rest| ==> rest[j] == args[j + 1];
    forall k: nat ensures PanicsIn(args, keys, stop, k + 1) <==> PanicsIn(rest, keys, stop, k) {
      LaterUnsettled(args, keys, stop, k);
    }
    LaterUnsettled(args, keys, stop, |rest|);
    if k: nat :| PanicsIn(args, keys, stop, k) { assert PanicsIn(rest, keys, stop, k - 1); }
    if k: nat :| PanicsIn(rest, keys, stop, k) { assert PanicsIn(args, keys, stop, k + 1); }
  }

  lemma LaterUnsettled(args: seq<Expression>, keys: set<string>, stop: bool, k: nat)
    requires args != [] && Holds(args[0], keys) != stop
    ensures Unsettled(args, keys, stop, k + 1) <==> Unsettled(args[1..], keys, stop, k)
  {
    var rest := args[1..];
    if Unsettled(args, keys, stop, k + 1) {
      forall j | 0 <= j < k ensures Holds(rest[j], keys) == !stop { assert Holds(args[j + 1], keys) == !stop; }
    }
    if Unsettled(rest, keys, stop, k) {
      forall j | 0 <= j < k + 1 ensures Holds(args[j], keys) == !stop {
        if j > 0 { assert Holds(rest[j - 1], keys) == !stop; }
      }
    }
  }

  /** Evaluation panics exactly if it gets to an empty position; otherwise it gives the meaning. */
  lemma {:induction false} PanicsIff(e: Expression, keys: set<string>)
    ensures Examine(e, keys) == if ReachesNil(e, keys) then None else Some(Holds(e, keys))
    decreases e, 0
  {
    ReachesByArgument(e, keys);
    match e
    case And(args) =>
      UntilPanicsIff(args, keys, false);
      ListReaches(e, args, keys, false);
    case Or(args) =>
      UntilPanicsIff(args, keys, true);
      ListReaches(e, args, keys, true);
    case Not(args) =>
      if |args| == 1 {
        PanicsIff(args[0], keys);
        assert ReachesThrough(e, keys, 0) <==> ReachesNil(args[0], keys);
      }
    case _ =>
  }

  lemma ListReaches(e: Expression, args: seq<Expression>, keys: set<string>, stop: bool)
    requires e == if stop then Or(args) else And(args)
    ensures (exists k: nat :: ReachesThrough(e, keys, k)) <==> exists k: nat :: PanicsIn(args, keys, stop, k)
    ensures Holds(e, keys) == if Unsettled(args, keys, stop, |args|) then !stop else stop
  {
    forall k: nat ensures ReachesThrough(e, keys, k) <==> PanicsIn(args, keys, stop, k) {}
    if k: nat :| ReachesThrough(e, keys, k) { assert PanicsIn(args, keys, stop, k); }
    if k: nat :| PanicsIn(args, keys, stop, k) { assert ReachesThrough(e, keys, k); }
  }

  // ---- Texts ---------------------------------------------------------------------------------

  /** A parenthesis opens or a comma stands at `i`, and no word follows: an argument position left empty. */
  predicate EmptyAt(s: string, i: nat) {
    i < |s| && (s[i] == '(' || s[i] == ',') &&
    var r := SkipSpaces(s, i + 1); r < |s| ==> !IsWord(s[r])
  }

  predicate NoneEmpty(s: string) {
    forall i: nat :: i < |s| ==> !EmptyAt(s, i)
  }

  predicate AllFilled(args: seq<Expression>) {
    forall k :: 0 <= k < |args| ==> Filled(args[k])
  }

  lemma {:induction false} ReadIsFilled(s: string, start: nat)
    requires start <= |s| && NoneEmpty(s)
    ensures var p := GetOne(s, start); p.Done? && p.exp != Nil ==> Filled(p.exp)
    decreases |s| - start, 1
  {
    var at := Forward(s, start);
    var end := WordEnd(s, at);
    if end != at {
      var token, next := s[at..end], Forward(s, end);
      if next < |s| - 1 && s[next] == '(' {
        ListIsFilled(s, next, []);
        var list := GetArgs(s, next, []);
        if list.Args? { BuildIsFilled(token, list.args); }
      } else {
        BuildIsFilled(token, []);
      }
    }
  }

  lemma BuildIsFilled(token: string, args: seq<Expression>)
    requires AllFilled(args)
    ensures Filled(Build(token, args))
  {
  }

  lemma {:induction false} ListIsFilled(s: string, next: nat, args: seq<Expression>)
    requires next < |s| && (s[next] == '(' || s[next] == ',') && NoneEmpty(s) && AllFilled(args)
    ensures var r := GetArgs(s, next, args); r.Args? ==> AllFilled(r.args)
    decreases |s| - next, 0
  {
    var p := GetOne(s, next + 1);
    if p.Done? && p.err == NoError {
      ReadIsFilled(s, next + 1);
      WordIsRead(s, next);
      OneTurn(s, next, args, p.exp, p.next);
      var turn := TurnAt(s, next, p.next);
      if turn.Comma? { ListIsFilled(s, turn.next, args + [p.exp]); }
    }
  }

  /** Where a word follows, something is read. */
  lemma WordIsRead(s: string, i: nat)
    requires i < |s| && (s[i] == '(' || s[i] == ',') && !EmptyAt(s, i)
    ensures var p := GetOne(s, i + 1); p.Done? && p.err == NoError ==> p.exp != Nil
  {
    var at := Forward(s, i + 1);
    assert IsWord(s[at]);
    assert WordEnd(s, at) > at;
  }

  /** A text in which a word follows every opening parenthesis and every comma never leads to a panic: what is
      loaded from it evaluates to its meaning, whatever the keys. */
  lemma FullTextNeverPanics(s: string, keys: set<string>)
    requires NoneEmpty(s) && GetExpression(s).Loaded?
    ensures var e := GetExpression(s).exp; Filled(e) && !ReachesNil(e, keys) && Examine(e, keys) == Some(Holds(e, keys))
  {
    ReadIsFilled(s, 0);
    ExamineIsMeaning(GetExpression(s).exp, keys);
    PanicsIff(GetExpression(s).exp, keys);
  }

  lemma EmptyParenthesesLoad()
    ensures GetExpression("and()") == Loaded(And([Nil]))
  {
    var s := "and()";
    assert Matches(s, 0, "and");
    assert WordEnd(s, 4) == 4 && Forward(s, 4) == 4;
    assert GetOne(s, 4) == Done(Nil, 4, NoError);
    ArgThenClose(s, 3, [], Nil, 4);
    WordWithList(s, 0, "and", [Nil], 5);
  }

  /** `and()` has one argument position and nothing in it, and evaluation gets there: a run-time panic. */
  lemma EmptyParenthesesPanic(keys: set<string>)
    ensures GetExpression("and()") == Loaded(And([Nil])) && Examine(And([Nil]), keys) == None
  {
    EmptyParenthesesLoad();
    assert NilAt(Nil, keys, []);
    assert NilAt(And([Nil]), keys, [0]);
    PanicsIff(And([Nil]), keys);
  }
}
