/**
 Service conditions (base/settings/condition.go): expressions such as `and(a, not(b))`, their evaluation over
 the keys of a map, and the recursive-descent parser that reads them. Text is ASCII.
 */
module Condition {
  import opened Wrappers

  /** `Nil` is the Go nil that an empty argument position leaves in a list. */
  datatype Expression =
    | Nil
    | Bool(value: bool)
    | And(args: seq<Expression>)
    | Or(args: seq<Expression>)
    | Not(args: seq<Expression>)
    | User(name: string)

  // ---- Evaluation ----------------------------------------------------------------------------

  /** `None` is the run-time panic of examining a nil expression. */
  function Examine(e: Expression, keys: set<string>): Option<bool> {
    match e
    case Nil => None
    case Bool(b) => Some(b)
    case And(args) => ExamineUntil(args, keys, false)
    case Or(args) => ExamineUntil(args, keys, true)
    case Not(args) =>
      if |args| != 1 then Some(false)
      else
        match Examine(args[0], keys) {
          case None => None
          case Some(b) => Some(!b)
        }
    case User(name) => Some(name in keys)
  }

  /** The arguments in order, up to the first that evaluates to `stop`. */
  function ExamineUntil(args: seq<Expression>, keys: set<string>, stop: bool): Option<bool> {
    if args == [] then Some(!stop)
    else
      match Examine(args[0], keys)
      case None => None
      case Some(b) => if b == stop then Some(stop) else ExamineUntil(args[1..], keys, stop)
  }

  /** What an expression means. */
  predicate Holds(e: Expression, keys: set<string>) {
    match e
    case Nil => false
    case Bool(b) => b
    case And(args) => forall k :: 0 <= k < |args| ==> Holds(args[k], keys)
    case Or(args) => exists k :: 0 <= k < |args| && Holds(args[k], keys)
    case Not(args) => |args| == 1 && !Holds(args[0], keys)
    case User(name) => name in keys
  }

  // ---- Scanning ------------------------------------------------------------------------------

  predicate IsWord(c: char) {
    'a' <= c <= 'z' || 'A' <= c <= 'Z' || '0' <= c <= '9' || c == '_' || c == '-'
  }

  /** The first position from `at` on that holds no space. */
  function SkipSpaces(s: string, at: nat): (r: nat)
    requires at <= |s|
    ensures at <= r <= |s| && (r < |s| ==> s[r] != ' ') && forall k :: at <= k < r ==> s[k] == ' '
    decreases |s| - at
  {
    if at < |s| && s[at] == ' ' then SkipSpaces(s, at + 1) else at
  }

  /** `forward`: like `SkipSpaces`, but it does not move when there is nothing but spaces. */
  function Forward(s: string, at: nat): (r: nat)
    requires at <= |s|
    ensures at <= r <= |s|
  {
    if SkipSpaces(s, at) == |s| then at else SkipSpaces(s, at)
  }

  function WordEnd(s: string, at: nat): (r: nat)
    requires at <= |s|
    ensures at <= r <= |s| && (r < |s| ==> !IsWord(s[r])) && forall k :: at <= k < r ==> IsWord(s[k])
    decreases |s| - at
  {
    if at < |s| && IsWord(s[at]) then WordEnd(s, at + 1) else at
  }

  function Build(token: string, args: seq<Expression>): Expression {
    if token == "true" then Bool(true)
    else if token == "false" then Bool(false)
    else if token == "and" then And(args)
    else if token == "or" then Or(args)
    else if token == "not" then Not(args)
    else User(token)
  }

  // ---- The parser ----------------------------------------------------------------------------

  datatype Error = NoError | Eol | Expecting

  /** What `getOne` returns; `Loops` when it never does. */
  datatype Parse = Done(exp: Expression, next: nat, err: Error) | Loops

  /** The outcome of the loop over an argument list. */
  datatype List = Args(args: seq<Expression>, next: nat) | Fail(next: nat, err: Error) | Endless

  function GetOne(s: string, start: nat): (p: Parse)
    requires start <= |s|
    ensures p.Done? ==> start <= p.next <= |s|
    ensures p.Done? && p.err == NoError ==>
      if p.exp.Nil? then p.next == Forward(s, start) else start < p.next < |s|
    ensures p.Done? && p.err != NoError && p.exp != Nil ==> p.err == Eol && p.next == |s|
    decreases |s| - start, 1
  {
    var at := Forward(s, start);
    var end := WordEnd(s, at);
    if end == at then Done(Nil, at, NoError)
    else
      var token, next := s[at..end], Forward(s, end);
      if next < |s| - 1 && s[next] == '(' then
        match GetArgs(s, next, [])
        case Endless => Loops
        case Fail(n, err) => Done(Nil, n, err)
        case Args(args, n) => Finish(s, Build(token, args), n)
      else
        Finish(s, Build(token, []), next)
  }

  function Finish(s: string, e: Expression, next: nat): Parse {
    Done(e, next, if next >= |s| then Eol else NoError)
  }

  /** What stands behind an argument: the closing parenthesis, the next comma, or something else. `Again` is
      the comma the argument was looked for behind: there was nothing but spaces after it. */
  datatype Turn = Close(next: nat) | Comma(next: nat) | Other(next: nat) | Again

  function TurnAt(s: string, next: nat, after: nat): (t: Turn)
    requires next < after <= |s|
    ensures t.Close? ==> next < t.next <= |s|
    ensures t.Comma? ==> next < t.next < |s| && s[t.next] == ','
    ensures t.Other? ==> next <= t.next < |s|
    ensures t.Again? ==> after == next + 1 && SkipSpaces(s, after) == |s| && s[next] == ','
  {
    var skipped := SkipSpaces(s, after);
    var stop := if skipped == |s| then after - 1 else skipped;
    if s[stop] == ')' then Close(stop + 1)
    else if s[stop] != ',' then Other(stop)
    else if stop == next then Again
    else Comma(stop)
  }

  /** The loop over the arguments: `next` is at the parenthesis or a comma, `args` are the ones before it. */
  function GetArgs(s: string, next: nat, args: seq<Expression>): (r: List)
    requires next < |s|
    ensures r.Args? ==> next < r.next <= |s|
    ensures r.Fail? ==> next <= r.next <= |s| && r.err != NoError
    decreases |s| - next, 0
  {
    match GetOne(s, next + 1)
    case Loops => Endless
    case Done(sub, after, err) =>
      if err != NoError then Fail(after, err)
      else
        match TurnAt(s, next, after)
        case Close(n) => Args(args + [sub], n)
        case Comma(n) => GetArgs(s, n, args + [sub])
        case Other(n) => Fail(n, Expecting)
        case Again => Endless
  }

  /** `getOne` as the source runs it, except that it reports `Loops` where the source goes round forever. */
  method ParseOne(s: string, start: nat) returns (p: Parse)
    requires start <= |s|
    ensures p == GetOne(s, start)
    decreases |s| - start, 1
  {
    var at := Forward(s, start);
    var end := WordEnd(s, at);
    if end == at {
      return Done(Nil, at, NoError);
    }
    var token := s[at..end];
    var next := Forward(s, end);
    var args := [];
    if next < |s| - 1 && s[next] == '(' {
      var list := ParseArgs(s, next);
      match list {
        case Endless => return Loops;
        case Fail(n, err) => return Done(Nil, n, err);
        case Args(a, n) => args, next := a, n;
      }
    }
    p := Finish(s, Build(token, args), next);
  }

  /** The loop of `getOne` over an argument list. */
  method ParseArgs(s: string, start: nat) returns (r: List)
    requires start < |s|
    ensures r == GetArgs(s, start, [])
    decreases |s| - start, 0
  {
    var next, args := start, [];
    while true
      invariant start <= next < |s| && GetArgs(s, next, args) == GetArgs(s, start, [])
      decreases |s| - next
    {
      var sub := ParseOne(s, next + 1);
      if sub.Loops? {
        return Endless;
      }
      if sub.err != NoError {
        return Fail(sub.next, sub.err);
      }
      var turn := TurnAt(s, next, sub.next);
      OneTurn(s, next, args, sub.exp, sub.next);
      args := args + [sub.exp];
      match turn {
        case Close(n) => return Args(args, n);
        case Comma(n) => next := n;
        case Other(n) => return Fail(n, Expecting);
        case Again => return Endless;
      }
    }
  }

  lemma OneTurn(s: string, next: nat, args: seq<Expression>, e: Expression, after: nat)
    requires next < |s| && GetOne(s, next + 1) == Done(e, after, NoError)
    ensures GetArgs(s, next, args) ==
            match TurnAt(s, next, after)
            case Close(n) => Args(args + [e], n)
            case Comma(n) => GetArgs(s, n, args + [e])
            case Other(n) => Fail(n, Expecting)
            case Again => Endless
  {
  }

  datatype Failure = Garbage(at: nat) | Syntax(at: nat, err: Error)

  datatype Loaded = Loaded(exp: Expression) | Refused(why: Failure) | Never

  /** `GetExpression`; `Never` when it does not return. */
  function GetExpression(s: string): Loaded {
    if s == "" then Loaded(Bool(true))
    else
      match GetOne(s, 0)
      case Loops => Never
      case Done(e, next, err) =>
        if err == Eol && e != Nil then Loaded(e)
        else if next != |s| then Refused(Garbage(next))
        else Refused(Syntax(next, err))
  }
}
