/** The recursive-descent pieces of the parser and the operator-precedence
    table.

    The parser keeps one token of lookahead in `curTok` and advances with
    `getNextToken`.  Here it reads from the token sequence the lexer
    produces (each token with the text `IdStr` or `numVal` held for it).
    Once that sequence is used up, the next call of `gettok` runs off the
    end of the function, so asking for one more token is `Undefined`, just
    like a parser that itself runs off the end of a function returning a
    value.

    The specification functions below take the whole sequence `ts` of
    values `curTok` takes and the position `at` of the current token, and
    say how many tokens a parser consumes from there.

    `ParseExpression` is declared but never defined, so every parser that
    uses it takes it as a parameter `pe`: `pe(ts)` says what it does when
    `ts` is the current token followed by the rest of the stream, and how
    many tokens it consumes. */
module Parsing {
  import opened Tokens
  import opened Syntax
  import Lexing

  /** What a parsing function hands back: a tree (`Ok`), the null pointer
      after `LogError` reported `msg` (`Fail`), or nothing defined at all
      (`Undefined`). */
  datatype Outcome<T> = Ok(value: T) | Fail(msg: string) | Undefined

  /** An outcome and the number of tokens consumed to reach it. */
  datatype Step<T> = Step(out: Outcome<T>, used: nat)

  const UnknownToken := "unknown token when expecting an expression"
  const ExpectedClose := "expected ')'"
  const ExpectedSeparator := "Expected ')' or ',' in arg list"

  /** The sub-parser `ParseExpression` at position `at` of `ts`.  A parse
      that would consume the last token of the stream asks the lexer for
      another one, which is undefined. */
  function Expression(pe: seq<Token> -> Step<Expr>, ts: seq<Token>, at: nat): (r: Step<Expr>)
    requires at < |ts|
    ensures !r.out.Undefined? ==> at + r.used < |ts| && r == pe(ts[at..])
    ensures at + pe(ts[at..]).used < |ts| ==> r == pe(ts[at..])
  {
    var s := pe(ts[at..]);
    if at + s.used < |ts| then s else Step(Undefined, 0)
  }

  /** `ParseNumberExpr` (lines 143-147) at position `at` of `ts`: a number
      leaf for the current token, which is consumed. */
  function NumberExpr(ts: seq<Token>, at: nat): (r: Step<Expr>)
    requires at < |ts| && ts[at].Number?
    ensures !r.out.Fail?
    ensures r.out.Ok? <==> at + 1 < |ts|
    ensures r.out.Ok? ==> r.out == Ok(Expr.Number(ts[at].lexeme)) && r.used == 1
  {
    if at + 1 == |ts| then Step(Undefined, 0) else Step(Ok(Expr.Number(ts[at].lexeme)), 1)
  }

  /** `ParseParenExpr` (lines 150-162) at position `at` of `ts`.  It has no
      successful return: when the closing parenthesis is there, control
      runs off the end of the function. */
  function ParenExpr(ts: seq<Token>, at: nat, pe: seq<Token> -> Step<Expr>): (r: Step<Expr>)
    requires at < |ts|
    ensures !r.out.Undefined? ==> at + r.used < |ts|
    ensures !r.out.Ok?
    ensures r.out.Fail? ==> 1 <= r.used
  {
    if at + 1 == |ts| then Step(Undefined, 0)
    else
      var e := Expression(pe, ts, at + 1);
      match e.out
      case Undefined => Step(Undefined, 0)
      case Fail(m) => Step(Fail(m), 1 + e.used)
      case Ok(_) =>
        if ts[at + 1 + e.used] != Char(')') then Step(Fail(ExpectedClose), 1 + e.used)
        else Step(Undefined, 0)
  }

  /** How one round of the argument loop (lines 177-189) ends: the loop is
      left with `out`, or an argument was read and the current token is the
      closing parenthesis, or the comma after the argument was consumed. */
  datatype Seen = Left(out: Outcome<seq<Expr>>) | Closed(arg: Expr) | Comma(arg: Expr)

  /** One round of the argument loop and the number of tokens it consumes. */
  datatype Round = Round(seen: Seen, used: nat)

  /** One round of the argument loop at position `at` of `ts`. */
  function ArgRound(ts: seq<Token>, at: nat, pe: seq<Token> -> Step<Expr>): (r: Round)
    requires at < |ts|
    ensures r.seen.Left? ==> !r.seen.out.Ok?
    ensures r.seen.Left? && r.seen.out.Undefined? ==> r.used == 0
    ensures !(r.seen.Left? && r.seen.out.Undefined?) ==> at + r.used < |ts|
    ensures r.seen.Closed? ==> ts[at + r.used] == Char(')')
    ensures r.seen.Comma? ==> 0 < r.used && ts[at + r.used - 1] == Char(',')
  {
    var e := Expression(pe, ts, at);
    match e.out
    case Undefined => Round(Left(Undefined), 0)
    case Fail(m) => Round(Left(Fail(m)), e.used)
    case Ok(arg) =>
      var k := e.used;
      if ts[at + k] == Char(')') then Round(Closed(arg), k)
      else if ts[at + k] != Char(',') then Round(Left(Fail(ExpectedSeparator)), k)
      else if at + k + 1 == |ts| then Round(Left(Undefined), 0)
      else Round(Comma(arg), k + 1)
  }

  /** The argument loop (lines 176-190) entered at position `start` of
      `ts` and continued at `at` with the arguments `args` collected so
      far; `used` counts from `start`.  It stops on the closing
      parenthesis without consuming it. */
  function ArgLoop(ts: seq<Token>, start: nat, at: nat, args: seq<Expr>, pe: seq<Token> -> Step<Expr>): (r: Step<seq<Expr>>)
    requires start <= at < |ts|
    ensures r.out.Undefined? ==> r.used == 0
    ensures !r.out.Undefined? ==> at <= start + r.used < |ts|
    ensures r.out.Ok? ==> |r.out.value| > |args| && ts[start + r.used] == Char(')')
    decreases |ts| - at
  {
    var rd := ArgRound(ts, at, pe);
    match rd.seen
    case Left(out) => if out.Undefined? then Step(Undefined, 0) else Step(out, at + rd.used - start)
    case Closed(arg) => Step(Ok(args + [arg]), at + rd.used - start)
    case Comma(arg) => ArgLoop(ts, start, at + rd.used, args + [arg], pe)
  }

  /** The argument loop of `ParseIdentifierExpr` (lines 176-190) from the
      first argument at position `at` up to the closing parenthesis. */
  function ArgList(ts: seq<Token>, at: nat, pe: seq<Token> -> Step<Expr>): (r: Step<seq<Expr>>)
    requires at < |ts|
    ensures r.out.Undefined? ==> r.used == 0
    ensures !r.out.Undefined? ==> at + r.used < |ts|
    ensures r.out.Ok? ==> |r.out.value| >= 1 && ts[at + r.used] == Char(')')
  {
    ArgLoop(ts, at, at, [], pe)
  }

  /** `ParseIdentifierExpr` (lines 164-195) at position `at` of `ts`. */
  function IdentifierExpr(ts: seq<Token>, at: nat, pe: seq<Token> -> Step<Expr>): (r: Step<Expr>)
    requires at < |ts| && ts[at].Identifier?
    ensures !r.out.Undefined? ==> at + r.used < |ts|
    ensures r.out.Fail? ==> 2 <= r.used
    ensures r.out.Ok? && r.out.value.Variable? ==> r.out.value.name == ts[at].name && r.used == 1
    ensures r.out.Ok? && !r.out.value.Variable? ==>
      r.out.value.Call? && r.out.value.callee == ts[at].name && 3 <= r.used &&
      ts[at + 1] == Char('(') && ts[at + r.used - 1] == Char(')')
  {
    if at + 1 == |ts| then Step(Undefined, 0)
    else if ts[at + 1] != Char('(') then Step(Ok(Variable(ts[at].name)), 1)
    else if at + 2 == |ts| then Step(Undefined, 0)
    else
      var a := if ts[at + 2] == Char(')') then Step(Ok([]), 0) else ArgList(ts, at + 2, pe);
      match a.out
      case Undefined => Step(Undefined, 0)
      case Fail(m) => Step(Fail(m), 2 + a.used)
      case Ok(args) =>
        if at + 3 + a.used < |ts| then Step(Ok(Call(ts[at].name, args)), 3 + a.used)
        else Step(Undefined, 0)
  }

  /** `ParsePrimary` (lines 197-208) at position `at` of `ts`. */
  function Primary(ts: seq<Token>, at: nat, pe: seq<Token> -> Step<Expr>): (r: Step<Expr>)
    requires at < |ts|
    ensures !r.out.Undefined? ==> at + r.used < |ts|
  {
    match ts[at]
    case Identifier(_) => IdentifierExpr(ts, at, pe)
    case Number(_) => NumberExpr(ts, at)
    case Char(c) => if c == '(' then ParenExpr(ts, at, pe) else Step(Fail(UnknownToken), 0)
    case _ => Step(Fail(UnknownToken), 0)
  }

  /** `GetTokPrecedence` (lines 212-222) with the table `m`: -1 for a token
      that is not an ASCII character or whose entry is not positive, the
      entry otherwise.  A missing entry reads as 0. */
  function TokPrecedence(m: map<char, int>, t: Token): (p: int)
    ensures p == -1 || p > 0
    ensures p > 0 <==> 0 <= Code(t) < 128 && Code(t) as char in m && m[Code(t) as char] > 0
    ensures p > 0 ==> p == m[Code(t) as char]
    ensures !t.Char? ==> p == -1
  {
    var code := Code(t);
    if !(0 <= code < 128) then -1
    else
      var c := code as char;
      var entry := if c in m then m[c] else 0;
      if entry <= 0 then -1 else entry
  }

  /** The table after `GetTokPrecedence`: `operator[]` on line 217 inserts
      0 for an ASCII character that is not in the table yet, and changes no
      entry that was there. */
  function AfterLookup(m: map<char, int>, t: Token): (r: map<char, int>)
    ensures forall c :: c in m ==> c in r && r[c] == m[c]
    ensures forall c :: c in r && c !in m ==> Code(t) == c as int && r[c] == 0
    ensures 0 <= Code(t) < 128 ==> Code(t) as char in r
  {
    var code := Code(t);
    if 0 <= code < 128 && code as char !in m then m[code as char := 0] else m
  }

  /** The table `main` fills (lines 225-230) starting from `table`: the six
      operators get their precedence and every other entry is kept. */
  function WithDefaults(table: map<char, int>): (r: map<char, int>)
    ensures '<' in r && '>' in r && '+' in r && '-' in r && '*' in r && '/' in r
    ensures r['<'] == 10 && r['>'] == 10 && r['+'] == 20 && r['-'] == 20 && r['*'] == 40 && r['/'] == 40
    ensures forall c :: c in r <==> c in table || c in "<>+-*/"
    ensures forall c :: c in table && c !in "<>+-*/" ==> r[c] == table[c]
  {
    table['<' := 10]['>' := 10]['+' := 20]['-' := 20]['*' := 40]['/' := 40]
  }

  /** The globals of the parser.  `stream` is the sequence of values
      `curTok` takes in turn: 0, which the static starts with, then the
      tokens the lexer returns; `pos` is the position of `curTok` in it. */
  class Parser {
    const stream: seq<Token>
    var pos: nat
    var curTok: Token
    var binopPrecedence: map<char, int>

    /** `curTok` is the token at `pos`. */
    ghost predicate Valid()
      reads this`pos, this`curTok
    {
      pos < |stream| && curTok == stream[pos]
    }

    /** The parser before the first token is read: `curTok` is a zero-
        initialised static and the table is empty. */
    constructor (tokens: seq<Token>)
      ensures stream == [Char('\0')] + tokens && pos == 0 && Valid()
      ensures binopPrecedence == map[]
    {
      stream := [Char('\0')] + tokens;
      pos := 0;
      curTok := Char('\0');
      binopPrecedence := map[];
    }

    /** `getNextToken` (lines 129-132): the next token becomes `curTok`;
        with none left, `gettok` runs off its end. */
    method GetNextToken() returns (defined: bool)
      requires Valid()
      modifies this`pos, this`curTok
      ensures Valid()
      ensures defined <==> old(pos) + 1 < |stream|
      ensures pos == if defined then old(pos) + 1 else old(pos)
    {
      if pos + 1 == |stream| {
        return false;
      }
      pos := pos + 1;
      curTok := stream[pos];
      return true;
    }

    /** `ParseExpression` (declared on line 149), as the sub-parser `pe`
        says. */
    method ParseExpression(pe: seq<Token> -> Step<Expr>) returns (r: Outcome<Expr>)
      requires Valid()
      modifies this`pos, this`curTok
      ensures Valid()
      ensures r == Expression(pe, stream, old(pos)).out
      ensures !r.Undefined? ==> pos == old(pos) + Expression(pe, stream, old(pos)).used
    {
      var st := Expression(pe, stream, pos);
      r := st.out;
      if !r.Undefined? {
        pos := pos + st.used;
        curTok := stream[pos];
      }
    }

    /** `ParseNumberExpr` (lines 143-147). */
    method ParseNumberExpr() returns (r: Outcome<Expr>)
      requires Valid() && curTok.Number?
      modifies this`pos, this`curTok
      ensures Valid()
      ensures r == NumberExpr(stream, old(pos)).out
      ensures !r.Undefined? ==> pos == old(pos) + NumberExpr(stream, old(pos)).used
    {
      var result := Expr.Number(curTok.lexeme);
      var defined := GetNextToken();
      if !defined {
        return Undefined;
      }
      return Ok(result);
    }

    /** `ParseParenExpr` (lines 150-162). */
    method ParseParenExpr(pe: seq<Token> -> Step<Expr>) returns (r: Outcome<Expr>)
      requires Valid()
      modifies this`pos, this`curTok
      ensures Valid()
      ensures r == ParenExpr(stream, old(pos), pe).out
      ensures !r.Undefined? ==> pos == old(pos) + ParenExpr(stream, old(pos), pe).used
    {
      var defined := GetNextToken();
      if !defined {
        return Undefined;
      }
      var v := ParseExpression(pe);
      if !v.Ok? {
        return v;
      }
      if curTok != Char(')') {
        return Fail(ExpectedClose);
      }
      // Control reaches the end of the function without a return.
      return Undefined;
    }

    /** One round of the argument loop (lines 177-189). */
    method ParseRound(pe: seq<Token> -> Step<Expr>) returns (seen: Seen)
      requires Valid()
      modifies this`pos, this`curTok
      ensures Valid()
      ensures seen == ArgRound(stream, old(pos), pe).seen
      ensures !(seen.Left? && seen.out.Undefined?) ==> pos == old(pos) + ArgRound(stream, old(pos), pe).used
    {
      var arg := ParseExpression(pe);
      if !arg.Ok? {
        return Left(if arg.Fail? then Fail(arg.msg) else Undefined);
      }
      if curTok == Char(')') {
        return Closed(arg.value);
      }
      if curTok != Char(',') {
        return Left(Fail(ExpectedSeparator));
      }
      var defined := GetNextToken();
      if !defined {
        return Left(Undefined);
      }
      return Comma(arg.value);
    }

    /** The `while (true)` loop of lines 177-189, which collects `Args`. */
    method ParseArgs(pe: seq<Token> -> Step<Expr>) returns (r: Outcome<seq<Expr>>)
      requires Valid()
      modifies this`pos, this`curTok
      ensures Valid()
      ensures r == ArgList(stream, old(pos), pe).out
      ensures !r.Undefined? ==> pos == old(pos) + ArgList(stream, old(pos), pe).used
    {
      ghost var start := pos;
      var args: seq<Expr> := [];
      while true
        invariant Valid() && start <= pos
        invariant ArgLoop(stream, start, pos, args, pe) == ArgList(stream, start, pe)
        decreases |stream| - pos
      {
        var seen := ParseRound(pe);
        match seen
        case Left(out) =>
          return out;
        case Closed(arg) =>
          return Ok(args + [arg]);
        case Comma(arg) =>
          args := args + [arg];
      }
    }

    /** `ParseIdentifierExpr` (lines 164-195). */
    method ParseIdentifierExpr(pe: seq<Token> -> Step<Expr>) returns (r: Outcome<Expr>)
      requires Valid() && curTok.Identifier?
      modifies this`pos, this`curTok
      ensures Valid()
      ensures r == IdentifierExpr(stream, old(pos), pe).out
      ensures !r.Undefined? ==> pos == old(pos) + IdentifierExpr(stream, old(pos), pe).used
    {
      var idName := curTok.name;
      var defined := GetNextToken();
      if !defined {
        return Undefined;
      }
      if curTok != Char('(') {
        return Ok(Variable(idName));
      }
      defined := GetNextToken();
      if !defined {
        return Undefined;
      }
      var args: seq<Expr> := [];
      if curTok != Char(')') {
        var parsed := ParseArgs(pe);
        if !parsed.Ok? {
          return if parsed.Fail? then Fail(parsed.msg) else Undefined;
        }
        args := parsed.value;
      }
      defined := GetNextToken();
      if !defined {
        return Undefined;
      }
      return Ok(Call(idName, args));
    }

    /** `ParsePrimary` (lines 197-208). */
    method ParsePrimary(pe: seq<Token> -> Step<Expr>) returns (r: Outcome<Expr>)
      requires Valid()
      modifies this`pos, this`curTok
      ensures Valid()
      ensures r == Primary(stream, old(pos), pe).out
      ensures !r.Undefined? ==> pos == old(pos) + Primary(stream, old(pos), pe).used
    {
      match curTok
      case Identifier(_) =>
        r := ParseIdentifierExpr(pe);
      case Number(_) =>
        r := ParseNumberExpr();
      case Char(c) =>
        if c == '(' {
          r := ParseParenExpr(pe);
        } else {
          r := Fail(UnknownToken);
        }
      case _ =>
        r := Fail(UnknownToken);
    }

    /** `GetTokPrecedence` (lines 212-222). */
    method GetTokPrecedence() returns (p: int)
      modifies this`binopPrecedence
      ensures p == TokPrecedence(old(binopPrecedence), curTok)
      ensures binopPrecedence == AfterLookup(old(binopPrecedence), curTok)
    {
      var code := Code(curTok);
      if !(0 <= code < 128) {
        return -1;
      }
      var c := code as char;
      if c !in binopPrecedence {
        binopPrecedence := binopPrecedence[c := 0];
      }
      var tokPrec := binopPrecedence[c];
      if tokPrec <= 0 {
        return -1;
      }
      return tokPrec;
    }

    /** The six insertions `main` makes (lines 225-230). */
    method InstallDefaultPrecedence()
      modifies this`binopPrecedence
      ensures binopPrecedence == WithDefaults(old(binopPrecedence))
    {
      binopPrecedence := binopPrecedence['<' := 10];
      binopPrecedence := binopPrecedence['>' := 10];
      binopPrecedence := binopPrecedence['+' := 20];
      binopPrecedence := binopPrecedence['-' := 20];
      binopPrecedence := binopPrecedence['*' := 40];
      binopPrecedence := binopPrecedence['/' := 40];
    }
  }

  /** The argument list the loop of lines 177-189 accepts, read from
      position `at` of `ts`: the arguments `es`, each one as far as `pe`
      reads it, separated by `,` and ended by the `)` at `close`. */
  ghost predicate ArgsAt(ts: seq<Token>, at: nat, close: nat, es: seq<Expr>, pe: seq<Token> -> Step<Expr>)
    decreases |es|
  {
    at <= close < |ts| && ts[close] == Char(')') && es != [] &&
    var e := pe(ts[at..]);
    e.out == Ok(es[0]) && at + e.used <= close &&
    if |es| == 1 then at + e.used == close
    else ts[at + e.used] == Char(',') && ArgsAt(ts, at + e.used + 1, close, es[1..], pe)
  }

  /** The loop ends on `)` after an argument. */
  lemma LoopCloses(ts: seq<Token>, start: nat, at: nat, args: seq<Expr>, pe: seq<Token> -> Step<Expr>, e: Expr, k: nat)
    requires start <= at < |ts| && Expression(pe, ts, at) == Step(Ok(e), k) && ts[at + k] == Char(')')
    ensures ArgLoop(ts, start, at, args, pe) == Step(Ok(args + [e]), at + k - start)
  {
    assert ArgRound(ts, at, pe) == Round(Closed(e), k);
  }

  /** The loop goes round again after an argument and `,`. */
  lemma LoopContinues(ts: seq<Token>, start: nat, at: nat, args: seq<Expr>, pe: seq<Token> -> Step<Expr>, e: Expr, k: nat)
    requires start <= at < |ts| && Expression(pe, ts, at) == Step(Ok(e), k)
    requires ts[at + k] == Char(',') && at + k + 1 < |ts|
    ensures ArgLoop(ts, start, at, args, pe) == ArgLoop(ts, start, at + k + 1, args + [e], pe)
  {
    assert ArgRound(ts, at, pe) == Round(Comma(e), k + 1);
  }

  /** A loop that succeeds read an argument followed by `)`, or by `,`
      and another token. */
  lemma LoopSucceeds(ts: seq<Token>, start: nat, at: nat, args: seq<Expr>, pe: seq<Token> -> Step<Expr>)
    requires start <= at < |ts| && ArgLoop(ts, start, at, args, pe).out.Ok?
    ensures Expression(pe, ts, at).out.Ok?
    ensures ts[at + Expression(pe, ts, at).used] == Char(')') ||
      (ts[at + Expression(pe, ts, at).used] == Char(',') && at + Expression(pe, ts, at).used + 1 < |ts|)
  {
  }

  /** Appending a non-empty list is appending its first element, then
      the rest. */
  lemma AppendFirst(args: seq<Expr>, es: seq<Expr>)
    requires es != []
    ensures args + es == args + [es[0]] + es[1..]
    ensures |es| == 1 ==> args + es == args + [es[0]]
  {
    assert es == [es[0]] + es[1..];
  }

  /** A list that starts with `args` and then `e`. */
  lemma SplitAfter(args: seq<Expr>, e: Expr, v: seq<Expr>)
    requires |args| < |v| && v[..|args| + 1] == args + [e]
    ensures v[..|args|] == args && v[|args|..][0] == e && v[|args|..][1..] == v[|args| + 1..]
    ensures v == args + [e] ==> v[|args|..] == [e]
  {
    assert v[..|args|] == v[..|args| + 1][..|args|];
  }

  /** Arguments that each parse are collected after `args` in source
      order, up to the closing parenthesis, wherever the loop stands. */
  lemma {:induction false} ArgLoopRoundTrip(ts: seq<Token>, start: nat, at: nat, args: seq<Expr>,
                                            close: nat, es: seq<Expr>, pe: seq<Token> -> Step<Expr>)
    requires start <= at && ArgsAt(ts, at, close, es, pe)
    ensures ArgLoop(ts, start, at, args, pe) == Step(Ok(args + es), close - start)
    decreases |es|
  {
    var k := pe(ts[at..]).used;
    assert Expression(pe, ts, at) == Step(Ok(es[0]), k);
    AppendFirst(args, es);
    if |es| == 1 {
      LoopCloses(ts, start, at, args, pe, es[0], k);
    } else {
      LoopContinues(ts, start, at, args, pe, es[0], k);
      ArgLoopRoundTrip(ts, start, at + k + 1, args + [es[0]], close, es[1..], pe);
    }
  }

  /** Conversely, a loop that succeeds has read such a list after the
      arguments `args` it started with. */
  lemma {:induction false} ArgLoopSplit(ts: seq<Token>, start: nat, at: nat, args: seq<Expr>,
                                        pe: seq<Token> -> Step<Expr>, r: Step<seq<Expr>>)
    requires start <= at < |ts| && r == ArgLoop(ts, start, at, args, pe) && r.out.Ok?
    ensures |args| <= |r.out.value| && r.out.value[..|args|] == args
    ensures ArgsAt(ts, at, start + r.used, r.out.value[|args|..], pe)
    decreases |ts| - at
  {
    var e := Expression(pe, ts, at);
    var k := e.used;
    LoopSucceeds(ts, start, at, args, pe);
    var v := r.out.value;
    if ts[at + k] == Char(')') {
      LoopCloses(ts, start, at, args, pe, e.out.value, k);
      SplitAfter(args, e.out.value, v);
    } else {
      LoopContinues(ts, start, at, args, pe, e.out.value, k);
      ArgLoopSplit(ts, start, at + k + 1, args + [e.out.value], pe, r);
      SplitAfter(args, e.out.value, v);
    }
  }

  /** The argument list at `at` is read as `es`, up to the `)` at
      `close`, exactly when the tokens there are such a list. */
  lemma ArgListIff(ts: seq<Token>, at: nat, close: nat, es: seq<Expr>, pe: seq<Token> -> Step<Expr>)
    requires at < |ts|
    ensures (ArgList(ts, at, pe).out == Ok(es) && at + ArgList(ts, at, pe).used == close) <==> ArgsAt(ts, at, close, es, pe)
  {
    var r := ArgList(ts, at, pe);
    if r.out == Ok(es) && at + r.used == close {
      ArgLoopSplit(ts, at, at, [], pe, r);
      assert r.out.value[0..] == es;
    }
    if ArgsAt(ts, at, close, es, pe) {
      ArgLoopRoundTrip(ts, at, at, [], close, es, pe);
      assert [] + es == es;
    }
  }

  /** `ParseIdentifierExpr` builds the call `f(es)` over `n` tokens exactly
      when `(` follows the name and then either `)` straight away, with no
      arguments, or an argument list read as `es`; the `)` is consumed, so
      a token must follow it. */
  lemma CallIff(ts: seq<Token>, at: nat, f: string, es: seq<Expr>, n: nat, pe: seq<Token> -> Step<Expr>)
    requires at < |ts| && ts[at] == Identifier(f)
    ensures IdentifierExpr(ts, at, pe) == Step(Ok(Call(f, es)), n) <==>
      3 <= n && at + n < |ts| && ts[at + 1] == Char('(') &&
      if ts[at + 2] == Char(')') then es == [] && n == 3
      else ArgsAt(ts, at + 2, at + n - 1, es, pe)
  {
    if 3 <= n && at + 2 < |ts| && ts[at + 1] == Char('(') && ts[at + 2] != Char(')') {
      ArgListIff(ts, at + 2, at + n - 1, es, pe);
    }
  }

  /** `f()` is a call with no arguments; it consumes the closing
      parenthesis, so a token must follow it. */
  lemma EmptyCall(f: string, tail: seq<Token>, pe: seq<Token> -> Step<Expr>)
    ensures var r := IdentifierExpr([Identifier(f), Char('('), Char(')')] + tail, 0, pe);
      if tail == [] then r.out.Undefined? else r == Step(Ok(Call(f, [])), 3)
  {
  }

  /** An identifier not followed by `(` is a variable of that name and
      consumes one token; one followed by `(` never is. */
  lemma VariableIff(ts: seq<Token>, at: nat, pe: seq<Token> -> Step<Expr>)
    requires at + 1 < |ts| && ts[at].Identifier?
    ensures (IdentifierExpr(ts, at, pe).out.Ok? && IdentifierExpr(ts, at, pe).out.value.Variable?) <==> ts[at + 1] != Char('(')
    ensures ts[at + 1] != Char('(') ==> IdentifierExpr(ts, at, pe) == Step(Ok(Variable(ts[at].name)), 1)
  {
  }

  /** A separator other than `,` or `)` after an argument fails the list
      with the message of line 187 and leaves the separator as the current
      token. */
  lemma ArgListBadSeparator(ts: seq<Token>, at: nat, pe: seq<Token> -> Step<Expr>, e: Expr, k: nat)
    requires at < |ts| && Expression(pe, ts, at) == Step(Ok(e), k)
    requires ts[at + k] != Char(')') && ts[at + k] != Char(',')
    ensures ArgList(ts, at, pe) == Step(Fail(ExpectedSeparator), k)
  {
  }

  /** `ParseParenExpr` fails exactly when the inner expression fails or is
      not followed by `)`, and it is undefined when it is. */
  lemma ParenOutcome(ts: seq<Token>, at: nat, pe: seq<Token> -> Step<Expr>)
    requires at + 1 < |ts|
    ensures var e := Expression(pe, ts, at + 1);
      (ParenExpr(ts, at, pe).out.Fail? <==> e.out.Fail? || (e.out.Ok? && ts[at + 1 + e.used] != Char(')'))) &&
      (e.out.Ok? && ts[at + 1 + e.used] != Char(')') ==> ParenExpr(ts, at, pe) == Step(Fail(ExpectedClose), 1 + e.used))
  {
  }

  /** `ParsePrimary` reports an unknown token, consuming nothing, exactly
      when the current token is not an identifier, a number or `(`; each of
      those three goes to its own parser. */
  lemma PrimaryDispatch(ts: seq<Token>, at: nat, pe: seq<Token> -> Step<Expr>)
    requires at < |ts|
    ensures Primary(ts, at, pe) == Step(Fail(UnknownToken), 0) <==>
      !(ts[at].Identifier? || ts[at].Number? || ts[at] == Char('('))
    ensures ts[at].Number? ==> Primary(ts, at, pe) == NumberExpr(ts, at)
    ensures ts[at].Identifier? ==> Primary(ts, at, pe) == IdentifierExpr(ts, at, pe)
    ensures ts[at] == Char('(') ==> Primary(ts, at, pe) == ParenExpr(ts, at, pe)
  {
  }

  /** Fed by the lexer, the parser never builds a call and never enters
      `ParseParenExpr`: the lexer returns no `(`, so every primary
      expression that parses is a number or a variable. */
  lemma NoCallFromLexer(s: string, idStr: string, numText: string, i: nat, pe: seq<Token> -> Step<Expr>)
    requires i < |Lexing.TokenStream(s, idStr, numText)|
    ensures var ts := Lexing.TokenStream(s, idStr, numText);
      Primary(ts, i, pe).out.Ok? ==> Primary(ts, i, pe).out.value.Number? || Primary(ts, i, pe).out.value.Variable?
  {
    var ts := Lexing.TokenStream(s, idStr, numText);
    Lexing.StreamHasNoCharacters(s, idStr, numText);
    assert !ts[i].Char?;
    if i + 1 < |ts| {
      assert !ts[i + 1].Char?;
    }
  }

  /** The table after a sequence of lookups, one per token in `ts`. */
  function AfterLookups(m: map<char, int>, ts: seq<Token>): map<char, int>
    decreases |ts|
  {
    if ts == [] then m else AfterLookups(AfterLookup(m, ts[0]), ts[1..])
  }

  /** A lookup does not change any precedence, so repeating it returns the
      same value and leaves the table as it is. */
  lemma LookupIdempotent(m: map<char, int>, t: Token, u: Token)
    ensures TokPrecedence(AfterLookup(m, t), u) == TokPrecedence(m, u)
    ensures AfterLookup(AfterLookup(m, t), t) == AfterLookup(m, t)
  {
  }

  /** However many lookups are made, every token keeps its precedence. */
  lemma {:induction false} LookupsKeepPrecedence(m: map<char, int>, ts: seq<Token>, u: Token)
    ensures TokPrecedence(AfterLookups(m, ts), u) == TokPrecedence(m, u)
    decreases |ts|
  {
    if ts != [] {
      LookupIdempotent(m, ts[0], u);
      LookupsKeepPrecedence(AfterLookup(m, ts[0]), ts[1..], u);
    }
  }

  /** The table `main` installs in the empty map: `*` and `/` bind tighter
      than `+` and `-`, which bind tighter than `<` and `>`, and every other
      token is not a binary operator. */
  lemma DefaultPrecedence(t: Token)
    ensures var p := TokPrecedence(WithDefaults(map[]), t);
      (t == Char('*') || t == Char('/') ==> p == 40) &&
      (t == Char('+') || t == Char('-') ==> p == 20) &&
      (t == Char('<') || t == Char('>') ==> p == 10) &&
      (!(t.Char? && t.c in "*/+-<>") ==> p == -1)
  {
  }
}
