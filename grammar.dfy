/**
 * What the recursive-descent parser of src/gem/parser.rs computes, stated on
 * the sequence of tokens still to be read. Each function takes the remaining
 * tokens (the lookahead token first) and yields either the tree it built and
 * the tokens left after it, or the error at which the source panics.
 *
 * Each loop of the source is a function of its own that takes what the loop
 * has accumulated so far (`ParamsLoop`, `ArgsLoop`, `BlockLoop`, `TopLoop`,
 * `BinopLoop`, and `InnerLoop` for the inner loop of `parse_binop_expr`).
 * Past the last token the lookahead is `Eof`, as it is for the scanner.
 */
module Grammar {
  import opened Common

  /** The syntax errors at which the source panics. */
  datatype ParseError =
    | Expected(want: Token, got: Token)
    | MissingFunctionName
    | MissingParameterName
    | MissingVariableName
    | Unexpected(got: Token)

  datatype Result<T> = Ok(value: T) | Err(error: ParseError) {
    predicate IsFailure() { Err? }
    function PropagateFailure<U>(): Result<U> requires Err? { Err(error) }
    function Extract(): T requires Ok? { value }
  }

  datatype Outcome = Pass | Fail(error: ParseError)

  /** The lookahead token; past the last token it is `Eof`. */
  function Head(ts: seq<Token>): Token
  {
    if ts == [] then Eof else ts[0]
  }

  /** The tokens after the lookahead token: `next_token`. Reading `Eof` leaves
      `Eof` in place. */
  function Tail(ts: seq<Token>): (r: seq<Token>)
    ensures |r| <= |ts|
    ensures Head(ts) != Eof ==> |r| < |ts|
  {
    if ts == [] || ts[0] == Eof then ts else ts[1..]
  }

  /** `consume`: the lookahead must be `t`, and is then read. */
  function Consume(t: Token, ts: seq<Token>): (r: Result<seq<Token>>)
    ensures r.Ok? <==> Head(ts) == t
    ensures r.Err? ==> r.error == Expected(t, Head(ts))
    ensures r.Ok? && t != Eof ==> |r.value| < |ts|
  {
    if Head(ts) != t then Err(Expected(t, Head(ts))) else Ok(Tail(ts))
  }

  /** `precedence`: additive operators bind at 1, multiplicative ones at 2. */
  function Precedence(op: Operation): (p: nat)
    ensures 1 <= p <= 2
  {
    match op
    case Add | Sub => 1
    case Mul | Div => 2
  }

  /** The token an operator is written with. */
  function OpToken(op: Operation): Token
  {
    match op
    case Add => Plus
    case Sub => Minus
    case Mul => Star
    case Div => Slash
  }

  /** `current_op`: the operator of the lookahead token, if it binds at least as
      tightly as `prec`. */
  function CurrentOp(prec: nat, t: Token): (r: Option<Operation>)
    ensures r.Some? ==> t == OpToken(r.value) && prec <= Precedence(r.value)
    ensures (exists op :: t == OpToken(op) && prec <= Precedence(op)) ==> r.Some?
  {
    if t == Plus && prec <= 1 then Some(Add)
    else if t == Minus && prec <= 1 then Some(Sub)
    else if t == Star && prec <= 2 then Some(Mul)
    else if t == Slash && prec <= 2 then Some(Div)
    else None
  }

  /** The tokens `parse_expression` accepts as the start of an expression. */
  predicate StartsExpression(t: Token)
  {
    t.LitNum? || t.LitStr? || t.Identifier? || t == ParenL
  }

  // Termination of the expression functions: every call reads a token first,
  // or else moves to a function of lower rank on the same tokens.
  function BinopRank(prec: nat): nat
  {
    if prec >= 3 then 1 else 7 - 2 * prec
  }

  function InnerRank(prec: nat): nat
  {
    if prec >= 3 then 0 else 6 - 2 * prec
  }

  /** `parse_expression`. */
  function ParseExpression(ts: seq<Token>): (r: Result<(Expr, seq<Token>)>)
    ensures r.Ok? ==> |r.value.1| < |ts|
    ensures !StartsExpression(Head(ts)) ==> r == Err(Unexpected(Head(ts)))
    decreases |ts|, 8
  {
    if StartsExpression(Head(ts)) then ParseBinop(0, ts)
    else Err(Unexpected(Head(ts)))
  }

  /** `parse_binop_expr(prec)`: a primary, then the operator loop. */
  function ParseBinop(prec: nat, ts: seq<Token>): (r: Result<(Expr, seq<Token>)>)
    ensures r.Ok? ==> |r.value.1| < |ts|
    decreases |ts|, BinopRank(prec)
  {
    match ParsePrimary(ts)
    case Err(e) => Err(e)
    case Ok((lhs, rest)) =>
      BinopLoop(prec, lhs, rest)
  }

  /** The outer loop of `parse_binop_expr`: while the lookahead is an operator
      at `prec` or tighter, read it and a right operand, and combine. */
  function BinopLoop(prec: nat, lhs: Expr, ts: seq<Token>): (r: Result<(Expr, seq<Token>)>)
    ensures r.Ok? ==> |r.value.1| <= |ts|
    decreases |ts|, 0
  {
    match CurrentOp(prec, Head(ts))
    case None => Ok((lhs, ts))
    case Some(op) =>
      match ParsePrimary(Tail(ts))
      case Err(e) => Err(e)
      case Ok((rhs, rest)) =>
        match InnerLoop(prec, rhs, rest)
        case Err(e) => Err(e)
        case Ok((rhs', rest')) =>
          BinopLoop(prec, OpBinary(op, lhs, rhs'), rest')
  }

  /** The inner loop of `parse_binop_expr`: while the lookahead is an operator
      whose precedence is at most `prec`, parse the right operand anew at
      `prec + 1`. */
  function InnerLoop(prec: nat, rhs: Expr, ts: seq<Token>): (r: Result<(Expr, seq<Token>)>)
    ensures r.Ok? ==> |r.value.1| <= |ts|
    decreases |ts|, InnerRank(prec)
  {
    match CurrentOp(prec, Head(ts))
    case None => Ok((rhs, ts))
    case Some(nextOp) =>
      if prec >= Precedence(nextOp) then
        match ParseBinop(prec + 1, ts)
        case Err(e) => Err(e)
        case Ok((rhs', rest)) =>
          InnerLoop(prec, rhs', rest)
      else Ok((rhs, ts))
  }

  /** `parse_primary_expr`: a literal, a variable, a call, or an expression in
      parentheses (which yields that expression itself). */
  function ParsePrimary(ts: seq<Token>): (r: Result<(Expr, seq<Token>)>)
    ensures r.Ok? ==> |r.value.1| < |ts|
    ensures !StartsExpression(Head(ts)) ==> r == Err(Unexpected(Head(ts)))
    decreases |ts|, 0
  {
    var t := Head(ts);
    if t.LitNum? then Ok((Expr.LitNum(t.text), Tail(ts)))
    else if t.LitStr? then Ok((Expr.LitStr(t.text), Tail(ts)))
    else if t.Identifier? then
      if Head(Tail(ts)) == ParenL then
        ParseFunctionCall(t.name, Tail(ts))
      else Ok((Variable(t.name), Tail(ts)))
    else if t == ParenL then
      var (e, rest) :- ParseExpression(Tail(ts));
      var rest' :- Consume(ParenR, rest);
      Ok((e, rest'))
    else Err(Unexpected(t))
  }

  /** `parse_function_call_expr`: `(`, the arguments, `)`. */
  function ParseFunctionCall(name: string, ts: seq<Token>): (r: Result<(Expr, seq<Token>)>)
    ensures r.Ok? ==> |r.value.1| < |ts|
    ensures r.Ok? ==> r.value.0.FunctionCall? && r.value.0.name == name
    decreases |ts|, 0
  {
    var ts1 :- Consume(ParenL, ts);
    var (args, ts2) :- ArgsLoop([], ts1);
    var ts3 :- Consume(ParenR, ts2);
    Ok((FunctionCall(name, args), ts3))
  }

  /** The argument loop: until `)`, parse an expression; a comma after it is
      read, anything else ends the list. */
  function ArgsLoop(args: seq<Expr>, ts: seq<Token>): (r: Result<(seq<Expr>, seq<Token>)>)
    ensures r.Ok? ==> |r.value.1| <= |ts| && args <= r.value.0
    decreases |ts|, 9
  {
    if Head(ts) == ParenR then Ok((args, ts))
    else
      match ParseExpression(ts)
      case Err(e) => Err(e)
      case Ok((arg, rest)) =>
        if Head(rest) == Comma then
          ArgsLoop(args + [arg], Tail(rest))
        else Ok((args + [arg], rest))
  }

  /** `parse_statement`: a declaration, or else an expression statement. */
  function ParseStatement(ts: seq<Token>): (r: Result<(Stmt, seq<Token>)>)
    ensures r.Ok? ==> |r.value.1| < |ts|
    decreases |ts|, 2
  {
    if Head(ts) == Var then ParseVariableDecl(ts)
    else if Head(ts) == Func then ParseFunctionDecl(ts)
    else
      match ParseExpression(ts)
      case Err(e) => Err(e)
      case Ok((e, rest)) => Ok((Stmt.Expr(e), rest))
  }

  /** The initializer of a declaration without `= e`: the number 0. */
  const Zero: Expr := Expr.LitNum("0")

  /** `parse_variable_decl`: `var`, a name, optionally `=` and an expression,
      then `;`. */
  function ParseVariableDecl(ts: seq<Token>): (r: Result<(Stmt, seq<Token>)>)
    ensures r.Ok? ==> |r.value.1| < |ts|
  {
    var ts1 :- Consume(Var, ts);
    if !Head(ts1).Identifier? then Err(MissingVariableName)
    else
      var name := Head(ts1).name;
      var ts2 := Tail(ts1);
      var (value, ts3) :-
        if Head(ts2) == Eq then
          var (e, rest) :- ParseExpression(Tail(ts2));
          Ok((Some(e), rest))
        else Ok((None, ts2));
      var ts4 :- Consume(Semicolon, ts3);
      Ok((VariableDecl(name, if value.Some? then value.value else Zero), ts4))
  }

  /** `parse_function_decl`: `func`, a name, `(`, parameters, `)`, and a body
      between braces. The return slot is `Null`. */
  function ParseFunctionDecl(ts: seq<Token>): (r: Result<(Stmt, seq<Token>)>)
    ensures r.Ok? ==> |r.value.1| < |ts|
    decreases |ts|, 1
  {
    var ts1 :- Consume(Func, ts);
    if !Head(ts1).Identifier? then Err(MissingFunctionName)
    else
      var name := Head(ts1).name;
      var ts2 :- Consume(ParenL, Tail(ts1));
      var (params, ts3) :- ParamsLoop([], ts2);
      // The parameter loop stops only at `)`, so this `consume` never fails.
      match Consume(ParenR, ts3)
      case Err(e) => Err(e)
      case Ok(ts4) =>
        var ts5 :- Consume(BraceL, ts4);
        var (body, ts6) :- ParseBlock(ts5);
        var ts7 :- Consume(BraceR, ts6);
        Ok((FunctionDecl(Null, name, params, body), ts7))
  }

  /** The parameter loop: until `)`, an identifier, then an optional comma. */
  function ParamsLoop(params: seq<string>, ts: seq<Token>): (r: Result<(seq<string>, seq<Token>)>)
    ensures r.Ok? ==> |r.value.1| <= |ts| && Head(r.value.1) == ParenR
    ensures r.Ok? ==> params <= r.value.0
    decreases |ts|
  {
    if Head(ts) == ParenR then Ok((params, ts))
    else if !Head(ts).Identifier? then Err(MissingParameterName)
    else
      var rest := if Head(Tail(ts)) == Comma then Tail(Tail(ts)) else Tail(ts);
      ParamsLoop(params + [Head(ts).name], rest)
  }

  /** `parse_block`: statements up to `}` or `Eof`, as a program. */
  function ParseBlock(ts: seq<Token>): (r: Result<(Stmt, seq<Token>)>)
    ensures r.Ok? ==> |r.value.1| <= |ts| && r.value.0.Program?
    ensures r.Ok? ==> Head(r.value.1) == BraceR || Head(r.value.1) == Eof
    decreases |ts|, 4
  {
    match BlockLoop([], ts)
    case Err(e) => Err(e)
    case Ok((stmts, rest)) => Ok((Program(stmts), rest))
  }

  /** The loop of `parse_block`: one statement, then one optional `;`. */
  function BlockLoop(stmts: seq<Stmt>, ts: seq<Token>): (r: Result<(seq<Stmt>, seq<Token>)>)
    ensures r.Ok? ==> |r.value.1| <= |ts| && stmts <= r.value.0
    ensures r.Ok? ==> Head(r.value.1) == BraceR || Head(r.value.1) == Eof
    decreases |ts|, 3
  {
    if Head(ts) == BraceR || Head(ts) == Eof then Ok((stmts, ts))
    else
      match ParseStatement(ts)
      case Err(e) => Err(e)
      case Ok((s, rest)) =>
        var rest' := if Head(rest) == Semicolon then Tail(rest) else rest;
        BlockLoop(stmts + [s], rest')
  }

  /** `parse`: statements up to `Eof`, as a program. */
  function ParseProgram(ts: seq<Token>): (r: Result<(Stmt, seq<Token>)>)
    ensures r.Ok? ==> |r.value.1| <= |ts| && r.value.0.Program?
    ensures r.Ok? ==> Head(r.value.1) == Eof
  {
    match TopLoop([], ts)
    case Err(e) => Err(e)
    case Ok((stmts, rest)) => Ok((Program(stmts), rest))
  }

  /** The loop of `parse`: statements until `Eof`, with no `;` skipped. */
  function TopLoop(stmts: seq<Stmt>, ts: seq<Token>): (r: Result<(seq<Stmt>, seq<Token>)>)
    ensures r.Ok? ==> |r.value.1| <= |ts| && stmts <= r.value.0
    ensures r.Ok? ==> Head(r.value.1) == Eof
    decreases |ts|
  {
    if Head(ts) == Eof then Ok((stmts, ts))
    else
      match ParseStatement(ts)
      case Err(e) => Err(e)
      case Ok((s, rest)) =>
        TopLoop(stmts + [s], rest)
  }
}
