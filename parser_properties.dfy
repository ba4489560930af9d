/**
 * What the parser of src/gem/parser.rs is known to do, stated on the grammar
 * functions (and so, through the proofs of `Parsing.Parser`, on the parser
 * itself).
 *
 * The central facts: operators chain strictly to the left whatever their
 * precedence, because the inner loop of `parse_binop_expr` can only ever fail;
 * an expression written out fully parenthesised parses back to itself; and
 * the rules for semicolons, declarations, parameters and arguments.
 */
module ParserProperties {
  import opened Common
  import opened Lexing
  import opened LexerProperties
  import opened Grammar
  import opened Parsing

  // ---------------------------------------------------------------------------
  // Operator chains

  /** The operator a token stands for, at any precedence. */
  function OperatorOf(t: Token): (r: Option<Operation>)
    ensures forall op :: r == Some(op) <==> t == OpToken(op)
  {
    if t == Plus then Some(Add)
    else if t == Minus then Some(Sub)
    else if t == Star then Some(Mul)
    else if t == Slash then Some(Div)
    else None
  }

  /**
   * The reference reading of an operator chain: every operator, whatever it
   * is, combines everything to its left with the single primary to its right.
   */
  function LeftChain(lhs: Expr, ts: seq<Token>): Result<(Expr, seq<Token>)>
    decreases |ts|
  {
    match OperatorOf(Head(ts))
    case None => Ok((lhs, ts))
    case Some(op) =>
      match ParsePrimary(Tail(ts))
      case Err(e) => Err(e)
      case Ok((rhs, rest)) => LeftChain(OpBinary(op, lhs, rhs), rest)
  }

  /** At precedence 0 the inner loop never runs: every operator binds at 1 or
      2, so `precedence >= self.precedence(next_op)` is false. */
  lemma InnerLoopAtZero(rhs: Expr, ts: seq<Token>)
    ensures InnerLoop(0, rhs, ts) == Ok((rhs, ts))
  {
  }

  /** Wherever the inner loop would run, it starts `parse_binop_expr` at an
      operator token, which no primary starts with: it fails at once rather
      than replacing the right operand. */
  lemma InnerLoopInert(prec: nat, rhs: Expr, ts: seq<Token>)
    ensures InnerLoop(prec, rhs, ts) == Ok((rhs, ts))
         || InnerLoop(prec, rhs, ts) == Err(Unexpected(Head(ts)))
  {
    match CurrentOp(prec, Head(ts))
    case None =>
    case Some(nextOp) =>
      if prec >= Precedence(nextOp) {
        assert !StartsExpression(Head(ts));
        assert ParsePrimary(ts) == Err(Unexpected(Head(ts)));
      }
  }

  /** The operator loop at precedence 0 is the left chain. */
  lemma {:induction false} BinopIsLeftChain(lhs: Expr, ts: seq<Token>)
    ensures BinopLoop(0, lhs, ts) == LeftChain(lhs, ts)
    decreases |ts|
  {
    match CurrentOp(0, Head(ts))
    case None =>
      assert OperatorOf(Head(ts)).None?;
    case Some(op) =>
      assert OperatorOf(Head(ts)) == Some(op);
      match ParsePrimary(Tail(ts))
      case Err(e) =>
      case Ok((rhs, rest)) =>
        InnerLoopAtZero(rhs, rest);
        BinopIsLeftChain(OpBinary(op, lhs, rhs), rest);
  }

  /** An expression is a primary followed by a left chain. */
  lemma ExpressionIsLeftChain(ts: seq<Token>)
    requires StartsExpression(Head(ts))
    ensures var p := ParsePrimary(ts);
      ParseExpression(ts) == if p.Err? then Err(p.error) else LeftChain(p.value.0, p.value.1)
  {
    var p := ParsePrimary(ts);
    if p.Ok? {
      BinopIsLeftChain(p.value.0, p.value.1);
    }
  }

  /** `consume` reads exactly the expected token off the front and leaves
      every token after it; at `Eof` it leaves the tokens as they are. */
  lemma ConsumeReads(t: Token, ts: seq<Token>)
    requires Head(ts) == t
    ensures t != Eof ==> Consume(t, ts) == Ok(ts[1..])
    ensures t == Eof ==> Consume(t, ts) == Ok(ts)
  {
  }

  /** Reading a token off the front. */
  lemma Read(t: Token, ts: seq<Token>)
    ensures Head([t] + ts) == t
    ensures t != Eof ==> Tail([t] + ts) == ts
  {
  }

  /** One link of a chain of variables: the operator takes the whole chain so
      far as its left operand and the next variable alone as its right. */
  lemma ChainLink(lhs: Expr, op: Operation, name: string, rest: seq<Token>)
    requires Head(rest) != ParenL
    ensures LeftChain(lhs, [OpToken(op), Identifier(name)] + rest)
         == LeftChain(OpBinary(op, lhs, Variable(name)), rest)
  {
    var ts := [OpToken(op), Identifier(name)] + rest;
    assert ts == [OpToken(op)] + ([Identifier(name)] + rest);
    Read(OpToken(op), [Identifier(name)] + rest);
    IdentifierPrimary(name, rest);
  }

  /** A chain ends at the first token that is not an operator. */
  lemma ChainEnd(lhs: Expr, ts: seq<Token>)
    requires OperatorOf(Head(ts)).None?
    ensures LeftChain(lhs, ts) == Ok((lhs, ts))
  {
  }

  /** Any chain of three variables groups to the left, whatever its two
      operators: `a op1 b op2 c` is `(a op1 b) op2 c`. */
  lemma ChainOfThree(a: string, op1: Operation, b: string, op2: Operation, c: string, rest: seq<Token>)
    requires Head(rest) != ParenL && OperatorOf(Head(rest)).None?
    ensures ParseExpression([Identifier(a), OpToken(op1), Identifier(b), OpToken(op2), Identifier(c)] + rest)
         == Ok((OpBinary(op2, OpBinary(op1, Variable(a), Variable(b)), Variable(c)), rest))
  {
    var tail1 := [OpToken(op2), Identifier(c)] + rest;
    var tail0 := [OpToken(op1), Identifier(b)] + tail1;
    var ts := [Identifier(a)] + tail0;
    assert [Identifier(a), OpToken(op1), Identifier(b), OpToken(op2), Identifier(c)] + rest == ts;
    IdentifierPrimary(a, tail0);
    ExpressionIsLeftChain(ts);
    ChainLink(Variable(a), op1, b, tail1);
    ChainLink(OpBinary(op1, Variable(a), Variable(b)), op2, c, rest);
    ChainEnd(OpBinary(op2, OpBinary(op1, Variable(a), Variable(b)), Variable(c)), rest);
  }

  /** `a - b - c` is `(a - b) - c`. */
  lemma SubtractionChain(a: string, b: string, c: string, rest: seq<Token>)
    requires Head(rest) != ParenL && OperatorOf(Head(rest)).None?
    ensures ParseExpression([Identifier(a), Minus, Identifier(b), Minus, Identifier(c)] + rest)
         == Ok((OpBinary(Sub, OpBinary(Sub, Variable(a), Variable(b)), Variable(c)), rest))
  {
    ChainOfThree(a, Sub, b, Sub, c, rest);
  }

  /** `a + b * c` is `(a + b) * c`: the multiplication does not bind tighter. */
  lemma NoPrecedence(a: string, b: string, c: string, rest: seq<Token>)
    requires Head(rest) != ParenL && OperatorOf(Head(rest)).None?
    ensures ParseExpression([Identifier(a), Plus, Identifier(b), Star, Identifier(c)] + rest)
         == Ok((OpBinary(Mul, OpBinary(Add, Variable(a), Variable(b)), Variable(c)), rest))
  {
    ChainOfThree(a, Add, b, Mul, c, rest);
  }

  // ---------------------------------------------------------------------------
  // Primaries

  /** An identifier is a call exactly when `(` follows it, and a variable
      otherwise. */
  lemma IdentifierPrimary(name: string, ts: seq<Token>)
    ensures Head(ts) == ParenL ==> ParsePrimary([Identifier(name)] + ts) == ParseFunctionCall(name, ts)
    ensures Head(ts) != ParenL ==> ParsePrimary([Identifier(name)] + ts) == Ok((Variable(name), ts))
  {
    assert Tail([Identifier(name)] + ts) == ts;
  }

  /** Parentheses leave no trace in the tree: `( e )` is `e` itself. */
  lemma ParenthesesTransparent(ts: seq<Token>, e: Expr, rest: seq<Token>)
    requires ParseExpression(ts) == Ok((e, [ParenR] + rest))
    ensures ParsePrimary([ParenL] + ts) == Ok((e, rest))
  {
    assert Tail([ParenL] + ts) == ts;
    assert Tail([ParenR] + rest) == rest;
  }

  // ---------------------------------------------------------------------------
  // Printing an expression as tokens and parsing it back

  /** Expressions that can be written down: no `Null` placeholder inside. */
  predicate Writable(e: Expr)
    decreases e
  {
    match e
    case Null => false
    case LitNum(_) => true
    case LitStr(_) => true
    case Variable(_) => true
    case OpBinary(_, left, right) => Writable(left) && Writable(right)
    case FunctionCall(_, args) => WritableArgs(args)
  }

  predicate WritableArgs(args: seq<Expr>)
    decreases args
  {
    args == [] || (Writable(args[0]) && WritableArgs(args[1..]))
  }

  /** The tokens of an expression with every operation in parentheses, and
      the arguments of a call separated by commas. */
  function ExprTokens(e: Expr): (ts: seq<Token>)
    decreases e
  {
    match e
    case Null => []
    case LitNum(text) => [Token.LitNum(text)]
    case LitStr(text) => [Token.LitStr(text)]
    case Variable(name) => [Identifier(name)]
    case OpBinary(op, left, right) =>
      [ParenL] + ExprTokens(left) + [OpToken(op)] + ExprTokens(right) + [ParenR]
    case FunctionCall(name, args) => [Identifier(name), ParenL] + ArgsTokens(args) + [ParenR]
  }

  function ArgsTokens(args: seq<Expr>): seq<Token>
    decreases args
  {
    if args == [] then []
    else if |args| == 1 then ExprTokens(args[0])
    else ExprTokens(args[0]) + [Comma] + ArgsTokens(args[1..])
  }

  /** A written expression starts as an expression must. */
  lemma WrittenStart(e: Expr, rest: seq<Token>)
    requires Writable(e)
    ensures StartsExpression(Head(ExprTokens(e) + rest))
  {
  }

  lemma Associate(a: seq<Token>, b: seq<Token>, c: seq<Token>, d: seq<Token>, f: seq<Token>, g: seq<Token>)
    ensures a + b + c + d + f + g == a + (b + (c + (d + (f + g))))
  {
  }

  lemma AssociateCall(name: string, args: seq<Token>, rest: seq<Token>)
    ensures [Identifier(name), ParenL] + args + [ParenR] + rest
         == [Identifier(name)] + ([ParenL] + (args + ([ParenR] + rest)))
  {
  }

  lemma AssociateArgs(first: seq<Token>, more: seq<Token>, rest: seq<Token>)
    ensures first + [Comma] + more + rest == first + ([Comma] + (more + rest))
  {
  }

  /** A primary followed by no operator is a whole expression. */
  lemma PrimaryAlone(ts: seq<Token>, e: Expr, rest: seq<Token>)
    requires ParsePrimary(ts) == Ok((e, rest)) && OperatorOf(Head(rest)).None?
    ensures ParseExpression(ts) == Ok((e, rest))
  {
    assert StartsExpression(Head(ts));
    assert CurrentOp(0, Head(rest)).None?;
    assert BinopLoop(0, e, rest) == Ok((e, rest));
    assert ParseBinop(0, ts) == BinopLoop(0, e, rest);
  }

  /** Two primaries joined by one operator. */
  lemma OneOperation(ts: seq<Token>, left: Expr, op: Operation, ys: seq<Token>, right: Expr, rest: seq<Token>)
    requires ParsePrimary(ts) == Ok((left, [OpToken(op)] + ys))
    requires ParsePrimary(ys) == Ok((right, rest)) && OperatorOf(Head(rest)).None?
    ensures ParseExpression(ts) == Ok((OpBinary(op, left, right), rest))
  {
    assert StartsExpression(Head(ts));
    var e := OpBinary(op, left, right);
    Read(OpToken(op), ys);
    assert CurrentOp(0, OpToken(op)) == Some(op);
    InnerLoopAtZero(right, rest);
    assert CurrentOp(0, Head(rest)).None?;
    assert BinopLoop(0, e, rest) == Ok((e, rest));
    assert BinopLoop(0, left, [OpToken(op)] + ys) == BinopLoop(0, e, rest);
    assert ParseBinop(0, ts) == BinopLoop(0, left, [OpToken(op)] + ys);
  }

  /** One argument of a call, then a comma or the end of the arguments. */
  lemma ArgsStep(acc: seq<Expr>, ts: seq<Token>, e: Expr, after: seq<Token>)
    requires Head(ts) != ParenR && ParseExpression(ts) == Ok((e, after))
    ensures Head(after) == Comma ==> ArgsLoop(acc, ts) == ArgsLoop(acc + [e], Tail(after))
    ensures Head(after) != Comma ==> ArgsLoop(acc, ts) == Ok((acc + [e], after))
  {
  }

  /** A written expression, followed by anything but `(`, reads back as a
      single primary. */
  lemma {:induction false} PrimaryRoundTrip(e: Expr, rest: seq<Token>)
    requires Writable(e) && Head(rest) != ParenL
    ensures ParsePrimary(ExprTokens(e) + rest) == Ok((e, rest))
    decreases e, 2
  {
    match e
    case LitNum(text) =>
      Read(Token.LitNum(text), rest);
    case LitStr(text) =>
      Read(Token.LitStr(text), rest);
    case Variable(name) =>
      IdentifierPrimary(name, rest);
    case OpBinary(op, left, right) =>
      OperationRoundTrip(op, left, right, rest);
    case FunctionCall(name, args) =>
      CallRoundTrip(name, args, rest);
  }

  lemma {:induction false} OperationRoundTrip(op: Operation, left: Expr, right: Expr, rest: seq<Token>)
    requires Writable(left) && Writable(right)
    ensures ParsePrimary(ExprTokens(OpBinary(op, left, right)) + rest) == Ok((OpBinary(op, left, right), rest))
    decreases OpBinary(op, left, right), 1
  {
    var afterRight := [ParenR] + rest;
    var ys := ExprTokens(right) + afterRight;
    var afterLeft := [OpToken(op)] + ys;
    var inner := ExprTokens(left) + afterLeft;
    Associate([ParenL], ExprTokens(left), [OpToken(op)], ExprTokens(right), [ParenR], rest);
    Read(OpToken(op), ys);
    PrimaryRoundTrip(left, afterLeft);
    Read(ParenR, rest);
    PrimaryRoundTrip(right, afterRight);
    OneOperation(inner, left, op, ys, right, afterRight);
    ParenthesesTransparent(inner, OpBinary(op, left, right), rest);
  }

  lemma {:induction false} CallRoundTrip(name: string, args: seq<Expr>, rest: seq<Token>)
    requires WritableArgs(args)
    ensures ParsePrimary(ExprTokens(FunctionCall(name, args)) + rest) == Ok((FunctionCall(name, args), rest))
    decreases FunctionCall(name, args), 1
  {
    var afterArgs := [ParenR] + rest;
    var call := [ParenL] + (ArgsTokens(args) + afterArgs);
    AssociateCall(name, ArgsTokens(args), rest);
    Read(ParenL, ArgsTokens(args) + afterArgs);
    IdentifierPrimary(name, call);
    Read(ParenR, rest);
    ArgsRoundTrip([], args, afterArgs);
    assert [] + args == args;
  }

  /** A written expression, followed by anything but `(` or an operator,
      parses back to itself. */
  lemma {:induction false} ExpressionRoundTrip(e: Expr, rest: seq<Token>)
    requires Writable(e) && Head(rest) != ParenL && OperatorOf(Head(rest)).None?
    ensures ParseExpression(ExprTokens(e) + rest) == Ok((e, rest))
    decreases e, 3
  {
    PrimaryRoundTrip(e, rest);
    PrimaryAlone(ExprTokens(e) + rest, e, rest);
  }

  /** Written arguments, followed by `)`, read back as the same arguments. */
  lemma {:induction false} ArgsRoundTrip(acc: seq<Expr>, args: seq<Expr>, rest: seq<Token>)
    requires WritableArgs(args) && Head(rest) == ParenR
    ensures ArgsLoop(acc, ArgsTokens(args) + rest) == Ok((acc + args, rest))
    decreases args, 1
  {
    if args == [] {
      assert ArgsTokens(args) + rest == rest;
      assert acc + args == acc;
    } else {
      ArgRoundTrip(acc, args, rest);
    }
  }

  /** The first of the written arguments, and the rest after it. */
  lemma {:induction false} ArgRoundTrip(acc: seq<Expr>, args: seq<Expr>, rest: seq<Token>)
    requires args != [] && WritableArgs(args) && Head(rest) == ParenR
    ensures ArgsLoop(acc, ArgsTokens(args) + rest) == Ok((acc + args, rest))
    decreases args, 0
  {
    var first := args[0];
    assert Writable(first) && WritableArgs(args[1..]);
    if |args| == 1 {
      assert ArgsTokens(args) == ExprTokens(first);
      WrittenStart(first, rest);
      ExpressionRoundTrip(first, rest);
      ArgsStep(acc, ExprTokens(first) + rest, first, rest);
      assert acc + [first] == acc + args;
    } else {
      var more := ArgsTokens(args[1..]) + rest;
      var after := [Comma] + more;
      assert ArgsTokens(args) == ExprTokens(first) + [Comma] + ArgsTokens(args[1..]);
      AssociateArgs(ExprTokens(first), ArgsTokens(args[1..]), rest);
      Read(Comma, more);
      WrittenStart(first, after);
      ExpressionRoundTrip(first, after);
      ArgsStep(acc, ExprTokens(first) + after, first, after);
      ArgsRoundTrip(acc + [first], args[1..], rest);
      AppendFirst(acc, args);
    }
  }

  // ---------------------------------------------------------------------------
  // Calls

  /** `f()` is a call with no arguments. */
  lemma NoArguments(name: string, rest: seq<Token>)
    ensures ParseFunctionCall(name, [ParenL, ParenR] + rest) == Ok((FunctionCall(name, []), rest))
  {
    var ts := [ParenL, ParenR] + rest;
    assert Tail(ts) == [ParenR] + rest;
    Read(ParenR, rest);
  }

  /** A comma after the last argument is accepted: `f(a,)` is `f(a)`. */
  lemma TrailingComma(name: string, arg: string, rest: seq<Token>)
    ensures ParseFunctionCall(name, [ParenL, Identifier(arg), Comma, ParenR] + rest)
         == Ok((FunctionCall(name, [Variable(arg)]), rest))
  {
    var afterComma := [ParenR] + rest;
    var after := [Comma] + afterComma;
    var args := [Identifier(arg)] + after;
    assert [ParenL, Identifier(arg), Comma, ParenR] + rest == [ParenL] + args;
    Read(ParenL, args);
    Read(Comma, afterComma);
    Read(ParenR, rest);
    IdentifierPrimary(arg, after);
    PrimaryAlone(args, Variable(arg), after);
    ArgsStep([], args, Variable(arg), after);
    assert [] + [Variable(arg)] == [Variable(arg)];
    assert ArgsLoop([Variable(arg)], afterComma) == Ok(([Variable(arg)], afterComma));
  }

  /** Arguments need commas between them: in `f(a b)` the argument list ends
      after `a`, and `)` is missing. */
  lemma MissingComma(name: string, a: string, b: string, rest: seq<Token>)
    ensures ParseFunctionCall(name, [ParenL, Identifier(a), Identifier(b)] + rest)
         == Err(Expected(ParenR, Identifier(b)))
  {
    var after := [Identifier(b)] + rest;
    var args := [Identifier(a)] + after;
    assert [ParenL, Identifier(a), Identifier(b)] + rest == [ParenL] + args;
    Read(ParenL, args);
    IdentifierPrimary(a, after);
    PrimaryAlone(args, Variable(a), after);
    ArgsStep([], args, Variable(a), after);
  }

  // ---------------------------------------------------------------------------
  // Variable declarations

  /** `var x = e;` declares `x` with the value `e`. */
  lemma VariableWithValue(name: string, ts: seq<Token>, e: Expr, rest: seq<Token>)
    requires ParseExpression(ts) == Ok((e, [Semicolon] + rest))
    ensures ParseVariableDecl([Var, Identifier(name), Eq] + ts) == Ok((VariableDecl(name, e), rest))
  {
    var ts2 := [Eq] + ts;
    var ts1 := [Identifier(name)] + ts2;
    assert [Var, Identifier(name), Eq] + ts == [Var] + ts1;
    Read(Var, ts1);
    Read(Identifier(name), ts2);
    Read(Eq, ts);
    Read(Semicolon, rest);
  }

  /** `var x;` declares `x` with the value 0. */
  lemma VariableWithoutValue(name: string, rest: seq<Token>)
    ensures ParseVariableDecl([Var, Identifier(name), Semicolon] + rest) == Ok((VariableDecl(name, Zero), rest))
  {
    var ts2 := [Semicolon] + rest;
    var ts1 := [Identifier(name)] + ts2;
    assert [Var, Identifier(name), Semicolon] + rest == [Var] + ts1;
    Read(Var, ts1);
    Read(Identifier(name), ts2);
    Read(Semicolon, rest);
  }

  /** A declaration without a name fails. */
  lemma VariableWithoutName(t: Token, rest: seq<Token>)
    requires !t.Identifier?
    ensures ParseVariableDecl([Var, t] + rest) == Err(MissingVariableName)
  {
    var ts1 := [t] + rest;
    assert [Var, t] + rest == [Var] + ts1;
    Read(Var, ts1);
  }

  /** A declaration without a value must end in `;` right after its name:
      `var x 1` fails at `1`. */
  lemma VariableWithoutSemicolon(name: string, t: Token, ts: seq<Token>)
    requires t != Eq && t != Semicolon
    ensures ParseVariableDecl([Var, Identifier(name), t] + ts) == Err(Expected(Semicolon, t))
  {
    var ts2 := [t] + ts;
    var ts1 := [Identifier(name)] + ts2;
    assert [Var, Identifier(name), t] + ts == [Var] + ts1;
    Read(Var, ts1);
    Read(Identifier(name), ts2);
  }

  /** The same holds after an initializer: `var x = 1 2` fails at `2`. */
  lemma VariableValueWithoutSemicolon(name: string, ts: seq<Token>, e: Expr, rest: seq<Token>)
    requires ParseExpression(ts) == Ok((e, rest)) && Head(rest) != Semicolon
    ensures ParseVariableDecl([Var, Identifier(name), Eq] + ts) == Err(Expected(Semicolon, Head(rest)))
  {
    var eq2 := [Eq] + ts;
    var eq1 := [Identifier(name)] + eq2;
    assert [Var, Identifier(name), Eq] + ts == [Var] + eq1;
    Read(Var, eq1);
    Read(Identifier(name), eq2);
    Read(Eq, ts);
  }

  // ---------------------------------------------------------------------------
  // Function declarations

  /** A declaration without a name fails: `func (x) {}` is rejected. */
  lemma FunctionWithoutName(t: Token, rest: seq<Token>)
    requires !t.Identifier?
    ensures ParseFunctionDecl([Func, t] + rest) == Err(MissingFunctionName)
  {
    var ts1 := [t] + rest;
    assert [Func, t] + rest == [Func] + ts1;
    Read(Func, ts1);
  }

  /** Every declared function has the placeholder `Null` as its return slot
      and a program as its body. */
  lemma FunctionShape(ts: seq<Token>)
    requires ParseFunctionDecl(ts).Ok?
    ensures var d := ParseFunctionDecl(ts).value.0;
      d.FunctionDecl? && d.ret == Null && d.body.Program?
  {
  }

  /** The tokens of a parameter list: each name, each optionally followed by
      a comma. */
  function ParamTokens(names: seq<string>, commas: seq<bool>): seq<Token>
    requires |commas| == |names|
  {
    if names == [] then []
    else [Identifier(names[0])] + (if commas[0] then [Comma] else []) + ParamTokens(names[1..], commas[1..])
  }

  /** Parameters are read back whether or not commas separate them, and a
      comma after the last one is accepted: `f(a b)` and `f(a,)` both
      declare their names. */
  lemma {:induction false} ParamsRoundTrip(acc: seq<string>, names: seq<string>, commas: seq<bool>, rest: seq<Token>)
    requires |commas| == |names| && Head(rest) == ParenR
    ensures ParamsLoop(acc, ParamTokens(names, commas) + rest) == Ok((acc + names, rest))
    decreases names
  {
    if names == [] {
      assert ParamTokens(names, commas) + rest == rest;
      assert acc + names == acc;
    } else {
      var later := ParamTokens(names[1..], commas[1..]);
      var first := [Identifier(names[0])] + (if commas[0] then [Comma] else []);
      var more := later + rest;
      assert ParamTokens(names, commas) == first + later;
      AssociateParams(first, later, rest);
      if names[1..] == [] {
        assert more == rest;
      } else {
        assert Head(more) == Identifier(names[1]);
      }
      ParamStep(acc, names[0], commas[0], more);
      ParamsRoundTrip(acc + [names[0]], names[1..], commas[1..], rest);
      AppendFirst(acc, names);
    }
  }

  /** A whole declaration reads back its name, its parameters in order and
      its body, with the placeholder `Null` as the return slot, and leaves
      what follows the closing `}`. */
  lemma FunctionDeclaration(n: string, names: seq<string>, commas: seq<bool>, bts: seq<Token>, body: Stmt, rest: seq<Token>)
    requires |commas| == |names|
    requires ParseBlock(bts) == Ok((body, [BraceR] + rest))
    ensures ParseFunctionDecl([Func, Identifier(n), ParenL] + ParamTokens(names, commas) + [ParenR, BraceL] + bts)
         == Ok((FunctionDecl(Null, n, names, body), rest))
  {
    var tail := [ParenR, BraceL] + bts;
    ParamsRoundTrip([], names, commas, tail);
    assert [] + names == names;
    DeclarationTokens(n, ParamTokens(names, commas), bts);
    Read(BraceR, rest);
    DeclarationAround([Func, Identifier(n), ParenL] + ParamTokens(names, commas) + [ParenR, BraceL] + bts,
                      n, names, tail, body, [BraceR] + rest);
  }

  /** Where the pieces of a declaration sit in its tokens. */
  lemma DeclarationTokens(n: string, ps: seq<Token>, bts: seq<Token>)
    ensures var ts := [Func, Identifier(n), ParenL] + ps + [ParenR, BraceL] + bts;
      var tail := [ParenR, BraceL] + bts;
      && Head(ts) == Func && Head(Tail(ts)) == Identifier(n) && Head(Tail(Tail(ts))) == ParenL
      && Tail(Tail(Tail(ts))) == ps + tail
      && Head(tail) == ParenR && Head(Tail(tail)) == BraceL && Tail(Tail(tail)) == bts
  {
    Regroup(Func, Identifier(n), ParenL, ps, ParenR, BraceL, bts);
    var tail := [ParenR] + ([BraceL] + bts);
    Read(Func, [Identifier(n)] + ([ParenL] + (ps + tail)));
    Read(Identifier(n), [ParenL] + (ps + tail));
    Read(ParenL, ps + tail);
    Read(ParenR, [BraceL] + bts);
    Read(BraceL, bts);
  }

  lemma Regroup<T>(a: T, b: T, c: T, ps: seq<T>, d: T, e: T, bts: seq<T>)
    ensures [a, b, c] + ps + [d, e] + bts == [a] + ([b] + ([c] + (ps + ([d] + ([e] + bts)))))
    ensures [d, e] + bts == [d] + ([e] + bts)
  {
  }

  /** The declaration around a parameter list that reads back as `names`. */
  lemma DeclarationAround(ts: seq<Token>, n: string, names: seq<string>, tail: seq<Token>, body: Stmt, after: seq<Token>)
    requires Head(ts) == Func && Head(Tail(ts)) == Identifier(n) && Head(Tail(Tail(ts))) == ParenL
    requires ParamsLoop([], Tail(Tail(Tail(ts)))) == Ok((names, tail))
    requires Head(tail) == ParenR && Head(Tail(tail)) == BraceL
    requires ParseBlock(Tail(Tail(tail))) == Ok((body, after)) && Head(after) == BraceR
    ensures ParseFunctionDecl(ts) == Ok((FunctionDecl(Null, n, names, body), Tail(after)))
  {
  }

  lemma AppendFirst<T>(acc: seq<T>, xs: seq<T>)
    requires xs != []
    ensures acc + [xs[0]] + xs[1..] == acc + xs
  {
  }

  lemma AssociateParams(first: seq<Token>, later: seq<Token>, rest: seq<Token>)
    ensures first + later + rest == first + (later + rest)
  {
  }

  /** One parameter, with or without a comma after it. */
  lemma ParamStep(acc: seq<string>, name: string, comma: bool, more: seq<Token>)
    requires !comma ==> Head(more) != Comma
    ensures ParamsLoop(acc, [Identifier(name)] + (if comma then [Comma] else []) + more)
         == ParamsLoop(acc + [name], more)
  {
    var after := (if comma then [Comma] else []) + more;
    assert [Identifier(name)] + (if comma then [Comma] else []) + more == [Identifier(name)] + after;
    Read(Identifier(name), after);
    if comma {
      Read(Comma, more);
    } else {
      assert after == more;
    }
  }

  /** A token other than a name or `)` in the parameter list fails. */
  lemma ParameterNotAName(acc: seq<string>, t: Token, rest: seq<Token>)
    requires t != ParenR && !t.Identifier?
    ensures ParamsLoop(acc, [t] + rest) == Err(MissingParameterName)
  {
  }

  // ---------------------------------------------------------------------------
  // Statements and semicolons

  /** In a block, one `;` after a statement is skipped. */
  lemma BlockSkipsSemicolon(stmts: seq<Stmt>, ts: seq<Token>, s: Stmt, rest: seq<Token>)
    requires Head(ts) != BraceR && Head(ts) != Eof
    requires ParseStatement(ts) == Ok((s, [Semicolon] + rest))
    ensures BlockLoop(stmts, ts) == BlockLoop(stmts + [s], rest)
  {
    Read(Semicolon, rest);
  }

  /** A `;` where a statement should start fails, in a block and at the top
      level alike: so a block skips one `;` and no more. */
  lemma StraySemicolon(stmts: seq<Stmt>, rest: seq<Token>)
    ensures BlockLoop(stmts, [Semicolon] + rest) == Err(Unexpected(Semicolon))
    ensures TopLoop(stmts, [Semicolon] + rest) == Err(Unexpected(Semicolon))
  {
    Read(Semicolon, rest);
  }

  /** At the top level no `;` is skipped: an expression statement followed by
      `;` fails there. */
  lemma TopLevelSemicolon(stmts: seq<Stmt>, ts: seq<Token>, e: Expr, rest: seq<Token>)
    requires Head(ts) != Eof && Head(ts) != Var && Head(ts) != Func
    requires ParseExpression(ts) == Ok((e, [Semicolon] + rest))
    ensures TopLoop(stmts, ts) == Err(Unexpected(Semicolon))
  {
    StraySemicolon(stmts + [Stmt.Expr(e)], rest);
  }

  /** Parsing of an empty or blank text yields the empty program. */
  lemma BlankProgram(src: string)
    requires forall k :: 0 <= k < |src| ==> IsWhitespace(src[k])
    ensures ParseText(src) == Ok(Program([]))
  {
    BlankText(src);
  }
}
