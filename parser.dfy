/**
 * The parser of src/gem/parser.rs: a cursor over the scanner that holds the
 * lookahead token and reads one token at a time.
 *
 * Its abstract state is `remaining`, the tokens it has still to read with
 * the lookahead token first. Every parsing method is proved to agree with the
 * function of the same name in `Grammar` applied to the tokens remaining when
 * it was called: it yields the same tree or the same error, and on success
 * leaves exactly the tokens that function leaves.
 *
 * A panic of the source is an `Err` result here. After an `Err` the parser's
 * state is of no further interest, as the source would have stopped.
 */
module Parsing {
  import opened Common
  import opened Lexing
  import opened Grammar

  /** A method's result agrees with a grammar function's result, and the tokens
      left over are those the function leaves. */
  predicate Agrees<T(==)>(r: Result<T>, spec: Result<(T, seq<Token>)>, rest: seq<Token>)
  {
    match spec
    case Ok((v, rest')) => r == Ok(v) && rest == rest'
    case Err(e) => r == Err(e)
  }

  /** The whole pipeline on a text: scan it, then parse a program. */
  function ParseText(src: string): (r: Result<Stmt>)
    ensures r.Ok? ==> r.value.Program?
  {
    match Grammar.ParseProgram(Tokenize(src))
    case Ok((prog, _)) => Ok(prog)
    case Err(e) => Err(e)
  }

  class Parser {
    const lexer: Lexer
    var current: Token

    /** The tokens still to be read, the lookahead token first. */
    ghost var remaining: seq<Token>

    /** The lexer is valid; the lookahead is the first of the `remaining`
        tokens, and is `Eof` only once the lexer has reached the end of its
        text; and `remaining` is what scanning from the lexer's position yields
        after the lookahead. The last fact is stated for the position through
        a quantifier, so that the solver expands the scanner's definition only
        where a method reads a token. */
    ghost predicate Valid()
      reads this, lexer
    {
      && lexer.Valid()
      && remaining != [] && Head(remaining) == current
      && (current == Eof ==> lexer.pos == |lexer.input|)
      && (forall p :: p == lexer.pos ==> Scanned(remaining, current, lexer.input, p))
    }

    /** `Parser::new`: start with `Eof` as the lookahead, then read the first
        token. */
    constructor (lexer: Lexer)
      requires lexer.Valid()
      modifies lexer
      ensures Valid() && this.lexer == lexer
      ensures remaining == TokensFrom(lexer.input, old(lexer.pos))
    {
      this.lexer := lexer;
      current := Eof;
      remaining := [];
      new;
      current := lexer.NextToken();
      remaining := if current == Eof then [Eof] else [current] + TokensFrom(lexer.input, lexer.pos);
      assert Scanned(remaining, current, lexer.input, lexer.pos);
    }

    /** `expect_token`: the lookahead must be `t`. */
    function ExpectToken(t: Token): (r: Outcome)
      reads this
      ensures r == Pass <==> current == t
      ensures r.Fail? ==> r.error == Expected(t, current)
    {
      if current != t then Fail(Expected(t, current)) else Pass
    }

    /** `next_token`: read the lookahead token. */
    method NextToken()
      requires Valid()
      modifies this, lexer
      ensures Valid()
      ensures remaining == Tail(old(remaining))
    {
      assert Scanned(remaining, current, lexer.input, lexer.pos);
      current := lexer.NextToken();
      remaining := Tail(remaining);
      assert Scanned(remaining, current, lexer.input, lexer.pos);
    }

    /** `consume`: the lookahead must be `t`, and is then read. */
    method Consume(t: Token) returns (r: Outcome)
      requires Valid()
      modifies this, lexer
      ensures Valid()
      ensures match Grammar.Consume(t, old(remaining))
              case Ok(rest) => r == Pass && remaining == rest
              case Err(e) => r == Fail(e)
    {
      r := ExpectToken(t);
      if r == Pass {
        NextToken();
      }
    }

    /** `parse_function_decl`. */
    method ParseFunctionDecl() returns (r: Result<Stmt>)
      requires Valid()
      modifies this, lexer
      ensures Valid()
      ensures Agrees(r, Grammar.ParseFunctionDecl(old(remaining)), remaining)
      decreases |remaining|, 1
    {
      ghost var ts := remaining;
      var c := Consume(Func);
      if c.Fail? {
        return Err(c.error);
      }
      if !current.Identifier? {
        return Err(MissingFunctionName);
      }
      var name := current.name;
      NextToken();
      c := Consume(ParenL);
      if c.Fail? {
        return Err(c.error);
      }

      var params := [];
      ghost var paramsSpec := ParamsLoop([], remaining);
      while current != ParenR
        invariant Valid()
        invariant |remaining| < |ts|
        invariant ParamsLoop(params, remaining) == paramsSpec
        decreases |remaining|
      {
        if !current.Identifier? {
          return Err(MissingParameterName);
        }
        params := params + [current.name];
        NextToken();
        if current == Comma {
          NextToken();
        }
      }

      // The loop stops only at `)`, so this `consume` passes.
      c := Consume(ParenR);
      assert c == Pass;
      c := Consume(BraceL);
      if c.Fail? {
        return Err(c.error);
      }
      var body := ParseBlock();
      if body.Err? {
        return Err(body.error);
      }
      c := Consume(BraceR);
      if c.Fail? {
        return Err(c.error);
      }
      r := Ok(FunctionDecl(Null, name, params, body.value));
    }

    /** `parse_variable_decl`. */
    method ParseVariableDecl() returns (r: Result<Stmt>)
      requires Valid()
      modifies this, lexer
      ensures Valid()
      ensures Agrees(r, Grammar.ParseVariableDecl(old(remaining)), remaining)
      decreases |remaining|, 1
    {
      var c := Consume(Var);
      if c.Fail? {
        return Err(c.error);
      }
      if !current.Identifier? {
        return Err(MissingVariableName);
      }
      var name := current.name;
      NextToken();

      var value: Option<Expr> := None;
      if current == Eq {
        NextToken();
        var e := ParseExpression();
        if e.Err? {
          return Err(e.error);
        }
        value := Some(e.value);
      }

      c := Consume(Semicolon);
      if c.Fail? {
        return Err(c.error);
      }
      r := Ok(VariableDecl(name, if value.Some? then value.value else Zero));
    }

    /** `parse_expression`. */
    method ParseExpression() returns (r: Result<Expr>)
      requires Valid()
      modifies this, lexer
      ensures Valid()
      ensures Agrees(r, Grammar.ParseExpression(old(remaining)), remaining)
      decreases |remaining|, 8
    {
      if StartsExpression(current) {
        r := ParseBinopExpr(0);
      } else {
        r := Err(Unexpected(current));
      }
    }

    /** `parse_statement`. */
    method ParseStatement() returns (r: Result<Stmt>)
      requires Valid()
      modifies this, lexer
      ensures Valid()
      ensures Agrees(r, Grammar.ParseStatement(old(remaining)), remaining)
      decreases |remaining|, 2
    {
      if current == Var {
        r := ParseVariableDecl();
      } else if current == Func {
        r := ParseFunctionDecl();
      } else {
        var e := ParseExpression();
        if e.Err? {
          return Err(e.error);
        }
        r := Ok(Stmt.Expr(e.value));
      }
    }

    /** `parse_block`. */
    method ParseBlock() returns (r: Result<Stmt>)
      requires Valid()
      modifies this, lexer
      ensures Valid()
      ensures Agrees(r, Grammar.ParseBlock(old(remaining)), remaining)
      decreases |remaining|, 4
    {
      ghost var ts := remaining;
      var stmts := [];
      while current != BraceR && current != Eof
        invariant Valid()
        invariant |remaining| <= |ts|
        invariant BlockLoop(stmts, remaining) == BlockLoop([], ts)
        decreases |remaining|
      {
        var s := ParseStatement();
        if s.Err? {
          return Err(s.error);
        }
        stmts := stmts + [s.value];
        if current == Semicolon {
          NextToken();
        }
      }
      r := Ok(Program(stmts));
    }

    /** `parse_binop_expr`: a primary, then, while the lookahead is an operator
        at `prec` or tighter, that operator and a right operand. */
    method ParseBinopExpr(prec: nat) returns (r: Result<Expr>)
      requires Valid()
      modifies this, lexer
      ensures Valid()
      ensures Agrees(r, Grammar.ParseBinop(prec, old(remaining)), remaining)
      decreases |remaining|, BinopRank(prec)
    {
      ghost var ts := remaining;
      var first := ParsePrimaryExpr();
      if first.Err? {
        return Err(first.error);
      }
      var expr := first.value;
      ghost var target := BinopLoop(prec, expr, remaining);

      while Grammar.CurrentOp(prec, current).Some?
        invariant Valid()
        invariant |remaining| < |ts|
        invariant BinopLoop(prec, expr, remaining) == target
        decreases |remaining|
      {
        var op := Grammar.CurrentOp(prec, current).value;
        ghost var before := remaining;
        NextToken();
        ghost var afterOp := remaining;
        var operand := ParsePrimaryExpr();
        if operand.Err? {
          return Err(operand.error);
        }
        var rhs := operand.value;
        assert ParsePrimary(afterOp) == Ok((rhs, remaining));
        assert BinopLoop(prec, expr, before) == Combine(prec, op, expr, InnerLoop(prec, rhs, remaining));

        while Grammar.CurrentOp(prec, current).Some?
          invariant Valid()
          invariant |remaining| < |before|
          invariant Combine(prec, op, expr, InnerLoop(prec, rhs, remaining)) == target
          decreases |remaining|
        {
          var nextOp := Grammar.CurrentOp(prec, current).value;
          if prec >= Precedence(nextOp) {
            ghost var here := remaining;
            ghost var lower := rhs;
            var tighter := ParseBinopExpr(prec + 1);
            if tighter.Err? {
              return Err(tighter.error);
            }
            rhs := tighter.value;
            assert ParseBinop(prec + 1, here) == Ok((rhs, remaining));
            assert InnerLoop(prec, lower, here) == InnerLoop(prec, rhs, remaining);
          } else {
            assert InnerLoop(prec, rhs, remaining) == Ok((rhs, remaining));
            break;
          }
        }

        assert InnerLoop(prec, rhs, remaining) == Ok((rhs, remaining));
        expr := OpBinary(op, expr, rhs);
      }
      r := Ok(expr);
    }

    /** `parse_primary_expr`. */
    method ParsePrimaryExpr() returns (r: Result<Expr>)
      requires Valid()
      modifies this, lexer
      ensures Valid()
      ensures Agrees(r, Grammar.ParsePrimary(old(remaining)), remaining)
      decreases |remaining|, 0
    {
      var token := current;
      if token.LitNum? {
        NextToken();
        r := Ok(Expr.LitNum(token.text));
      } else if token.LitStr? {
        NextToken();
        r := Ok(Expr.LitStr(token.text));
      } else if token.Identifier? {
        NextToken();
        if current == ParenL {
          r := ParseFunctionCallExpr(token.name);
        } else {
          r := Ok(Variable(token.name));
        }
      } else if token == ParenL {
        NextToken();
        var e := ParseExpression();
        if e.Err? {
          return Err(e.error);
        }
        var c := Consume(ParenR);
        if c.Fail? {
          return Err(c.error);
        }
        r := Ok(e.value);
      } else {
        r := Err(Unexpected(token));
      }
    }

    /** `parse_function_call_expr`. */
    method ParseFunctionCallExpr(name: string) returns (r: Result<Expr>)
      requires Valid()
      modifies this, lexer
      ensures Valid()
      ensures Agrees(r, Grammar.ParseFunctionCall(name, old(remaining)), remaining)
      decreases |remaining|, 0
    {
      ghost var ts := remaining;
      var c := Consume(ParenL);
      if c.Fail? {
        return Err(c.error);
      }

      var args := [];
      ghost var argsSpec := ArgsLoop([], remaining);
      while current != ParenR
        invariant Valid()
        invariant |remaining| < |ts|
        invariant ArgsLoop(args, remaining) == argsSpec
        decreases |remaining|
      {
        var arg := ParseExpression();
        if arg.Err? {
          return Err(arg.error);
        }
        args := args + [arg.value];
        if current == Comma {
          NextToken();
        } else {
          break;
        }
      }

      c := Consume(ParenR);
      if c.Fail? {
        return Err(c.error);
      }
      r := Ok(FunctionCall(name, args));
    }

    /** `parse`: statements until `Eof`, as a program. */
    method Parse() returns (r: Result<Stmt>)
      requires Valid()
      modifies this, lexer
      ensures Valid()
      ensures Agrees(r, Grammar.ParseProgram(old(remaining)), remaining)
    {
      ghost var ts := remaining;
      var stmts := [];
      while current != Eof
        invariant Valid()
        invariant TopLoop(stmts, remaining) == TopLoop([], ts)
        decreases |remaining|
      {
        var s := ParseStatement();
        if s.Err? {
          return Err(s.error);
        }
        stmts := stmts + [s.value];
      }
      r := Ok(Program(stmts));
    }
  }

  /** `ts` is the lookahead `current` followed by what scanning `s` from `p`
      yields; after `Eof` nothing follows. */
  ghost predicate Scanned(ts: seq<Token>, current: Token, s: string, p: nat)
  {
    p <= |s| && ts == (if current == Eof then [Eof] else [current] + TokensFrom(s, p))
  }

  /** What remains of the outer loop of `parse_binop_expr` once the right
      operand of `op` is known: combine it with the left one and carry on. */
  ghost function Combine(prec: nat, op: Operation, lhs: Expr, operand: Result<(Expr, seq<Token>)>): Result<(Expr, seq<Token>)>
  {
    match operand
    case Err(e) => Err(e)
    case Ok((rhs, rest)) => BinopLoop(prec, OpBinary(op, lhs, rhs), rest)
  }

  /** Scanning and parsing a whole text with the two classes yields what
      `ParseText` says. */
  method ParseSource(src: string) returns (r: Result<Stmt>)
    requires IsAscii(src)
    ensures r == ParseText(src)
  {
    var lexer := new Lexer(src);
    var parser := new Parser(lexer);
    r := parser.Parse();
  }
}
