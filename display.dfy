/**
 * The `Display` implementations of src/gem/common.rs, as functions from a
 * tree to the text it is printed as, and what that text is known to satisfy.
 *
 * A numeric literal prints as the text it was scanned from (floating-point
 * formatting is not modelled). The source prints neither the placeholder
 * `Null` nor an expression statement; here `Null` prints as nothing and an
 * expression statement as its expression.
 */
module Display {
  import opened Common

  /** The symbol of an operator: one character. */
  function RenderOp(op: Operation): (r: string)
    ensures |r| == 1
  {
    match op
    case Add => "+"
    case Sub => "-"
    case Mul => "*"
    case Div => "/"
  }

  /** The parts separated by ", ", as Rust's `join(", ")`. */
  function Join(parts: seq<string>): (r: string)
    ensures parts == [] ==> r == ""
    ensures parts != [] ==> parts[0] <= r
    ensures |parts| > 0 ==> |r| >= 2 * (|parts| - 1)
  {
    if |parts| == 0 then ""
    else if |parts| == 1 then parts[0]
    else parts[0] + ", " + Join(parts[1..])
  }

  /** An operation prints fully parenthesised, a call ends in `)`, and a
      string literal is quoted as `str'…'`. */
  function RenderExpr(e: Expr): (r: string)
    ensures e.OpBinary? ==> |r| >= 5 && r[0] == '(' && r[|r| - 1] == ')'
    ensures e.FunctionCall? ==> e.name <= r && |r| >= |e.name| + 2 && r[|r| - 1] == ')'
    ensures e.LitStr? ==> |r| == |e.text| + 5 && r[..4] == "str'" && r[|r| - 1] == '\''
    decreases e
  {
    match e
    case Null => ""
    case LitNum(text) => text
    case LitStr(text) => "str'" + text + "'"
    case Variable(name) => name
    case OpBinary(op, left, right) =>
      "(" + RenderExpr(left) + " " + RenderOp(op) + " " + RenderExpr(right) + ")"
    case FunctionCall(name, args) => name + "(" + Join(RenderArgs(args)) + ")"
  }

  /** Each argument rendered on its own, in order. */
  function RenderArgs(args: seq<Expr>): (r: seq<string>)
    ensures |r| == |args|
    decreases args
  {
    if args == [] then [] else [RenderExpr(args[0])] + RenderArgs(args[1..])
  }

  /** A declaration prints after its keyword, `function` or `variable`; a
      function declaration ends in `}`; an empty program prints nothing. */
  function RenderStmt(s: Stmt): (r: string)
    ensures s.FunctionDecl? ==> "function " <= r && r[|r| - 1] == '}'
    ensures s.VariableDecl? ==> "variable " <= r
    ensures s.Program? && s.stmts == [] ==> r == ""
    decreases s
  {
    match s
    case FunctionDecl(_, name, params, body) =>
      "function " + name + "(" + Join(params) + ") {\n    " + RenderStmt(body) + "\n}"
    case VariableDecl(name, value) => "variable " + name + "(" + RenderExpr(value) + ") "
    case Expr(e) => RenderExpr(e)
    case Program(stmts) => RenderBlock(stmts)
  }

  /** Every statement of a program, each followed by a blank line. */
  function RenderBlock(stmts: seq<Stmt>): (r: string)
    ensures stmts != [] ==> |r| >= 2 && r[|r| - 2..] == "\n\n"
    decreases stmts
  {
    if stmts == [] then "" else RenderStmt(stmts[0]) + "\n\n" + RenderBlock(stmts[1..])
  }

  // ---------------------------------------------------------------------------
  // Properties of the rendering

  /** Distinct operators print as distinct symbols. */
  lemma RenderOpInjective(a: Operation, b: Operation)
    ensures RenderOp(a) == RenderOp(b) <==> a == b
  {
  }

  /** Printing a program distributes over concatenation of its statements. */
  lemma {:induction false} RenderBlockAppend(a: seq<Stmt>, b: seq<Stmt>)
    ensures RenderStmt(Program(a + b)) == RenderStmt(Program(a)) + RenderStmt(Program(b))
    decreases |a|
  {
    if a == [] {
      assert a + b == b;
    } else {
      assert (a + b)[0] == a[0];
      assert (a + b)[1..] == a[1..] + b;
      RenderBlockAppend(a[1..], b);
    }
  }

  /** A program of n statements prints at least n blank-line separators. */
  lemma {:induction false} RenderBlockLength(stmts: seq<Stmt>)
    ensures |RenderStmt(Program(stmts))| >= 2 * |stmts|
    ensures stmts == [] <==> RenderStmt(Program(stmts)) == ""
    decreases |stmts|
  {
    if stmts != [] {
      RenderBlockLength(stmts[1..]);
    }
  }

  /** How often `c` occurs in `s`. */
  function Count(c: char, s: string): nat
  {
    if s == [] then 0 else (if s[0] == c then 1 else 0) + Count(c, s[1..])
  }

  lemma {:induction false} CountAppend(c: char, a: string, b: string)
    ensures Count(c, a + b) == Count(c, a) + Count(c, b)
    decreases |a|
  {
    if a == [] {
      assert a + b == b;
    } else {
      assert (a + b)[0] == a[0];
      assert (a + b)[1..] == a[1..] + b;
      CountAppend(c, a[1..], b);
    }
  }

  function SumCount(c: char, parts: seq<string>): nat
  {
    if parts == [] then 0 else Count(c, parts[0]) + SumCount(c, parts[1..])
  }

  /** Joining adds no occurrence of a character that the separator lacks. */
  lemma {:induction false} JoinCount(c: char, parts: seq<string>)
    requires c != ',' && c != ' '
    ensures Count(c, Join(parts)) == SumCount(c, parts)
    decreases |parts|
  {
    if |parts| == 1 {
      assert parts[1..] == [];
    } else if |parts| > 1 {
      CountAbsent(c, ", ");
      CountAppend(c, parts[0], ", ");
      CountAppend(c, parts[0] + ", ", Join(parts[1..]));
      JoinCount(c, parts[1..]);
    }
  }

  /** No parenthesis in a piece of text. */
  predicate PlainText(t: string)
  {
    forall k :: 0 <= k < |t| ==> t[k] != '(' && t[k] != ')'
  }

  /** No name or literal text in the tree holds a parenthesis. */
  predicate Plain(e: Expr)
    decreases e
  {
    match e
    case Null => true
    case LitNum(text) => PlainText(text)
    case LitStr(text) => PlainText(text)
    case Variable(name) => PlainText(name)
    case OpBinary(_, left, right) => Plain(left) && Plain(right)
    case FunctionCall(name, args) => PlainText(name) && forall i :: 0 <= i < |args| ==> Plain(args[i])
  }

  /** The number of binary-operation and call nodes in a tree. */
  function Pairs(e: Expr): nat
    decreases e
  {
    match e
    case OpBinary(_, left, right) => 1 + Pairs(left) + Pairs(right)
    case FunctionCall(_, args) => 1 + PairsAll(args)
    case _ => 0
  }

  function PairsAll(args: seq<Expr>): nat
    decreases args
  {
    if args == [] then 0 else Pairs(args[0]) + PairsAll(args[1..])
  }

  lemma {:induction false} CountAbsent(c: char, t: string)
    requires forall k :: 0 <= k < |t| ==> t[k] != c
    ensures Count(c, t) == 0
    decreases |t|
  {
    if t != [] {
      CountAbsent(c, t[1..]);
    }
  }

  /**
   * Every binary operation and every call contributes exactly one pair of
   * parentheses to the printed text, and nothing else does.
   */
  lemma {:induction false} ParenthesesBalance(c: char, e: Expr)
    requires c == '(' || c == ')'
    requires Plain(e)
    ensures Count(c, RenderExpr(e)) == Pairs(e)
    decreases e
  {
    match e
    case Null =>
    case LitNum(text) => CountAbsent(c, text);
    case LitStr(text) =>
      CountAbsent(c, text);
      CountQuoted(c, text);
    case Variable(name) => CountAbsent(c, name);
    case OpBinary(op, left, right) =>
      ParenthesesBalance(c, left);
      ParenthesesBalance(c, right);
      CountAbsent(c, RenderOp(op));
      CountBinary(c, RenderExpr(left), RenderOp(op), RenderExpr(right));
    case FunctionCall(name, args) =>
      CountAbsent(c, name);
      ParenthesesBalanceArgs(c, args);
      JoinCount(c, RenderArgs(args));
      CountCall(c, name, Join(RenderArgs(args)));
  }

  /** A printed string literal has the parentheses of its text. */
  lemma CountQuoted(c: char, text: string)
    requires c == '(' || c == ')'
    ensures Count(c, "str'" + text + "'") == Count(c, text)
  {
    CountAbsent(c, "str'");
    CountAbsent(c, "'");
    CountAppend(c, "str'", text);
    CountAppend(c, "str'" + text, "'");
  }

  /** The parentheses of a printed call: its own pair and its arguments'. */
  lemma CountCall(c: char, name: string, args: string)
    requires c == '(' || c == ')'
    requires Count(c, name) == 0
    ensures Count(c, name + "(" + args + ")") == 1 + Count(c, args)
  {
    CountAppend(c, name, "(");
    CountAppend(c, name + "(", args);
    CountAppend(c, name + "(" + args, ")");
  }

  /** The parentheses of a printed binary operation: its own pair and its
      operands'. */
  lemma CountBinary(c: char, l: string, o: string, r: string)
    requires c == '(' || c == ')'
    requires Count(c, o) == 0
    ensures Count(c, "(" + l + " " + o + " " + r + ")") == 1 + Count(c, l) + Count(c, r)
  {
    CountAppend(c, "(", l);
    CountAppend(c, "(" + l, " ");
    CountAppend(c, "(" + l + " ", o);
    CountAppend(c, "(" + l + " " + o, " ");
    CountAppend(c, "(" + l + " " + o + " ", r);
    CountAppend(c, "(" + l + " " + o + " " + r, ")");
  }

  lemma {:induction false} ParenthesesBalanceArgs(c: char, args: seq<Expr>)
    requires c == '(' || c == ')'
    requires forall i :: 0 <= i < |args| ==> Plain(args[i])
    ensures SumCount(c, RenderArgs(args)) == PairsAll(args)
    decreases args
  {
    if args != [] {
      ParenthesesBalance(c, args[0]);
      ParenthesesBalanceArgs(c, args[1..]);
      assert RenderArgs(args)[1..] == RenderArgs(args[1..]);
    }
  }

  /** A call without arguments prints as its name and an empty pair of
      parentheses. */
  lemma EmptyCall(name: string)
    ensures RenderExpr(FunctionCall(name, [])) == name + "()"
  {
  }

  /** A program of one statement prints that statement and a blank line. */
  lemma RenderProgramSingle(s: Stmt)
    ensures RenderStmt(Program([s])) == RenderStmt(s) + "\n\n"
  {
    assert [s][0] == s;
    assert [s][1..] == [];
    assert RenderBlock([s]) == RenderStmt(s) + "\n\n" + RenderBlock([]);
  }

  /** The return slot of a function declaration is not printed. */
  lemma ReturnSlotIgnored(a: Expr, b: Expr, name: string, params: seq<string>, body: Stmt)
    ensures RenderStmt(FunctionDecl(a, name, params, body)) == RenderStmt(FunctionDecl(b, name, params, body))
  {
  }

  /** A variable declaration prints its value between parentheses after the
      name, and ends in a space. */
  lemma VariableDeclText(name: string, value: Expr)
    ensures var r := RenderStmt(VariableDecl(name, value));
      && r[..9] == "variable "
      && |r| == 12 + |name| + |RenderExpr(value)|
      && r[9..9 + |name|] == name
      && r[9 + |name|] == '('
      && r[10 + |name|..|r| - 2] == RenderExpr(value)
      && r[|r| - 2..] == ") "
  {
    var r := RenderStmt(VariableDecl(name, value));
    assert r == "variable " + name + "(" + RenderExpr(value) + ") ";
  }
}
