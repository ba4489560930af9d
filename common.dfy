/**
 * The values shared by the lexer and the parser: tokens, arithmetic
 * operations, expressions and statements (src/gem/common.rs).
 *
 * The parser builds three things that common.rs does not declare: the
 * placeholder expression `Null`, the expression statement `Stmt::Expr`, and a
 * function declaration with a leading return slot. They are added here in the
 * shape the parser uses them.
 */
module Common {

  datatype Option<T> = None | Some(value: T)

  /** One lexical unit. A numeric literal keeps the text it was scanned from. */
  datatype Token =
    | LitNum(text: string)
    | LitStr(text: string)
    | Identifier(name: string)
    | Plus | Minus | Star | Slash
    | Eq | Colon | Comma | Dot | Semicolon
    | ParenL | ParenR | BraceL | BraceR
    | Func | Var
    | Eof

  /** The four binary arithmetic operators. */
  datatype Operation = Add | Sub | Mul | Div

  datatype Expr =
    | Null
    | LitNum(text: string)
    | LitStr(text: string)
    | Variable(name: string)
    | OpBinary(op: Operation, left: Expr, right: Expr)
    | FunctionCall(name: string, args: seq<Expr>)

  datatype Stmt =
    | FunctionDecl(ret: Expr, name: string, params: seq<string>, body: Stmt)
    | VariableDecl(name: string, value: Expr)
    | Expr(expr: Expr)
    | Program(stmts: seq<Stmt>)
}
