# gem-lang front end in Dafny

This project models the front end of gem-lang (primalgnoot/gem-lang). That front end is a scanner and a recursive-descent parser for a small language of variable declarations, function declarations and arithmetic expressions with calls. It also models the printer that turns the resulting tree back into text. Each part of the model comes with proofs of what it does.

The model follows the source file by file:

- `common.dfy` (module `Common`): the token, operator, expression and statement types of `src/gem/common.rs`.
- `display.dfy` (module `Display`): the `Display` implementations of `src/gem/common.rs`. They are pure functions from a tree to its text. Lemmas cover the parentheses, the program layout and the declaration formats.
- `lexer.dfy` (module `Lexing`): the scanner of `src/gem/lexer.rs`. The pure function `Lex(s, p)` is its specification: it gives the next token of `s` from position `p` and the position after it. The class `Lexer` keeps the source's mutable cursor `pos`, and its loop-based methods are proved to do what `Lex` says.
- `lexer_properties.dfy` (module `LexerProperties`): what the scanner guarantees. This covers the shape of the token stream, when `Eof` appears, the thirteen symbols, maximal numbers and words, keywords, skipped characters and worked examples.
- `grammar.dfy` (module `Grammar`): the parser's behaviour as pure functions over the tokens still to be read. A function on success gives the tree built and the tokens left; on failure it gives the syntax error at which the source panics. Each loop of the source is a function of its own.
- `parser.dfy` (module `Parsing`): the class `Parser` of `src/gem/parser.rs`, holding the scanner and a lookahead token. Each parsing method is proved to give the same result as the grammar function it is named after, applied to the tokens remaining when it was called. Four of the names differ: `ParseBinopExpr` is proved against `Grammar.ParseBinop`, `ParsePrimaryExpr` against `Grammar.ParsePrimary`, `ParseFunctionCallExpr` against `Grammar.ParseFunctionCall`, and `Parse` against `Grammar.ParseProgram`. On success it leaves exactly the tokens that function leaves. `ParseSource` runs the whole pipeline on a text, and its result is `ParseText(src)`.
- `parser_properties.dfy` (module `ParserProperties`): what the parser guarantees:
  - operator chains nest strictly to the left;
  - a fully parenthesised expression parses back to itself;
  - the rules for declarations, parameters, call arguments and semicolons.

The source files disagree with each other, and the model follows `parser.rs`, the code that builds the trees:

- `parser.rs` builds a four-field `FunctionDecl` whose first field is an `Expr::Null` return slot. It also builds expression statements (`Stmt::Expr`). `common.rs` declares neither and has a three-field `FunctionDecl`. The model has `Expr.Null`, `Stmt.Expr` and the four-field `FunctionDecl`.
- `lexer.rs` has its own `Token` enum, with `Number(f64)` and no string literal. The model has the single token type of `common.rs` and scans a number into `LitNum(text)`.

With textbook precedence, `a + b * c` would parse as `a + (b * c)`. The code does not do that. The inner loop of `parse_binop_expr` (src/gem/parser.rs:131-137) parses a tighter right operand only when the lookahead operator binds no tighter than the current level (src/gem/parser.rs:132-133). The level is always 0, and every operator binds at 1 or 2. So when that loop is entered it breaks at once, and its recursive branch never runs. Every chain therefore nests to the left: `a + b * c` is `(a + b) * c`. The model follows the code, and the lemmas `InnerLoopAtZero`, `BinopIsLeftChain`, `ChainOfThree` and `NoPrecedence` state the consequence.

## Model

| member | source | states |
|---|---|---|
| Lexing.PunctToken | src/gem/lexer.rs:51-64 | a symbol's token is never `Eof`, a name or a number, and no symbol is a digit, a letter or whitespace, so the order of the scanner's tests does not matter |
| Lexing.NumberEnd | src/gem/lexer.rs:82-91 | a number starting at a digit is not empty, stays within the text, and no digit follows it |
| Lexing.Keyword | src/gem/lexer.rs:104-109 | a word is `Func` exactly when it is "func", `Var` exactly when it is "var", and otherwise an identifier of that word |
| Lexing.TokensFrom | src/gem/lexer.rs:33-72 | scanning from a position on gives at least one token and at most one per remaining character, plus `Eof` |
| Lexing.Tokenize | src/gem/lexer.rs:33-72 | the tokens `next_token` gives on a text up to `Eof`: at least one, and at most one per character plus `Eof` |
| Lexing.RunEnd | src/gem/lexer.rs:34-36 | the scan of one character class stops at the end of the longest run of that class: every character skipped is in the class, and the one it stops at is not |
| Lexing.Lex | src/gem/lexer.rs:33-72 | scanning never moves back or past the end; an `Eof` leaves the cursor at the end of the text; every other token moves the cursor forward; no string literal is ever produced |
| Lexing.Lexer.constructor | src/gem/lexer.rs:29-31 | a new scanner is over the given text with its cursor at 0 |
| Lexing.Lexer.CurrentChar | src/gem/lexer.rs:75-77 | the character under the cursor, and none exactly at the end |
| Lexing.Lexer.NextToken | src/gem/lexer.rs:33-72 | the token returned and the new cursor are exactly what `Lex` gives from the old cursor |
| Lexing.Lexer.ParseNumber | src/gem/lexer.rs:79-95 | the cursor moves over digits, then at most one '.' and more digits; the token carries the text read |
| Lexing.Lexer.ParseIdentifier | src/gem/lexer.rs:97-110 | the cursor moves over the longest run of letters and digits; the word is `Func`, `Var` or an identifier |
| LexerProperties.TokensWellFormed | src/gem/lexer.rs:38-40 | the token stream of a text ends with `Eof`, holds no other `Eof`, and holds no string literal |
| LexerProperties.LexEofIff | src/gem/lexer.rs:34-40 | scanning gives `Eof` exactly when no character from the cursor on can start a token |
| LexerProperties.LexAfterEof | src/gem/lexer.rs:38-40 | after `Eof` the cursor is at the end, and scanning again gives `Eof` at the end once more |
| LexerProperties.BlankText | src/gem/lexer.rs:34-40 | a text of whitespace only, including the empty text, scans to `Eof` alone |
| LexerProperties.PunctuationToken | src/gem/lexer.rs:51-64 | each of the thirteen symbols gives its own token and advances the cursor by exactly one |
| LexerProperties.PunctTokenInjective | src/gem/lexer.rs:51-64 | distinct symbols give distinct tokens |
| LexerProperties.SkipUnknown | src/gem/lexer.rs:67-70 | a character that is not whitespace and cannot start a token is dropped, and scanning resumes after it |
| LexerProperties.NumberToken | src/gem/lexer.rs:79-94 | a number's text is digits with at most one '.', no digit follows it, and no '.' follows a number without one |
| LexerProperties.WordToken | src/gem/lexer.rs:97-109 | a word is the longest run of letters and digits; it is `Func` iff spelled "func", `Var` iff spelled "var", and otherwise an identifier with that name |
| LexerProperties.TwoDots | src/gem/lexer.rs:86-91 | "1.2.3" starts with the number "1.2", and the second '.' is a token of its own |
| LexerProperties.NegativeNumber | src/gem/lexer.rs:53 | "-5" scans as a minus sign and the number "5" |
| LexerProperties.NearKeywords | src/gem/lexer.rs:104-109 | "funct" and "Var" are identifiers |
| LexerProperties.KeywordsExact | src/gem/lexer.rs:104-109 | "func" and "var" are keywords and end where their letters end |
| LexerProperties.UnderscoreSplits | src/gem/lexer.rs:67-70 | '_' is dropped and splits "a_b" into two words: the first scan gives `a` and stops at '_', the next skips '_' and gives `b` |
| LexerProperties.UnknownCharacters | src/gem/lexer.rs:67-70 | '#' and '"' are dropped |
| Display.RenderOp | src/gem/common.rs:47-57 | each operator prints as a single character |
| Display.Join | src/gem/common.rs:69-70 | `join(", ")` of no parts is empty; of some parts it starts with the first part and is at least two characters long per separator |
| Display.RenderExpr | src/gem/common.rs:59-74 | an operation prints inside parentheses, a call prints as its name followed by a parenthesised list, a string literal prints quoted as `str'…'` |
| Display.RenderArgs | src/gem/common.rs:69 | one printed argument per argument |
| Display.RenderStmt | src/gem/common.rs:76-94 | a function declaration prints after "function " and ends in '}', a variable declaration prints after "variable ", and an empty program prints nothing |
| Display.RenderBlock | src/gem/common.rs:86-91 | the statements of a non-empty program print ending in a blank line |
| Display.RenderOpInjective | src/gem/common.rs:47-57 | distinct operators print as distinct symbols |
| Display.ParenthesesBalance | src/gem/common.rs:59-74 | if no name or literal contains a parenthesis, the printed expression has exactly one '(' and one ')' per binary operation and per call |
| Display.ParenthesesBalanceArgs | src/gem/common.rs:68-71 | the printed arguments of a call have, taken together, one pair of parentheses per operation and call inside them |
| Display.JoinCount | src/gem/common.rs:70 | joining with ", " adds no character other than ',' and ' ' |
| Display.EmptyCall | src/gem/common.rs:68-71 | a call without arguments prints as `name()` |
| Display.VariableDeclText | src/gem/common.rs:83-84 | a variable declaration prints as "variable ", the name, '(' right after the name, exactly the printed value, and ") " at the end |
| Display.RenderProgramSingle | src/gem/common.rs:86-91 | a program of one statement prints as that statement followed by a blank line |
| Display.ReturnSlotIgnored | src/gem/common.rs:79-82 | the printed function declaration does not depend on the return slot |
| Display.RenderBlockAppend | src/gem/common.rs:86-91 | a program prints as its statements printed in order, one after another |
| Display.RenderBlockLength | src/gem/common.rs:86-91 | a program of n statements prints at least 2n characters, its n blank-line separators, and prints as the empty text exactly when it has no statements |
| Grammar.Consume | src/gem/parser.rs:32-35 | `consume(t)` succeeds exactly when the lookahead is `t`, fails with "expected t, got lookahead" otherwise, and reads one token |
| ParserProperties.Read | src/gem/parser.rs:27-29 | a token in front is the lookahead (`Grammar.Head`), and reading it leaves exactly the tokens after it |
| ParserProperties.ConsumeReads | src/gem/parser.rs:32-35 | a `consume` that succeeds leaves exactly the tokens after the lookahead, and leaves them all in place at `Eof` |
| Grammar.Tail | src/gem/parser.rs:27-29 | reading a token shortens the tokens still to be read, unless the lookahead is `Eof`, which the scanner gives again and again |
| Grammar.Precedence | src/gem/parser.rs:205-210 | every operator binds at 1 or 2 |
| Grammar.CurrentOp | src/gem/parser.rs:195-203 | the lookahead is an operator exactly when some operator written with that token binds at least at the given level, and then that operator is returned |
| Grammar.ParseExpression | src/gem/parser.rs:96-101 | an expression that does not start with a literal, an identifier or '(' fails with "unexpected token"; on success at least one token is read |
| Grammar.ParseBinop | src/gem/parser.rs:124-143 | on success at least one token is read |
| Grammar.BinopLoop | src/gem/parser.rs:127-140 | the operator loop never reads back |
| Grammar.InnerLoop | src/gem/parser.rs:131-137 | the inner loop never reads back |
| Grammar.ParsePrimary | src/gem/parser.rs:145-173 | a token that cannot start a primary fails with "unexpected token"; on success at least one token is read |
| Grammar.ParseFunctionCall | src/gem/parser.rs:175-193 | a parsed call is a `FunctionCall` with the given name |
| Grammar.ArgsLoop | src/gem/parser.rs:179-188 | the arguments collected extend those before, in order |
| Grammar.ParseStatement | src/gem/parser.rs:103-109 | on success at least one token is read |
| Grammar.ParseVariableDecl | src/gem/parser.rs:73-94 | on success at least one token is read |
| Grammar.ParseFunctionDecl | src/gem/parser.rs:37-71 | on success at least one token is read |
| Grammar.ParamsLoop | src/gem/parser.rs:50-61 | the parameter loop stops only at ')' and extends the names before, in order |
| Grammar.ParseBlock | src/gem/parser.rs:111-122 | a block is a program, and it ends at '}' or `Eof` |
| Grammar.BlockLoop | src/gem/parser.rs:114-119 | the statements collected extend those before, in order, up to '}' or `Eof` |
| Grammar.ParseProgram | src/gem/parser.rs:212-220 | a parse is a program, and it reads everything up to `Eof` |
| Grammar.TopLoop | src/gem/parser.rs:215-217 | the statements collected extend those before, in order, up to `Eof` |
| Parsing.ParseText | src/gem/parser.rs:212-220 | parsing a text, when it succeeds, gives a program |
| Parsing.Parser.constructor | src/gem/parser.rs:10-17 | the new parser's lookahead is the first token of the text, and the tokens still to be read are the text's token stream |
| Parsing.Parser.ExpectToken | src/gem/parser.rs:20-24 | the check passes exactly when the lookahead is the expected token, and otherwise reports the two tokens |
| Parsing.Parser.NextToken | src/gem/parser.rs:27-29 | reading a token drops exactly the lookahead from the tokens still to be read |
| Parsing.Parser.Consume | src/gem/parser.rs:32-35 | agrees with `Grammar.Consume` on the tokens still to be read |
| Parsing.Parser.ParseFunctionDecl | src/gem/parser.rs:37-71 | agrees with `Grammar.ParseFunctionDecl`: same declaration or same error, same tokens left |
| Parsing.Parser.ParseVariableDecl | src/gem/parser.rs:73-94 | agrees with `Grammar.ParseVariableDecl` |
| Parsing.Parser.ParseExpression | src/gem/parser.rs:96-101 | agrees with `Grammar.ParseExpression` |
| Parsing.Parser.ParseStatement | src/gem/parser.rs:103-109 | agrees with `Grammar.ParseStatement` |
| Parsing.Parser.ParseBlock | src/gem/parser.rs:111-122 | agrees with `Grammar.ParseBlock` |
| Parsing.Parser.ParseBinopExpr | src/gem/parser.rs:124-143 | agrees with `Grammar.ParseBinop` at the same level, both loops included |
| Parsing.Parser.ParsePrimaryExpr | src/gem/parser.rs:145-173 | agrees with `Grammar.ParsePrimary` |
| Parsing.Parser.ParseFunctionCallExpr | src/gem/parser.rs:175-193 | agrees with `Grammar.ParseFunctionCall` |
| Parsing.Parser.Parse | src/gem/parser.rs:212-220 | agrees with `Grammar.ParseProgram` |
| Parsing.ParseSource | src/main.rs:24-27 | scanning and parsing a text with the two classes gives exactly `ParseText` of it |
| ParserProperties.InnerLoopAtZero | src/gem/parser.rs:131-137 | at level 0 the inner loop never replaces the right operand |
| ParserProperties.InnerLoopInert | src/gem/parser.rs:131-137 | at any level the inner loop either leaves the right operand as it is or fails at the operator, since no primary starts with one |
| ParserProperties.BinopIsLeftChain | src/gem/parser.rs:127-140 | the operator loop at level 0 equals the reference left chain: each operator takes everything to its left and the single primary to its right |
| ParserProperties.ExpressionIsLeftChain | src/gem/parser.rs:124-143 | an expression is one primary followed by a left chain |
| ParserProperties.SubtractionChain | src/gem/parser.rs:127-140 | `a - b - c` is `(a - b) - c` |
| ParserProperties.NoPrecedence | src/gem/parser.rs:127-140 | `a + b * c` is `(a + b) * c` |
| ParserProperties.ChainOfThree | src/gem/parser.rs:124-143 | `a op1 b op2 c` is `(a op1 b) op2 c` for every pair of operators |
| ParserProperties.IdentifierPrimary | src/gem/parser.rs:157-164 | an identifier is a call iff '(' follows it, and a variable otherwise |
| ParserProperties.ParenthesesTransparent | src/gem/parser.rs:165-170 | `( e )` gives `e` itself |
| ParserProperties.PrimaryRoundTrip | src/gem/parser.rs:145-173 | an expression written out fully parenthesised reads back as the same tree, as one primary |
| ParserProperties.OperationRoundTrip | src/gem/parser.rs:165-170 | a written binary operation reads back as itself |
| ParserProperties.CallRoundTrip | src/gem/parser.rs:175-193 | a written call reads back as itself, with all its arguments in order |
| ParserProperties.ExpressionRoundTrip | src/gem/parser.rs:96-101 | a written expression that no operator or '(' follows parses back to itself |
| ParserProperties.ArgsRoundTrip | src/gem/parser.rs:179-188 | written arguments separated by commas, before ')', read back as the same arguments in order |
| ParserProperties.ArgRoundTrip | src/gem/parser.rs:180-187 | the first written argument and those after it read back in order |
| ParserProperties.NoArguments | src/gem/parser.rs:176-192 | `f()` is a call with no arguments |
| ParserProperties.TrailingComma | src/gem/parser.rs:183-184 | `f(a,)` is `f(a)` |
| ParserProperties.MissingComma | src/gem/parser.rs:185-190 | in `f(a b)` the arguments end after `a`, and the call fails expecting ')' |
| ParserProperties.VariableWithValue | src/gem/parser.rs:86-93 | `var x = e;` declares `x` with value `e` and reads past the ';' |
| ParserProperties.VariableWithoutValue | src/gem/parser.rs:84-93 | `var x;` declares `x` with the number 0 |
| ParserProperties.VariableWithoutName | src/gem/parser.rs:76-80 | `var` not followed by a name fails |
| ParserProperties.VariableWithoutSemicolon | src/gem/parser.rs:84-91 | a declaration whose name is followed by neither '=' nor ';' fails expecting ';', at that token |
| ParserProperties.VariableValueWithoutSemicolon | src/gem/parser.rs:86-91 | a declaration whose value is not followed by ';' fails expecting ';', at the token after the value |
| ParserProperties.FunctionWithoutName | src/gem/parser.rs:40-44 | `func` not followed by a name fails, so `func (x) {}` is rejected |
| ParserProperties.FunctionShape | src/gem/parser.rs:70 | a declared function has the `Null` return slot and a program as its body |
| ParserProperties.FunctionDeclaration | src/gem/parser.rs:37-71 | `func n(params) { body }` declares `n` with the parameter names in order, whether or not commas separate them, the `Null` return slot and the body its block parses to, and leaves exactly the tokens after the closing '}' |
| ParserProperties.ParamsRoundTrip | src/gem/parser.rs:50-61 | parameter names read back in order whether or not a comma follows each, so `f(a b)` and `f(a,)` are both accepted |
| ParserProperties.ParameterNotAName | src/gem/parser.rs:52-56 | a token in the parameter list that is neither a name nor ')' fails |
| ParserProperties.BlockSkipsSemicolon | src/gem/parser.rs:114-119 | in a block, one ';' after a statement is skipped |
| ParserProperties.StraySemicolon | src/gem/parser.rs:103-109 | a ';' where a statement should start fails, in a block and at the top level |
| ParserProperties.TopLevelSemicolon | src/gem/parser.rs:215-217 | at the top level an expression statement followed by ';' fails |
| ParserProperties.BlankProgram | src/gem/parser.rs:212-220 | an empty or blank text parses as the empty program |

## Left out

- src/main.rs is left out: it only prints the parse of a fixed text. `ParseSource` takes the text as a parameter instead.
- Numbers are not converted to `f64`. A number token and a numeric literal keep the text they were scanned from. The default value of a declaration is the literal "0", where the source has `0.0`. Floating-point printing is not modelled.
- Only ASCII text is modelled (`Lexer.Valid`). The source advances a byte offset by one character at a time, which holds only for single-byte characters. Whitespace is Rust's `char::is_whitespace` on ASCII, and the alphanumeric test is ASCII letters and digits.
- A panic of the source is an `Err` result carrying which syntax error occurred. The panic messages themselves are not modelled.
- The `fmt::Formatter` plumbing is not modelled. Printing is a function from a tree to a `string`.
- The source prints neither `Null` nor an expression statement. Here `Null` prints as nothing and an expression statement prints as its expression.
- Parsing.Parser.ParseFunctionDecl and the other parsing methods: after an `Err` their contracts say nothing about the parser's state, because the source has stopped at that point.
- Grammar.ParseExpression, Grammar.ParseBinop, Grammar.ParsePrimary, Grammar.ParseStatement and the other grammar functions state only that the tokens left are fewer, not that they are a suffix of the input. The suffix form was too costly for the solver in the parser's proofs.
- Lexing.TokensFrom: its own contract bounds only the number of tokens. That the stream ends in `Eof` alone is in `LexerProperties.TokensWellFormed`.
- Grammar.Consume: its own contract says only that success reads one token. That it leaves exactly the tokens after the lookahead is in `ParserProperties.ConsumeReads`, because that fact in the function's contract made the parser's proofs too costly for the solver.
- Display.RenderArgs: its contract gives the number of printed arguments, not each one. Each is `RenderExpr` of its argument by definition.
- Lexing.Lex: its contract gives `Eof` at the end in one direction. The converse, and the exact condition for `Eof`, are in `LexerProperties.LexEofIff`.
- The source has no rule that scans a string literal, so `LitStr` tokens never arise from text. The sample text in src/main.rs, `var x = "Hello, From x!";`, scans as a variable declaration whose value is the variable `Hello` followed by a ','. So it would fail expecting ';'. The parser's handling of `LitStr` tokens is still modelled.
