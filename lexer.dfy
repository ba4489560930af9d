/**
 * The scanner of src/gem/lexer.rs.
 *
 * `Lex(s, p)` is the specification: the token that scanning `s` from position
 * `p` yields and the position scanning stops at. The class `Lexer` is the
 * cursor-based scanner itself, whose methods advance `pos` with loops and are
 * proved to do exactly what `Lex` says.
 *
 * Characters are ASCII: the source advances a byte offset by one and slices
 * the text at it, which only works on single-byte characters.
 */
module Lexing {
  import opened Common

  /** ASCII whitespace as Rust's `char::is_whitespace` sees it: tab, line feed,
      vertical tab, form feed, carriage return and space. */
  predicate IsWhitespace(c: char)
  {
    c == ' ' || 9 <= c as int <= 13
  }

  predicate IsDigit(c: char)
  {
    '0' <= c <= '9'
  }

  predicate IsLetter(c: char)
  {
    'a' <= c <= 'z' || 'A' <= c <= 'Z'
  }

  /** Rust's `char::is_alphanumeric` on ASCII characters. */
  predicate IsAlphanumeric(c: char)
  {
    IsLetter(c) || IsDigit(c)
  }

  predicate IsAscii(s: string)
  {
    forall k :: 0 <= k < |s| ==> s[k] as int < 128
  }

  /** The token of each of the thirteen one-character symbols. No symbol is a
      digit, a letter or whitespace, so the order in which the scanner tests
      these classes does not matter. */
  function PunctToken(c: char): (r: Option<Token>)
    ensures r.Some? ==> !IsDigit(c) && !IsLetter(c) && !IsWhitespace(c)
    ensures r.Some? ==> r.value != Eof && !r.value.Identifier? && !r.value.LitNum?
  {
    match c
    case '+' => Some(Plus)
    case '-' => Some(Minus)
    case '*' => Some(Star)
    case '/' => Some(Slash)
    case '=' => Some(Eq)
    case ':' => Some(Colon)
    case ',' => Some(Comma)
    case '.' => Some(Dot)
    case ';' => Some(Semicolon)
    case '(' => Some(ParenL)
    case ')' => Some(ParenR)
    case '{' => Some(BraceL)
    case '}' => Some(BraceR)
    case _ => None
  }

  /** The character classes the scanner skips or collects runs of. */
  datatype CharClass = Whitespace | Digits | Alphanumerics

  predicate InClass(cls: CharClass, c: char)
  {
    match cls
    case Whitespace => IsWhitespace(c)
    case Digits => IsDigit(c)
    case Alphanumerics => IsAlphanumeric(c)
  }

  /** The end of the longest run of characters of a class that starts at `p`. */
  function RunEnd(s: string, p: nat, cls: CharClass): (r: nat)
    requires p <= |s|
    ensures p <= r <= |s|
    ensures forall k :: p <= k < r ==> InClass(cls, s[k])
    ensures r < |s| ==> !InClass(cls, s[r])
    decreases |s| - p
  {
    if p < |s| && InClass(cls, s[p]) then RunEnd(s, p + 1, cls) else p
  }

  /** The end of a number: digits, then optionally one '.' and more digits. */
  function NumberEnd(s: string, p: nat): (r: nat)
    requires p <= |s|
    ensures p <= r <= |s|
    ensures p < |s| && IsDigit(s[p]) ==> p < r
    ensures r < |s| ==> !IsDigit(s[r])
  {
    var d := RunEnd(s, p, Digits);
    if d < |s| && s[d] == '.' then RunEnd(s, d + 1, Digits) else d
  }

  /** A scanned word: one of the two keywords, or else an identifier. */
  function Keyword(word: string): (r: Token)
    ensures r == Func <==> word == "func"
    ensures r == Var <==> word == "var"
    ensures r.Func? || r.Var? || r == Identifier(word)
  {
    if word == "func" then Func
    else if word == "var" then Var
    else Identifier(word)
  }

  /**
   * The next token of `s` from `p`, and where scanning stopped. Scanning never
   * moves back and never passes the end; it ends at the end exactly when it
   * yields `Eof`, and every other token moves it forward.
   */
  function Lex(s: string, p: nat): (r: (Token, nat))
    requires p <= |s|
    ensures p <= r.1 <= |s|
    ensures r.0 == Eof ==> r.1 == |s|
    ensures r.0 != Eof ==> p < r.1
    ensures !r.0.LitStr?
    decreases |s| - p
  {
    var q := RunEnd(s, p, Whitespace);
    if q == |s| then (Eof, q)
    else
      var c := s[q];
      if PunctToken(c).Some? then (PunctToken(c).value, q + 1)
      else if IsDigit(c) then
        var e := NumberEnd(s, q);
        (Token.LitNum(s[q..e]), e)
      else if IsLetter(c) then
        var e := RunEnd(s, q, Alphanumerics);
        (Keyword(s[q..e]), e)
      else Lex(s, q + 1)
  }

  /** Token streams as scanning produces them: `Eof` last and nowhere else. */
  predicate WellFormed(ts: seq<Token>)
  {
    && |ts| > 0
    && ts[|ts| - 1] == Eof
    && (forall k :: 0 <= k < |ts| - 1 ==> ts[k] != Eof)
  }

  /** Every token scanned from `p` on, up to and including `Eof`. */
  function TokensFrom(s: string, p: nat): (ts: seq<Token>)
    requires p <= |s|
    ensures 1 <= |ts| <= |s| - p + 1
    decreases |s| - p
  {
    var (t, q) := Lex(s, p);
    if t == Eof then [Eof] else [t] + TokensFrom(s, q)
  }

  /** `tokenize`: every token of the text. There is at most one token per
      character, plus `Eof`. */
  function Tokenize(s: string): (r: seq<Token>)
    ensures 1 <= |r| <= |s| + 1
  {
    TokensFrom(s, 0)
  }

  /** The scanner: the text and a cursor into it. */
  class Lexer {
    const input: string
    var pos: nat

    ghost predicate Valid()
      reads this
    {
      pos <= |input| && IsAscii(input)
    }

    constructor (input: string)
      requires IsAscii(input)
      ensures Valid()
      ensures this.input == input && pos == 0
    {
      this.input := input;
      pos := 0;
    }

    /** The character under the cursor, if any. */
    function CurrentChar(): (r: Option<char>)
      reads this
      ensures r.Some? <==> pos < |input|
      ensures r.Some? ==> r.value == input[pos]
    {
      if pos < |input| then Some(input[pos]) else None
    }

    method NextToken() returns (t: Token)
      requires Valid()
      modifies this
      ensures Valid()
      ensures (t, pos) == Lex(input, old(pos))
      decreases |input| - pos
    {
      while pos < |input| && IsWhitespace(CurrentChar().value)
        invariant old(pos) <= pos <= |input|
        invariant RunEnd(input, pos, Whitespace) == RunEnd(input, old(pos), Whitespace)
        decreases |input| - pos
      {
        pos := pos + 1;
      }

      if pos >= |input| {
        return Eof;
      }

      var c := CurrentChar().value;
      match c
      case '+' => pos := pos + 1; t := Plus;
      case '-' => pos := pos + 1; t := Minus;
      case '*' => pos := pos + 1; t := Star;
      case '/' => pos := pos + 1; t := Slash;
      case '=' => pos := pos + 1; t := Eq;
      case ':' => pos := pos + 1; t := Colon;
      case ',' => pos := pos + 1; t := Comma;
      case '.' => pos := pos + 1; t := Dot;
      case ';' => pos := pos + 1; t := Semicolon;
      case '(' => pos := pos + 1; t := ParenL;
      case ')' => pos := pos + 1; t := ParenR;
      case '{' => pos := pos + 1; t := BraceL;
      case '}' => pos := pos + 1; t := BraceR;
      case _ =>
        if IsDigit(c) {
          t := ParseNumber();
        } else if IsLetter(c) {
          t := ParseIdentifier();
        } else {
          pos := pos + 1;
          t := NextToken();
        }
    }

    method ParseNumber() returns (t: Token)
      requires Valid()
      modifies this
      ensures Valid()
      ensures pos == NumberEnd(input, old(pos))
      ensures t == Token.LitNum(input[old(pos)..pos])
    {
      var start := pos;
      while pos < |input| && IsDigit(CurrentChar().value)
        invariant start <= pos <= |input|
        invariant RunEnd(input, pos, Digits) == RunEnd(input, start, Digits)
        decreases |input| - pos
      {
        pos := pos + 1;
      }

      if pos < |input| && CurrentChar() == Some('.') {
        pos := pos + 1;
        ghost var fraction := pos;
        while pos < |input| && IsDigit(CurrentChar().value)
          invariant fraction <= pos <= |input|
          invariant RunEnd(input, pos, Digits) == RunEnd(input, fraction, Digits)
          decreases |input| - pos
        {
          pos := pos + 1;
        }
      }

      t := Token.LitNum(input[start..pos]);
    }

    method ParseIdentifier() returns (t: Token)
      requires Valid()
      modifies this
      ensures Valid()
      ensures pos == RunEnd(input, old(pos), Alphanumerics)
      ensures t == Keyword(input[old(pos)..pos])
    {
      var start := pos;
      while pos < |input| && IsAlphanumeric(CurrentChar().value)
        invariant start <= pos <= |input|
        invariant RunEnd(input, pos, Alphanumerics) == RunEnd(input, start, Alphanumerics)
        decreases |input| - pos
      {
        pos := pos + 1;
      }

      var identifier := input[start..pos];
      if identifier == "func" {
        t := Func;
      } else if identifier == "var" {
        t := Var;
      } else {
        t := Identifier(identifier);
      }
    }
  }
}
