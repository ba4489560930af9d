/**
 * What the scanner of src/gem/lexer.rs is known to do, stated on `Lex` and
 * `TokensFrom` (and so, through `Lexer.NextToken`, on the scanner itself).
 */
module LexerProperties {
  import opened Common
  import opened Lexing

  /** A character at which scanning yields a token rather than skipping. */
  predicate StartsToken(c: char)
  {
    PunctToken(c).Some? || IsDigit(c) || IsLetter(c)
  }

  lemma WhitespaceStartsNothing(c: char)
    requires IsWhitespace(c)
    ensures !StartsToken(c)
  {
  }

  /** The token stream ends with `Eof`, holds no other `Eof`, and holds no
      string literal: the scanner has no rule that produces one. */
  lemma {:induction false} TokensWellFormed(s: string, p: nat)
    requires p <= |s|
    ensures WellFormed(TokensFrom(s, p))
    ensures forall k :: 0 <= k < |TokensFrom(s, p)| ==> !TokensFrom(s, p)[k].LitStr?
    decreases |s| - p
  {
    var (t, q) := Lex(s, p);
    if t != Eof {
      TokensWellFormed(s, q);
      var rest := TokensFrom(s, q);
      assert TokensFrom(s, p) == [t] + rest;
      forall k | 0 <= k < |[t] + rest| - 1
        ensures ([t] + rest)[k] != Eof
      {
        if k > 0 {
          assert ([t] + rest)[k] == rest[k - 1];
        }
      }
    }
  }

  /** Scanning yields `Eof` exactly when no character from `p` on starts a
      token: whitespace and unknown characters are all skipped. */
  lemma {:induction false} LexEofIff(s: string, p: nat)
    requires p <= |s|
    ensures Lex(s, p).0 == Eof <==> forall k :: p <= k < |s| ==> !StartsToken(s[k])
    decreases |s| - p
  {
    var q := RunEnd(s, p, Whitespace);
    forall k | p <= k < q
      ensures !StartsToken(s[k])
    {
      assert InClass(Whitespace, s[k]);
      WhitespaceStartsNothing(s[k]);
    }
    if q < |s| && !StartsToken(s[q]) {
      LexEofIff(s, q + 1);
      if Lex(s, p).0 == Eof {
        forall k | p <= k < |s|
          ensures !StartsToken(s[k])
        {
          if k > q {
            assert q + 1 <= k;
          }
        }
      }
    }
  }

  /** At the end of the text scanning yields `Eof` and stays put; so does
      scanning again from where an `Eof` left off. */
  lemma LexAfterEof(s: string, p: nat)
    requires p <= |s| && Lex(s, p).0 == Eof
    ensures Lex(s, Lex(s, p).1) == (Eof, |s|)
  {
  }

  /** Text of whitespace only scans to `Eof` alone. */
  lemma BlankText(s: string)
    requires forall k :: 0 <= k < |s| ==> IsWhitespace(s[k])
    ensures Tokenize(s) == [Eof]
  {
    forall k | 0 <= k < |s|
      ensures !StartsToken(s[k])
    {
      WhitespaceStartsNothing(s[k]);
    }
    LexEofIff(s, 0);
  }

  /** Each of the thirteen symbols yields a token of its own and advances the
      cursor by exactly one. */
  lemma PunctuationToken(s: string, p: nat)
    requires p < |s| && PunctToken(s[p]).Some?
    ensures Lex(s, p) == (PunctToken(s[p]).value, p + 1)
  {
    assert !InClass(Whitespace, s[p]);
  }

  lemma PunctTokenInjective(a: char, b: char)
    requires PunctToken(a).Some? && PunctToken(a) == PunctToken(b)
    ensures a == b
  {
  }

  /** A character that is neither whitespace nor the start of a token is
      dropped, and scanning resumes right after it. */
  lemma SkipUnknown(s: string, p: nat)
    requires p < |s| && !IsWhitespace(s[p]) && !StartsToken(s[p])
    ensures Lex(s, p) == Lex(s, p + 1)
  {
    assert RunEnd(s, p, Whitespace) == p;
  }

  predicate AllDigits(t: string)
  {
    forall k :: 0 <= k < |t| ==> IsDigit(t[k])
  }

  /** The text of a number: digits, then optionally a '.' and more digits. */
  predicate IsNumberText(t: string)
  {
    && |t| > 0 && IsDigit(t[0])
    && (AllDigits(t) || exists i :: 0 < i < |t| && t[i] == '.' && AllDigits(t[..i]) && AllDigits(t[i + 1..]))
  }

  /**
   * At a digit, scanning yields a number whose text is digits with at most
   * one '.', and takes as much as it can: no digit follows it, and no '.'
   * follows a number without one.
   */
  lemma NumberToken(s: string, p: nat)
    requires p < |s| && IsDigit(s[p])
    ensures Lex(s, p).0 == Token.LitNum(s[p..Lex(s, p).1])
    ensures IsNumberText(s[p..Lex(s, p).1])
    ensures Lex(s, p).1 < |s| ==> !IsDigit(s[Lex(s, p).1])
    ensures AllDigits(s[p..Lex(s, p).1]) && Lex(s, p).1 < |s| ==> s[Lex(s, p).1] != '.'
  {
    assert RunEnd(s, p, Whitespace) == p;
    var d := RunEnd(s, p, Digits);
    var e := Lex(s, p).1;
    assert e == NumberEnd(s, p);
    var t := s[p..e];
    if d < |s| && s[d] == '.' {
      var i := d - p;
      assert t[i] == '.';
      assert t[..i] == s[p..d];
      assert t[i + 1..] == s[d + 1..e];
      assert !AllDigits(t);
    } else {
      assert AllDigits(t);
    }
  }

  /**
   * At a letter, scanning takes the longest run of letters and digits; the
   * run is the keyword `func` or `var` exactly when it is spelled so, and an
   * identifier with that name otherwise.
   */
  lemma WordToken(s: string, p: nat)
    requires p < |s| && IsLetter(s[p])
    ensures var (t, e) := Lex(s, p);
      && p < e
      && (forall k :: p <= k < e ==> IsAlphanumeric(s[k]))
      && (e < |s| ==> !IsAlphanumeric(s[e]))
      && (t == Func <==> s[p..e] == "func")
      && (t == Var <==> s[p..e] == "var")
      && (t.Identifier? <==> s[p..e] != "func" && s[p..e] != "var")
      && (t.Identifier? ==> t.name == s[p..e])
  {
    assert RunEnd(s, p, Whitespace) == p;
    var e := RunEnd(s, p, Alphanumerics);
    forall k | p <= k < e
      ensures IsAlphanumeric(s[k])
    {
      assert InClass(Alphanumerics, s[k]);
    }
  }

  /** A run of a class is determined by where it stops. */
  lemma {:induction false} RunEndAt(s: string, p: nat, e: nat, cls: CharClass)
    requires p <= e <= |s|
    requires forall k :: p <= k < e ==> InClass(cls, s[k])
    requires e < |s| ==> !InClass(cls, s[e])
    ensures RunEnd(s, p, cls) == e
    decreases e - p
  {
    if p < e {
      RunEndAt(s, p + 1, e, cls);
    }
  }

  /** One step of the token stream: the token scanned first, then the rest. */
  lemma TokensStep(s: string, p: nat)
    requires p <= |s| && Lex(s, p).0 != Eof
    ensures TokensFrom(s, p) == [Lex(s, p).0] + TokensFrom(s, Lex(s, p).1)
  {
  }

  // Concrete texts.

  /** A second '.' ends a number: "1.2.3" starts with the number "1.2", and
      the '.' after it is a token of its own. */
  lemma TwoDots()
    ensures Lex("1.2.3", 0) == (Token.LitNum("1.2"), 3)
    ensures Lex("1.2.3", 3) == (Dot, 4)
  {
    var s := "1.2.3";
    RunEndAt(s, 0, 0, Whitespace);
    RunEndAt(s, 0, 1, Digits);
    RunEndAt(s, 2, 3, Digits);
    assert s[0..3] == "1.2";
    PunctuationToken(s, 3);
  }

  /** There are no negative literals: "-5" is a minus sign and a number. */
  lemma NegativeNumber()
    ensures Tokenize("-5") == [Minus, Token.LitNum("5"), Eof]
  {
    var s := "-5";
    PunctuationToken(s, 0);
    assert Lex(s, 1) == (Token.LitNum("5"), 2) by {
      RunEndAt(s, 1, 1, Whitespace);
      RunEndAt(s, 1, 2, Digits);
      assert s[1..2] == "5";
    }
    RunEndAt(s, 2, 2, Whitespace);
    TokensStep(s, 0);
    TokensStep(s, 1);
  }

  /** The keywords are matched exactly: a longer word or another case is an
      identifier. */
  lemma NearKeywords()
    ensures Lex("funct", 0) == (Identifier("funct"), 5)
    ensures Lex("Var", 0) == (Identifier("Var"), 3)
  {
    RunEndAt("funct", 0, 0, Whitespace);
    RunEndAt("funct", 0, 5, Alphanumerics);
    assert "funct"[0..5] == "funct";
    RunEndAt("Var", 0, 0, Whitespace);
    RunEndAt("Var", 0, 3, Alphanumerics);
    assert "Var"[0..3] == "Var";
  }

  /** A keyword ends where its letters do. */
  lemma KeywordsExact()
    ensures Lex("func(", 0) == (Func, 4)
    ensures Lex("var x", 0) == (Var, 3)
  {
    RunEndAt("func(", 0, 0, Whitespace);
    RunEndAt("func(", 0, 4, Alphanumerics);
    assert "func("[0..4] == "func";
    RunEndAt("var x", 0, 0, Whitespace);
    RunEndAt("var x", 0, 3, Alphanumerics);
    assert "var x"[0..3] == "var";
  }

  /** '_' is not a token: it is dropped, and it splits a word in two. */
  lemma UnderscoreSplits()
    ensures Lex("a_b", 0) == (Identifier("a"), 1)
    ensures Lex("a_b", 1) == (Identifier("b"), 3)
  {
    RunEndAt("a_b", 0, 0, Whitespace);
    RunEndAt("a_b", 0, 1, Alphanumerics);
    assert "a_b"[0..1] == "a";
    SkipUnknown("a_b", 1);
    RunEndAt("a_b", 2, 2, Whitespace);
    RunEndAt("a_b", 2, 3, Alphanumerics);
    assert "a_b"[2..3] == "b";
  }

  /** '#' and '"' are not tokens either: there are no comments and no string
      literals, and both are dropped. */
  lemma UnknownCharacters()
    ensures Lex("#\"c", 0) == (Identifier("c"), 3)
  {
    var t := "#\"c";
    SkipUnknown(t, 0);
    SkipUnknown(t, 1);
    RunEndAt(t, 2, 2, Whitespace);
    RunEndAt(t, 2, 3, Alphanumerics);
    assert t[2..3] == "c";
  }
}
