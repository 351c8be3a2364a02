/** Concrete texts on which two readers part, and when the tokenizer overshoots. */
module Departures {
  import opened Lexis
  import opened Tokenizer
  import Splitter
  import ScannerAgreement
  import LineFlags
  import Statements

  // ----- The tokenizer runs past the end -----

  /** How many backslashes in a row end at `n`, counting none before `i`. */
  function Trailing(s: string, i: nat, n: nat): (k: nat)
    requires n <= |s|
    ensures k <= n && (i <= n ==> k <= n - i)
  {
    if n <= i || s[n - 1] != '\\' then 0 else 1 + Trailing(s, i, n - 1)
  }

  lemma {:induction false} TrailingFrom(s: string, i: nat, n: nat)
    requires i < n <= |s|
    ensures Trailing(s, i + 1, n) == n - (i + 1) ==> Trailing(s, i, n) == n - i - (if s[i] == '\\' then 0 else 1)
    ensures Trailing(s, i + 1, n) < n - (i + 1) ==> Trailing(s, i, n) == Trailing(s, i + 1, n)
    decreases n
  {
    if i + 1 < n && s[n - 1] == '\\' { TrailingFrom(s, i, n - 1); }
  }

  /** A step over `c` that is not an escape leaves the count of trailing backslashes alone. */
  lemma TrailingStep(s: string, i: nat)
    requires i < |s| && s[i] != '\\'
    ensures Trailing(s, i, |s|) == Trailing(s, i + 1, |s|)
  {
    TrailingFrom(s, i, |s|);
  }

  /** A step over an escape leaves its parity alone. */
  lemma TrailingEscape(s: string, i: nat)
    requires i + 1 < |s| && s[i] == '\\'
    ensures Trailing(s, i, |s|) % 2 == Trailing(s, i + 2, |s|) % 2
  {
    TrailingFrom(s, i, |s|);
    TrailingFrom(s, i + 1, |s|);
  }

  /**
   With backslash escapes a quoted run ends one past the text exactly when nothing closes it and
   the text ends in an odd number of backslashes, counted inside the run.
   */
  lemma {:induction false} OvershootIff(s: string, i: nat, q: char)
    requires i <= |s| && q != '\\'
    ensures QuotedRunEnd(s, i, q, true) == |s| + 1
            <==> QuotedEnd(s, i, q, Backslash) == |s| && Trailing(s, i, |s|) % 2 == 1
    decreases |s| - i
  {
    if i < |s| {
      if s[i] == '\\' {
        if i + 1 < |s| {
          TrailingEscape(s, i);
          OvershootIff(s, i + 2, q);
        } else {
          assert QuotedEnd(s, i + 1, q, Backslash) == |s|;
          assert Trailing(s, i, i) == 0;
        }
      } else {
        TrailingStep(s, i);
        if s[i] == q {
          if i + 1 < |s| && s[i + 1] == q {
            TrailingStep(s, i + 1);
            OvershootIff(s, i + 2, q);
          } else {
          }
        } else {
          OvershootIff(s, i + 1, q);
        }
      }
    }
  }

  /** `'\` and nothing more: the token ends one past the text. */
  lemma EscapeAtTheEnd(keywords: set<string>)
    ensures Tokens("'\\", 0, Backslash, keywords) == [Token(StrLit, 0, 3)]
  {
    var s := "'\\";
    assert QuotedRunEnd(s, 3, '\'', true) == 3;
    assert QuotedRunEnd(s, 1, '\'', true) == 3;
    assert LexemeAt(s, 0, Backslash, keywords) == Emit(StrLit, 3);
    assert Tokens(s, 3, Backslash, keywords) == [];
  }

  // ----- Where scanners part -----

  /** `t--;`: one identifier and a terminator to the tokenizer, a comment to the splitter. */
  lemma DashesInAnIdentifier(keywords: set<string>)
    ensures var s := "t--;";
            ScannerAgreement.SemiStarts(Tokens(s, 0, Standard, keywords)) == [3]
            && Splitter.Cuts(s, 0, Standard) == []
  {
    var s := "t--;";
    assert IdentEnd(s, 3) == 3;
    assert IdentEnd(s, 2) == 3;
    assert IdentEnd(s, 1) == 3;
    var x := LexemeAt(s, 0, Standard, keywords);
    assert x.end == 3 && x.Emit? && x.kind != Semi;
    assert LexemeAt(s, 3, Standard, keywords) == Emit(Semi, 4);
    assert Tokens(s, 3, Standard, keywords) == [Token(Semi, 3, 4)];
    assert Tokens(s, 0, Standard, keywords) == [Token(x.kind, 0, 3), Token(Semi, 3, 4)];
    assert [Token(x.kind, 0, 3), Token(Semi, 3, 4)][1..] == [Token(Semi, 3, 4)];
    assert ScannerAgreement.SemiStarts([Token(Semi, 3, 4)]) == [3];
    assert LineEnd(s, 3) == 4;
    assert ElementAt(s, 0, Standard) == Element(Plain, 1);
    assert ElementAt(s, 1, Standard).end == 4;
  }

  /** `E'\';'`: the literal runs to the end for the tokenizer, and the splitter cuts at the semicolon. */
  lemma EscapeInAnELiteral(keywords: set<string>)
    ensures var s := "E'\\';'";
            ScannerAgreement.SemiStarts(Tokens(s, 0, Standard, keywords)) == []
            && Splitter.Cuts(s, 0, Standard) == [4]
  {
    ELiteralToTheTokenizer(keywords);
    ELiteralToTheSplitter();
  }

  lemma ELiteralToTheTokenizer(keywords: set<string>)
    ensures ScannerAgreement.SemiStarts(Tokens("E'\\';'", 0, Standard, keywords)) == []
  {
    var s := "E'\\';'";
    assert IdentEnd(s, 1) == 1;
    var x := LexemeAt(s, 0, Standard, keywords);
    assert x.end == 1 && x.Emit? && x.kind != Semi;
    assert CEscapesPrefix(s, 1);
    assert QuotedRunEnd(s, 4, '\'', true) == 6 by { assert QuotedRunEnd(s, 5, '\'', true) == 6; }
    assert QuotedRunEnd(s, 2, '\'', true) == 6;
    assert LexemeAt(s, 1, Standard, keywords) == Emit(StrLit, 6);
    assert Tokens(s, 1, Standard, keywords) == [Token(StrLit, 1, 6)];
    assert Tokens(s, 0, Standard, keywords) == [Token(x.kind, 0, 1), Token(StrLit, 1, 6)];
    assert [Token(x.kind, 0, 1), Token(StrLit, 1, 6)][1..] == [Token(StrLit, 1, 6)];
    assert ScannerAgreement.SemiStarts([Token(StrLit, 1, 6)]) == [];
  }

  lemma ELiteralToTheSplitter()
    ensures Splitter.Cuts("E'\\';'", 0, Standard) == [4]
  {
    var s := "E'\\';'";
    ELiteralElements();
    hide ElementAt;
    assert Splitter.Cuts(s, 6, Standard) == [];
    assert Splitter.Cuts(s, 5, Standard) == [] + [];
    assert Splitter.Cuts(s, 4, Standard) == [4] + [];
    assert Splitter.Cuts(s, 1, Standard) == [] + [4];
    assert Splitter.Cuts(s, 0, Standard) == [] + [4];
  }

  lemma ELiteralElements()
    ensures var s := "E'\\';'";
            && ElementAt(s, 0, Standard) == Element(Plain, 1) && ElementAt(s, 1, Standard) == Element(Quoted, 4)
            && ElementAt(s, 4, Standard) == Element(Terminator, 5) && ElementAt(s, 5, Standard) == Element(Quoted, 6)
  {
    var s := "E'\\';'";
    assert QuotedEnd(s, 3, '\'', Standard) == 4;
    assert QuotedEnd(s, 2, '\'', Standard) == 4;
    assert QuotedEnd(s, 6, '\'', Standard) == 6;
    hide QuotedEnd, OpensTag, DollarEnd, LineEnd, BlockEnd;
  }

  /** `$'` then a newline in the literal: the flagger steps over the quote and calls the newline top-level. */
  lemma QuoteAfterDollar()
    ensures var s := "$'\n'";
            LineFlags.FlagsFrom(s, 0, LineFlags.Top) == [true, false] && LineFlags.NewlineFlags(s, 0) == [false]
  {
    var s := "$'\n'";
    assert WordEnd(s, 1) == 1;
    assert LineFlags.Advance(s, 0, LineFlags.Top) == (2, LineFlags.Top);
    assert LineFlags.Advance(s, 3, LineFlags.Top) == (4, LineFlags.InQuote('\''));
    assert LineFlags.FlagsFrom(s, 3, LineFlags.Top) == [false];
    assert LineFlags.FlagsFrom(s, 0, LineFlags.Top) == [true, false];
    assert QuotedEnd(s, 2, '\'', Standard) == QuotedEnd(s, 3, '\'', Standard) == 4;
    assert ElementAt(s, 0, Standard) == Element(Plain, 1);
    assert ElementAt(s, 1, Standard) == Element(Quoted, 4);
    assert LineFlags.Newlines(s, 1, 4) == 1 && LineFlags.Newlines(s, 0, 1) == 0;
    assert LineFlags.NewlineFlags(s, 4) == [];
    assert LineFlags.NewlineFlags(s, 1) == [false] + [];
    assert LineFlags.NewlineFlags(s, 0) == [] + [false];
  }

  /** A newline inside a block comment gets no flag at all. */
  lemma NewlineInComment()
    ensures var s := "/*\n*/";
            |LineFlags.FlagsFrom(s, 0, LineFlags.Top)| == 1 && LineFlags.Newlines(s, 0, |s|) == 1
  {
  }

  /** `INSERT … SELECT …`: one statement under the cursor, two in the list. */
  lemma InsertSelectIsTwoInTheList()
    ensures var ts := [Statements.Tok(Keyword, Statements.Insert, 0, 6),
                       Statements.Tok(Keyword, Statements.Select, 6, 12)];
            Statements.AllRanges(ts) == [(0, 1), (1, 2)] && Statements.RangeAt(ts, 0) == (0, 2)
  {
  }
}
