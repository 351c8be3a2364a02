/** Exactly when the tokenizer and the splitter read a text alike. */
module ScannerAgreement {
  import opened Text
  import opened Lexis
  import Splitter
  import opened Tokenizer
  import opened ScannerSteps

  // ----- Whole texts -----

  lemma {:induction false} MarksStartLater(s: string, i: nat, esc: QuoteEscapes, keywords: set<string>)
    ensures var m := TokenMarks(Tokens(s, i, esc, keywords), |s|); m != [] ==> m[0].start >= i
    decreases |s| + 1 - i
  {
    if i < |s| {
      TokenMarksStep(s, i, esc, keywords);
      hide LexemeAt;
      MarksStartLater(s, LexemeAt(s, i, esc, keywords).end, esc, keywords);
    }
  }

  lemma TokenMarksStep(s: string, i: nat, esc: QuoteEscapes, keywords: set<string>)
    requires i < |s|
    ensures var x := LexemeAt(s, i, esc, keywords);
            TokenMarks(Tokens(s, i, esc, keywords), |s|) ==
            StepMarks(s, i, x) + TokenMarks(Tokens(s, x.end, esc, keywords), |s|)
  {
    hide LexemeAt;
    var x := LexemeAt(s, i, esc, keywords);
    if x.Emit? {
      var rest := Tokens(s, x.end, esc, keywords);
      assert ([Token(x.kind, i, x.end)] + rest)[1..] == rest;
    }
  }

  lemma QuoteHazard(s: string, i: nat, esc: QuoteEscapes)
    requires i < |s| && HazardAt(s, i, esc) && !IsWord(s[i])
    ensures s[i] == '\'' && esc == Standard && TokenizerEscapes(s, i, esc)
    ensures QuotedEnd(s, i + 1, '\'', Backslash) != QuotedEnd(s, i + 1, '\'', Standard)
  {
    hide QuotedEnd, CEscapesPrefix, HasDashPair, IsWord;
  }

  lemma SplitterMark(s: string, i: nat)
    requires i < |s| && s[i] == '\''
    ensures var marks := Marks(s, i, Standard);
            marks != [] && marks[0] == Mark(Quoted, i, QuotedEnd(s, i + 1, '\'', Standard))
  {
    hide QuotedEnd;
  }

  lemma TokenizerMark(s: string, i: nat, esc: QuoteEscapes, keywords: set<string>)
    requires i < |s| && s[i] == '\'' && TokenizerEscapes(s, i, esc)
    ensures var marks := StepMarks(s, i, LexemeAt(s, i, esc, keywords));
            marks != [] && marks[0] == Mark(Quoted, i, QuotedEnd(s, i + 1, '\'', Backslash))
  {
    hide LexemeAt, TokenizerEscapes, QuotedRunEnd, QuotedEnd;
    QuotedLexeme(s, i, esc, keywords);
    QuotedRunAgrees(s, i + 1, '\'', true);
  }

  lemma QuoteHazardParts(s: string, i: nat, esc: QuoteEscapes, keywords: set<string>)
    requires i < |s| && HazardAt(s, i, esc) && !IsWord(s[i])
    ensures Marks(s, i, esc) != TokenMarks(Tokens(s, i, esc, keywords), |s|)
  {
    hide *;
    QuoteHazard(s, i, esc);
    TokenMarksStep(s, i, esc, keywords);
    SplitterMark(s, i);
    TokenizerMark(s, i, esc, keywords);
    var step := StepMarks(s, i, LexemeAt(s, i, esc, keywords));
    assert TokenMarks(Tokens(s, i, esc, keywords), |s|)[0] == step[0];
  }

  /** At a hazard the two scanners part. */
  lemma HazardParts(s: string, i: nat, esc: QuoteEscapes, keywords: set<string>)
    requires i < |s| && HazardAt(s, i, esc)
    ensures Marks(s, i, esc) != TokenMarks(Tokens(s, i, esc, keywords), |s|)
  {
    hide Marks, TokenMarks, Tokens, IdentRunEnd, HasDashPair, QuotedEnd;
    if IsWord(s[i]) {
      WordHazardParts(s, i, esc, keywords);
    } else {
      QuoteHazardParts(s, i, esc, keywords);
    }
  }

  lemma WordHazardParts(s: string, i: nat, esc: QuoteEscapes, keywords: set<string>)
    requires i < |s| && IsWord(s[i]) && HasDashPair(s, i, IdentRunEnd(s, i))
    ensures Marks(s, i, esc) != TokenMarks(Tokens(s, i, esc, keywords), |s|)
  {
    TokenMarksStep(s, i, esc, keywords);
    WordLexeme(s, i, esc, keywords);
    hide LexemeAt, IdentRunEnd, IsWord, HasDashPair, Inert;
    var k := FirstDashPair(s, i);
    InertRun(s, i, k, esc);
    MarksStartLater(s, IdentRunEnd(s, i), esc, keywords);
    assert Marks(s, k, esc)[0].start == k;
  }

  lemma WordLexeme(s: string, i: nat, esc: QuoteEscapes, keywords: set<string>)
    requires i < |s| && IsWord(s[i])
    ensures var x := LexemeAt(s, i, esc, keywords); x.end == IdentRunEnd(s, i) && StepMarks(s, i, x) == []
  {}

  /** The first comment mark inside the word token at `i`; everything before it is inert. */
  lemma FirstDashPair(s: string, i: nat) returns (k: nat)
    requires i < |s| && IsWord(s[i]) && HasDashPair(s, i, IdentRunEnd(s, i))
    ensures i <= k && k + 1 < IdentRunEnd(s, i) && s[k] == s[k + 1] == '-'
    ensures i < k && IsWord(s[k - 1])
    ensures forall j :: i <= j < k ==> Inert(s, j)
  {
    var e := IdentRunEnd(s, i);
    WordTokenStops(s, i);
    k := i;
    while !(s[k] == s[k + 1] == '-')
      invariant i <= k && k + 1 < e
      invariant forall j :: i <= j < k ==> Inert(s, j)
      invariant exists j :: k <= j && j + 1 < e && s[j] == s[j + 1] == '-'
      decreases e - k
    {
      assert IsIdentChar(s[k]);
      k := k + 1;
    }
    assert IsIdentChar(s[k - 1]) && Inert(s, k - 1);
  }

  /** From any position both scanners stand at, they agree exactly when no hazard lies ahead. */
  lemma {:induction false} AgreeFrom(s: string, i: nat, esc: QuoteEscapes, keywords: set<string>)
    requires i <= |s|
    ensures Marks(s, i, esc) == TokenMarks(Tokens(s, i, esc, keywords), |s|) <==> HazardFree(s, i, esc, keywords)
    decreases |s| - i
  {
    hide LexemeAt, HazardAt, TokenMark;
    if i < |s| {
      if HazardAt(s, i, esc) {
        HazardParts(s, i, esc, keywords);
      } else {
        var x := LexemeAt(s, i, esc, keywords);
        StepAgrees(s, i, esc, keywords);
        assert Passes(s, i, esc, x);
        TokenMarksStep(s, i, esc, keywords);
        AgreeFrom(s, Clip(s, x.end), esc, keywords);
        SamePrefix(StepMarks(s, i, x), Marks(s, Clip(s, x.end), esc), TokenMarks(Tokens(s, x.end, esc, keywords), |s|));
      }
    }
  }

  /**
   The tokenizer and the splitter read the same literals, comments and terminators, at the same
   positions, exactly when the text holds no hazard.
   */
  lemma ScannersAgreeIff(s: string, esc: QuoteEscapes, keywords: set<string>)
    ensures TokenMarks(Tokens(s, 0, esc, keywords), |s|) == Marks(s, 0, esc) <==> HazardFree(s, 0, esc, keywords)
  {
    AgreeFrom(s, 0, esc, keywords);
  }

  // ----- Terminators -----

  function SemiStarts(tokens: seq<Token>): seq<nat> {
    if tokens == [] then []
    else (if tokens[0].kind == Semi then [tokens[0].start] else []) + SemiStarts(tokens[1..])
  }

  function Terminators(marks: seq<Mark>): seq<nat> {
    if marks == [] then []
    else (if marks[0].kind == Terminator then [marks[0].start] else []) + Terminators(marks[1..])
  }

  lemma TerminatorsStep(m: seq<Mark>, rest: seq<Mark>)
    requires |m| <= 1
    ensures Terminators(m + rest) == Terminators(m) + Terminators(rest)
  {
    if m == [] { assert m + rest == rest; } else { assert (m + rest)[1..] == rest; }
  }

  lemma {:induction false} CutsAreMarks(s: string, i: nat, esc: QuoteEscapes)
    requires i <= |s|
    ensures Splitter.Cuts(s, i, esc) == Terminators(Marks(s, i, esc))
    decreases |s| - i
  {
    if i < |s| {
      hide ElementAt;
      var e := ElementAt(s, i, esc);
      CutsAreMarks(s, e.end, esc);
      TerminatorsStep(MarkOf(s, i, e), Marks(s, e.end, esc));
    }
  }

  lemma {:induction false} SemisAreMarks(tokens: seq<Token>, n: nat)
    ensures SemiStarts(tokens) == Terminators(TokenMarks(tokens, n))
  {
    if tokens != [] {
      SemisAreMarks(tokens[1..], n);
      TerminatorsStep(TokenMark(tokens[0], n), TokenMarks(tokens[1..], n));
    }
  }

  /** A text that is visibly free of hazards: what a caller can check by looking for two patterns. */
  ghost predicate PlainlySafe(s: string, esc: QuoteEscapes) {
    && (forall k :: 0 < k && k + 1 < |s| && s[k] == s[k + 1] == '-' ==> !IsWord(s[k - 1]))
    && (esc.Standard? ==> forall k :: 0 <= k < |s| && s[k] == '\'' ==> !CEscapesPrefix(s, k))
  }

  lemma {:induction false} PlainlySafeIsHazardFree(s: string, i: nat, esc: QuoteEscapes, keywords: set<string>)
    requires PlainlySafe(s, esc)
    ensures HazardFree(s, i, esc, keywords)
    decreases |s| + 1 - i
  {
    if i < |s| {
      if IsWord(s[i]) && HasDashPair(s, i, IdentRunEnd(s, i)) {
        var k := FirstDashPair(s, i);
        assert false;
      }
      assert !HazardAt(s, i, esc);
      hide LexemeAt;
      PlainlySafeIsHazardFree(s, LexemeAt(s, i, esc, keywords).end, esc, keywords);
    }
  }

  /**
   In both escape modes the tokenizer's `;` tokens are exactly where the splitter cuts, in every
   text with no word character directly before `--` and, in Standard mode, no `E'` prefix.
   */
  lemma SemisAreCuts(s: string, esc: QuoteEscapes, keywords: set<string>)
    requires PlainlySafe(s, esc)
    ensures SemiStarts(Tokens(s, 0, esc, keywords)) == Splitter.Cuts(s, 0, esc)
  {
    PlainlySafeIsHazardFree(s, 0, esc, keywords);
    ScannersAgreeIff(s, esc, keywords);
    CutsAreMarks(s, 0, esc);
    SemisAreMarks(Tokens(s, 0, esc, keywords), |s|);
  }
}
