/**
 One step of the tokenizer against the splitter's reading of the same place. A mark is a literal, a
 comment or a terminator with its position. Away from the two hazards a step passes exactly the marks
 it reports, and whatever else it passes is nothing to the splitter.
 */
module ScannerSteps {
  import opened Text
  import opened Lexis
  import opened Tokenizer

  /** A literal, comment or terminator; a line comment ends before its newline. */
  datatype Mark = Mark(kind: ElementKind, start: nat, end: nat)

  /** What the splitter reads from `i` on. */
  function Marks(s: string, i: nat, esc: QuoteEscapes): seq<Mark>
    requires i <= |s|
    decreases |s| - i
  {
    if i == |s| then []
    else
      var e := ElementAt(s, i, esc);
      MarkOf(s, i, e) + Marks(s, e.end, esc)
  }

  function MarkOf(s: string, i: nat, e: Element): seq<Mark>
    requires i < e.end <= |s|
  {
    if e.kind == Plain then []
    else [Mark(e.kind, i, if e.kind == ElementKind.LineComment && s[e.end - 1] == '\n' then e.end - 1 else e.end)]
  }

  /** What a token list says; a token cannot end past the text of length `n`. */
  function TokenMarks(tokens: seq<Token>, n: nat): seq<Mark> {
    if tokens == [] then [] else TokenMark(tokens[0], n) + TokenMarks(tokens[1..], n)
  }

  function TokenMark(t: Token, n: nat): seq<Mark> {
    var end := if t.end <= n then t.end else n;
    match t.kind
    case StrLit => [Mark(Quoted, t.start, end)]
    case QuotedIdent => [Mark(Quoted, t.start, end)]
    case LineComment => [Mark(ElementKind.LineComment, t.start, end)]
    case BlockComment => [Mark(ElementKind.BlockComment, t.start, end)]
    case DollarStr => [Mark(DollarQuoted, t.start, end)]
    case Semi => [Mark(Terminator, t.start, end)]
    case _ => []
  }

  function Clip(s: string, i: nat): (e: nat)
    ensures e <= |s| && e <= i
  {
    if i <= |s| then i else |s|
  }

  ghost predicate HasDashPair(s: string, i: nat, e: nat) {
    exists k :: i <= k && k + 1 < e && e <= |s| && s[k] == '-' && s[k + 1] == '-'
  }

  /** Does the tokenizer misread what starts at `i`? */
  ghost predicate HazardAt(s: string, i: nat, esc: QuoteEscapes)
    requires i < |s|
  {
    // an identifier run swallows a comment mark
    || (IsWord(s[i]) && HasDashPair(s, i, IdentRunEnd(s, i)))
    // an E'...' literal that ends elsewhere when its backslashes are read literally
    || (s[i] == '\'' && esc.Standard? && CEscapesPrefix(s, i)
        && QuotedEnd(s, i + 1, '\'', Backslash) != QuotedEnd(s, i + 1, '\'', Standard))
  }

  /** Where the word token at `i` ends: a number stops at a dash, everything else runs through it. */
  function IdentRunEnd(s: string, i: nat): (e: nat)
    requires i < |s| && IsWord(s[i])
    ensures i < e <= |s|
  {
    if !IsDigit(s[i]) then IdentEnd(s, i + 1)
    else
      var e := DigitEnd(s, i + 1);
      if e < |s| && (IsAlpha(s[e]) || s[e] == '_') then IdentEnd(s, e) else e
  }

  /** No token from `i` on is a hazard. */
  ghost predicate HazardFree(s: string, i: nat, esc: QuoteEscapes, keywords: set<string>)
    decreases |s| + 1 - i
  {
    i >= |s| || (!HazardAt(s, i, esc) && HazardFree(s, LexemeAt(s, i, esc, keywords).end, esc, keywords))
  }

  // ----- One step of both scanners -----

  lemma {:induction false} QuotedRunAgrees(s: string, i: nat, q: char, backslash: bool)
    requires i <= |s| && q != '\\'
    ensures Clip(s, QuotedRunEnd(s, i, q, backslash)) ==
            QuotedEnd(s, i, q, if backslash then Backslash else Standard)
    decreases |s| - i
  {
    var esc := if backslash then Backslash else Standard;
    if i < |s| {
      var step := QuotedStep(s, i, q, esc);
      if !(s[i] == q && step == 1) { QuotedRunAgrees(s, i + step, q, backslash); }
    }
  }

  /** A position no mark starts at. */
  ghost predicate Inert(s: string, k: nat)
    requires k < |s|
  {
    var c := s[k];
    && !IsQuote(c) && c != ';' && !(c == '$' && OpensTag(s, k))
    && !(k + 1 < |s| && ((c == '-' && s[k + 1] == '-') || (c == '/' && s[k + 1] == '*')))
  }

  lemma {:induction false} InertRun(s: string, i: nat, e: nat, esc: QuoteEscapes)
    requires i <= e <= |s| && forall k :: i <= k < e ==> Inert(s, k)
    ensures Marks(s, i, esc) == Marks(s, e, esc)
    decreases e - i
  {
    hide Marks, Inert;
    if i < e {
      InertOne(s, i, esc);
      InertRun(s, i + 1, e, esc);
    }
  }

  lemma InertOne(s: string, i: nat, esc: QuoteEscapes)
    requires i < |s| && Inert(s, i)
    ensures Marks(s, i, esc) == Marks(s, i + 1, esc)
  {
    assert ElementAt(s, i, esc) == Element(Plain, i + 1);
    hide ElementAt;
    assert MarkOf(s, i, Element(Plain, i + 1)) + Marks(s, i + 1, esc) == Marks(s, i + 1, esc);
  }

  lemma WordTokenIsInert(s: string, i: nat)
    requires i < |s| && IsWord(s[i]) && !HasDashPair(s, i, IdentRunEnd(s, i))
    ensures forall k :: i <= k < IdentRunEnd(s, i) ==> Inert(s, k)
  {
    var e := IdentRunEnd(s, i);
    forall k | i <= k < e ensures Inert(s, k) {
      assert IsIdentChar(s[k]);
      if s[k] == '-' && k + 1 == e { WordTokenStops(s, i); }
    }
  }

  lemma WordTokenStops(s: string, i: nat)
    requires i < |s| && IsWord(s[i])
    ensures var e := IdentRunEnd(s, i);
            (forall k :: i <= k < e ==> IsIdentChar(s[k])) && (e < |s| && s[e - 1] == '-' ==> s[e] != '-')
  {}

  ghost function StepMarks(s: string, i: nat, x: Lexeme): seq<Mark> {
    if x.Emit? then TokenMark(Token(x.kind, i, x.end), |s|) else []
  }

  /** Away from a hazard, one tokenizer step passes exactly the marks it reports. */
  ghost predicate Passes(s: string, i: nat, esc: QuoteEscapes, x: Lexeme)
    requires i < |s|
  {
    Marks(s, i, esc) == StepMarks(s, i, x) + Marks(s, Clip(s, x.end), esc)
  }

  lemma StepAgrees(s: string, i: nat, esc: QuoteEscapes, keywords: set<string>)
    requires i < |s| && !HazardAt(s, i, esc)
    ensures Passes(s, i, esc, LexemeAt(s, i, esc, keywords))
  {
    hide LexemeAt, Passes, HazardAt, IsQuote, OpensTag;
    var c := s[i];
    if IsQuote(c) {
      QuotedStepAgrees(s, i, esc, keywords);
    } else if i + 1 < |s| && c == '-' && s[i + 1] == '-' {
      LineStepAgrees(s, i, esc, keywords);
    } else if i + 1 < |s| && c == '/' && s[i + 1] == '*' {
      MarkStepAgrees(s, i, esc, keywords);
    } else if c == ';' || (c == '$' && OpensTag(s, i)) {
      MarkStepAgrees(s, i, esc, keywords);
    } else {
      OtherStepIsInert(s, i, esc, keywords);
      InertStepAgrees(s, i, esc, LexemeAt(s, i, esc, keywords));
    }
  }

  lemma InertStepAgrees(s: string, i: nat, esc: QuoteEscapes, x: Lexeme)
    requires i < x.end <= |s| && StepMarks(s, i, x) == [] && forall k :: i <= k < x.end ==> Inert(s, k)
    ensures Passes(s, i, esc, x)
  {
    hide Inert;
    InertRun(s, i, x.end, esc);
  }

  lemma MarkStepAgrees(s: string, i: nat, esc: QuoteEscapes, keywords: set<string>)
    requires i < |s|
    requires s[i] == ';' || (s[i] == '$' && OpensTag(s, i)) || (i + 1 < |s| && s[i] == '/' && s[i + 1] == '*')
    ensures Passes(s, i, esc, LexemeAt(s, i, esc, keywords))
  {
    var x := LexemeAt(s, i, esc, keywords);
    var e := ElementAt(s, i, esc);
    assert e.end == x.end && StepMarks(s, i, x) == MarkOf(s, i, e);
    hide LexemeAt, ElementAt, MarkOf, StepMarks;
  }

  lemma LineStepAgrees(s: string, i: nat, esc: QuoteEscapes, keywords: set<string>)
    requires i + 1 < |s| && s[i] == s[i + 1] == '-'
    ensures Passes(s, i, esc, LexemeAt(s, i, esc, keywords))
  {
    var nl := LineEnd(s, i + 2);
    assert LexemeAt(s, i, esc, keywords) == Emit(TokenKind.LineComment, nl);
    assert ElementAt(s, i, esc) == Element(ElementKind.LineComment, if nl < |s| then nl + 1 else nl);
    hide LexemeAt, ElementAt, Inert, LineEnd, IsQuote, OpensTag;
    var mark := Mark(ElementKind.LineComment, i, nl);
    assert StepMarks(s, i, Emit(TokenKind.LineComment, nl)) == [mark];
    if nl < |s| {
      assert MarkOf(s, i, Element(ElementKind.LineComment, nl + 1)) == [mark];
      NewlineIsInert(s, nl);
      InertRun(s, nl, nl + 1, esc);
    } else {
      NoNewlineInside(s, i + 2);
    }
  }

  lemma NewlineIsInert(s: string, i: nat)
    requires i < |s| && s[i] == '\n'
    ensures Inert(s, i)
  {}

  lemma {:induction false} NoNewlineInside(s: string, i: nat)
    requires 0 < i <= |s| && s[i - 1] != '\n' && LineEnd(s, i) == |s|
    ensures s[|s| - 1] != '\n'
    decreases |s| - i
  {
    if i < |s| { NoNewlineInside(s, i + 1); }
  }

  lemma QuotedStepAgrees(s: string, i: nat, esc: QuoteEscapes, keywords: set<string>)
    requires i < |s| && IsQuote(s[i]) && !HazardAt(s, i, esc)
    ensures Passes(s, i, esc, LexemeAt(s, i, esc, keywords))
  {
    var backslash := TokenizerEscapes(s, i, esc);
    QuotedLexeme(s, i, esc, keywords);
    QuotedRunAgrees(s, i + 1, s[i], backslash);
    hide LexemeAt, QuotedRunEnd, QuotedEnd, IsQuote, CEscapesPrefix;
    assert ElementAt(s, i, esc) == Element(Quoted, QuotedEnd(s, i + 1, s[i], esc));
  }

  /** The tokenizer reads backslashes in this literal. */
  predicate TokenizerEscapes(s: string, i: nat, esc: QuoteEscapes)
    requires i < |s|
  {
    esc.Backslash? || (s[i] == '\'' && CEscapesPrefix(s, i))
  }

  lemma QuotedLexeme(s: string, i: nat, esc: QuoteEscapes, keywords: set<string>)
    requires i < |s| && IsQuote(s[i])
    ensures LexemeAt(s, i, esc, keywords) ==
            Emit(if s[i] == '\'' then StrLit else QuotedIdent,
                 QuotedRunEnd(s, i + 1, s[i], TokenizerEscapes(s, i, esc)))
  {}

  lemma OtherStepIsInert(s: string, i: nat, esc: QuoteEscapes, keywords: set<string>)
    requires i < |s| && Inert(s, i) && !HazardAt(s, i, esc)
    ensures var x := LexemeAt(s, i, esc, keywords);
            StepMarks(s, i, x) == [] && x.end <= |s| && forall k :: i <= k < x.end ==> Inert(s, k)
  {
    if IsWord(s[i]) { WordTokenIsInert(s, i); }
  }
}
