/** What the kind of a token says of its text. */
module TokenMeaning {
  import opened Lexis
  import opened LexisMeaning
  import opened StatementLines
  import opened Text
  import opened Tokenizer

  /** `u` is `x` with its small ASCII letters, codes 97 to 122, made capitals. */
  predicate IsUpperOf(u: string, x: string) {
    && |u| == |x|
    && forall k :: 0 <= k < |x| ==> u[k] == if 97 <= x[k] as int <= 122 then (x[k] as int - 32) as char else x[k]
  }

  lemma AsciiUpperMeans(x: string)
    ensures IsUpperOf(AsciiUpper(x), x) && forall u :: IsUpperOf(u, x) ==> u == AsciiUpper(x)
  {
  }

  /** Tab, newline, carriage return and space. */
  predicate Blank(c: char) { c as int in {9, 10, 13, 32} }

  predicate WordOrDash(c: char) { IsWord(c) || c == '-' }

  /** The characters from `i` to `e` are of one class, and the next is not. */
  ghost predicate MaximalRun(s: string, i: nat, e: nat, among: char -> bool) {
    i <= e <= |s| && (forall k :: i <= k < e ==> among(s[k])) && (e < |s| ==> !among(s[e]))
  }

  /** Punctuation and operators. */
  ghost predicate PunctuationMeans(s: string, t: Token) {
    var x := TextOf(s, t);
    && (t.kind == LParen <==> x == "(") && (t.kind == RParen <==> x == ")")
    && (t.kind == Dot <==> x == ".") && (t.kind == Comma <==> x == ",") && (t.kind == Semi <==> x == ";")
    && (t.kind == Op <==> x in {"*", "=", "!=", "<", ">", "<=", ">=", "-"})
    && (t.kind == Op && x in {"<", ">"} && t.end < |s| ==> s[t.end] != '=')
  }

  /** Words and numbers. */
  ghost predicate WordMeans(s: string, t: Token, keywords: set<string>)
    requires t.start < |s|
  {
    var c, x := s[t.start], TextOf(s, t);
    && (IsAlpha(c) || c == '_' ==>
          && (t.kind == Keyword || t.kind == Ident)
          && MaximalRun(s, t.start, t.end, WordOrDash)
          && forall u :: IsUpperOf(u, x) ==> (t.kind == Keyword <==> 2 <= |x| <= 24 && u in keywords))
    && (t.kind == Keyword ==> IsAlpha(c) || c == '_')
    && (t.kind == Ident ==> IsWord(c) && MaximalRun(s, t.start, t.end, WordOrDash))
    && (t.kind == NumLit ==>
          && IsDigit(c) && MaximalRun(s, t.start, t.end, IsDigit)
          && (t.end < |s| ==> !IsAlpha(s[t.end]) && s[t.end] != '_'))
    && (IsDigit(c) ==> t.kind == NumLit || t.kind == Ident)
    && (t.kind == At <==> c == '@') && (t.kind == At ==> MaximalRun(s, t.start + 1, t.end, IsWord))
  }

  /** Space, comments and quoted text. */
  ghost predicate QuotedMeans(s: string, t: Token)
    requires t.start < |s|
  {
    var c := s[t.start];
    var next := if t.start + 1 < |s| then s[t.start + 1] else ' ';
    && (t.kind == Whitespace <==> Blank(c)) && (t.kind == Whitespace ==> MaximalRun(s, t.start, t.end, Blank))
    && (t.kind == TokenKind.LineComment <==> c == '-' && next == '-')
    && (t.kind == TokenKind.LineComment ==>
          t.end <= |s| && (t.end < |s| ==> s[t.end] == '\n') && forall k :: t.start <= k < t.end ==> s[k] != '\n')
    && (t.kind == TokenKind.BlockComment <==> c == '/' && next == '*')
    && (t.kind == StrLit <==> c == '\'') && (t.kind == QuotedIdent <==> c == '"' || c == '`')
    && (t.kind == DollarStr <==> c == '$')
  }

  ghost predicate Means(s: string, t: Token, keywords: set<string>) {
    && t.start < |s| && t.start < t.end <= |s| + 1
    && PunctuationMeans(s, t) && WordMeans(s, t, keywords) && QuotedMeans(s, t)
  }

  // ----- One token -----

  lemma LexemePunctuation(s: string, i: nat, esc: QuoteEscapes, keywords: set<string>)
    requires i < |s| && LexemeAt(s, i, esc, keywords).Emit?
    ensures var x := LexemeAt(s, i, esc, keywords); PunctuationMeans(s, Token(x.kind, i, x.end))
  {
    hide QuotedRunEnd, DollarEnd, OpensTag, TagEnd, IdentEnd, DigitEnd, WordEnd, BlankEnd, LineEnd, BlockEnd,
      IsKnownKeyword, CEscapesPrefix;
    var x := LexemeAt(s, i, esc, keywords);
    var text := TextOf(s, Token(x.kind, i, x.end));
    assert text != "" && text[0] == s[i];
    assert x.end == i + 1 ==> text == [s[i]];
    assert x.end == i + 2 && i + 2 <= |s| ==> text == [s[i], s[i + 1]];
  }

  lemma LexemeWord(s: string, i: nat, esc: QuoteEscapes, keywords: set<string>)
    requires i < |s| && LexemeAt(s, i, esc, keywords).Emit?
    ensures var x := LexemeAt(s, i, esc, keywords); WordMeans(s, Token(x.kind, i, x.end), keywords)
  {
    hide QuotedRunEnd, DollarEnd, OpensTag, TagEnd, BlankEnd, LineEnd, BlockEnd, CEscapesPrefix;
    var x := LexemeAt(s, i, esc, keywords);
    var text := TextOf(s, Token(x.kind, i, x.end));
    AsciiUpperMeans(text);
  }

  lemma LexemeQuoted(s: string, i: nat, esc: QuoteEscapes, keywords: set<string>)
    requires i < |s| && LexemeAt(s, i, esc, keywords).Emit?
    ensures var x := LexemeAt(s, i, esc, keywords); QuotedMeans(s, Token(x.kind, i, x.end))
  {
    LineIsFree(s, if i + 2 <= |s| then i + 2 else i);
    hide QuotedRunEnd, DollarEnd, OpensTag, TagEnd, IdentEnd, DigitEnd, WordEnd, LineEnd, BlockEnd, IsKnownKeyword,
      CEscapesPrefix;
  }

  lemma {:induction false} TokenMeansFrom(s: string, i: nat, esc: QuoteEscapes, keywords: set<string>, k: nat)
    requires k < |Tokens(s, i, esc, keywords)|
    ensures Means(s, Tokens(s, i, esc, keywords)[k], keywords)
    decreases |s| + 1 - i
  {
    hide LexemeAt, PunctuationMeans, WordMeans, QuotedMeans;
    var x := LexemeAt(s, i, esc, keywords);
    if x.Skip? {
      TokenMeansFrom(s, x.end, esc, keywords, k);
    } else if k > 0 {
      TokenMeansFrom(s, x.end, esc, keywords, k - 1);
    } else {
      LexemePunctuation(s, i, esc, keywords);
      LexemeWord(s, i, esc, keywords);
      LexemeQuoted(s, i, esc, keywords);
    }
  }

  /** In every text, mode and keyword set each token's kind is what its text says. */
  lemma TokensMean(s: string, esc: QuoteEscapes, keywords: set<string>)
    ensures forall t :: t in Tokens(s, 0, esc, keywords) ==> Means(s, t, keywords)
  {
    hide Tokens, Means;
    var ts := Tokens(s, 0, esc, keywords);
    forall t | t in ts ensures Means(s, t, keywords) {
      var k :| 0 <= k < |ts| && ts[k] == t;
      TokenMeansFrom(s, 0, esc, keywords, k);
    }
  }

  // ----- Every mark has its token -----

  predicate IsMark(c: char) { c == '(' || c == ')' || c == '.' || c == ',' || c == ';' }

  function MarkKind(c: char): TokenKind {
    if c == '(' then LParen else if c == ')' then RParen else if c == '.' then Dot else if c == ',' then Comma else Semi
  }

  /** Text that is no code: literals, quoted names and comments. */
  predicate IsOpaque(k: TokenKind) {
    k in {StrLit, QuotedIdent, DollarStr, TokenKind.LineComment, TokenKind.BlockComment}
  }

  ghost predicate Covered(tokens: seq<Token>, k: nat) {
    exists t :: t in tokens && IsOpaque(t.kind) && t.start < k < t.end
  }

  lemma MarkLexeme(s: string, i: nat, esc: QuoteEscapes, keywords: set<string>, k: nat)
    requires i <= k < |s| && k < LexemeAt(s, i, esc, keywords).end && IsMark(s[k])
    ensures var x := LexemeAt(s, i, esc, keywords);
            && x.Emit?
            && (if k == i then x == Emit(MarkKind(s[k]), k + 1) else IsOpaque(x.kind))
  {
    hide QuotedRunEnd, DollarEnd, OpensTag, TagEnd, LineEnd, BlockEnd, IsKnownKeyword, CEscapesPrefix;
    assert !IsBlank(s[k]) && !IsWord(s[k]) && s[k] != '-' && s[k] != '=';
  }

  lemma {:induction false} MarksFrom(s: string, i: nat, esc: QuoteEscapes, keywords: set<string>, k: nat)
    requires i <= k < |s| && IsMark(s[k])
    ensures var ts := Tokens(s, i, esc, keywords); Covered(ts, k) || Token(MarkKind(s[k]), k, k + 1) in ts
    decreases |s| + 1 - i
  {
    hide LexemeAt, MarkKind, IsOpaque;
    var x := LexemeAt(s, i, esc, keywords);
    var ts := Tokens(s, i, esc, keywords);
    if k < x.end {
      MarkLexeme(s, i, esc, keywords, k);
      assert ts[0] == Token(x.kind, i, x.end) && ts[0] in ts;
    } else {
      MarksFrom(s, x.end, esc, keywords, k);
      var rest := Tokens(s, x.end, esc, keywords);
      assert forall t :: t in rest ==> t in ts;
    }
  }

  /** Each parenthesis, dot, comma and semicolon outside literals and comments has its token. */
  lemma MarksHaveTokens(s: string, esc: QuoteEscapes, keywords: set<string>, k: nat)
    requires k < |s| && IsMark(s[k])
    ensures var ts := Tokens(s, 0, esc, keywords); Covered(ts, k) || Token(MarkKind(s[k]), k, k + 1) in ts
  {
    MarksFrom(s, 0, esc, keywords, k);
  }

  // ----- Nothing else is skipped -----

  ghost predicate Held(tokens: seq<Token>, k: nat) { exists t :: t in tokens && t.start <= k < t.end }

  /** A character that begins no token: no space, word character, quote, mark or operator. */
  predicate IsStray(s: string, k: nat)
    requires k < |s|
  {
    var c := s[k];
    var next := if k + 1 < |s| then s[k + 1] else ' ';
    && !Blank(c) && !IsWord(c) && !IsMark(c)
    && c != '\'' && c != '"' && c != '`' && c != '@' && c != '*' && c != '=' && c != '<' && c != '>' && c != '-'
    && (c == '$' ==> !OpensTag(s, k)) && (c == '!' ==> next != '=') && (c == '/' ==> next != '*')
  }

  lemma SkippedIsStray(s: string, i: nat, esc: QuoteEscapes, keywords: set<string>)
    requires i < |s| && LexemeAt(s, i, esc, keywords).Skip?
    ensures LexemeAt(s, i, esc, keywords).end == i + 1 && IsStray(s, i)
  {
    hide QuotedRunEnd, DollarEnd, OpensTag, TagEnd, IdentEnd, DigitEnd, WordEnd, BlankEnd, LineEnd, BlockEnd,
      IsKnownKeyword, CEscapesPrefix;
  }

  lemma {:induction false} HeldFrom(s: string, i: nat, esc: QuoteEscapes, keywords: set<string>, k: nat)
    requires i <= k < |s|
    ensures Held(Tokens(s, i, esc, keywords), k) || IsStray(s, k)
    decreases |s| + 1 - i
  {
    hide LexemeAt, IsStray;
    var x := LexemeAt(s, i, esc, keywords);
    var ts := Tokens(s, i, esc, keywords);
    if k >= x.end {
      HeldFrom(s, x.end, esc, keywords, k);
      var rest := Tokens(s, x.end, esc, keywords);
      assert forall t :: t in rest ==> t in ts;
    } else if x.Emit? {
      assert ts[0] == Token(x.kind, i, x.end) && ts[0] in ts;
    } else {
      SkippedIsStray(s, i, esc, keywords);
    }
  }

  /** Every character that is not stray lies in a token. */
  lemma OnlyStraysAreSkipped(s: string, esc: QuoteEscapes, keywords: set<string>, k: nat)
    requires k < |s|
    ensures Held(Tokens(s, 0, esc, keywords), k) || IsStray(s, k)
  {
    HeldFrom(s, 0, esc, keywords, k);
  }

  // ----- Literals -----

  lemma {:induction false} TokenIsLexeme(s: string, i: nat, esc: QuoteEscapes, keywords: set<string>, k: nat)
    requires k < |Tokens(s, i, esc, keywords)|
    ensures var t := Tokens(s, i, esc, keywords)[k];
            t.start < |s| && LexemeAt(s, t.start, esc, keywords) == Emit(t.kind, t.end)
    decreases |s| + 1 - i
  {
    hide LexemeAt;
    var x := LexemeAt(s, i, esc, keywords);
    if x.Skip? {
      TokenIsLexeme(s, x.end, esc, keywords, k);
    } else if k > 0 {
      TokenIsLexeme(s, x.end, esc, keywords, k - 1);
    }
  }

  /** An `e` (101) or `E` (69) directly before the quote, with no word character before that. */
  predicate EBefore(s: string, i: nat)
    requires i < |s|
  {
    i >= 1 && (s[i - 1] as int == 101 || s[i - 1] as int == 69) && !(i >= 2 && IsWord(s[i - 2]))
  }

  /** How a backslash reads in the literal at `i`. */
  function ModeAt(s: string, i: nat, esc: QuoteEscapes): QuoteEscapes
    requires i < |s|
  {
    if esc.Backslash? || (s[i] == '\'' && EBefore(s, i)) then Backslash else Standard
  }

  lemma QuoteLexeme(s: string, i: nat, esc: QuoteEscapes, keywords: set<string>)
    requires i < |s| && IsQuote(s[i])
    ensures LexemeAt(s, i, esc, keywords)
            == Emit(if s[i] == '\'' then StrLit else QuotedIdent,
                    QuotedRunEnd(s, i + 1, s[i], ModeAt(s, i, esc).Backslash?))
  {
    hide QuotedRunEnd, DollarEnd, OpensTag, TagEnd, IdentEnd, DigitEnd, WordEnd, BlankEnd, LineEnd, BlockEnd,
      IsKnownKeyword;
  }

  lemma RunCloses(s: string, i: nat, q: char, mode: QuoteEscapes)
    requires StandsAt(s, i, [q]) && q != '\\' && (i + 1 < |s| ==> s[i + 1] != q)
    ensures QuotedRunEnd(s, i, q, mode.Backslash?) == i + 1
  {
    StandingText(s, i, [q]);
  }

  lemma UnitIsPassed(s: string, i: nat, u: Unit, q: char, mode: QuoteEscapes, rest: string)
    requires Legal(u, q, mode) && q != '\\' && rest != "" && StandsAt(s, i, UnitText(u, q) + rest)
    ensures QuotedRunEnd(s, i, q, mode.Backslash?) == QuotedRunEnd(s, i + |UnitText(u, q)|, q, mode.Backslash?)
  {
    var t := UnitText(u, q) + rest;
    StandingText(s, i, t);
    assert s[i] == t[0] && s[i + 1] == t[1];
  }

  lemma {:induction false} RunReads(s: string, i: nat, units: seq<Unit>, q: char, mode: QuoteEscapes)
    requires AllLegal(units, q, mode) && q != '\\' && StandsAt(s, i, Written(units, q))
    requires var e := i + |Written(units, q)|; e < |s| ==> s[e] != q
    ensures QuotedRunEnd(s, i, q, mode.Backslash?) == i + |Written(units, q)|
    decreases |units|
  {
    hide *;
    StandsInside(s, i, Written(units, q));
    WrittenIs(units, q);
    if units == [] {
      RunCloses(s, i, q, mode);
    } else {
      var head, rest := UnitText(units[0], q), Written(units[1..], q);
      LegalRest(units, q, mode);
      StandsInTwo(s, i, head, rest);
      RunReads(s, i + |head|, units[1..], q, mode);
      UnitIsPassed(s, i, units[0], q, mode, rest);
    }
  }

  /**
   The token of a literal or quoted name ends behind its closing quote, however it is written with characters,
   doubled quotes and, where the mode or an `E` before it says so, escapes.
   */
  lemma LiteralTokenEnds(s: string, esc: QuoteEscapes, keywords: set<string>, t: Token, units: seq<Unit>)
    requires t in Tokens(s, 0, esc, keywords) && t.start < |s| && IsQuote(s[t.start])
    requires AllLegal(units, s[t.start], ModeAt(s, t.start, esc))
    requires StandsAt(s, t.start + 1, Written(units, s[t.start]))
    requires var e := t.start + 1 + |Written(units, s[t.start])|; e < |s| ==> s[e] != s[t.start]
    ensures t.end == t.start + 1 + |Written(units, s[t.start])|
    ensures t.kind == if s[t.start] == '\'' then StrLit else QuotedIdent
  {
    hide Tokens, LexemeAt, QuotedRunEnd, AllLegal, Written, StandsAt;
    var ts := Tokens(s, 0, esc, keywords);
    var k :| 0 <= k < |ts| && ts[k] == t;
    TokenIsLexeme(s, 0, esc, keywords, k);
    QuoteLexeme(s, t.start, esc, keywords);
    var q, mode := s[t.start], ModeAt(s, t.start, esc);
    RunReads(s, t.start + 1, units, q, mode);
  }
}
