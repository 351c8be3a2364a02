/** The SQL tokenizer and the token list it produces. */
module Tokenizer {
  import opened Text
  import opened Lexis

  datatype TokenKind =
    | Whitespace | LineComment | BlockComment | Ident | QuotedIdent | Keyword | StrLit | NumLit | Op
    | Dot | Comma | Semi | LParen | RParen | At | DollarStr

  /** Space and comments. */
  predicate IsTrivia(k: TokenKind) {
    k == Whitespace || k == TokenKind.LineComment || k == TokenKind.BlockComment
  }

  datatype Token = Token(kind: TokenKind, start: nat, end: nat)

  /** What the tokenizer does with the text at one position. */
  datatype Lexeme = Emit(kind: TokenKind, end: nat) | Skip(end: nat)

  predicate IsBlank(c: char) { c == ' ' || c == '\t' || c == '\n' || c == '\r' }

  predicate IsIdentChar(c: char) { IsWord(c) || c == '-' }

  function AsciiUpper(s: string): string {
    seq(|s|, k requires 0 <= k < |s| => if 'a' <= s[k] <= 'z' then s[k] - ('a' - 'A') else s[k])
  }

  /** Keywords are matched without regard to ASCII case, in a table of upper-case words. */
  predicate IsKnownKeyword(word: string, keywords: set<string>) {
    1 < |word| <= 24 && AsciiUpper(word) in keywords
  }

  function BlankEnd(s: string, i: nat): (e: nat)
    requires i <= |s|
    ensures i <= e <= |s|
    ensures forall k :: i <= k < e ==> IsBlank(s[k])
    ensures e < |s| ==> !IsBlank(s[e])
    decreases |s| - i
  {
    if i == |s| || !IsBlank(s[i]) then i else BlankEnd(s, i + 1)
  }

  function IdentEnd(s: string, i: nat): (e: nat)
    requires i <= |s|
    ensures i <= e <= |s|
    ensures forall k :: i <= k < e ==> IsIdentChar(s[k])
    ensures e < |s| ==> !IsIdentChar(s[e])
    decreases |s| - i
  {
    if i == |s| || !IsIdentChar(s[i]) then i else IdentEnd(s, i + 1)
  }

  function DigitEnd(s: string, i: nat): (e: nat)
    requires i <= |s|
    ensures i <= e <= |s|
    ensures forall k :: i <= k < e ==> IsDigit(s[k])
    ensures e < |s| ==> !IsDigit(s[e])
    decreases |s| - i
  {
    if i == |s| || !IsDigit(s[i]) then i else DigitEnd(s, i + 1)
  }

  /** From inside a quoted run: just past its end. A final escape steps one past the text. */
  function QuotedRunEnd(s: string, i: nat, q: char, backslash: bool): (e: nat)
    ensures i <= e <= |s| + 1 || e == i
    decreases |s| + 1 - i
  {
    if i >= |s| then i
    else if backslash && s[i] == '\\' then QuotedRunEnd(s, i + 2, q, backslash)
    else if s[i] == q then
      if i + 1 < |s| && s[i + 1] == q then QuotedRunEnd(s, i + 2, q, backslash) else i + 1
    else QuotedRunEnd(s, i + 1, q, backslash)
  }

  /** Does the quote at `start` open an `E'...'` literal? */
  predicate CEscapesPrefix(s: string, start: nat)
    requires start <= |s|
  {
    && start >= 1 && (s[start - 1] == 'e' || s[start - 1] == 'E')
    && !(start >= 2 && IsWord(s[start - 2]))
  }

  function LexemeAt(s: string, i: nat, esc: QuoteEscapes, keywords: set<string>): (x: Lexeme)
    requires i < |s|
    ensures i < x.end <= |s| + 1
  {
    var c := s[i];
    var next := if i + 1 < |s| then s[i + 1] else ' ';
    if IsBlank(c) then Emit(Whitespace, BlankEnd(s, i + 1))
    else if c == '-' && next == '-' then Emit(TokenKind.LineComment, LineEnd(s, i + 2))
    else if c == '/' && next == '*' then Emit(TokenKind.BlockComment, BlockEnd(s, i + 2))
    else if c == '\'' then Emit(StrLit, QuotedRunEnd(s, i + 1, c, esc.Backslash? || CEscapesPrefix(s, i)))
    else if c == '"' || c == '`' then Emit(QuotedIdent, QuotedRunEnd(s, i + 1, c, esc.Backslash?))
    else if c == '$' then
      if OpensTag(s, i) then Emit(DollarStr, DollarEnd(s, TagEnd(s, i), s[i..TagEnd(s, i)])) else Skip(i + 1)
    else if c == '@' then Emit(At, WordEnd(s, i + 1))
    else if IsAlpha(c) || c == '_' then
      var e := IdentEnd(s, i + 1);
      Emit(if IsKnownKeyword(s[i..e], keywords) then Keyword else Ident, e)
    else if IsDigit(c) then
      var e := DigitEnd(s, i + 1);
      if e < |s| && (IsAlpha(s[e]) || s[e] == '_') then Emit(Ident, IdentEnd(s, e)) else Emit(NumLit, e)
    else if c == '.' then Emit(Dot, i + 1)
    else if c == ',' then Emit(Comma, i + 1)
    else if c == ';' then Emit(Semi, i + 1)
    else if c == '(' then Emit(LParen, i + 1)
    else if c == ')' then Emit(RParen, i + 1)
    else if c == '*' || c == '=' then Emit(Op, i + 1)
    else if c == '!' && next == '=' then Emit(Op, i + 2)
    else if c == '<' || c == '>' then Emit(Op, if next == '=' then i + 2 else i + 1)
    else if c == '-' then Emit(Op, i + 1)
    else Skip(i + 1)
  }

  /** The tokens from position `i` on. */
  function Tokens(s: string, i: nat, esc: QuoteEscapes, keywords: set<string>): seq<Token>
    decreases |s| + 1 - i
  {
    if i >= |s| then []
    else
      match LexemeAt(s, i, esc, keywords)
      case Emit(kind, end) => [Token(kind, i, end)] + Tokens(s, end, esc, keywords)
      case Skip(end) => Tokens(s, end, esc, keywords)
  }

  // ----- The loops -----

  method ScanQuoted(s: string, start: nat, quote: char, backslash: bool) returns (i: nat)
    requires start < |s|
    ensures i == QuotedRunEnd(s, start + 1, quote, backslash)
  {
    i := start + 1;
    while i < |s|
      invariant QuotedRunEnd(s, i, quote, backslash) == QuotedRunEnd(s, start + 1, quote, backslash)
      decreases |s| - i
    {
      if backslash && s[i] == '\\' {
        i := i + 2;
        continue;
      }
      if s[i] == quote {
        i := i + 1;
        if i < |s| && s[i] == quote {
          i := i + 1;
          continue;
        }
        return;
      }
      i := i + 1;
    }
  }

  method FindDollar(s: string, from: nat) returns (found: bool, k: nat)
    requires from <= |s|
    ensures found ==> from <= k < |s| && s[k] == '$' && forall j :: from <= j < k ==> s[j] != '$'
    ensures !found ==> forall j :: from <= j < |s| ==> s[j] != '$'
  {
    k, found := from, false;
    while k < |s|
      invariant from <= k <= |s|
      invariant forall j :: from <= j < k ==> s[j] != '$'
    {
      if s[k] == '$' { return true, k; }
      k := k + 1;
    }
  }

  /** `opens` is false where the source answers None: this `$` is an ordinary character. */
  method ScanDollarQuote(s: string, start: nat) returns (opens: bool, end: nat)
    requires start < |s| && s[start] == '$'
    ensures opens <==> OpensTag(s, start)
    ensures opens ==> end == DollarEnd(s, TagEnd(s, start), s[start..TagEnd(s, start)])
  {
    opens, end := ScanTag(s, start);
    hide OpensTag, TagEnd, DollarEnd;
    if opens { end := FindClosing(s, end, s[start..end]); }
  }

  method ScanTag(s: string, start: nat) returns (opens: bool, j: nat)
    requires start < |s| && s[start] == '$'
    ensures opens <==> OpensTag(s, start)
    ensures opens ==> j == TagEnd(s, start)
  {
    j := start + 1;
    if j < |s| && s[j] == '$' {
      j := j + 1;
    } else if j < |s| && (IsAlpha(s[j]) || s[j] == '_') {
      j := j + 1;
      while j < |s| && IsWord(s[j])
        invariant start + 1 < j <= |s| && WordEnd(s, j) == WordEnd(s, start + 1)
      {
        j := j + 1;
      }
      if !(j < |s| && s[j] == '$') { return false, start; }
      j := j + 1;
    } else {
      return false, start;
    }
    opens := true;
  }

  /** Jump from `$` to `$` until the delimiter is found. */
  method FindClosing(s: string, body: nat, delim: string) returns (end: nat)
    requires body <= |s| && delim != "" && delim[0] == '$'
    ensures end == DollarEnd(s, body, delim)
  {
    hide DollarEnd;
    var k := body;
    while k < |s|
      invariant body <= k <= |s| && DollarEnd(s, k, delim) == DollarEnd(s, body, delim)
    {
      var found, at := FindDollar(s, k);
      NoTagWithoutDollar(s, k, if found then at else |s|, delim);
      if !found { return |s|; }
      k := at;
      DollarTurn(s, k, delim);
      if |s| - k >= |delim| && s[k..k + |delim|] == delim { return k + |delim|; }
      k := k + 1;
    }
    end := |s|;
  }

  lemma {:induction false} NoTagWithoutDollar(s: string, k: nat, at: nat, delim: string)
    requires k <= at <= |s| && delim != "" && delim[0] == '$'
    requires forall j :: k <= j < at ==> s[j] != '$'
    ensures DollarEnd(s, k, delim) == DollarEnd(s, at, delim)
    decreases at - k
  {
    if k < at {
      if k + |delim| <= |s| { assert s[k..k + |delim|][0] == s[k]; }
      NoTagWithoutDollar(s, k + 1, at, delim);
    }
  }

  method ScanIdent(s: string, from: nat) returns (i: nat)
    requires from <= |s|
    ensures i == IdentEnd(s, from)
  {
    i := from;
    while i < |s| && IsIdentChar(s[i])
      invariant from <= i <= |s| && IdentEnd(s, i) == IdentEnd(s, from)
    {
      i := i + 1;
    }
  }

  method ScanLexeme(s: string, start: nat, esc: QuoteEscapes, keywords: set<string>) returns (x: Lexeme)
    requires start < |s|
    ensures x == LexemeAt(s, start, esc, keywords)
  {
    var i := start + 1;
    var c := s[start];
    var next := if i < |s| then s[i] else ' ';
    if IsBlank(c) {
      while i < |s| && IsBlank(s[i])
        invariant start < i <= |s| && BlankEnd(s, i) == BlankEnd(s, start + 1)
      {
        i := i + 1;
      }
      return Emit(Whitespace, i);
    } else if c == '-' && next == '-' {
      i := i + 1;
      while i < |s| && s[i] != '\n'
        invariant start + 2 <= i <= |s| && LineEnd(s, i) == LineEnd(s, start + 2)
      {
        i := i + 1;
      }
      return Emit(TokenKind.LineComment, i);
    } else if c == '/' && next == '*' {
      i := i + 1;
      while i + 1 < |s| && !(s[i] == '*' && s[i + 1] == '/')
        invariant start + 2 <= i <= |s| && BlockEnd(s, i) == BlockEnd(s, start + 2)
      {
        i := i + 1;
      }
      i := if i + 1 < |s| then i + 2 else |s|;
      return Emit(TokenKind.BlockComment, i);
    } else if c == '\'' {
      i := ScanQuoted(s, start, c, esc.Backslash? || CEscapesPrefix(s, start));
      return Emit(StrLit, i);
    } else if c == '"' || c == '`' {
      i := ScanQuoted(s, start, c, esc.Backslash?);
      return Emit(QuotedIdent, i);
    } else if c == '$' {
      var opens, end := ScanDollarQuote(s, start);
      return if opens then Emit(DollarStr, end) else Skip(i);
    } else if c == '@' || IsWord(c) {
      x := ScanWord(s, start, esc, keywords);
    } else {
      x := ScanPunctuation(s, start, esc, keywords);
    }
  }

  method ScanWord(s: string, start: nat, esc: QuoteEscapes, keywords: set<string>) returns (x: Lexeme)
    requires start < |s| && (s[start] == '@' || IsWord(s[start]))
    ensures x == LexemeAt(s, start, esc, keywords)
  {
    var i := start + 1;
    var c := s[start];
    if c == '@' {
      while i < |s| && IsWord(s[i])
        invariant start < i <= |s| && WordEnd(s, i) == WordEnd(s, start + 1)
      {
        i := i + 1;
      }
      return Emit(At, i);
    } else if IsAlpha(c) || c == '_' {
      i := ScanIdent(s, i);
      return Emit(if IsKnownKeyword(s[start..i], keywords) then Keyword else Ident, i);
    }
    while i < |s| && IsDigit(s[i])
      invariant start < i <= |s| && DigitEnd(s, i) == DigitEnd(s, start + 1)
    {
      i := i + 1;
    }
    if i < |s| && (IsAlpha(s[i]) || s[i] == '_') {
      i := ScanIdent(s, i);
      return Emit(Ident, i);
    }
    x := Emit(NumLit, i);
  }

  method ScanPunctuation(s: string, start: nat, esc: QuoteEscapes, keywords: set<string>) returns (x: Lexeme)
    requires start < |s|
    requires var c := s[start];
             !IsBlank(c) && c != '\'' && c != '"' && c != '`' && c != '$' && c != '@' && !IsWord(c)
    requires start + 1 < |s| ==> !(s[start] == '-' && s[start + 1] == '-') && !(s[start] == '/' && s[start + 1] == '*')
    ensures x == LexemeAt(s, start, esc, keywords)
  {
    var i := start + 1;
    match s[start]
    case '.' => x := Emit(Dot, i);
    case ',' => x := Emit(Comma, i);
    case ';' => x := Emit(Semi, i);
    case '(' => x := Emit(LParen, i);
    case ')' => x := Emit(RParen, i);
    case '*' => x := Emit(Op, i);
    case '=' => x := Emit(Op, i);
    case '!' => x := if i < |s| && s[i] == '=' then Emit(Op, i + 1) else Skip(i);
    case '<' => x := Emit(Op, if i < |s| && s[i] == '=' then i + 1 else i);
    case '>' => x := Emit(Op, if i < |s| && s[i] == '=' then i + 1 else i);
    case '-' => x := Emit(Op, i);
    case _ => x := Skip(i);
  }

  method Tokenize(s: string, esc: QuoteEscapes, keywords: set<string>) returns (tokens: seq<Token>)
    ensures tokens == Tokens(s, 0, esc, keywords)
  {
    tokens := [];
    var i := 0;
    while i < |s|
      invariant tokens + Tokens(s, i, esc, keywords) == Tokens(s, 0, esc, keywords)
      decreases |s| - i
    {
      var x := ScanLexeme(s, i, esc, keywords);
      hide LexemeAt;
      if x.Emit? { tokens := tokens + [Token(x.kind, i, x.end)]; }
      i := x.end;
    }
  }
}
