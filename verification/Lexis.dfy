/**
 The literal and comment grammar that every SQL scanner of the repository reads, written once
 as functions from a position to the position just past what starts there. The scanners are
 loops over an index; each is proved against these functions in its own module.
 */
module Lexis {
  import opened Text

  /** Whether a backslash escapes the next character inside a quoted literal. */
  datatype QuoteEscapes = Standard | Backslash

  datatype ElementKind = Quoted | LineComment | BlockComment | DollarQuoted | Terminator | Plain

  datatype Element = Element(kind: ElementKind, end: nat)

  predicate IsLiteral(e: Element) { e.kind == Quoted || e.kind == DollarQuoted }

  predicate IsQuote(c: char) { c == '\'' || c == '"' || c == '`' }

  /** How much one step inside a literal takes: an escaped pair, a doubled quote, or one character. */
  function QuotedStep(s: string, i: nat, q: char, esc: QuoteEscapes): (n: nat)
    requires i < |s|
    ensures 1 <= n && i + n <= |s|
  {
    if i + 1 < |s| && ((esc.Backslash? && s[i] == '\\') || (s[i] == q && s[i + 1] == q)) then 2 else 1
  }

  /** From inside a literal opened by `q`: just past its closing quote, or the end of the text. */
  function QuotedEnd(s: string, i: nat, q: char, esc: QuoteEscapes): (e: nat)
    requires i <= |s|
    ensures i <= e <= |s|
    ensures e < |s| ==> i < e && s[e - 1] == q
    decreases |s| - i
  {
    if i == |s| then i
    else
      var n := QuotedStep(s, i, q, esc);
      if s[i] == q && n == 1 then i + 1 else QuotedEnd(s, i + n, q, esc)
  }

  /** From inside a line comment: the position of its newline, or the end of the text. */
  function LineEnd(s: string, i: nat): (e: nat)
    requires i <= |s|
    ensures i <= e <= |s|
    ensures e < |s| ==> s[e] == '\n'
    decreases |s| - i
  {
    if i == |s| || s[i] == '\n' then i else LineEnd(s, i + 1)
  }

  lemma {:induction false} LineIsFree(s: string, i: nat)
    requires i <= |s|
    ensures forall k :: i <= k < LineEnd(s, i) ==> s[k] != '\n'
    decreases |s| - i
  {
    if i < |s| && s[i] != '\n' { LineIsFree(s, i + 1); }
  }

  /** From inside a block comment: just past its closing mark, or the end of the text. */
  function BlockEnd(s: string, i: nat): (e: nat)
    requires i <= |s|
    ensures i <= e <= |s|
    ensures e < |s| ==> i < e && s[e - 1] == '/'
    decreases |s| - i
  {
    if i == |s| then i
    else if s[i] == '*' && i + 1 < |s| && s[i + 1] == '/' then i + 2
    else BlockEnd(s, i + 1)
  }

  /** The end of the run of word characters at `i`. */
  function WordEnd(s: string, i: nat): (e: nat)
    requires i <= |s|
    ensures i <= e <= |s|
    ensures forall k :: i <= k < e ==> IsWord(s[k])
    ensures e < |s| ==> !IsWord(s[e])
    decreases |s| - i
  {
    if i == |s| || !IsWord(s[i]) then i else WordEnd(s, i + 1)
  }

  /** Does the `$` at `i` open a dollar quote, with a tag `$$` or `$name$`? */
  predicate OpensTag(s: string, i: nat)
    requires i < |s|
  {
    var w := WordEnd(s, i + 1);
    w < |s| && s[w] == '$' && (w == i + 1 || !IsDigit(s[i + 1]))
  }

  function TagEnd(s: string, i: nat): (e: nat)
    requires i < |s| && OpensTag(s, i)
    ensures i + 2 <= e <= |s|
  {
    WordEnd(s, i + 1) + 1
  }

  /** Is `tag` the text at `i`? */
  predicate TagAt(s: string, i: nat, tag: string) {
    i + |tag| <= |s| && s[i..i + |tag|] == tag
  }

  /** From inside a dollar-quoted body: just past the first copy of the tag, or the end of the text. */
  function DollarEnd(s: string, i: nat, tag: string): (e: nat)
    requires i <= |s| && tag != ""
    ensures i <= e <= |s|
    ensures e < |s| ==> i < e && s[e - 1] == tag[|tag| - 1]
    decreases |s| - i
  {
    if i == |s| then i
    else if TagAt(s, i, tag) then i + |tag|
    else DollarEnd(s, i + 1, tag)
  }

  lemma DollarTurn(s: string, i: nat, tag: string)
    requires i <= |s| && tag != ""
    ensures TagAt(s, i, tag) ==> DollarEnd(s, i, tag) == i + |tag|
    ensures i < |s| && !TagAt(s, i, tag) ==> DollarEnd(s, i, tag) == DollarEnd(s, i + 1, tag)
  {}

  /** The lexical element that starts at `i`, when `i` is at top level. */
  function ElementAt(s: string, i: nat, esc: QuoteEscapes): (e: Element)
    requires i < |s|
    ensures i < e.end <= |s|
  {
    var c := s[i];
    var next := if i + 1 < |s| then s[i + 1] else ' ';
    if IsQuote(c) then Element(Quoted, QuotedEnd(s, i + 1, c, esc))
    else if c == '-' && next == '-' then
      var nl := LineEnd(s, i + 2);
      Element(LineComment, if nl < |s| then nl + 1 else nl)
    else if c == '/' && next == '*' then Element(BlockComment, BlockEnd(s, i + 2))
    else if c == '$' && OpensTag(s, i) then
      var body := TagEnd(s, i);
      Element(DollarQuoted, DollarEnd(s, body, s[i..body]))
    else if c == ';' then Element(Terminator, i + 1)
    else Element(Plain, i + 1)
  }
}
