/** From lines of text to line ranges of statements. */
module StatementLines {
  import opened Text
  import opened Lexis
  import opened Tokenizer
  import opened Statements
  import opened StatementRanges

  function WordOf(text: string): Word {
    match AsciiUpper(text)
    case "ALTER" => Alter case "BEGIN" => Begin case "CALL" => Call case "COMMIT" => Commit
    case "COPY" => Copy case "CREATE" => Create case "DECLARE" => Declare case "DELETE" => Delete
    case "DROP" => Drop case "EXPLAIN" => Explain case "GRANT" => Grant case "INSERT" => Insert
    case "ROLLBACK" => Rollback case "REVOKE" => Revoke case "SELECT" => Select case "SHOW" => Show
    case "TRUNCATE" => Truncate case "UPDATE" => Update case "USE" => Use case "VACUUM" => Vacuum
    case "WITH" => With case "UNION" => Union case "INTERSECT" => Intersect case "EXCEPT" => Except
    case "ALL" => All case "DISTINCT" => Distinct case _ => OtherWord
  }

  function TextOf(s: string, t: Token): string {
    if t.start <= t.end <= |s| then s[t.start..t.end] else if t.start <= |s| then s[t.start..] else ""
  }

  /** The tokens of `s` with their words. */
  function Read(s: string, tokens: seq<Token>): (ts: seq<Tok>)
    ensures |ts| == |tokens|
    ensures forall k :: 0 <= k < |ts| ==> ts[k].start == tokens[k].start && ts[k].end == tokens[k].end
  {
    seq(|tokens|, k requires 0 <= k < |tokens| =>
      Tok(tokens[k].kind, WordOf(TextOf(s, tokens[k])), tokens[k].start, tokens[k].end))
  }

  // ----- Spaces and comments spell no word -----

  predicate OpensTrivia(c: char) { IsBlank(c) || c == '-' || c == '/' }

  lemma {:induction false} TriviaOpens(s: string, i: nat, esc: QuoteEscapes, keywords: set<string>, k: nat)
    requires var ts := Tokens(s, i, esc, keywords);
             k < |ts| && ts[k].kind in {Whitespace, TokenKind.LineComment, TokenKind.BlockComment}
    ensures var t := Tokens(s, i, esc, keywords)[k]; t.start < |s| && t.start < t.end && OpensTrivia(s[t.start])
    decreases |s| + 1 - i
  {
    var x := LexemeAt(s, i, esc, keywords);
    if x.Skip? {
      hide LexemeAt;
      TriviaOpens(s, x.end, esc, keywords, k);
    } else if k > 0 {
      hide LexemeAt;
      TriviaOpens(s, x.end, esc, keywords, k - 1);
    }
  }

  lemma NoWord(text: string)
    requires text != "" && OpensTrivia(text[0])
    ensures WordOf(text) == OtherWord
  {
    assert AsciiUpper(text)[0] == text[0];
  }

  /** In the tokens of a text, spaces and comments are none of the words that bound statements. */
  lemma TriviaSpellsNothing(s: string, esc: QuoteEscapes, keywords: set<string>, k: nat)
    requires k < |Tokens(s, 0, esc, keywords)| && IsTrivia(Read(s, Tokens(s, 0, esc, keywords))[k].kind)
    ensures Read(s, Tokens(s, 0, esc, keywords))[k].word == OtherWord
  {
    hide WordOf, Tokens;
    TriviaOpens(s, 0, esc, keywords, k);
    NoWord(TextOf(s, Tokens(s, 0, esc, keywords)[k]));
  }

  // ----- Tokens come in order -----

  ghost predicate TokensInOrder(tokens: seq<Token>, lo: nat, n: nat)
    decreases |tokens|
  {
    tokens == [] ||
    (lo <= tokens[0].start < n && tokens[0].start < tokens[0].end <= n + 1
     && TokensInOrder(tokens[1..], tokens[0].end, n))
  }

  lemma {:induction false} TokensAreInOrder(s: string, i: nat, esc: QuoteEscapes, keywords: set<string>, lo: nat)
    requires lo <= i
    ensures TokensInOrder(Tokens(s, i, esc, keywords), lo, |s|)
    decreases |s| + 1 - i
  {
    hide LexemeAt;
    if i < |s| {
      var x := LexemeAt(s, i, esc, keywords);
      if x.Emit? {
        TokensAreInOrder(s, x.end, esc, keywords, x.end);
        var rest := Tokens(s, x.end, esc, keywords);
        assert ([Token(x.kind, i, x.end)] + rest)[1..] == rest;
      } else {
        TokensAreInOrder(s, x.end, esc, keywords, lo);
      }
    }
  }

  lemma {:induction false} OrderedStarts(tokens: seq<Token>, lo: nat, n: nat, j: nat, k: nat)
    requires TokensInOrder(tokens, lo, n) && j < |tokens| && k < |tokens|
    ensures lo <= tokens[j].start < tokens[j].end
    ensures j < k ==> tokens[j].end <= tokens[k].start
    decreases |tokens|
  {
    if j > 0 && k > 0 {
      OrderedStarts(tokens[1..], tokens[0].end, n, j - 1, k - 1);
    } else if j > 0 {
      OrderedStarts(tokens[1..], tokens[0].end, n, j - 1, j - 1);
    } else if k > 0 {
      OrderedStarts(tokens[1..], tokens[0].end, n, k - 1, k - 1);
    }
  }

  // ----- Positions to lines -----

  function LineStart(lines: seq<string>, l: nat): nat
    requires l <= |lines|
  {
    if l == 0 then 0 else LineStart(lines, l - 1) + |lines[l - 1]| + 1
  }

  function LineOffsets(lines: seq<string>): (offsets: seq<nat>)
    ensures |offsets| == |lines| && forall l :: 0 <= l < |lines| ==> offsets[l] == LineStart(lines, l)
  {
    seq(|lines|, l requires 0 <= l < |lines| => LineStart(lines, l))
  }

  /** The last line below `hi` that starts at or before the position, line 0 if there is none. */
  function PositionToLine(offsets: seq<nat>, position: nat, hi: nat): (l: nat)
    requires hi <= |offsets|
    ensures l < hi || l == 0
  {
    if hi == 0 then 0
    else if offsets[hi - 1] <= position then hi - 1
    else PositionToLine(offsets, position, hi - 1)
  }

  method LineOffsetsHelper(lines: seq<string>) returns (offsets: seq<nat>)
    requires lines != []
    ensures offsets == LineOffsets(lines)
  {
    hide LineStart, LineOffsets;
    LineStartIs(lines, 0);
    var offset := 0;
    offsets := [offset];
    for l := 0 to |lines|
      invariant |offsets| == l + 1 && offset == LineStart(lines, l)
      invariant forall j :: 0 <= j <= l ==> offsets[j] == LineStart(lines, j)
    {
      LineStartIs(lines, l + 1);
      offset := offset + |lines[l]| + 1;
      offsets := offsets + [offset];
    }
    OffsetsAre(lines, offsets);
    offsets := offsets[..|offsets| - 1];
  }

  lemma LineStartIs(lines: seq<string>, l: nat)
    requires l <= |lines|
    ensures LineStart(lines, l) == if l == 0 then 0 else LineStart(lines, l - 1) + |lines[l - 1]| + 1
  {
  }

  lemma OffsetsAre(lines: seq<string>, offsets: seq<nat>)
    requires |offsets| == |lines| + 1 && forall j :: 0 <= j <= |lines| ==> offsets[j] == LineStart(lines, j)
    ensures offsets[..|lines|] == LineOffsets(lines)
  {
    hide LineStart;
  }

  method ByteToLine(offsets: seq<nat>, position: nat) returns (l: nat)
    ensures l == PositionToLine(offsets, position, |offsets|)
  {
    l := |offsets|;
    while l > 0
      invariant l <= |offsets|
      invariant PositionToLine(offsets, position, l) == PositionToLine(offsets, position, |offsets|)
    {
      l := l - 1;
      if offsets[l] <= position { return; }
    }
    l := 0;
  }

  lemma {:induction false} LaterPositionLaterLine(offsets: seq<nat>, p: nat, p': nat, hi: nat)
    requires hi <= |offsets| && p <= p'
    ensures PositionToLine(offsets, p, hi) <= PositionToLine(offsets, p', hi)
  {
    if hi > 0 && offsets[hi - 1] > p { LaterPositionLaterLine(offsets, p, p', hi - 1); }
  }

  /** The line found starts at or before the position, and the next one after it. */
  lemma {:induction false} LineHoldsPosition(lines: seq<string>, p: nat, hi: nat)
    requires 0 < hi <= |lines|
    ensures var l := PositionToLine(LineOffsets(lines), p, hi);
            LineStart(lines, l) <= p && (l + 1 < hi ==> p < LineStart(lines, l + 1))
  {
    if hi > 1 && LineStart(lines, hi - 1) > p { LineHoldsPosition(lines, p, hi - 1); }
  }

  // ----- Line ranges -----

  function LineRange(ts: seq<Tok>, offsets: seq<nat>, r: (nat, nat)): (nat, nat)
    requires r.0 < r.1 <= |ts|
  {
    (PositionToLine(offsets, ts[r.0].start, |offsets|), PositionToLine(offsets, ts[r.1 - 1].end, |offsets|))
  }

  ghost predicate Fit(ranges: seq<(nat, nat)>, n: nat) {
    forall k :: 0 <= k < |ranges| ==> ranges[k].0 < ranges[k].1 <= n
  }

  function LineRanges(ts: seq<Tok>, offsets: seq<nat>, ranges: seq<(nat, nat)>): (r: seq<(nat, nat)>)
    requires Fit(ranges, |ts|)
    ensures |r| == |ranges|
  {
    seq(|ranges|, k requires 0 <= k < |ranges| => LineRange(ts, offsets, ranges[k]))
  }

  lemma {:induction false} InOrderFits(ranges: seq<(nat, nat)>, lo: nat, hi: nat)
    requires InOrder(ranges, lo, hi)
    ensures forall k :: 0 <= k < |ranges| ==> lo <= ranges[k].0 < ranges[k].1 <= hi
    ensures forall k :: 0 <= k < |ranges| - 1 ==> ranges[k].1 <= ranges[k + 1].0
    decreases |ranges|
  {
    if ranges != [] {
      var rest := ranges[1..];
      InOrderFits(rest, ranges[0].1, hi);
      forall k | 0 <= k < |ranges| ensures lo <= ranges[k].0 < ranges[k].1 <= hi {
        if k > 0 { assert ranges[k] == rest[k - 1]; }
      }
      forall k | 0 <= k < |ranges| - 1 ensures ranges[k].1 <= ranges[k + 1].0 {
        assert ranges[k + 1] == rest[k];
        if k > 0 { assert ranges[k] == rest[k - 1]; }
      }
    }
  }

  lemma AllRangesFit(ts: seq<Tok>)
    ensures Fit(AllRanges(ts), |ts|)
  {
    RangesInOrder(ts, 0, 0, false, |ts|);
    InOrderFits(AllRanges(ts), 0, |ts|);
  }

  /** The statement line ranges of a buffer. */
  function StatementLineRanges(lines: seq<string>, esc: QuoteEscapes, keywords: set<string>): seq<(nat, nat)> {
    if lines == [] then []
    else if |lines| == 1 then [(0, 0)]
    else
      var text := Join(lines, "\n");
      var ts := Read(text, Tokens(text, 0, esc, keywords));
      if ts == [] then [(0, |lines| - 1)]
      else AllRangesFit(ts); LineRanges(ts, LineOffsets(lines), AllRanges(ts))
  }

  method ToLines(ts: seq<Tok>, offsets: seq<nat>, ranges: seq<(nat, nat)>) returns (out: seq<(nat, nat)>)
    requires Fit(ranges, |ts|)
    ensures out == LineRanges(ts, offsets, ranges)
  {
    out := [];
    for k := 0 to |ranges|
      invariant out == LineRanges(ts, offsets, ranges)[..k]
    {
      var startLine := ByteToLine(offsets, ts[ranges[k].0].start);
      var endLine := ByteToLine(offsets, ts[ranges[k].1 - 1].end);
      out := out + [(startLine, endLine)];
    }
  }

  method FindAllStatementRanges(lines: seq<string>, esc: QuoteEscapes, keywords: set<string>)
      returns (out: seq<(nat, nat)>)
    ensures out == StatementLineRanges(lines, esc, keywords)
  {
    hide AllRanges, Tokens, LineRanges, Fit;
    if lines == [] { return []; }
    if |lines| == 1 { return [(0, 0)]; }
    var text := Join(lines, "\n");
    var tokens := Tokenize(text, esc, keywords);
    var ts := Read(text, tokens);
    if ts == [] { return [(0, |lines| - 1)]; }
    var ranges := FindAllTokenRanges(ts);
    AllRangesFit(ts);
    var offsets := LineOffsetsHelper(lines);
    out := ToLines(ts, offsets, ranges);
  }

  /** Line ranges lie inside the buffer, run forward, and none starts before the one above it ends. */
  lemma LineRangesInOrder(lines: seq<string>, esc: QuoteEscapes, keywords: set<string>)
    ensures var r := StatementLineRanges(lines, esc, keywords);
            && (forall k :: 0 <= k < |r| ==> r[k].0 <= r[k].1 < |lines|)
            && (forall k :: 0 <= k < |r| - 1 ==> r[k].1 <= r[k + 1].0)
  {
    var text := Join(lines, "\n");
    var tokens := Tokens(text, 0, esc, keywords);
    var ts := Read(text, tokens);
    if |lines| > 1 && ts != [] {
      TokensAreInOrder(text, 0, esc, keywords, 0);
      TokenRangesToLines(tokens, ts, |text|, LineOffsets(lines));
    }
  }

  lemma TokenRangesToLines(tokens: seq<Token>, ts: seq<Tok>, n: nat, offsets: seq<nat>)
    requires TokensInOrder(tokens, 0, n) && offsets != [] && |ts| == |tokens|
    requires forall k :: 0 <= k < |ts| ==> ts[k].start == tokens[k].start && ts[k].end == tokens[k].end
    ensures Fit(AllRanges(ts), |ts|)
    ensures var r := LineRanges(ts, offsets, AllRanges(ts));
            && (forall k :: 0 <= k < |r| ==> r[k].0 <= r[k].1 < |offsets|)
            && (forall k :: 0 <= k < |r| - 1 ==> r[k].1 <= r[k + 1].0)
  {
    var ranges := AllRanges(ts);
    RangesInOrder(ts, 0, 0, false, |ts|);
    hide AllRanges;
    InOrderFits(ranges, 0, |ts|);
    forall k | 0 <= k < |ranges|
      ensures var r := LineRange(ts, offsets, ranges[k]); r.0 <= r.1 < |offsets|
    {
      RangeForward(tokens, ts, n, offsets, ranges[k]);
    }
    forall k | 0 <= k < |ranges| - 1
      ensures LineRange(ts, offsets, ranges[k]).1 <= LineRange(ts, offsets, ranges[k + 1]).0
    {
      var a, b := ranges[k].1 - 1, ranges[k + 1].0;
      OrderedStarts(tokens, 0, n, a, b);
      LaterPositionLaterLine(offsets, ts[a].end, ts[b].start, |offsets|);
    }
  }

  lemma RangeForward(tokens: seq<Token>, ts: seq<Tok>, n: nat, offsets: seq<nat>, r: (nat, nat))
    requires TokensInOrder(tokens, 0, n) && offsets != [] && |ts| == |tokens| && r.0 < r.1 <= |ts|
    requires forall k :: 0 <= k < |ts| ==> ts[k].start == tokens[k].start && ts[k].end == tokens[k].end
    ensures LineRange(ts, offsets, r).0 <= LineRange(ts, offsets, r).1 < |offsets|
  {
    var a, b := r.0, r.1 - 1;
    OrderedStarts(tokens, 0, n, a, b);
    OrderedStarts(tokens, 0, n, b, b);
    LaterPositionLaterLine(offsets, ts[a].start, ts[b].end, |offsets|);
  }
}
