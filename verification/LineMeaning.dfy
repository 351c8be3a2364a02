/** Words of tokens and lines of text. */
module LineMeaning {
  import opened Lexis
  import opened Text
  import opened Tokenizer
  import opened TokenMeaning
  import opened Statements
  import opened StatementLines

  // ----- Words -----

  /** `text` is `word` in any case of its ASCII letters. */
  predicate Spells(text: string, word: string) { IsUpperOf(word, text) }

  lemma SpellsUpper(text: string, word: string)
    ensures Spells(text, word) <==> AsciiUpper(text) == word
  {
    AsciiUpperMeans(text);
  }

  /** A word that is its own text in capitals. */
  function Letters(w: Word): string
    requires w != OtherWord
  {
    match w
    case Alter => "ALTER" case Begin => "BEGIN" case Call => "CALL" case Commit => "COMMIT" case Copy => "COPY"
    case Create => "CREATE" case Declare => "DECLARE" case Delete => "DELETE" case Drop => "DROP"
    case Explain => "EXPLAIN" case Grant => "GRANT" case Insert => "INSERT" case Rollback => "ROLLBACK"
    case Revoke => "REVOKE" case Select => "SELECT" case Show => "SHOW" case Truncate => "TRUNCATE"
    case Update => "UPDATE" case Use => "USE" case Vacuum => "VACUUM" case With => "WITH" case Union => "UNION"
    case Intersect => "INTERSECT" case Except => "EXCEPT" case All => "ALL" case Distinct => "DISTINCT"
  }

  lemma LettersOfWord(text: string)
    ensures WordOf(text) != OtherWord ==> Letters(WordOf(text)) == AsciiUpper(text)
  {
    hide AsciiUpper;
  }

  lemma WordOfLetters(w: Word, text: string)
    requires w != OtherWord && AsciiUpper(text) == Letters(w)
    ensures WordOf(text) == w
  {
    hide AsciiUpper;
    var upper := AsciiUpper(text);
    assert |upper| == |Letters(w)|;
    assert upper[0] == Letters(w)[0] && upper[1] == Letters(w)[1] && upper[2] == Letters(w)[2];
  }

  /** A token has a word exactly when its text spells it, in any case. */
  lemma WordIff(text: string, w: Word)
    requires w != OtherWord
    ensures WordOf(text) == w <==> Spells(text, Letters(w))
  {
    hide WordOf, Letters, Spells, AsciiUpper;
    SpellsUpper(text, Letters(w));
    LettersOfWord(text);
    if AsciiUpper(text) == Letters(w) { WordOfLetters(w, text); }
  }

  // ----- Lines -----

  lemma {:induction false} LineStartShift(lines: seq<string>, l: nat)
    requires 0 < l <= |lines|
    ensures LineStart(lines, l) == |lines[0]| + 1 + LineStart(lines[1..], l - 1)
  {
    if l > 1 { LineStartShift(lines, l - 1); }
  }

  /** Line `l` stands in the joined text at `p`, and a newline behind it if another line follows. */
  ghost predicate LineStands(lines: seq<string>, l: nat, text: string, p: nat)
    requires l < |lines|
  {
    && p + |lines[l]| <= |text| && text[p..p + |lines[l]|] == lines[l]
    && (if l + 1 < |lines| then p + |lines[l]| < |text| && text[p + |lines[l]|] == '\n'
        else p + |lines[l]| == |text|)
  }

  lemma StandsBehind(lines: seq<string>, l: nat, text: string, lead: string, p: nat)
    requires 0 < l < |lines| && LineStands(lines[1..], l - 1, text, p)
    ensures LineStands(lines, l, lead + text, |lead| + p)
  {
    var n := |lines[l]|;
    assert (lead + text)[|lead| + p..|lead| + p + n] == text[p..p + n];
  }

  /** Every line of a buffer stands where its start says. */
  lemma {:induction false} LinesStand(lines: seq<string>, l: nat)
    requires l < |lines|
    ensures LineStands(lines, l, Join(lines, "\n"), LineStart(lines, l))
    decreases |lines|
  {
    var text := Join(lines, "\n");
    if |lines| > 1 {
      var lead := lines[0] + "\n";
      var rest := Join(lines[1..], "\n");
      assert text == lead + rest;
      if l == 0 {
        assert text[0..|lines[0]|] == lines[0] && text[|lines[0]|] == '\n';
      } else {
        LinesStand(lines[1..], l - 1);
        LineStartShift(lines, l);
        StandsBehind(lines, l, rest, lead, LineStart(lines[1..], l - 1));
      }
    }
  }

  /** Position `p` is in line `l`, the newline behind it included, or behind the text in the last line. */
  ghost predicate InLine(lines: seq<string>, l: nat, p: nat) {
    l < |lines| && LineStart(lines, l) <= p && (l + 1 < |lines| ==> p < LineStart(lines, l + 1))
  }

  /** A line range begins with the line of its first token and ends with the line its last token ends in. */
  lemma LineRangesHold(lines: seq<string>, esc: QuoteEscapes, keywords: set<string>, k: nat)
    requires |lines| > 1
    ensures var ts := Read(Join(lines, "\n"), Tokens(Join(lines, "\n"), 0, esc, keywords));
            ts != [] ==>
              var r := StatementLineRanges(lines, esc, keywords);
              && |r| == |AllRanges(ts)|
              && (k < |r| ==>
                    var (a, b) := AllRanges(ts)[k];
                    a < b <= |ts| && InLine(lines, r[k].0, ts[a].start) && InLine(lines, r[k].1, ts[b - 1].end))
  {
    hide Tokens, AllRanges, Join, LineStart, PositionToLine, Fit, Read;
    var ts := Read(Join(lines, "\n"), Tokens(Join(lines, "\n"), 0, esc, keywords));
    AllRangesFit(ts);
    if ts != [] && k < |AllRanges(ts)| {
      var (a, b) := AllRanges(ts)[k];
      FitsAt(AllRanges(ts), |ts|, k);
      LineHoldsPosition(lines, ts[a].start, |lines|);
      LineHoldsPosition(lines, ts[b - 1].end, |lines|);
    }
  }

  lemma FitsAt(ranges: seq<(nat, nat)>, n: nat, k: nat)
    requires Fit(ranges, n) && k < |ranges|
    ensures ranges[k].0 < ranges[k].1 <= n
  {}

  /** Without a line there is no range; one line, or lines without a token, are one range. */
  lemma ShortBuffers(lines: seq<string>, esc: QuoteEscapes, keywords: set<string>)
    ensures |StatementLineRanges([], esc, keywords)| == 0
    ensures |lines| == 1 ==> StatementLineRanges(lines, esc, keywords) == [(0, 0)]
    ensures |lines| > 1 && Tokens(Join(lines, "\n"), 0, esc, keywords) == [] ==>
              StatementLineRanges(lines, esc, keywords) == [(0, |lines| - 1)]
  {
    hide Tokens, AllRanges, Join, LineRanges;
  }
}
