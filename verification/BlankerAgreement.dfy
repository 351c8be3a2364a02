/** The classifier's blanking against the splitter's reading of the same text. */
module BlankerAgreement {
  import opened Blanker
  import opened Lexis
  import opened Text

  /** The text with everything the splitter reads as a literal blanked. */
  function LiteralsBlanked(s: string, i: nat, esc: QuoteEscapes): (r: string)
    requires i <= |s|
    ensures |r| == |s| - i
    decreases |s| - i
  {
    if i == |s| then ""
    else
      var e := ElementAt(s, i, esc);
      (if IsLiteral(e) then Spaces(e.end - i) else s[i..e.end]) + LiteralsBlanked(s, e.end, esc)
  }

  /** A place where the blanker starts to blank, whatever the splitter reads there. */
  predicate Catches(s: string, k: nat)
    requires k < |s|
  {
    IsQuote(s[k]) || OpensClosedTag(s, k)
  }

  predicate IsComment(e: Element) { e.kind == LineComment || e.kind == BlockComment }

  /** From `i` on every dollar quote is closed, and nothing in a comment makes the blanker start. */
  ghost predicate Agreeable(s: string, i: nat, esc: QuoteEscapes)
    requires i <= |s|
    decreases |s| - i
  {
    i == |s|
    || (var e := ElementAt(s, i, esc);
        && (e.kind == DollarQuoted ==> OpensClosedTag(s, i))
        && (IsComment(e) ==> forall k :: i <= k < e.end ==> !Catches(s, k))
        && Agreeable(s, e.end, esc))
  }

  lemma HeadOfSlice(s: string, i: nat, e: nat)
    requires i < e <= |s|
    ensures s[i..e] == [s[i]] + s[i + 1..e]
  {
  }

  /** The blanker copies everything up to the first place where it starts to blank. */
  lemma {:induction false} CopiedRun(s: string, i: nat, e: nat, esc: QuoteEscapes)
    requires i <= e <= |s| && forall k :: i <= k < e ==> !Catches(s, k)
    ensures Blank(s, i, esc) == s[i..e] + Blank(s, e, esc)
    decreases e - i
  {
    if i < e {
      assert !Catches(s, i);
      hide Blank, IsQuote, OpensClosedTag, Catches;
      CopiedRun(s, i + 1, e, esc);
      CopiedOne(s, i, esc);
      HeadOfSlice(s, i, e);
      Regroup([s[i]], s[i + 1..e], Blank(s, e, esc));
    } else {
      assert s[i..e] + Blank(s, e, esc) == Blank(s, e, esc);
    }
  }

  lemma CopiedOne(s: string, i: nat, esc: QuoteEscapes)
    requires i < |s| && !Catches(s, i)
    ensures Blank(s, i, esc) == [s[i]] + Blank(s, i + 1, esc)
  {
    hide IsQuote, OpensClosedTag;
  }

  lemma CaughtOne(s: string, i: nat, esc: QuoteEscapes)
    requires i < |s| && Catches(s, i)
    ensures Blank(s, i, esc) != "" && Blank(s, i, esc)[0] == ' ' != s[i]
  {
    hide OpensTag, TagCloses, QuotedEnd, DollarEnd;
  }

  /** The first place in `[i, e)` where the blanker starts to blank. */
  lemma FirstCaught(s: string, i: nat, e: nat) returns (k: nat)
    requires i < e <= |s| && exists j :: i <= j < e && Catches(s, j)
    ensures i <= k < e && Catches(s, k) && forall j :: i <= j < k ==> !Catches(s, j)
  {
    hide Catches;
    k := i;
    while !Catches(s, k)
      invariant i <= k < e && forall j :: i <= j < k ==> !Catches(s, j)
      invariant exists j :: k <= j < e && Catches(s, j)
      decreases e - k
    {
      k := k + 1;
    }
  }

  /** A comment in which the blanker starts to blank does not stay as it is. */
  lemma CommentCaught(s: string, i: nat, e: nat, esc: QuoteEscapes, rest: string)
    requires i < e <= |s| && exists k :: i <= k < e && Catches(s, k)
    ensures Blank(s, i, esc) != s[i..e] + rest
  {
    hide Catches, Blank;
    var k := FirstCaught(s, i, e);
    CopiedRun(s, i, k, esc);
    CaughtOne(s, k, esc);
    assert (s[i..k] + Blank(s, k, esc))[k - i] == ' ';
    assert (s[i..e] + rest)[k - i] == s[k];
  }

  /** What the blanker makes of one element. */
  lemma ElementBlanked(s: string, i: nat, esc: QuoteEscapes)
    requires i < |s|
    requires var e := ElementAt(s, i, esc);
             && (IsComment(e) ==> forall k :: i <= k < e.end ==> !Catches(s, k))
             && (e.kind == DollarQuoted ==> OpensClosedTag(s, i))
    ensures var e := ElementAt(s, i, esc);
            Blank(s, i, esc) == (if IsLiteral(e) then Spaces(e.end - i) else s[i..e.end]) + Blank(s, e.end, esc)
  {
    var e := ElementAt(s, i, esc);
    if IsComment(e) {
      hide ElementAt, Blank, Catches;
      CopiedRun(s, i, e.end, esc);
    } else {
      BlankStepIs(s, i, esc);
      hide ElementAt, BlankStep;
      assert !IsLiteral(e) ==> s[i..i + 1] == [s[i]];
    }
  }

  lemma BlankStepIs(s: string, i: nat, esc: QuoteEscapes)
    requires i < |s| && !IsComment(ElementAt(s, i, esc))
    requires ElementAt(s, i, esc).kind == DollarQuoted ==> OpensClosedTag(s, i)
    ensures var e := ElementAt(s, i, esc);
            BlankStep(s, i, esc) == (e.end, IsLiteral(e)) && (!IsLiteral(e) ==> e.end == i + 1)
  {
    hide OpensTag, TagCloses, QuotedEnd, DollarEnd, LineEnd, BlockEnd;
  }

  /** The `$` of a dollar quote that never closes stays in the blanked text. */
  lemma OpenDollarShows(s: string, i: nat, esc: QuoteEscapes)
    requires i < |s| && ElementAt(s, i, esc).kind == DollarQuoted && !OpensClosedTag(s, i)
    ensures Blank(s, i, esc) != "" && Blank(s, i, esc)[0] == '$'
  {
    hide OpensTag, TagCloses, QuotedEnd, DollarEnd, LineEnd, BlockEnd;
  }

  lemma {:induction false} BlankingAgreesFrom(s: string, i: nat, esc: QuoteEscapes)
    requires i <= |s|
    ensures Blank(s, i, esc) == LiteralsBlanked(s, i, esc) <==> Agreeable(s, i, esc)
    decreases |s| - i
  {
    hide BlankStep, Shown, OpensClosedTag, ElementAt, Blank, Catches;
    if i < |s| {
      var e := ElementAt(s, i, esc);
      if e.kind == DollarQuoted && !OpensClosedTag(s, i) {
        OpenDollarShows(s, i, esc);
        assert LiteralsBlanked(s, i, esc)[0] == ' ';
      } else if IsComment(e) && exists k :: i <= k < e.end && Catches(s, k) {
        CommentCaught(s, i, e.end, esc, LiteralsBlanked(s, e.end, esc));
      } else {
        ElementBlanked(s, i, esc);
        BlankingAgreesFrom(s, e.end, esc);
        SamePrefix(if IsLiteral(e) then Spaces(e.end - i) else s[i..e.end],
                   Blank(s, e.end, esc), LiteralsBlanked(s, e.end, esc));
      }
    } else {
      NothingBlanked(s, esc);
    }
  }

  lemma NothingBlanked(s: string, esc: QuoteEscapes)
    ensures Blank(s, |s|, esc) == ""
  {
  }

  /**
   For every text and both modes: the classifier blanks exactly the literals the splitter sees,
   exactly when every dollar quote is closed and no comment holds a quote or a dollar quote that
   closes somewhere.
   */
  lemma BlankingAgreesIff(s: string, esc: QuoteEscapes)
    ensures Blank(s, 0, esc) == LiteralsBlanked(s, 0, esc) <==> Agreeable(s, 0, esc)
  {
    BlankingAgreesFrom(s, 0, esc);
  }

  // ----- Where the readings part -----

  /** A dollar quote that never closes stays for the classifier. */
  lemma OpenDollarStays()
    ensures var s := "$$x"; Blank(s, 0, Standard) == s && LiteralsBlanked(s, 0, Standard) == "   "
  {
    var s := "$$x";
    assert DollarEnd(s, 2, "$$") == 3 by { assert DollarEnd(s, 3, "$$") == 3; }
    assert s[0..2] == "$$";
    assert ElementAt(s, 0, Standard) == Element(DollarQuoted, 3);
    assert !TagCloses(s, 2, s[0..2]);
    assert Blank(s, 2, Standard) == "x" + Blank(s, 3, Standard);
    assert BlankStep(s, 1, Standard) == (2, false);
    assert Blank(s, 1, Standard) == "$" + "x";
    assert Blank(s, 0, Standard) == "$" + ("$" + "x");
    assert LiteralsBlanked(s, 0, Standard) == Spaces(3) + "";
  }

  /** A quote in a comment opens a literal for the classifier alone: the second line is lost to it. */
  lemma {:induction false} QuoteInComment()
    ensures var s := "--'\nx";
            Blank(s, 0, Standard) == "--   " && LiteralsBlanked(s, 0, Standard) == s
  {
    var s := "--'\nx";
    assert QuotedEnd(s, 5, '\'', Standard) == 5;
    assert QuotedEnd(s, 4, '\'', Standard) == 5;
    assert QuotedEnd(s, 3, '\'', Standard) == 5;
    assert BlankStep(s, 2, Standard) == (5, true);
    assert Blank(s, 5, Standard) == "";
    assert Blank(s, 2, Standard) == Spaces(3) == "   ";
    assert Blank(s, 1, Standard) == "-" + "   ";
    assert Blank(s, 0, Standard) == "-" + ("-" + "   ");
    assert LineEnd(s, 3) == 3;
    assert ElementAt(s, 0, Standard) == Element(LineComment, 4);
    assert ElementAt(s, 4, Standard) == Element(Plain, 5);
    assert LiteralsBlanked(s, 4, Standard) == s[4..5] + "";
    assert LiteralsBlanked(s, 0, Standard) == s[0..4] + s[4..5];
  }
}
