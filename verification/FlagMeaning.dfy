/** What every flag of the line flagger says of its newline, in the splitter's terms. */
module FlagMeaning {
  import Blanker
  import opened Lexis
  import opened LineFlags

  /** A stray `$` right before a newline takes the newline with it. */
  predicate TakesNewline(s: string, i: nat)
    requires i < |s|
  {
    StrayDollar(s, i) && i + 1 < |s| && s[i + 1] == '\n'
  }

  /** How many newlines from `i` on stand in block comments or right after a stray `$`. */
  function Lost(s: string, i: nat): nat
    requires i <= |s|
    decreases |s| - i
  {
    if i == |s| then 0
    else
      var e := ElementAt(s, i, Standard);
      (if e.kind == BlockComment then Newlines(s, i, e.end) else if TakesNewline(s, i) then 1 else 0) + Lost(s, e.end)
  }

  /** One flag for each of the other newlines: is the splitter outside every literal there? */
  function SeenFlags(s: string, i: nat): seq<bool>
    requires i <= |s|
    decreases |s| - i
  {
    if i == |s| then []
    else
      var e := ElementAt(s, i, Standard);
      if e.kind == BlockComment then SeenFlags(s, e.end)
      else if TakesNewline(s, i) then SeenFlags(s, i + 2)
      else Repeat(!IsLiteral(e), Newlines(s, i, e.end)) + SeenFlags(s, e.end)
  }

  /** Does the literal opened by `q` before `i` close? */
  predicate QuoteCloses(s: string, i: nat, q: char)
    requires i <= |s|
    decreases |s| - i
  {
    i < |s| &&
    var n := QuotedStep(s, i, q, Standard);
    (s[i] == q && n == 1) || QuoteCloses(s, i + n, q)
  }

  /** Is the splitter outside every literal at the end of the text? */
  predicate EndsOutside(s: string, i: nat)
    requires i <= |s|
    decreases |s| - i
  {
    i == |s| ||
    (var e := ElementAt(s, i, Standard);
     && (e.kind == Quoted ==> QuoteCloses(s, i + 1, s[i]))
     && (e.kind == DollarQuoted ==>
           OpensTag(s, i) && Blanker.TagCloses(s, TagEnd(s, i), s[i..TagEnd(s, i)]))
     && EndsOutside(s, e.end))
  }

  // ----- All flags but the last -----

  lemma {:induction false} SeenFrom(s: string, i: nat)
    requires i <= |s| && KeepsPlace(s, i)
    ensures Inner(FlagsFrom(s, i, Top)) == SeenFlags(s, i)
    ensures |SeenFlags(s, i)| + Lost(s, i) == Newlines(s, i, |s|)
    decreases |s| - i
  {
    if i < |s| {
      var e := ElementAt(s, i, Standard);
      NewlinesAdd(s, i, e.end, |s|);
      if e.kind == BlockComment {
        BlockIs(s, i);
        BlockSkipped(s, i);
        hide FlagsFrom, ElementAt, Newlines, StrayDollar;
        SeenFrom(s, e.end);
      } else if TakesNewline(s, i) {
        NewlineSkipped(s, i);
        NewlineIsPlain(s, i + 1);
        hide FlagsFrom, ElementAt, Newlines, StrayDollar;
        assert KeepsPlace(s, i + 1);
        SeenFrom(s, i + 2);
      } else {
        hide StrayDollar;
        ElementSeen(s, i);
        hide FlagsFrom, ElementAt, Newlines;
        SeenFrom(s, e.end);
      }
    }
  }

  lemma NewlineIsPlain(s: string, i: nat)
    requires i < |s| && s[i] == '\n'
    ensures ElementAt(s, i, Standard) == Element(Plain, i + 1) && !StrayDollar(s, i)
    ensures Lost(s, i) == Lost(s, i + 1)
  {
  }

  // ----- The last flag -----

  function Last(f: seq<bool>): bool
    requires f != []
  {
    f[|f| - 1]
  }

  lemma LastTurn(s: string, i: nat, m: Mode)
    requires i < |s| && s[i] == '\n' && (m.InDollar? ==> m.tag != "")
    ensures Last(FlagsFrom(s, i, m)) == Last(FlagsFrom(s, i + 1, m))
  {
  }

  lemma {:induction false} QuotedLast(s: string, i: nat, q: char)
    requires i <= |s| && q != '\n'
    ensures Last(FlagsFrom(s, i, InQuote(q)))
            == (QuoteCloses(s, i, q) && Last(FlagsFrom(s, QuotedEnd(s, i, q, Standard), Top)))
    decreases |s| - i
  {
    if i < |s| {
      var n := QuotedStep(s, i, q, Standard);
      if s[i] == '\n' {
        LastTurn(s, i, InQuote(q));
        QuotedLast(s, i + 1, q);
      } else if !(s[i] == q && n == 1) {
        QuotedLast(s, i + n, q);
      }
    }
  }

  lemma {:induction false} DollarLast(s: string, i: nat, tag: string)
    requires i <= |s| && tag != "" && tag[0] == '$' && forall k :: 0 <= k < |tag| ==> tag[k] != '\n'
    ensures Last(FlagsFrom(s, i, InDollar(tag)))
            == (Blanker.TagCloses(s, i, tag) && Last(FlagsFrom(s, DollarEnd(s, i, tag), Top)))
    decreases |s| - i
  {
    if i < |s| {
      LineFlags.DollarTurn(s, i, tag);
      if s[i] == '\n' && !TagAt(s, i, tag) { LastTurn(s, i, InDollar(tag)); }
      hide FlagsFrom, TagAt;
      if !TagAt(s, i, tag) {
        DollarLast(s, i + 1, tag);
        NoRoom(s, i, tag);
      }
    }
  }

  lemma {:induction false} NoRoom(s: string, i: nat, tag: string)
    requires tag != ""
    ensures i + |tag| > |s| ==> !Blanker.TagCloses(s, i + 1, tag)
  {
  }

  /** What one element does to the last flag. */
  lemma ElementLast(s: string, i: nat)
    requires i < |s| && KeepsPlace(s, i)
    ensures var e := ElementAt(s, i, Standard);
            Last(FlagsFrom(s, i, Top))
            == ((e.kind == Quoted ==> QuoteCloses(s, i + 1, s[i]))
                && (e.kind == DollarQuoted ==>
                      OpensTag(s, i) && Blanker.TagCloses(s, TagEnd(s, i), s[i..TagEnd(s, i)]))
                && Last(FlagsFrom(s, e.end, Top)))
  {
    if IsQuote(s[i]) {
      QuotedLast(s, i + 1, s[i]);
    } else if s[i] == '$' && OpensTag(s, i) {
      DollarOpens(s, i);
      DollarLast(s, TagEnd(s, i), s[i..TagEnd(s, i)]);
    } else if s[i] == '$' {
      StrayLast(s, i);
    } else {
      OtherLast(s, i);
    }
  }

  lemma StrayLast(s: string, i: nat)
    requires i < |s| && StrayDollar(s, i) && KeepsPlace(s, i)
    ensures ElementAt(s, i, Standard) == Element(Plain, i + 1)
    ensures Last(FlagsFrom(s, i, Top)) == Last(FlagsFrom(s, i + 1, Top))
  {
    if i + 1 < |s| { AfterStrayDollar(s, i); }
  }

  lemma LineLast(s: string, i: nat)
    requires i + 1 < |s| && s[i] == s[i + 1] == '-'
    ensures var e := ElementAt(s, i, Standard);
            e.kind == LineComment && Last(FlagsFrom(s, i, Top)) == Last(FlagsFrom(s, e.end, Top))
  {
    var nl := LineEnd(s, i + 2);
    assert Advance(s, i, Top) == (nl, Top);
    assert FlagsFrom(s, i, Top) == FlagsFrom(s, nl, Top);
    hide FlagsFrom;
    if nl < |s| { LastTurn(s, nl, Top); }
  }

  lemma OtherLast(s: string, i: nat)
    requires i < |s| && !IsQuote(s[i]) && s[i] != '$'
    ensures var e := ElementAt(s, i, Standard);
            && e.kind != Quoted && e.kind != DollarQuoted
            && Last(FlagsFrom(s, i, Top)) == Last(FlagsFrom(s, e.end, Top))
  {
    if i + 1 < |s| && s[i] == s[i + 1] == '-' {
      LineLast(s, i);
    } else if i + 1 < |s| && s[i] == '/' && s[i + 1] == '*' {
      BlockSkipped(s, i);
    } else if s[i] == '\n' {
      LastTurn(s, i, Top);
    } else {
      assert Advance(s, i, Top) == (i + 1, Top);
    }
    hide LineEnd, BlockEnd, QuotedEnd, DollarEnd, OpensTag;
  }

  lemma {:induction false} LastFrom(s: string, i: nat)
    requires i <= |s| && KeepsPlace(s, i)
    ensures Last(FlagsFrom(s, i, Top)) == EndsOutside(s, i)
    decreases |s| - i
  {
    if i < |s| {
      ElementLast(s, i);
      hide FlagsFrom, ElementAt, QuoteCloses, OpensTag, StrayDollar;
      LastFrom(s, ElementAt(s, i, Standard).end);
    }
  }

  /**
   On every text in which no stray `$` stands right before a quote or a comment, the flags are: for
   each newline that is not lost whether the splitter is outside every literal there, and whether it is
   at the end of the text.
   */
  lemma FlagsMean(s: string)
    requires KeepsPlace(s, 0)
    ensures FlagsFrom(s, 0, Top) == SeenFlags(s, 0) + [EndsOutside(s, 0)]
    ensures |FlagsFrom(s, 0, Top)| == Newlines(s, 0, |s|) - Lost(s, 0) + 1
  {
    hide FlagsFrom, SeenFlags, EndsOutside, KeepsPlace;
    SeenFrom(s, 0);
    LastFrom(s, 0);
    var f := FlagsFrom(s, 0, Top);
    assert f == Inner(f) + [Last(f)];
  }
}
