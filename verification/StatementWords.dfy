/** Statement boundaries with every word written out. */
module StatementWords {
  import opened Tokenizer
  import opened Statements
  import opened StatementRanges
  import opened SegmentAgreement

  // ----- Words and depth -----

  /** Space and comments. */
  predicate Blank(k: TokenKind) { k == Whitespace || k == TokenKind.LineComment || k == TokenKind.BlockComment }

  function Count(ts: seq<Tok>, kind: TokenKind, i: nat): nat
    requires i <= |ts|
  {
    if i == 0 then 0 else Count(ts, kind, i - 1) + (if ts[i - 1].kind == kind then 1 else 0)
  }

  /** Outside parentheses: as many closed as opened before. */
  predicate Outside(ts: seq<Tok>, i: nat)
    requires i <= |ts|
  {
    Count(ts, LParen, i) == Count(ts, RParen, i)
  }

  lemma {:induction false} DepthIsBalance(ts: seq<Tok>, i: nat)
    requires i <= |ts|
    ensures Depth(ts, i) == Count(ts, LParen, i) - Count(ts, RParen, i)
  {
    if i > 0 { DepthIsBalance(ts, i - 1); }
  }

  predicate OpenerWord(w: Word) {
    || w == Alter || w == Begin || w == Call || w == Commit || w == Copy || w == Create || w == Declare
    || w == Delete || w == Drop || w == Explain || w == Grant || w == Insert || w == Rollback || w == Revoke
    || w == Select || w == Show || w == Truncate || w == Update || w == Use || w == Vacuum || w == With
  }

  lemma OpenerWords(w: Word)
    ensures IsStartWord(w) <==> OpenerWord(w)
  {
    match w
    case Union => case Intersect => case Except => case All => case Distinct => case OtherWord =>
    case _ =>
  }

  /** A word that starts a statement, outside parentheses. */
  predicate Opener(ts: seq<Tok>, i: nat)
    requires i < |ts|
  {
    ts[i].kind == Keyword && OpenerWord(ts[i].word) && Outside(ts, i)
  }

  predicate Separator(ts: seq<Tok>, i: nat)
    requires i < |ts|
  {
    ts[i].kind == Semi && Outside(ts, i)
  }

  lemma OpenersAndSeparators(ts: seq<Tok>, i: nat)
    requires i < |ts|
    ensures StartsAt(ts, i) <==> Opener(ts, i)
    ensures SemiAt(ts, i) <==> Separator(ts, i)
  {
    hide Depth, Count, IsStartWord, OpenerWord;
    OpenerWords(ts[i].word);
    DepthIsBalance(ts, i);
  }

  // ----- Behind a set operator -----

  predicate Clear(ts: seq<Tok>, o: nat, i: nat)
    requires i <= |ts|
  {
    forall j :: o < j < i ==> Blank(ts[j].kind)
  }

  /** `ALL` or `DISTINCT` with only space and comments between `o` and `i` beside it. */
  predicate ModifierAt(ts: seq<Tok>, o: nat, i: nat, m: nat)
    requires i <= |ts|
  {
    && o < m < i && ts[m].kind == Keyword && (ts[m].word == All || ts[m].word == Distinct)
    && Clear(ts, o, m) && Clear(ts, m, i)
  }

  /** `UNION`, `INTERSECT` or `EXCEPT` at the depth of `k`. */
  predicate OperatorFor(ts: seq<Tok>, o: nat, k: nat)
    requires o < |ts| && k < |ts|
  {
    && ts[o].kind == Keyword && (ts[o].word == Union || ts[o].word == Intersect || ts[o].word == Except)
    && Depth(ts, o) == Depth(ts, k)
  }

  ghost predicate HasModifier(ts: seq<Tok>, o: nat, i: nat)
    requires i <= |ts|
  {
    exists m: nat :: ModifierAt(ts, o, i, m)
  }

  ghost predicate Reaches(ts: seq<Tok>, o: nat, k: nat, i: nat, modifier: bool)
    requires o < i <= k < |ts|
  {
    OperatorFor(ts, o, k) && (Clear(ts, o, i) || (modifier && HasModifier(ts, o, i)))
  }

  ghost predicate OperatorBefore(ts: seq<Tok>, k: nat, i: nat, modifier: bool)
    requires i <= k < |ts|
  {
    exists o: nat :: o < i && Reaches(ts, o, k, i, modifier)
  }

  /** An operator stands before the keyword at `k`, over space, comments and at most one `ALL` or `DISTINCT`. */
  ghost predicate BehindOperator(ts: seq<Tok>, k: nat)
    requires k < |ts|
  {
    OperatorBefore(ts, k, k, true)
  }

  predicate Modifies(t: Tok) { t.kind == Keyword && (t.word == All || t.word == Distinct) }

  lemma ClearStep(ts: seq<Tok>, o: nat, i: nat)
    requires o + 1 < i <= |ts|
    ensures Clear(ts, o, i) <==> Blank(ts[i - 1].kind) && Clear(ts, o, i - 1)
  {}

  lemma ModifierStep(ts: seq<Tok>, o: nat, i: nat)
    requires o + 1 < i <= |ts|
    ensures HasModifier(ts, o, i) <==>
            (Blank(ts[i - 1].kind) && HasModifier(ts, o, i - 1)) || (Modifies(ts[i - 1]) && Clear(ts, o, i - 1))
  {
    hide Clear;
    if m: nat :| ModifierAt(ts, o, i, m) {
      if m < i - 1 {
        ClearStep(ts, m, i);
        assert ModifierAt(ts, o, i - 1, m);
      }
    }
    if Blank(ts[i - 1].kind) && HasModifier(ts, o, i - 1) {
      var m: nat :| ModifierAt(ts, o, i - 1, m);
      ClearStep(ts, m, i);
      assert ModifierAt(ts, o, i, m);
    }
    if Modifies(ts[i - 1]) && Clear(ts, o, i - 1) {
      NothingBetween(ts, i - 1);
      assert ModifierAt(ts, o, i, i - 1);
    }
  }

  lemma NothingBetween(ts: seq<Tok>, i: nat)
    requires i < |ts|
    ensures Clear(ts, i, i + 1)
  {}

  lemma ReachStep(ts: seq<Tok>, o: nat, k: nat, i: nat, modifier: bool)
    requires o < i <= k < |ts|
    ensures var t := ts[i - 1];
            Reaches(ts, o, k, i, modifier) <==>
            if o == i - 1 then OperatorFor(ts, o, k)
            else || (Blank(t.kind) && Reaches(ts, o, k, i - 1, modifier))
                 || (modifier && Modifies(t) && Reaches(ts, o, k, i - 1, false))
  {
    hide Clear, OperatorFor, HasModifier, Blank, Modifies;
    if o == i - 1 {
      NothingBetween(ts, o);
    } else {
      ClearStep(ts, o, i);
      ModifierStep(ts, o, i);
    }
  }

  lemma BeforeStep(ts: seq<Tok>, k: nat, i: nat, modifier: bool)
    requires 0 < i <= k < |ts|
    ensures var t := ts[i - 1];
            OperatorBefore(ts, k, i, modifier) <==>
            || OperatorFor(ts, i - 1, k)
            || (Blank(t.kind) && OperatorBefore(ts, k, i - 1, modifier))
            || (modifier && Modifies(t) && OperatorBefore(ts, k, i - 1, false))
  {
    hide Reaches, OperatorFor, Blank, Modifies;
    ReachStep(ts, i - 1, k, i, modifier);
    if o: nat :| o < i && Reaches(ts, o, k, i, modifier) { ReachStep(ts, o, k, i, modifier); }
    var j := i - 1;
    if o: nat :| o < j && Reaches(ts, o, k, j, modifier) { ReachStep(ts, o, k, i, modifier); }
    if o: nat :| o < j && Reaches(ts, o, k, j, false) { ReachStep(ts, o, k, i, modifier); }
  }

  lemma {:induction false} ContinuesMeans(ts: seq<Tok>, k: nat, i: nat, skipped: bool)
    requires i <= k < |ts|
    ensures ContinuesFrom(ts, k, i, skipped) <==> OperatorBefore(ts, k, i, !skipped)
    decreases i
  {
    hide OperatorBefore, Depth;
    if i == 0 {
      NothingBeforeZero(ts, k, !skipped);
    } else {
      BeforeStep(ts, k, i, !skipped);
      ContinuesMeans(ts, k, i - 1, skipped);
      ContinuesMeans(ts, k, i - 1, true);
    }
  }

  lemma NothingBeforeZero(ts: seq<Tok>, k: nat, modifier: bool)
    requires k < |ts|
    ensures !OperatorBefore(ts, k, 0, modifier)
  {}

  /** The keyword at `k` is an arm exactly when an operator of its depth stands before it. */
  lemma ArmIff(ts: seq<Tok>, k: nat)
    requires k < |ts|
    ensures Continues(ts, k) <==> BehindOperator(ts, k)
  {
    hide OperatorBefore, ContinuesFrom;
    ContinuesMeans(ts, k, k, false);
  }

  // ----- One segment -----

  /** Between separators, with nothing but space and comments before the opener at `f`. */
  ghost predicate Statement(ts: seq<Tok>, p: nat, f: nat, q: nat) {
    && p <= f < q <= |ts|
    && (p == 0 || Separator(ts, p - 1)) && (q == |ts| || Separator(ts, q))
    && (forall k :: p <= k < q ==> !Separator(ts, k))
    && Opener(ts, f) && forall k :: p <= k < f ==> Blank(ts[k].kind) && ts[k].word == OtherWord
  }

  /** One range of the list, and the range of every cursor in it. */
  ghost predicate OneRange(ts: seq<Tok>, f: nat, q: nat) {
    && (f, q) in AllRanges(ts)
    && forall c :: f <= c < q && c < |ts| ==> RangeAt(ts, c) == (f, q)
  }

  lemma StatementOpens(ts: seq<Tok>, p: nat, f: nat, q: nat)
    requires Statement(ts, p, f, q)
    ensures Opens(ts, p, f, q)
  {
    hide StartsAt, SemiAt, Opener, Separator;
    OpenersAndSeparators(ts, f);
    if p > 0 { OpenersAndSeparators(ts, p - 1); }
    if q < |ts| { OpenersAndSeparators(ts, q); }
    forall k | p <= k < q ensures !SemiAt(ts, k) { OpenersAndSeparators(ts, k); }
  }

  /** A range recorded in a segment is in the list. */
  lemma InTheList(ts: seq<Tok>, p: nat, q: nat, r: (nat, nat))
    requires Segment(ts, p, q) && r in SegmentRanges(ts, p, q)
    ensures r in AllRanges(ts)
  {
    hide AllRanges, SegmentRanges, Segment;
    SegmentsMakeTheList(ts, p, q);
  }

  /**
   A statement whose later openers all stand behind `UNION`, `INTERSECT` or `EXCEPT` is one range, from
   every cursor and in the list.
   */
  lemma ArmsAreOneRange(ts: seq<Tok>, p: nat, f: nat, q: nat)
    requires Statement(ts, p, f, q)
    requires forall k :: f < k < q && Opener(ts, k) ==> BehindOperator(ts, k)
    ensures OneRange(ts, f, q)
  {
    StatementOpens(ts, p, f, q);
    hide StartsAt, SemiAt, Opener, Separator, Continues, BehindOperator, RangeAt, SegmentRanges, AllRanges, Clause;
    forall k | f < k < q ensures !BoundaryAt(ts, k) {
      OpenersAndSeparators(ts, k);
      ArmIff(ts, k);
    }
    RangesAgreeIff(ts, p, f, q);
    assert (f, q) in [(f, q)];
    InTheList(ts, p, q, (f, q));
  }

  // ----- A second SELECT that is no arm -----

  /** Every opener of the statement is a `SELECT`. */
  ghost predicate OnlySelects(ts: seq<Tok>, f: nat, q: nat)
    requires q <= |ts|
  {
    forall k :: f <= k < q && Opener(ts, k) ==> ts[k].word == Select
  }

  lemma {:induction false} RecordedFrom(ts: seq<Tok>, i: nat, k: nat, claimNext: bool, n: nat) returns (e: nat)
    requires k < i <= n <= |ts| && !IsTrivia(ts[k].kind)
    ensures (k, e) in Ranges(ts, i, k, claimNext, n)
    decreases n - i
  {
    hide SemiAt, StartsAt, Contained, Continues;
    if i == n {
      e := n;
    } else if SemiAt(ts, i) {
      e := i;
    } else if !StartsAt(ts, i) {
      e := RecordedFrom(ts, i + 1, k, claimNext, n);
    } else if claimNext || Contained(ts, k, i) {
      e := RecordedFrom(ts, i + 1, k, false, n);
    } else if Continues(ts, i) {
      e := RecordedFrom(ts, i + 1, k, claimNext, n);
    } else {
      e := i;
    }
  }

  lemma {:induction false} RecordedAt(ts: seq<Tok>, i: nat, from: nat, k: nat, n: nat) returns (e: nat)
    requires from <= i <= k < n <= |ts| && BoundaryAt(ts, k) && ts[k].word == Select
    requires forall j :: i <= j < k ==> !SemiAt(ts, j) && (StartsAt(ts, j) ==> ts[j].word == Select)
    ensures (k, e) in Ranges(ts, i, from, false, n)
    decreases k - i
  {
    hide SemiAt, StartsAt, Continues, Pushed;
    assert i < k ==> !SemiAt(ts, i);
    if i == k {
      BoundaryIsNoTrivia(ts, k);
      e := RecordedFrom(ts, i + 1, k, false, n);
    } else if !StartsAt(ts, i) || Continues(ts, i) {
      e := RecordedAt(ts, i + 1, from, k, n);
    } else {
      e := RecordedAt(ts, i + 1, i, k, n);
    }
  }

  lemma BoundaryIsNoTrivia(ts: seq<Tok>, k: nat)
    requires k < |ts| && BoundaryAt(ts, k)
    ensures !IsTrivia(ts[k].kind) && !SemiAt(ts, k)
  {}

  /** No separator and no other opener than `SELECT` behind `f`, in the scanner's terms. */
  ghost predicate SelectsFollow(ts: seq<Tok>, f: nat, q: nat)
    requires q <= |ts|
  {
    forall j :: f < j < q ==> !SemiAt(ts, j) && (StartsAt(ts, j) ==> ts[j].word == Select)
  }

  lemma SelectsInScannerTerms(ts: seq<Tok>, p: nat, f: nat, q: nat)
    requires Statement(ts, p, f, q) && OnlySelects(ts, f, q)
    ensures q <= |ts| && SelectsFollow(ts, f, q) && Segment(ts, p, q)
    ensures StartsAt(ts, f) && ts[f].word == Select && !SemiAt(ts, f)
    ensures SegmentRanges(ts, p, q) == Ranges(ts, f + 1, f, false, q)
  {
    StatementOpens(ts, p, f, q);
    OpeningRanges(ts, p, f, q);
    hide StartsAt, SemiAt, Opener, Separator, Ranges, SegmentRanges, BoundaryAt, PrevStart;
    OpenersAndSeparators(ts, f);
    forall j | f < j < q ensures !SemiAt(ts, j) && (StartsAt(ts, j) ==> ts[j].word == Select) {
      OpenersAndSeparators(ts, j);
    }
  }

  lemma OpenerIsBoundary(ts: seq<Tok>, k: nat)
    requires k < |ts| && Opener(ts, k) && !BehindOperator(ts, k)
    ensures BoundaryAt(ts, k)
  {
    hide StartsAt, Opener, Continues, BehindOperator;
    OpenersAndSeparators(ts, k);
    ArmIff(ts, k);
  }

  /** A cursor on a `SELECT` behind a `SELECT` stands on the start of its range. */
  lemma CursorOnSelect(ts: seq<Tok>, f: nat, q: nat, k: nat)
    requires f < k < q <= |ts| && SelectsFollow(ts, f, q) && BoundaryAt(ts, k)
    requires StartsAt(ts, f) && ts[f].word == Select && !SemiAt(ts, f)
    ensures RangeAt(ts, k).0 == k
  {
    hide StartsAt, SemiAt, Continues, FirstStart, RangeEnd, PrevStart;
    NoStartBetween(ts, f, k);
    var j := PrevStart(ts, k).index;
    assert ts[j].word == Select && ts[k].word == Select;
  }

  lemma ListOnSelect(ts: seq<Tok>, f: nat, q: nat, k: nat) returns (e: nat)
    requires f < k < q <= |ts| && SelectsFollow(ts, f, q) && BoundaryAt(ts, k)
    ensures (k, e) in Ranges(ts, f + 1, f, false, q)
  {
    hide StartsAt, SemiAt, Continues, Ranges;
    assert ts[k].word == Select;
    e := RecordedAt(ts, f + 1, f, k, q);
  }

  /** In a statement of `SELECT`s, one that stands behind anything else starts a range of its own in both. */
  lemma OtherSelectStartsARange(ts: seq<Tok>, p: nat, f: nat, q: nat, k: nat)
    requires Statement(ts, p, f, q) && OnlySelects(ts, f, q)
    requires f < k < q && Opener(ts, k) && !BehindOperator(ts, k)
    ensures RangeAt(ts, k).0 == k && exists e :: (k, e) in AllRanges(ts)
  {
    hide *;
    SelectsInScannerTerms(ts, p, f, q);
    OpenerIsBoundary(ts, k);
    CursorOnSelect(ts, f, q, k);
    var e := ListOnSelect(ts, f, q, k);
    InTheList(ts, p, q, (k, e));
  }

  // ----- Two openers -----

  /** A statement with one opener at `f`, one at `k` that is no arm, and no other. */
  ghost predicate TwoOpeners(ts: seq<Tok>, p: nat, f: nat, k: nat, q: nat) {
    && Statement(ts, p, f, q) && f < k < q && Opener(ts, k) && !BehindOperator(ts, k)
    && forall j :: f < j < q && j != k ==> !Opener(ts, j)
  }

  ghost predicate Pair(ts: seq<Tok>, p: nat, f: nat, k: nat, q: nat) {
    && Opens(ts, p, f, q) && f < k < q <= |ts|
    && BoundaryAt(ts, f) && BoundaryAt(ts, k) && PrevStart(ts, f) == NoKeyword
    && (q == |ts| || SemiAt(ts, q)) && (forall j :: f <= j < q ==> !SemiAt(ts, j))
    && forall j :: f < j < q && j != k ==> !StartsAt(ts, j)
  }

  lemma TwoOpenersPair(ts: seq<Tok>, p: nat, f: nat, k: nat, q: nat)
    requires TwoOpeners(ts, p, f, k, q)
    ensures Pair(ts, p, f, k, q)
  {
    StatementOpens(ts, p, f, q);
    OpeningRanges(ts, p, f, q);
    hide StartsAt, SemiAt, Opener, Separator, Continues, BehindOperator, SegmentRanges, AllRanges, Ranges, PrevStart;
    OpenersAndSeparators(ts, k);
    ArmIff(ts, k);
    forall j | f < j < q && j != k ensures !StartsAt(ts, j) { OpenersAndSeparators(ts, j); }
  }

  /** Which second openers run-under-cursor takes for a clause of the first. */
  predicate CursorTakes(first: Word, second: Word) {
    || first == With
    || (first == Insert && second == Select) || (first == Insert && second == Update)
    || (first == Select && second == Update) || (first == Alter && second == Drop)
  }

  lemma {:induction false} BackFinds(ts: seq<Tok>, b: nat, c: nat)
    requires b < c <= |ts| && BoundaryAt(ts, b)
    requires forall j :: b < j < c ==> !SemiAt(ts, j) && !BoundaryAt(ts, j)
    ensures Back(ts, c) == (b, true)
    decreases c
  {
    BoundaryIsNoTrivia(ts, b);
    hide SemiAt, BoundaryAt;
    if b < c - 1 { BackFinds(ts, b, c - 1); }
  }

  lemma ExpandPair(ts: seq<Tok>, p: nat, f: nat, k: nat, q: nat)
    requires Pair(ts, p, f, k, q)
    ensures Expand(ts, f) == f && Expand(ts, k) == if CursorTakes(ts[f].word, ts[k].word) then f else k
  {
    hide StartsAt, SemiAt, Continues, Opens;
    assert StartsAt(ts, f);
    NoStartBetween(ts, f, k);
  }

  lemma PairStart(ts: seq<Tok>, p: nat, f: nat, k: nat, q: nat, c: nat)
    requires Pair(ts, p, f, k, q) && f <= c < q
    ensures RangeStart(ts, c) == if c < k || CursorTakes(ts[f].word, ts[k].word) then f else k
  {
    ExpandPair(ts, p, f, k, q);
    hide StartsAt, SemiAt, Continues, Opens, Expand, CursorTakes, PrevStart;
    if f < c <= k {
      BackFinds(ts, f, c);
    } else if k < c {
      BackFinds(ts, k, c);
    }
  }

  lemma {:induction false} EndsAt(ts: seq<Tok>, first: Keyed, i: nat, k: nat)
    requires i <= k < |ts| && (first.KeywordAt? ==> first.index < |ts|) && StartsAt(ts, k) && !Absorbs(ts, first, k)
    requires forall j :: i <= j <= k ==> !SemiAt(ts, j)
    requires forall j :: i <= j < k ==> !StartsAt(ts, j)
    ensures RangeEnd(ts, first, i, false) == k
    decreases k - i
  {
    hide SemiAt, StartsAt, Absorbs;
    if i < k { EndsAt(ts, first, i + 1, k); }
  }

  /** The range that starts at `f` ends before the second opener, unless that is taken. */
  lemma FirstEnds(ts: seq<Tok>, p: nat, f: nat, k: nat, q: nat)
    requires Pair(ts, p, f, k, q)
    ensures RangeEnd(ts, KeywordAt(f), f + 1, ts[f].word == With)
            == if CursorTakes(ts[f].word, ts[k].word) then q else k
  {
    hide StartsAt, SemiAt, Continues, Opens, PrevStart, RangeEnd;
    if CursorTakes(ts[f].word, ts[k].word) {
      RangeEndPasses(ts, KeywordAt(f), f + 1, ts[f].word == With, q);
    } else {
      EndsAt(ts, KeywordAt(f), f + 1, k);
    }
  }

  lemma SecondEnds(ts: seq<Tok>, p: nat, f: nat, k: nat, q: nat)
    requires Pair(ts, p, f, k, q)
    ensures RangeEnd(ts, KeywordAt(k), k + 1, ts[k].word == With) == q
  {
    hide StartsAt, SemiAt, Continues, Opens, PrevStart, RangeEnd, Absorbs;
    RangeEndPasses(ts, KeywordAt(k), k + 1, ts[k].word == With, q);
  }

  lemma RangeIs(ts: seq<Tok>, s: nat, c: nat, e: nat)
    requires s <= c < |ts| && StartsAt(ts, s) && RangeStart(ts, c) == s
    requires RangeEnd(ts, KeywordAt(s), s + 1, ts[s].word == With) == e
    ensures RangeAt(ts, c) == (s, e)
  {
    hide StartsAt, RangeStart, RangeEnd;
    FirstIsItself(ts, s, c + 1);
  }

  lemma PairBounds(ts: seq<Tok>, p: nat, f: nat, k: nat, q: nat)
    requires Pair(ts, p, f, k, q)
    ensures f < k < q <= |ts| && StartsAt(ts, f) && StartsAt(ts, k)
  {}

  lemma PairCursor(ts: seq<Tok>, p: nat, f: nat, k: nat, q: nat, c: nat)
    requires Pair(ts, p, f, k, q) && f <= c < q
    ensures RangeAt(ts, c) ==
            if CursorTakes(ts[f].word, ts[k].word) then (f, q) else if c < k then (f, k) else (k, q)
  {
    hide *;
    PairBounds(ts, p, f, k, q);
    PairStart(ts, p, f, k, q, c);
    FirstEnds(ts, p, f, k, q);
    SecondEnds(ts, p, f, k, q);
    var start := RangeStart(ts, c);
    RangeIs(ts, start, c, if start == f then RangeEnd(ts, KeywordAt(f), f + 1, ts[f].word == With) else q);
  }

  lemma FirstIsItself(ts: seq<Tok>, f: nat, end: nat)
    requires f < end <= |ts| && StartsAt(ts, f)
    ensures FirstStart(ts, f, end) == KeywordAt(f)
  {
    hide StartsAt;
  }

  /** The cursor's range of a statement with two openers. */
  lemma CursorOfTwo(ts: seq<Tok>, p: nat, f: nat, k: nat, q: nat, c: nat)
    requires TwoOpeners(ts, p, f, k, q) && f <= c < q
    ensures RangeAt(ts, c) ==
            if CursorTakes(ts[f].word, ts[k].word) then (f, q) else if c < k then (f, k) else (k, q)
  {
    hide Pair, TwoOpeners, CursorTakes, RangeAt;
    TwoOpenersPair(ts, p, f, k, q);
    PairCursor(ts, p, f, k, q, c);
  }

  /** What the list takes: anything behind `WITH`, and `UPDATE` behind a word `INSERT`, `SELECT` or `WITH`. */
  ghost predicate ListTakes(ts: seq<Tok>, f: nat, k: nat)
    requires f < k < |ts|
  {
    || ts[f].word == With
    || (ts[k].word == Update
        && exists j :: f <= j < k && (ts[j].word == Insert || ts[j].word == Select || ts[j].word == With))
  }

  lemma ContainedMeans(ts: seq<Tok>, f: nat, k: nat)
    requires f < k < |ts|
    ensures Contained(ts, f, k) || ts[f].word == With <==> ListTakes(ts, f, k)
  {
    forall j | f <= j < k
      ensures IsStartWord(ts[j].word) && Contains(ts[j].word, Update) <==>
              ts[j].word == Insert || ts[j].word == Select || ts[j].word == With
    {}
  }

  lemma {:induction false} TailRecorded(ts: seq<Tok>, i: nat, k: nat, claimNext: bool, q: nat)
    requires k < i <= q <= |ts| && !IsTrivia(ts[k].kind)
    requires forall j :: i <= j < q ==> !SemiAt(ts, j) && !StartsAt(ts, j)
    ensures Ranges(ts, i, k, claimNext, q) == [(k, q)]
    decreases q - i
  {
    hide SemiAt, StartsAt, Contained, Continues;
    if i < q { TailRecorded(ts, i + 1, k, claimNext, q); }
  }

  lemma {:induction false} PairRecorded(ts: seq<Tok>, i: nat, f: nat, k: nat, q: nat)
    requires f < i <= k < q <= |ts| && BoundaryAt(ts, k) && !IsTrivia(ts[f].kind)
    requires forall j :: i <= j < q ==> !SemiAt(ts, j) && (j != k ==> !StartsAt(ts, j))
    ensures Ranges(ts, i, f, ts[f].word == With, q)
            == if ListTakes(ts, f, k) then [(f, q)] else [(f, k), (k, q)]
    decreases k - i
  {
    BoundaryIsNoTrivia(ts, k);
    hide SemiAt, StartsAt, Contained, Continues, ListTakes;
    assert !SemiAt(ts, i);
    if i < k {
      assert !StartsAt(ts, i);
      PairRecorded(ts, i + 1, f, k, q);
    } else {
      ContainedMeans(ts, f, k);
      if ListTakes(ts, f, k) {
        TailRecorded(ts, k + 1, f, false, q);
      } else {
        TailRecorded(ts, k + 1, k, ts[k].word == With, q);
      }
    }
  }

  /** The list's ranges of a statement with two openers. */
  lemma ListOfTwo(ts: seq<Tok>, p: nat, f: nat, k: nat, q: nat)
    requires TwoOpeners(ts, p, f, k, q)
    ensures q <= |ts| && SegmentRanges(ts, p, q) == if ListTakes(ts, f, k) then [(f, q)] else [(f, k), (k, q)]
    ensures if ListTakes(ts, f, k) then (f, q) in AllRanges(ts)
            else (f, k) in AllRanges(ts) && (k, q) in AllRanges(ts)
  {
    TwoOpenersPair(ts, p, f, k, q);
    OpeningRanges(ts, p, f, q);
    BoundaryIsNoTrivia(ts, f);
    hide StartsAt, SemiAt, Continues, AllRanges, Ranges, ListTakes, TwoOpeners, PrevStart, SegmentRanges;
    PairRecorded(ts, f + 1, f, k, q);
    var rs := SegmentRanges(ts, p, q);
    forall r | r in rs ensures r in AllRanges(ts) { InTheList(ts, p, q, r); }
    assert rs[0] in rs && rs[|rs| - 1] in rs;
  }
}
