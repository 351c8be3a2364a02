/** When run-under-cursor and the list of all ranges see the same statement. */
module SegmentAgreement {
  import Text
  import opened Tokenizer
  import opened Statements
  import opened StatementRanges

  /** The text between two separators. */
  ghost predicate Segment(ts: seq<Tok>, p: nat, q: nat) {
    && p <= q <= |ts|
    && (p == 0 || SemiAt(ts, p - 1)) && (q == |ts| || SemiAt(ts, q))
    && forall k :: p <= k < q ==> !SemiAt(ts, k)
  }

  /** The statement keyword at `f` is the first significant token of the segment. */
  ghost predicate Opens(ts: seq<Tok>, p: nat, f: nat, q: nat) {
    && Segment(ts, p, q) && p <= f < q && StartsAt(ts, f)
    && forall k :: p <= k < f ==> IsTrivia(ts[k].kind) && ts[k].word == OtherWord
  }

  /** Each statement keyword after `f` up to `i` is a clause of the one before it. */
  ghost predicate Chained(ts: seq<Tok>, f: nat, i: nat)
    requires i < |ts|
  {
    forall k :: f < k <= i && StartsAt(ts, k) ==>
      PrevStart(ts, k).KeywordAt? && Contains(ts[PrevStart(ts, k).index].word, ts[k].word)
  }

  /** `UPDATE` at the end of a chain of clauses, or the keyword a `WITH` at `f` is followed by. */
  ghost predicate Clause(ts: seq<Tok>, f: nat, i: nat)
    requires f < i < |ts|
  {
    Chained(ts, f, i) && (ts[i].word == Update || (ts[f].word == With && PrevStart(ts, i) == KeywordAt(f)))
  }

  /** Every statement keyword after the first is a set-operation arm or a clause. */
  ghost predicate OneStatement(ts: seq<Tok>, f: nat, q: nat)
    requires q <= |ts|
  {
    forall i :: f < i < q && BoundaryAt(ts, i) ==> Clause(ts, f, i)
  }

  // ----- The recorded ranges, segment by segment -----

  lemma {:induction false} RangesSplit(ts: seq<Tok>, i: nat, from: nat, claimNext: bool, m: nat, n: nat)
    requires from <= i <= m < n <= |ts| && SemiAt(ts, m)
    ensures Ranges(ts, i, from, claimNext, n) ==
            Ranges(ts, i, from, claimNext, m) + Ranges(ts, m + 1, m + 1, false, n)
    decreases m - i
  {
    hide SemiAt, StartsAt, Contained, Continues, Pushed;
    var rest := Ranges(ts, m + 1, m + 1, false, n);
    if i == m {
    } else if SemiAt(ts, i) {
      RangesSplit(ts, i + 1, i + 1, false, m, n);
      Text.Regroup(Pushed(ts, from, i), Ranges(ts, i + 1, i + 1, false, m), rest);
    } else if !StartsAt(ts, i) {
      RangesSplit(ts, i + 1, from, claimNext, m, n);
    } else if claimNext || Contained(ts, from, i) {
      RangesSplit(ts, i + 1, from, false, m, n);
    } else if Continues(ts, i) {
      RangesSplit(ts, i + 1, from, claimNext, m, n);
    } else {
      RangesSplit(ts, i + 1, i, ts[i].word == With, m, n);
      Text.Regroup(Pushed(ts, from, i), Ranges(ts, i + 1, i, ts[i].word == With, m), rest);
    }
  }

  /** The ranges recorded while the loop is in the segment. */
  function SegmentRanges(ts: seq<Tok>, p: nat, q: nat): seq<(nat, nat)>
    requires p <= q <= |ts|
  {
    Ranges(ts, p, p, false, q)
  }

  /** The list of all ranges is what comes before a segment, its own ranges, and what comes after. */
  lemma SegmentsMakeTheList(ts: seq<Tok>, p: nat, q: nat)
    requires Segment(ts, p, q)
    ensures AllRanges(ts) ==
            (if p == 0 then [] else Ranges(ts, 0, 0, false, p - 1)) + SegmentRanges(ts, p, q) +
            (if q == |ts| then [] else Ranges(ts, q + 1, q + 1, false, |ts|))
  {
    hide Ranges, SemiAt;
    if p > 0 { RangesSplit(ts, 0, 0, false, p - 1, |ts|); }
    if q < |ts| {
      RangesSplit(ts, p, p, false, q, |ts|);
      var a := if p == 0 then [] else Ranges(ts, 0, 0, false, p - 1);
      Text.Regroup(a, SegmentRanges(ts, p, q), Ranges(ts, q + 1, q + 1, false, |ts|));
    }
  }

  /** The list keeps the keyword at `k` in the statement that starts at `f`. */
  ghost predicate ListClaims(ts: seq<Tok>, f: nat, k: nat)
    requires f < k < |ts|
  {
    Contained(ts, f, k) || (ts[f].word == With && forall j :: f < j < k ==> !StartsAt(ts, j))
  }

  lemma {:induction false} ListIsOneRange(ts: seq<Tok>, f: nat, i: nat, claimNext: bool, q: nat)
    requires f < i <= q <= |ts| && !IsTrivia(ts[f].kind) && forall k :: i <= k < q ==> !SemiAt(ts, k)
    requires claimNext <==> ts[f].word == With && forall j :: f < j < i ==> !StartsAt(ts, j)
    ensures Ranges(ts, i, f, claimNext, q) == [(f, q)] <==>
            forall k :: i <= k < q && BoundaryAt(ts, k) ==> ListClaims(ts, f, k)
    decreases q - i
  {
    hide SemiAt, StartsAt, Contained, Continues;
    if i == q {
    } else if !StartsAt(ts, i) {
      ListIsOneRange(ts, f, i + 1, claimNext, q);
    } else if claimNext || Contained(ts, f, i) {
      assert ListClaims(ts, f, i);
      ListIsOneRange(ts, f, i + 1, false, q);
    } else if Continues(ts, i) {
      ListIsOneRange(ts, f, i + 1, false, q);
    } else {
      assert !ListClaims(ts, f, i);
      assert (Pushed(ts, f, i) + Ranges(ts, i + 1, i, ts[i].word == With, q))[0] == (f, i);
    }
  }

  lemma {:induction false} LeadingTrivia(ts: seq<Tok>, p: nat, i: nat, f: nat, q: nat)
    requires Opens(ts, p, f, q) && p <= i <= f
    ensures Ranges(ts, i, p, false, q) == Ranges(ts, f, p, false, q)
    decreases f - i
  {
    if i < f {
      assert IsTrivia(ts[i].kind) && !SemiAt(ts, i);
      LeadingTrivia(ts, p, i + 1, f, q);
    }
  }

  lemma {:induction false} NothingBehind(ts: seq<Tok>, p: nat, i: nat, f: nat, q: nat)
    requires Opens(ts, p, f, q) && p <= i <= f
    ensures !ContinuesFrom(ts, f, i, false) && PrevStart(ts, i) == NoKeyword
    decreases i
  {
    if i > p {
      assert IsTrivia(ts[i - 1].kind);
      NothingBehind(ts, p, i - 1, f, q);
    }
  }

  lemma OpeningRanges(ts: seq<Tok>, p: nat, f: nat, q: nat)
    requires Opens(ts, p, f, q)
    ensures SegmentRanges(ts, p, q) == Ranges(ts, f + 1, f, ts[f].word == With, q)
    ensures BoundaryAt(ts, f) && PrevStart(ts, f) == NoKeyword
  {
    LeadingTrivia(ts, p, p, f, q);
    NothingBehind(ts, p, f, f, q);
    assert !Contained(ts, p, f);
    assert SkipTrivia(ts, p, f) == f;
  }

  lemma {:induction false} NoStartBetween(ts: seq<Tok>, f: nat, k: nat)
    requires f < k <= |ts| && StartsAt(ts, f) && forall j :: f <= j < k ==> !SemiAt(ts, j)
    ensures PrevStart(ts, k).KeywordAt? && f <= PrevStart(ts, k).index
    ensures PrevStart(ts, k) == KeywordAt(f) <==> forall j :: f < j < k ==> !StartsAt(ts, j)
    decreases k
  {
    hide SemiAt, StartsAt;
    if !StartsAt(ts, k - 1) { NoStartBetween(ts, f, k - 1); }
  }

  // ----- The cursor's side -----

  lemma {:induction false} ExpandOfChain(ts: seq<Tok>, f: nat, k: nat)
    requires f <= k < |ts| && StartsAt(ts, f) && StartsAt(ts, k) && PrevStart(ts, f) == NoKeyword
    requires Chained(ts, f, k) && forall j :: f <= j < k ==> !SemiAt(ts, j)
    ensures Expand(ts, k) == f
    ensures k == f || Contains(ts[f].word, ts[k].word)
    decreases k
  {
    hide SemiAt, StartsAt, Contains;
    if f < k {
      NoStartBetween(ts, f, k);
      var j := PrevStart(ts, k).index;
      ExpandOfChain(ts, f, j);
      if f < j { ContainsIsTransitive(ts[f].word, ts[j].word, ts[k].word); }
    }
  }

  lemma {:induction false} ChainOfExpand(ts: seq<Tok>, f: nat, k: nat)
    requires k < |ts| && StartsAt(ts, k) && Expand(ts, k) == f
    ensures Chained(ts, f, k)
    decreases k
  {
    hide SemiAt, StartsAt, Contains;
    if f < k { ChainOfExpand(ts, f, PrevStart(ts, k).index); }
  }

  lemma CursorStart(ts: seq<Tok>, p: nat, f: nat, q: nat, c: nat)
    requires Opens(ts, p, f, q) && OneStatement(ts, f, q) && f <= c < q
    ensures RangeStart(ts, c) == f
  {
    OpeningRanges(ts, p, f, q);
    hide SemiAt, StartsAt, Continues, Ranges, Contains;
    if c != 0 && BoundaryAt(ts, c) {
      if f < c { assert Clause(ts, f, c); }
      ExpandOfChain(ts, f, c);
    } else if f < c {
      var (back, found) := Back(ts, c);
      if f < back { assert Clause(ts, f, back); }
      ExpandOfChain(ts, f, back);
    }
  }

  lemma FirstIsOpening(ts: seq<Tok>, p: nat, f: nat, q: nat, c: nat)
    requires Opens(ts, p, f, q) && f <= c < q
    ensures FirstStart(ts, f, c + 1) == KeywordAt(f)
  {
  }

  /** The statement the first keyword starts takes in every later one. */
  lemma KeywordsAbsorbed(ts: seq<Tok>, p: nat, f: nat, q: nat, k: nat)
    requires Opens(ts, p, f, q) && OneStatement(ts, f, q) && f < k < q && StartsAt(ts, k)
    ensures Absorbs(ts, KeywordAt(f), k)
  {
    if BoundaryAt(ts, k) {
      assert Clause(ts, f, k);
      OpeningRanges(ts, p, f, q);
      hide SemiAt, StartsAt, Continues, Contains, Ranges;
      ExpandOfChain(ts, f, k);
    }
  }

  lemma RunsToTheEnd(ts: seq<Tok>, p: nat, f: nat, q: nat)
    requires Opens(ts, p, f, q) && OneStatement(ts, f, q)
    ensures RunsTo(ts, KeywordAt(f), f + 1, q)
  {
    hide SemiAt, StartsAt, Absorbs, OneStatement;
    forall k | f < k < q && StartsAt(ts, k) ensures Absorbs(ts, KeywordAt(f), k) {
      KeywordsAbsorbed(ts, p, f, q, k);
    }
  }

  lemma SegmentEnds(ts: seq<Tok>, p: nat, f: nat, q: nat)
    requires Opens(ts, p, f, q)
    ensures f + 1 <= q <= |ts| && (q == |ts| || SemiAt(ts, q))
  {
    hide SemiAt, StartsAt;
  }

  lemma CursorEnd(ts: seq<Tok>, p: nat, f: nat, q: nat)
    requires Opens(ts, p, f, q) && OneStatement(ts, f, q) && q <= |ts|
    ensures RangeEnd(ts, KeywordAt(f), f + 1, ts[f].word == With) == q
  {
    hide *;
    SegmentEnds(ts, p, f, q);
    RunsToTheEnd(ts, p, f, q);
    RangeEndPasses(ts, KeywordAt(f), f + 1, ts[f].word == With, q);
  }

  lemma CursorRange(ts: seq<Tok>, p: nat, f: nat, q: nat, c: nat)
    requires Opens(ts, p, f, q) && OneStatement(ts, f, q) && f <= c < q
    ensures RangeAt(ts, c) == (f, q)
  {
    hide Opens, Segment, SemiAt, StartsAt, FirstStart, RangeStart, RangeEnd, OneStatement, Absorbs, Depth, Chained,
      Clause, BoundaryAt, IsTrivia;
    SegmentEnds(ts, p, f, q);
    CursorStart(ts, p, f, q, c);
    FirstIsOpening(ts, p, f, q, c);
    CursorEnd(ts, p, f, q);
  }

  /**
   Run-under-cursor and the range list agree on a segment that a statement keyword opens: one
   recorded range, and every cursor from the keyword on gets exactly that range. They do so exactly
   when every later statement keyword is a set-operation arm or a clause.
   */
  lemma RangesAgreeIff(ts: seq<Tok>, p: nat, f: nat, q: nat)
    requires Opens(ts, p, f, q)
    ensures (SegmentRanges(ts, p, q) == [(f, q)] && forall c :: f <= c < q ==> RangeAt(ts, c) == (f, q)) <==>
            OneStatement(ts, f, q)
  {
    OpeningRanges(ts, p, f, q);
    ListIsOneRange(ts, f, f + 1, ts[f].word == With, q);
    hide SemiAt, StartsAt, Continues, Contains, Ranges, RangeAt, Contained;
    if OneStatement(ts, f, q) {
      forall c | f <= c < q ensures RangeAt(ts, c) == (f, q) { CursorRange(ts, p, f, q, c); }
      forall k | f < k < q && BoundaryAt(ts, k) ensures ListClaims(ts, f, k) { ClauseIsClaimed(ts, p, f, q, k); }
    }
    if SegmentRanges(ts, p, q) == [(f, q)] && forall c :: f <= c < q ==> RangeAt(ts, c) == (f, q) {
      forall k | f < k < q && BoundaryAt(ts, k) ensures Clause(ts, f, k) {
        assert RangeAt(ts, k) == (f, q) && ListClaims(ts, f, k);
        ClaimedIsClause(ts, p, f, q, k);
      }
    }
  }

  lemma ClauseIsClaimed(ts: seq<Tok>, p: nat, f: nat, q: nat, k: nat)
    requires Opens(ts, p, f, q) && f < k < q && BoundaryAt(ts, k) && Clause(ts, f, k)
    ensures ListClaims(ts, f, k)
  {
    hide SemiAt, Continues;
    NoStartBetween(ts, f, k);
    var j := PrevStart(ts, k).index;
    assert IsStartWord(ts[j].word) && Contains(ts[j].word, ts[k].word);
  }

  lemma {:induction false} ClaimedIsClause(ts: seq<Tok>, p: nat, f: nat, q: nat, k: nat)
    requires Opens(ts, p, f, q) && f < k < q && BoundaryAt(ts, k)
    requires ListClaims(ts, f, k) && RangeAt(ts, k) == (f, q)
    ensures Clause(ts, f, k)
  {
    hide SemiAt, StartsAt, Continues, Contains;
    ChainOfExpand(ts, f, k);
    NoStartBetween(ts, f, k);
  }

  // ----- Segments that another word opens -----

  /** The first significant token of the segment is `f`, and it is no statement keyword: `SET`, `PRAGMA`, `(`. */
  ghost predicate OpensOtherwise(ts: seq<Tok>, p: nat, f: nat, q: nat) {
    Segment(ts, p, q) && p <= f < q && SkipTrivia(ts, p, q) == f && !StartsAt(ts, f)
  }

  /** No statement keyword but arms of a set operation. */
  ghost predicate OnlyArms(ts: seq<Tok>, p: nat, q: nat)
    requires q <= |ts|
  {
    forall k :: p <= k < q ==> !BoundaryAt(ts, k)
  }

  lemma {:induction false} NothingRecorded(ts: seq<Tok>, p: nat, i: nat, q: nat)
    requires p <= i <= q <= |ts| && OnlyArms(ts, p, q) && forall k :: p <= k < q ==> !SemiAt(ts, k)
    ensures Ranges(ts, i, p, false, q) == Pushed(ts, p, q)
    decreases q - i
  {
    hide SemiAt, StartsAt, Contained, Continues, Pushed;
    if i < q {
      assert !BoundaryAt(ts, i) && !SemiAt(ts, i);
      NothingRecorded(ts, p, i + 1, q);
    }
  }

  lemma {:induction false} BackToTheSegment(ts: seq<Tok>, p: nat, c: nat, q: nat)
    requires Segment(ts, p, q) && OnlyArms(ts, p, q) && p <= c <= q
    ensures Back(ts, c) == (p, false)
    decreases c
  {
    hide StartsAt, Continues, SemiAt;
    if c > p {
      assert !BoundaryAt(ts, c - 1) && !SemiAt(ts, c - 1);
      BackToTheSegment(ts, p, c - 1, q);
    }
  }

  lemma ArmsAreAbsorbed(ts: seq<Tok>, p: nat, q: nat, first: Keyed)
    requires Segment(ts, p, q) && OnlyArms(ts, p, q) && (first.KeywordAt? ==> first.index < |ts|)
    ensures RunsTo(ts, first, p + 1, q)
  {
    hide StartsAt, Continues, Contains, SemiAt;
    forall k | p < k < q ensures !SemiAt(ts, k) && (StartsAt(ts, k) ==> Absorbs(ts, first, k)) {
      assert !BoundaryAt(ts, k);
    }
  }

  lemma CursorBetweenArms(ts: seq<Tok>, p: nat, c: nat, q: nat)
    requires Segment(ts, p, q) && OnlyArms(ts, p, q) && p <= c < q
    ensures RangeAt(ts, c) == (p, q)
  {
    hide StartsAt, Continues, SemiAt, Contains, Back, Expand, FirstStart, RangeEnd, Absorbs, RunsTo, Depth;
    BackToTheSegment(ts, p, c, q);
    assert !BoundaryAt(ts, c);
    var first := FirstStart(ts, p, c + 1);
    assert p < q && (q == |ts| || SemiAt(ts, q));
    ArmsAreAbsorbed(ts, p, q, first);
    RangeEndPasses(ts, first, p + 1, first.KeywordAt? && ts[first.index].word == With, q);
  }

  lemma {:induction false} ExpandStandsOnKeyword(ts: seq<Tok>, k: nat)
    requires k < |ts| && StartsAt(ts, k)
    ensures StartsAt(ts, Expand(ts, k))
    decreases k
  {
    hide StartsAt, SemiAt, Contains;
    var p := PrevStart(ts, k);
    if p.KeywordAt? && Contains(ts[p.index].word, ts[k].word) { ExpandStandsOnKeyword(ts, p.index); }
  }

  lemma NoKeywordAhead(ts: seq<Tok>, p: nat, f: nat, q: nat)
    requires OpensOtherwise(ts, p, f, q)
    ensures !StartsAt(ts, p)
  {
    if p < f { assert IsTrivia(ts[p].kind); }
  }

  /**
   In a segment that another word opens, run-under-cursor and the list agree, up to the trivia in front,
   exactly when every statement keyword in it is an arm of a set operation.
   */
  lemma OtherSegmentsAgreeIff(ts: seq<Tok>, p: nat, f: nat, q: nat)
    requires OpensOtherwise(ts, p, f, q)
    ensures (SegmentRanges(ts, p, q) == [(f, q)] && forall c :: p <= c < q ==> RangeAt(ts, c) == (p, q)) <==>
            OnlyArms(ts, p, q)
  {
    NoKeywordAhead(ts, p, f, q);
    hide StartsAt, Continues, SemiAt, Ranges, RangeAt, Contained, SkipTrivia, Depth;
    if OnlyArms(ts, p, q) {
      NothingRecorded(ts, p, p, q);
      forall c | p <= c < q ensures RangeAt(ts, c) == (p, q) { CursorBetweenArms(ts, p, c, q); }
    } else {
      var k :| p <= k < q && BoundaryAt(ts, k);
      KeywordMovesTheStart(ts, p, k);
      assert RangeAt(ts, k) != (p, q);
    }
  }

  lemma KeywordMovesTheStart(ts: seq<Tok>, p: nat, k: nat)
    requires p <= k < |ts| && BoundaryAt(ts, k) && !StartsAt(ts, p)
    ensures RangeAt(ts, k).0 != p
  {
    hide StartsAt, Continues, SemiAt, Expand, FirstStart, RangeEnd, Depth;
    ExpandStandsOnKeyword(ts, k);
  }
}
