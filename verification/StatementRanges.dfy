/** What the ranges of statements guarantee. */
module StatementRanges {
  import opened Tokenizer
  import opened Statements

  // ----- The range under the cursor holds the cursor -----

  lemma ContainsIsTransitive(a: Word, b: Word, c: Word)
    requires Contains(a, b) && Contains(b, c)
    ensures Contains(a, c)
  {}

  /** Everything `Expand` passes over is contained by the keyword it ends on. */
  lemma {:induction false} ExpandPasses(ts: seq<Tok>, start: nat)
    requires start < |ts| && StartsAt(ts, start)
    ensures var e := Expand(ts, start);
            && StartsAt(ts, e)
            && (forall k :: e <= k < start ==> !SemiAt(ts, k))
            && (forall k :: e < k <= start && StartsAt(ts, k) ==> Contains(ts[e].word, ts[k].word))
  {
    hide StartsAt, SemiAt, Contains;
    var p := PrevStart(ts, start);
    if p.KeywordAt? && Contains(ts[p.index].word, ts[start].word) {
      ExpandPasses(ts, p.index);
      var e := Expand(ts, p.index);
      if e < p.index { ContainsIsTransitive(ts[e].word, ts[p.index].word, ts[start].word); }
      forall k | e < k <= start && StartsAt(ts, k) ensures Contains(ts[e].word, ts[k].word) {}
    }
  }

  /** Between its start and `c` the statement meets nothing that ends it. */
  ghost predicate RunsTo(ts: seq<Tok>, first: Keyed, i: nat, c: nat)
    requires c <= |ts| && (first.KeywordAt? ==> first.index < |ts|)
  {
    forall k :: i <= k < c ==> !SemiAt(ts, k) && (StartsAt(ts, k) ==> Absorbs(ts, first, k))
  }

  lemma {:induction false} RangeEndPasses(ts: seq<Tok>, first: Keyed, i: nat, claimNext: bool, c: nat)
    requires i <= c <= |ts| && (first.KeywordAt? ==> first.index < |ts|) && RunsTo(ts, first, i, c)
    ensures c <= RangeEnd(ts, first, i, claimNext)
    ensures c < |ts| && !SemiAt(ts, c) && (StartsAt(ts, c) ==> Absorbs(ts, first, c)) ==>
              c < RangeEnd(ts, first, i, claimNext)
    ensures c < |ts| && SemiAt(ts, c) ==> RangeEnd(ts, first, i, claimNext) == c
    decreases c - i
  {
    hide StartsAt, SemiAt, Absorbs;
    if i < c { RangeEndPasses(ts, first, i + 1, claimNext && !StartsAt(ts, i), c); }
  }

  /** A statement that starts at `start` runs at least to the cursor. */
  ghost predicate ReachesCursor(ts: seq<Tok>, start: nat, cursor: nat)
    requires start <= cursor < |ts|
  {
    var first := FirstStart(ts, start, cursor + 1);
    && RunsTo(ts, first, start + 1, cursor)
    && (start < cursor && StartsAt(ts, cursor) ==> Absorbs(ts, first, cursor))
    && (start < cursor ==> !SemiAt(ts, start))
  }

  /** The keyword scanning found at `k`, or the cursor's own, moved back to what contains it. */
  lemma {:induction false} KeywordStartReaches(ts: seq<Tok>, k: nat, cursor: nat)
    requires k <= cursor < |ts| && StartsAt(ts, k)
    requires forall j :: k <= j < cursor ==> !SemiAt(ts, j)
    requires forall j :: k < j <= cursor && StartsAt(ts, j) ==> Continues(ts, j)
    ensures ReachesCursor(ts, Expand(ts, k), cursor)
    ensures FirstStart(ts, Expand(ts, k), cursor + 1) == KeywordAt(Expand(ts, k))
  {
    hide StartsAt, SemiAt, Contains, Continues;
    ExpandPasses(ts, k);
    var start := Expand(ts, k);
    hide Expand;
    assert FirstStart(ts, start, cursor + 1) == KeywordAt(start);
    hide FirstStart;
    forall j | start < j <= cursor && StartsAt(ts, j) ensures Absorbs(ts, KeywordAt(start), j) {}
  }

  /** With no keyword behind the cursor, only arms of a set operation can lie on the way. */
  lemma BareStartReaches(ts: seq<Tok>, start: nat, cursor: nat)
    requires start <= cursor < |ts|
    requires forall j :: start <= j < cursor ==> !SemiAt(ts, j)
    requires forall j :: start <= j <= cursor && StartsAt(ts, j) ==> Continues(ts, j) || j == start == cursor
    ensures ReachesCursor(ts, start, cursor)
  {
    hide StartsAt, SemiAt, Continues, FirstStart;
  }

  lemma StartReaches(ts: seq<Tok>, cursor: nat)
    requires cursor < |ts|
    ensures ReachesCursor(ts, RangeStart(ts, cursor), cursor)
  {
    hide StartsAt, SemiAt, Continues, ReachesCursor, Expand, FirstStart;
    if cursor != 0 && BoundaryAt(ts, cursor) {
      KeywordStartReaches(ts, cursor, cursor);
    } else {
      BackMeans(ts, cursor);
      hide Back;
      var (back, found) := Back(ts, cursor);
      if found { KeywordStartReaches(ts, back, cursor); } else { BareStartReaches(ts, back, cursor); }
    }
  }

  lemma BackMeans(ts: seq<Tok>, cursor: nat)
    requires cursor < |ts|
    ensures var (back, found) := Back(ts, cursor);
            && (forall j :: back <= j < cursor ==> !SemiAt(ts, j))
            && (forall j :: back <= j < cursor && StartsAt(ts, j) ==> Continues(ts, j) || (found && j == back))
  {
    hide StartsAt, SemiAt, Continues;
  }

  /**
   The range of the statement under any cursor holds the cursor, unless the cursor is a terminator
   outside parentheses; then the range ends, or starts, at it.
   */
  lemma RangeHoldsCursor(ts: seq<Tok>, cursor: nat)
    requires cursor < |ts|
    ensures var (start, end) := RangeAt(ts, cursor);
            && start <= cursor && start < end <= |ts|
            && (!SemiAt(ts, cursor) ==> cursor < end)
            && (SemiAt(ts, cursor) ==> end == cursor || start == cursor)
  {
    hide StartsAt, SemiAt, Absorbs, RangeStart, FirstStart, Depth, RunsTo;
    StartReaches(ts, cursor);
    var start := RangeStart(ts, cursor);
    var first := FirstStart(ts, start, cursor + 1);
    var claimNext := first.KeywordAt? && ts[first.index].word == With;
    if start < cursor { RangeEndPasses(ts, first, start + 1, claimNext, cursor); }
  }

  // ----- Every token is covered once -----

  function CountIn(ranges: seq<(nat, nat)>, k: nat): nat {
    if ranges == [] then 0 else (if ranges[0].0 <= k < ranges[0].1 then 1 else 0) + CountIn(ranges[1..], k)
  }

  lemma {:induction false} CountAdds(a: seq<(nat, nat)>, b: seq<(nat, nat)>, k: nat)
    ensures CountIn(a + b, k) == CountIn(a, k) + CountIn(b, k)
  {
    if a == [] {
      assert a + b == b;
    } else {
      assert (a + b)[1..] == a[1..] + b;
      CountAdds(a[1..], b, k);
    }
  }

  lemma PushedCount(ts: seq<Tok>, s: nat, e: nat, k: nat)
    requires s <= e <= |ts|
    ensures CountIn(Pushed(ts, s, e), k) == if SkipTrivia(ts, s, e) <= k < e then 1 else 0
  {
    assert CountIn([], k) == 0;
  }

  /** Of the ranges recorded from `from` on, how many hold token `k`. */
  lemma {:induction false} RangesCover(ts: seq<Tok>, i: nat, from: nat, claimNext: bool, n: nat, k: nat)
    requires from <= i <= n <= |ts| && k < n && forall j :: from <= j < i ==> !SemiAt(ts, j)
    ensures var c := CountIn(Ranges(ts, i, from, claimNext, n), k);
            && (k < from ==> c == 0)
            && (k >= from && SemiAt(ts, k) ==> c == 0)
            && (k >= from && !SemiAt(ts, k) && !IsTrivia(ts[k].kind) ==> c == 1)
            && c <= 1
    decreases n - i
  {
    hide SemiAt, StartsAt, Contained, Continues, CountIn, Pushed;
    if i == n {
      PushedCount(ts, from, n, k);
    } else if SemiAt(ts, i) {
      PushedCount(ts, from, i, k);
      CountAdds(Pushed(ts, from, i), Ranges(ts, i + 1, i + 1, false, n), k);
      RangesCover(ts, i + 1, i + 1, false, n, k);
    } else if !StartsAt(ts, i) {
      RangesCover(ts, i + 1, from, claimNext, n, k);
    } else if claimNext || Contained(ts, from, i) {
      RangesCover(ts, i + 1, from, false, n, k);
    } else if Continues(ts, i) {
      RangesCover(ts, i + 1, from, claimNext, n, k);
    } else {
      PushedCount(ts, from, i, k);
      CountAdds(Pushed(ts, from, i), Ranges(ts, i + 1, i, ts[i].word == With, n), k);
      RangesCover(ts, i + 1, i, ts[i].word == With, n, k);
    }
  }

  /** Every token that is neither trivia nor a separating `;` lies in exactly one recorded range. */
  lemma EveryTokenCoveredOnce(ts: seq<Tok>, k: nat)
    requires k < |ts| && !IsTrivia(ts[k].kind) && !SemiAt(ts, k)
    ensures CountIn(AllRanges(ts), k) == 1
  {
    RangesCover(ts, 0, 0, false, |ts|, k);
  }

  /** A separating `;` lies in none, and nothing lies in two. */
  lemma SeparatorsAreNotCovered(ts: seq<Tok>, k: nat)
    requires k < |ts|
    ensures CountIn(AllRanges(ts), k) <= 1 && (SemiAt(ts, k) ==> CountIn(AllRanges(ts), k) == 0)
  {
    RangesCover(ts, 0, 0, false, |ts|, k);
  }

  /** Non-empty ranges inside `[lo, hi)`, in order and apart. */
  ghost predicate InOrder(ranges: seq<(nat, nat)>, lo: nat, hi: nat)
    decreases |ranges|
  {
    ranges == [] || (lo <= ranges[0].0 < ranges[0].1 <= hi && InOrder(ranges[1..], ranges[0].1, hi))
  }

  lemma {:induction false} InOrderWidens(ranges: seq<(nat, nat)>, lo: nat, lo': nat, hi: nat)
    requires lo' <= lo && InOrder(ranges, lo, hi)
    ensures InOrder(ranges, lo', hi)
  {}

  lemma PushedInOrder(ts: seq<Tok>, s: nat, e: nat, rest: seq<(nat, nat)>, lo: nat, hi: nat)
    requires s <= e <= |ts| && e <= lo && e <= hi && InOrder(rest, lo, hi)
    ensures InOrder(Pushed(ts, s, e) + rest, s, hi)
  {
    var p := Pushed(ts, s, e);
    if p == [] {
      assert p + rest == rest;
      InOrderWidens(rest, lo, s, hi);
    } else {
      assert (p + rest)[1..] == rest;
      InOrderWidens(rest, lo, e, hi);
    }
  }

  lemma {:induction false} RangesInOrder(ts: seq<Tok>, i: nat, from: nat, claimNext: bool, n: nat)
    requires from <= i <= n <= |ts|
    ensures InOrder(Ranges(ts, i, from, claimNext, n), from, n)
    decreases n - i
  {
    hide SemiAt, StartsAt, Contained, Continues, InOrder;
    if i == n {
      assert Pushed(ts, from, n) + [] == Pushed(ts, from, n);
      PushedInOrder(ts, from, n, [], n, n) by { EmptyInOrder(n, n); }
    } else if SemiAt(ts, i) {
      RangesInOrder(ts, i + 1, i + 1, false, n);
      PushedInOrder(ts, from, i, Ranges(ts, i + 1, i + 1, false, n), i + 1, n);
    } else if !StartsAt(ts, i) {
      RangesInOrder(ts, i + 1, from, claimNext, n);
    } else if claimNext || Contained(ts, from, i) {
      RangesInOrder(ts, i + 1, from, false, n);
    } else if Continues(ts, i) {
      RangesInOrder(ts, i + 1, from, claimNext, n);
    } else {
      RangesInOrder(ts, i + 1, i, ts[i].word == With, n);
      PushedInOrder(ts, from, i, Ranges(ts, i + 1, i, ts[i].word == With, n), i, n);
    }
  }

  lemma EmptyInOrder(lo: nat, hi: nat)
    ensures InOrder([], lo, hi)
  {}
}
