/** Statement boundaries, from tokens. */
module Statements {
  import Text
  import opened Tokenizer

  /** The words the boundary rules look at; every other token text is `OtherWord`. */
  datatype Word =
    | Alter | Begin | Call | Commit | Copy | Create | Declare | Delete | Drop | Explain | Grant | Insert
    | Rollback | Revoke | Select | Show | Truncate | Update | Use | Vacuum | With
    | Union | Intersect | Except | All | Distinct | OtherWord

  /** A token with the word its text spells in lower case. */
  datatype Tok = Tok(kind: TokenKind, word: Word, start: nat, end: nat)

  /** Words that start a statement. */
  predicate IsStartWord(w: Word) {
    !(w in {Union, Intersect, Except, All, Distinct, OtherWord})
  }

  predicate IsSetOperator(w: Word) { w == Union || w == Intersect || w == Except }

  /** Is a statement keyword `inner` a clause of the statement that `outer` starts? */
  predicate Contains(outer: Word, inner: Word) {
    || (outer == Insert && (inner == Select || inner == Update))
    || (outer == Select && inner == Update)
    || outer == With
    || (outer == Alter && inner == Drop)
  }

  /** Paren depth before token `i`. */
  function Depth(ts: seq<Tok>, i: nat): int
    requires i <= |ts|
  {
    if i == 0 then 0
    else
      Depth(ts, i - 1) + (if ts[i - 1].kind == LParen then 1 else if ts[i - 1].kind == RParen then -1 else 0)
  }

  /** A terminator that separates statements. */
  predicate SemiAt(ts: seq<Tok>, i: nat)
    requires i < |ts|
  {
    ts[i].kind == Semi && Depth(ts, i) == 0
  }

  /** A statement keyword outside parentheses. */
  predicate StartsAt(ts: seq<Tok>, i: nat)
    requires i < |ts|
  {
    ts[i].kind == Keyword && IsStartWord(ts[i].word) && Depth(ts, i) == 0
  }

  /** Walking back from `i`: does the keyword at `k` follow a set operator of its own depth? */
  function ContinuesFrom(ts: seq<Tok>, k: nat, i: nat, skipped: bool): bool
    requires i <= k < |ts|
    decreases i
  {
    if i == 0 then false
    else
      var t := ts[i - 1];
      if IsTrivia(t.kind) then ContinuesFrom(ts, k, i - 1, skipped)
      else if t.kind != Keyword then false
      else if IsSetOperator(t.word) then Depth(ts, i - 1) == Depth(ts, k)
      else if !skipped && (t.word == All || t.word == Distinct) then ContinuesFrom(ts, k, i - 1, true)
      else false
  }

  /** Is the keyword at `k` the head of a set-operation arm? */
  predicate Continues(ts: seq<Tok>, k: nat)
    requires k < |ts|
  {
    ContinuesFrom(ts, k, k, false)
  }

  /** A statement keyword that is not an arm: the place a statement can start. */
  predicate BoundaryAt(ts: seq<Tok>, i: nat)
    requires i < |ts|
  {
    StartsAt(ts, i) && !Continues(ts, i)
  }

  // ----- The range under the cursor -----

  /** Scanning back from `i`: where the statement starts, and whether a keyword starts it. */
  function Back(ts: seq<Tok>, i: nat): (r: (nat, bool))
    requires i <= |ts|
    ensures r.0 <= i && (r.1 ==> r.0 < i && BoundaryAt(ts, r.0))
    ensures forall k :: r.0 <= k < i ==> !SemiAt(ts, k)
    ensures forall k :: r.0 < k < i ==> !BoundaryAt(ts, k)
    ensures !r.1 && r.0 < i ==> !BoundaryAt(ts, r.0)
    ensures !r.1 && r.0 > 0 ==> SemiAt(ts, r.0 - 1)
  {
    if i == 0 then (0, false)
    else if SemiAt(ts, i - 1) then (i, false)
    else if BoundaryAt(ts, i - 1) then (i - 1, true)
    else Back(ts, i - 1)
  }

  datatype Keyed = NoKeyword | KeywordAt(index: nat)

  /** The statement keyword nearest before `i` in its own segment. */
  function PrevStart(ts: seq<Tok>, i: nat): (r: Keyed)
    requires i <= |ts|
    ensures r.KeywordAt? ==> r.index < i && StartsAt(ts, r.index)
    ensures r.KeywordAt? ==> forall k :: r.index <= k < i ==> !SemiAt(ts, k)
    ensures r.KeywordAt? ==> forall k :: r.index < k < i ==> !StartsAt(ts, k)
  {
    if i == 0 || SemiAt(ts, i - 1) then NoKeyword
    else if StartsAt(ts, i - 1) then KeywordAt(i - 1)
    else PrevStart(ts, i - 1)
  }

  /** Move a start back as long as the keyword before it contains the one it stands on. */
  function Expand(ts: seq<Tok>, start: nat): (r: nat)
    requires start < |ts|
    ensures r <= start
  {
    var p := PrevStart(ts, start);
    if p.KeywordAt? && Contains(ts[p.index].word, ts[start].word) then Expand(ts, p.index) else start
  }

  function RangeStart(ts: seq<Tok>, cursor: nat): (r: nat)
    requires cursor < |ts|
    ensures r <= cursor
  {
    if cursor != 0 && BoundaryAt(ts, cursor) then Expand(ts, cursor)
    else
      var (start, found) := Back(ts, cursor);
      if found then Expand(ts, start) else start
  }

  /** The first statement keyword in `[i, end)`. */
  function FirstStart(ts: seq<Tok>, i: nat, end: nat): (r: Keyed)
    requires i <= end <= |ts|
    ensures r.KeywordAt? ==> i <= r.index < end && StartsAt(ts, r.index)
    ensures forall k :: i <= k < (if r.KeywordAt? then r.index else end) ==> !StartsAt(ts, k)
    decreases end - i
  {
    if i == end then NoKeyword else if StartsAt(ts, i) then KeywordAt(i) else FirstStart(ts, i + 1, end)
  }

  /** Does the statement opened by `first` run on past the statement keyword at `i`? */
  predicate Absorbs(ts: seq<Tok>, first: Keyed, i: nat)
    requires i < |ts| && (first.KeywordAt? ==> first.index < |ts|)
  {
    (first.KeywordAt? && Contains(ts[first.index].word, ts[i].word)) || Continues(ts, i)
  }

  function RangeEnd(ts: seq<Tok>, first: Keyed, i: nat, claimNext: bool): (r: nat)
    requires i <= |ts| && (first.KeywordAt? ==> first.index < |ts|)
    ensures i <= r <= |ts|
    decreases |ts| - i
  {
    if i == |ts| || SemiAt(ts, i) then i
    else if !StartsAt(ts, i) then RangeEnd(ts, first, i + 1, claimNext)
    else if claimNext || Absorbs(ts, first, i) then RangeEnd(ts, first, i + 1, false)
    else i
  }

  /** The range of the statement under the cursor. */
  function RangeAt(ts: seq<Tok>, cursor: nat): (nat, nat)
    requires cursor < |ts|
  {
    var start := RangeStart(ts, cursor);
    var first := FirstStart(ts, start, cursor + 1);
    (start, RangeEnd(ts, first, start + 1, first.KeywordAt? && ts[first.index].word == With))
  }

  // ----- All ranges -----

  function SkipTrivia(ts: seq<Tok>, s: nat, e: nat): (r: nat)
    requires s <= e <= |ts|
    ensures s <= r <= e && (forall k :: s <= k < r ==> IsTrivia(ts[k].kind)) && (r < e ==> !IsTrivia(ts[r].kind))
    decreases e - s
  {
    if s < e && IsTrivia(ts[s].kind) then SkipTrivia(ts, s + 1, e) else s
  }

  function Pushed(ts: seq<Tok>, s: nat, e: nat): seq<(nat, nat)>
    requires s <= e <= |ts|
  {
    var s' := SkipTrivia(ts, s, e);
    if s' < e then [(s', e)] else []
  }

  /** Is the keyword at `i` a clause of something in `[from, i)`? */
  predicate Contained(ts: seq<Tok>, from: nat, i: nat)
    requires from <= i < |ts|
  {
    ts[i].word == Update && exists k :: from <= k < i && IsStartWord(ts[k].word) && Contains(ts[k].word, Update)
  }

  /** The ranges still to be recorded, the current one having started at `from`, up to token `n`. */
  function Ranges(ts: seq<Tok>, i: nat, from: nat, claimNext: bool, n: nat): seq<(nat, nat)>
    requires from <= i <= n <= |ts|
    decreases n - i
  {
    if i == n then Pushed(ts, from, n)
    else if SemiAt(ts, i) then Pushed(ts, from, i) + Ranges(ts, i + 1, i + 1, false, n)
    else if !StartsAt(ts, i) then Ranges(ts, i + 1, from, claimNext, n)
    else if claimNext || Contained(ts, from, i) then Ranges(ts, i + 1, from, false, n)
    else if Continues(ts, i) then Ranges(ts, i + 1, from, claimNext, n)
    else Pushed(ts, from, i) + Ranges(ts, i + 1, i, ts[i].word == With, n)
  }

  function AllRanges(ts: seq<Tok>): seq<(nat, nat)> { Ranges(ts, 0, 0, false, |ts|) }

  // ----- The loops -----

  method ComputeParenDepths(ts: seq<Tok>) returns (depths: seq<int>)
    ensures |depths| == |ts| && forall k :: 0 <= k < |ts| ==> depths[k] == Depth(ts, k)
  {
    depths := [];
    var depth := 0;
    for i := 0 to |ts|
      invariant |depths| == i && depth == Depth(ts, i)
      invariant forall k :: 0 <= k < i ==> depths[k] == Depth(ts, k)
    {
      depths := depths + [depth];
      if ts[i].kind == LParen { depth := depth + 1; } else if ts[i].kind == RParen { depth := depth - 1; }
    }
  }

  ghost predicate AreDepths(ts: seq<Tok>, depths: seq<int>) {
    |depths| == |ts| && forall k :: 0 <= k < |ts| ==> depths[k] == Depth(ts, k)
  }

  method ContinuesSetOperation(ts: seq<Tok>, depths: seq<int>, kw: nat) returns (r: bool)
    requires kw < |ts| && AreDepths(ts, depths)
    ensures r == Continues(ts, kw)
  {
    var i := kw;
    var skippedModifier := false;
    while i > 0
      invariant 0 <= i <= kw && ContinuesFrom(ts, kw, i, skippedModifier) == Continues(ts, kw)
    {
      i := i - 1;
      if IsTrivia(ts[i].kind) { continue; }
      if ts[i].kind != Keyword { return false; }
      if IsSetOperator(ts[i].word) { return depths[i] == depths[kw]; }
      if !skippedModifier && (ts[i].word == All || ts[i].word == Distinct) {
        skippedModifier := true;
        continue;
      }
      return false;
    }
    r := false;
  }

  method FindBack(ts: seq<Tok>, depths: seq<int>, cursor: nat) returns (start: nat, found: bool)
    requires cursor < |ts| && AreDepths(ts, depths)
    ensures (start, found) == Back(ts, cursor)
  {
    var i := cursor;
    while i > 0
      invariant 0 <= i <= cursor && Back(ts, i) == Back(ts, cursor)
    {
      i := i - 1;
      if depths[i] != 0 { continue; }
      if ts[i].kind == Semi { return i + 1, false; }
      if ts[i].kind == Keyword && IsStartWord(ts[i].word) {
        var arm := ContinuesSetOperation(ts, depths, i);
        if !arm { return i, true; }
      }
    }
    start, found := 0, false;
  }

  method FindPrevStart(ts: seq<Tok>, depths: seq<int>, start: nat) returns (p: Keyed)
    requires start < |ts| && AreDepths(ts, depths)
    ensures p == PrevStart(ts, start)
  {
    var i := start;
    while i > 0
      invariant 0 <= i <= start && PrevStart(ts, i) == PrevStart(ts, start)
    {
      i := i - 1;
      if depths[i] != 0 { continue; }
      if ts[i].kind == Semi { return NoKeyword; }
      if ts[i].kind == Keyword && IsStartWord(ts[i].word) { return KeywordAt(i); }
    }
    p := NoKeyword;
  }

  method FindStart(ts: seq<Tok>, depths: seq<int>, cursor: nat) returns (start: nat)
    requires cursor < |ts| && AreDepths(ts, depths)
    ensures start == RangeStart(ts, cursor)
  {
    var found := false;
    start := 0;
    if depths[cursor] == 0 && ts[cursor].kind == Keyword && IsStartWord(ts[cursor].word) {
      var arm := ContinuesSetOperation(ts, depths, cursor);
      if !arm { start, found := cursor, true; }
    }
    if start == 0 {
      // also for a cursor on an arm: the statement starts at its first branch
      var back, keyword := FindBack(ts, depths, cursor);
      start, found := back, keyword || found;
    }
    // extend to a keyword that contains the one found
    while found
      invariant start < |ts|
      invariant (if found then Expand(ts, start) else start) == RangeStart(ts, cursor)
      decreases found, start
    {
      var p := FindPrevStart(ts, depths, start);
      if p.KeywordAt? && Contains(ts[p.index].word, ts[start].word) { start := p.index; } else { found := false; }
    }
  }

  /** The keyword that starts the statement at `start`, if one stands before `end`. */
  method FindFirst(ts: seq<Tok>, depths: seq<int>, start: nat, end: nat) returns (first: Keyed)
    requires AreDepths(ts, depths) && start <= end <= |ts|
    ensures first == FirstStart(ts, start, end)
  {
    var i := start;
    while i < end
      invariant start <= i <= end && FirstStart(ts, i, end) == FirstStart(ts, start, end)
    {
      if depths[i] == 0 && ts[i].kind == Keyword && IsStartWord(ts[i].word) { return KeywordAt(i); }
      i := i + 1;
    }
    first := NoKeyword;
  }

  /** Where the statement ends: at a terminator, or at a keyword it does not absorb. */
  method FindEnd(ts: seq<Tok>, depths: seq<int>, first: Keyed, from: nat, with: bool) returns (end: nat)
    requires AreDepths(ts, depths) && from <= |ts| && (first.KeywordAt? ==> first.index < |ts|)
    ensures end == RangeEnd(ts, first, from, with)
  {
    var claimNext := with;
    end := from;
    while end < |ts|
      invariant from <= end <= |ts| && RangeEnd(ts, first, end, claimNext) == RangeEnd(ts, first, from, with)
    {
      if depths[end] == 0 {
        if ts[end].kind == Semi { return; }
        if ts[end].kind == Keyword && IsStartWord(ts[end].word) {
          var arm := ContinuesSetOperation(ts, depths, end);
          if !(claimNext || (first.KeywordAt? && Contains(ts[first.index].word, ts[end].word)) || arm) { return; }
          claimNext := false;
        }
      }
      end := end + 1;
    }
  }

  method FindStatementTokenRange(ts: seq<Tok>, cursor: nat) returns (start: nat, end: nat)
    requires cursor < |ts|
    ensures (start, end) == RangeAt(ts, cursor)
  {
    var depths := ComputeParenDepths(ts);
    start := FindStart(ts, depths, cursor);

    var first := FindFirst(ts, depths, start, cursor + 1);
    end := FindEnd(ts, depths, first, start + 1, first.KeywordAt? && ts[first.index].word == With);
  }

  method PushStmtRange(ts: seq<Tok>, result: seq<(nat, nat)>, s: nat, e: nat) returns (r: seq<(nat, nat)>)
    requires s <= e <= |ts|
    ensures r == result + Pushed(ts, s, e)
  {
    var s' := s;
    while s' < e && IsTrivia(ts[s'].kind)
      invariant s <= s' <= e && SkipTrivia(ts, s', e) == SkipTrivia(ts, s, e)
    {
      s' := s' + 1;
    }
    r := if s' < e then result + [(s', e)] else result;
  }

  method FindContainer(ts: seq<Tok>, from: nat, i: nat) returns (found: bool)
    requires from <= i < |ts|
    ensures found <==> exists k :: from <= k < i && IsStartWord(ts[k].word) && Contains(ts[k].word, Update)
  {
    found := false;
    for j := from to i
      invariant !exists k :: from <= k < j && IsStartWord(ts[k].word) && Contains(ts[k].word, Update)
    {
      if IsStartWord(ts[j].word) && Contains(ts[j].word, Update) { return true; }
    }
  }

  method FindAllTokenRanges(ts: seq<Tok>) returns (result: seq<(nat, nat)>)
    ensures result == AllRanges(ts)
  {
    var depths := ComputeParenDepths(ts);
    result := [];
    var from := 0;
    var claimNext := false;
    for i := 0 to |ts|
      invariant from <= i
      invariant result + Ranges(ts, i, from, claimNext, |ts|) == AllRanges(ts)
    {
      if depths[i] != 0 { continue; }
      if ts[i].kind == Semi {
        Text.Regroup(result, Pushed(ts, from, i), Ranges(ts, i + 1, i + 1, false, |ts|));
        result := PushStmtRange(ts, result, from, i);
        from := i + 1;
        claimNext := false;
        continue;
      }
      if ts[i].kind == Keyword && IsStartWord(ts[i].word) {
        var container := FindContainer(ts, from, i);
        if claimNext || (ts[i].word == Update && container) {
          claimNext := false;
          continue;
        }
        var arm := ContinuesSetOperation(ts, depths, i);
        if arm { continue; }
        Text.Regroup(result, Pushed(ts, from, i), Ranges(ts, i + 1, i, ts[i].word == With, |ts|));
        result := PushStmtRange(ts, result, from, i);
        from := i;
        claimNext := ts[i].word == With;
      }
    }
    result := PushStmtRange(ts, result, from, |ts|);
  }
}
