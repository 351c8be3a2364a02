/** What a literal holds does not change whether its statement is a query. */
module LiteralIndependence {
  import opened Text
  import opened Lexis
  import opened LexisCopies
  import opened Blanker
  import opened Classifier

  // ----- Removing comments around a gap of spaces -----

  /** `u` is `a`, then `n` spaces, then `b`. */
  ghost predicate Gapped(u: string, a: string, n: nat, b: string) {
    && |u| == |a| + n + |b|
    && (forall k {:trigger u[k]} :: 0 <= k < |a| ==> u[k] == a[k])
    && (forall k {:trigger u[k]} :: |a| <= k < |a| + n ==> u[k] == ' ')
    && (forall k {:trigger u[k]} :: |a| + n <= k < |u| ==> u[k] == b[k - |a| - n])
  }

  lemma CommentStepTail(u: string, lo: nat, i: nat, t: string, d: int)
    requires SameTail(u, lo, t, d) && lo <= i < |u|
    ensures 0 <= i + d < |t| && CommentStep(t, i + d) == (CommentStep(u, i).0 + d, CommentStep(u, i).1)
  {
    NextCopies(u, lo, i, t, d, '-');
    NextCopies(u, lo, i, t, d, '*');
    if i + 1 < |u| {
      LineCopies(u, lo, i + 2, t, d);
      SameTailCopied(u, lo, t, d);
      BlockCopies(u, lo, i + 2, |u|, t, d);
    }
  }

  lemma {:induction false} UncommentedTail(u: string, lo: nat, i: nat, t: string, d: int)
    requires SameTail(u, lo, t, d) && lo <= i <= |u|
    ensures 0 <= i + d <= |t| && Uncommented(t, i + d) == Uncommented(u, i)
    decreases |u| - i
  {
    hide CommentStep;
    if i < |u| {
      CommentStepTail(u, lo, i, t, d);
      UncommentedTail(u, lo, CommentStep(u, i).0, t, d);
    }
  }

  /** A line comment that starts before the gap ends before it, or in the same place after it. */
  lemma {:induction false} LineOverGap(u: string, v: string, a: string, n: nat, m: nat, b: string, i: nat)
    requires Gapped(u, a, n, b) && Gapped(v, a, m, b) && i <= |a|
    ensures var e := LineEnd(u, i);
            if e < |a| then LineEnd(v, i) == e
            else e >= |a| + n && LineEnd(v, i) == |a| + m + LineEnd(b, 0) && e == |a| + n + LineEnd(b, 0)
    decreases |a| - i
  {
    if i == |a| {
      LineThroughSpaces(u, a, n, b, i);
      LineThroughSpaces(v, a, m, b, i);
    } else if u[i] != '\n' {
      assert v[i] == a[i] == u[i];
      LineOverGap(u, v, a, n, m, b, i + 1);
    } else {
      assert v[i] == a[i];
    }
  }

  lemma {:induction false} LineThroughSpaces(u: string, a: string, n: nat, b: string, i: nat)
    requires Gapped(u, a, n, b) && |a| <= i <= |a| + n
    ensures LineEnd(u, i) == |a| + n + LineEnd(b, 0)
    decreases |a| + n - i
  {
    if i < |a| + n {
      assert u[i] == ' ';
      LineThroughSpaces(u, a, n, b, i + 1);
    } else {
      LineCopies(u, i, i, b, -(i as int));
    }
  }

  lemma {:induction false} BlockOverGap(u: string, v: string, a: string, n: nat, m: nat, b: string, i: nat)
    requires Gapped(u, a, n, b) && Gapped(v, a, m, b) && i <= |a| && n >= 1 && m >= 1
    ensures var e := BlockEnd(u, i);
            if e <= |a| then BlockEnd(v, i) == e
            else BlockEnd(v, i) == |a| + m + BlockEnd(b, 0) && e == |a| + n + BlockEnd(b, 0)
    decreases |a| - i
  {
    if i == |a| {
      BlockThroughSpaces(u, a, n, b, i);
      BlockThroughSpaces(v, a, m, b, i);
    } else {
      assert u[i] == a[i] == v[i];
      if i + 1 < |a| { assert u[i + 1] == a[i + 1] == v[i + 1]; } else { assert u[i + 1] == ' ' == v[i + 1]; }
      if !(u[i] == '*' && u[i + 1] == '/') { BlockOverGap(u, v, a, n, m, b, i + 1); }
    }
  }

  lemma {:induction false} BlockThroughSpaces(u: string, a: string, n: nat, b: string, i: nat)
    requires Gapped(u, a, n, b) && |a| <= i <= |a| + n
    ensures BlockEnd(u, i) == |a| + n + BlockEnd(b, 0)
    decreases |a| + n - i
  {
    if i < |a| + n {
      assert u[i] == ' ';
      BlockThroughSpaces(u, a, n, b, i + 1);
    } else {
      SameTailCopied(u, i, b, -(i as int));
      BlockCopies(u, i, i, |u|, b, -(i as int));
    }
  }

  lemma {:induction false} UncommentedSpaces(u: string, a: string, n: nat, b: string, i: nat)
    requires Gapped(u, a, n, b) && |a| <= i <= |a| + n
    ensures Uncommented(u, i) == Spaces(|a| + n - i) + Uncommented(b, 0)
    decreases |a| + n - i
  {
    if i < |a| + n {
      assert u[i] == ' ';
      assert CommentStep(u, i) == (i + 1, " ");
      hide CommentStep;
      UncommentedSpaces(u, a, n, b, i + 1);
    } else {
      UncommentedTail(u, i, i, b, -(i as int));
      assert Spaces(0) + Uncommented(b, 0) == Uncommented(b, 0);
    }
  }

  /** Two comment-free views are equal, or differ only in the width of one gap. */
  ghost predicate SameButGap(r: string, s: string, n: nat, m: nat) {
    r == s || exists x: string, y: string :: r == x + Spaces(n) + y && s == x + Spaces(m) + y
  }

  lemma GapExtends(p: string, r: string, s: string, n: nat, m: nat)
    requires SameButGap(r, s, n, m)
    ensures SameButGap(p + r, p + s, n, m)
  {
    if r != s {
      var x: string, y: string :| r == x + Spaces(n) + y && s == x + Spaces(m) + y;
      assert p + r == (p + x) + Spaces(n) + y && p + s == (p + x) + Spaces(m) + y;
    }
  }

  lemma LengthsOfGapped(u: string, a: string, n: nat, b: string, i: nat)
    requires Gapped(u, a, n, b)
    ensures |u| == |a| + n + |b|
    ensures i < |a| ==> u[i] == a[i]
    ensures i == |a| && n >= 1 ==> u[i] == ' '
  {
  }

  lemma LineStepOverGap(u: string, v: string, a: string, n: nat, m: nat, b: string, i: nat)
    requires Gapped(u, a, n, b) && Gapped(v, a, m, b) && i + 1 < |a| && n >= 1 && m >= 1
    requires u[i] == u[i + 1] == '-'
    ensures var (j, r) := CommentStep(u, i);
            if j <= |a| then CommentStep(v, i) == (j, r)
            else |a| + n <= j && CommentStep(v, i) == (j - n + m, r)
  {
    LengthsOfGapped(u, a, n, b, i);
    LengthsOfGapped(v, a, m, b, i);
    LengthsOfGapped(u, a, n, b, i + 1);
    LengthsOfGapped(v, a, m, b, i + 1);
    LineOverGap(u, v, a, n, m, b, i + 2);
    hide Gapped, LineEnd, BlockEnd;
  }

  lemma BlockStepOverGap(u: string, v: string, a: string, n: nat, m: nat, b: string, i: nat)
    requires Gapped(u, a, n, b) && Gapped(v, a, m, b) && i + 1 < |a| && n >= 1 && m >= 1
    requires u[i] == '/' && u[i + 1] == '*'
    ensures var (j, r) := CommentStep(u, i);
            if j <= |a| then CommentStep(v, i) == (j, r)
            else |a| + n <= j && CommentStep(v, i) == (j - n + m, r)
  {
    LengthsOfGapped(u, a, n, b, i);
    LengthsOfGapped(v, a, m, b, i);
    LengthsOfGapped(u, a, n, b, i + 1);
    LengthsOfGapped(v, a, m, b, i + 1);
    BlockOverGap(u, v, a, n, m, b, i + 2);
    hide Gapped, LineEnd, BlockEnd;
  }

  /** A step before the gap stops before it, or both reach the same place in `b`. */
  lemma CommentStepOverGap(u: string, v: string, a: string, n: nat, m: nat, b: string, i: nat)
    requires Gapped(u, a, n, b) && Gapped(v, a, m, b) && i < |a| && n >= 1 && m >= 1
    ensures var (j, r) := CommentStep(u, i);
            if j <= |a| then CommentStep(v, i) == (j, r)
            else |a| + n <= j && CommentStep(v, i) == (j - n + m, r)
  {
    hide Gapped, LineEnd, BlockEnd;
    LengthsOfGapped(u, a, n, b, i);
    LengthsOfGapped(v, a, m, b, i);
    LengthsOfGapped(u, a, n, b, i + 1);
    LengthsOfGapped(v, a, m, b, i + 1);
    if i + 1 < |a| && u[i] == u[i + 1] == '-' {
      LineStepOverGap(u, v, a, n, m, b, i);
    } else if i + 1 < |a| && u[i] == '/' && u[i + 1] == '*' {
      BlockStepOverGap(u, v, a, n, m, b, i);
    }
  }

  lemma {:induction false} UncommentedGap(u: string, v: string, a: string, n: nat, m: nat, b: string, i: nat)
    requires Gapped(u, a, n, b) && Gapped(v, a, m, b) && i <= |a| && n >= 1 && m >= 1
    ensures SameButGap(Uncommented(u, i), Uncommented(v, i), n, m)
    decreases |a| - i
  {
    hide CommentStep;
    if i == |a| {
      UncommentedSpaces(u, a, n, b, i);
      UncommentedSpaces(v, a, m, b, i);
      var y := Uncommented(b, 0);
      assert Spaces(n) + y == "" + Spaces(n) + y && Spaces(m) + y == "" + Spaces(m) + y;
    } else {
      CommentStepOverGap(u, v, a, n, m, b, i);
      hide SameButGap;
      var (j, r) := CommentStep(u, i);
      if j <= |a| {
        UncommentedGap(u, v, a, n, m, b, j);
        GapExtends(r, Uncommented(u, j), Uncommented(v, j), n, m);
      } else {
        SameAfterGap(u, v, a, n, m, b, j);
      }
    }
  }

  lemma SameAfterGap(u: string, v: string, a: string, n: nat, m: nat, b: string, j: nat)
    requires Gapped(u, a, n, b) && Gapped(v, a, m, b) && |a| + n <= j <= |u|
    ensures Uncommented(u, j) == Uncommented(v, j - n + m)
  {
    UncommentedTail(u, |a| + n, j, b, -((|a| + n) as int));
    UncommentedTail(v, |a| + m, j - n + m, b, -((|a| + m) as int));
  }

  // ----- Blanking with another literal in place -----

  /** `s` is `pre`, then the literal `q x q`, then `post`. */
  ghost predicate Framed(s: string, pre: string, q: char, x: string, post: string) {
    && |s| == |pre| + |x| + 2 + |post|
    && (forall k {:trigger s[k]} :: 0 <= k < |pre| ==> s[k] == pre[k])
    && s[|pre|] == q && s[|pre| + 1 + |x|] == q
    && (forall k {:trigger s[k]} :: |pre| < k <= |pre| + |x| ==> s[k] == x[k - |pre| - 1])
    && (forall k {:trigger s[k]} :: |pre| + |x| + 2 <= k < |s| ==> s[k] == post[k - |pre| - |x| - 2])
  }

  ghost predicate SameUpTo(s: string, t: string, n: nat) {
    n <= |s| && n <= |t| && forall k {:trigger s[k]} :: 0 <= k < n ==> s[k] == t[k]
  }

  lemma {:induction false} QuotedPrefix(s: string, t: string, i: nat, q: char, esc: QuoteEscapes, n: nat)
    requires SameUpTo(s, t, n) && i <= |s| && QuotedEnd(s, i, q, esc) < n
    ensures QuotedEnd(t, i, q, esc) == QuotedEnd(s, i, q, esc)
    decreases |s| - i
  {
    assert s[i] == t[i] && (i + 1 < n ==> s[i + 1] == t[i + 1]);
    var step := QuotedStep(s, i, q, esc);
    if !(s[i] == q && step == 1) { QuotedPrefix(s, t, i + step, q, esc, n); }
  }

  lemma {:induction false} WordPrefix(s: string, t: string, i: nat, n: nat)
    requires SameUpTo(s, t, n) && i <= |s| && WordEnd(s, i) < n
    ensures WordEnd(t, i) == WordEnd(s, i)
    decreases |s| - i
  {
    assert s[i] == t[i];
    if IsWord(s[i]) { WordPrefix(s, t, i + 1, n); }
  }

  lemma {:induction false} DollarPrefix(s: string, t: string, i: nat, tag: string, n: nat)
    requires SameUpTo(s, t, n) && tag != "" && TagCloses(s, i, tag) && DollarEnd(s, i, tag) <= n
    ensures TagCloses(t, i, tag) && DollarEnd(t, i, tag) == DollarEnd(s, i, tag)
    decreases |s| - i
  {
    TagCloseIsInside(s, i, tag);
    assert s[i..i + |tag|] == t[i..i + |tag|];
    if !TagAt(s, i, tag) { DollarPrefix(s, t, i + 1, tag, n); }
  }

  lemma {:induction false} TagCloseIsInside(s: string, i: nat, tag: string)
    requires tag != "" && TagCloses(s, i, tag)
    ensures i + |tag| <= DollarEnd(s, i, tag)
    decreases |s| - i
  {
    if !TagAt(s, i, tag) { TagCloseIsInside(s, i + 1, tag); }
  }

  /** A tag found after the literal was replaced was there before. */
  lemma TagWasThere(s: string, t: string, pre: string, q: char, x: string, y: string, post: string, j: nat, tag: string)
      returns (j': nat)
    requires Framed(s, pre, q, x, post) && Framed(t, pre, q, y, post)
    requires IsQuote(q) && '$' !in y && TagText(tag) && tag[0] == '$' && TagAt(t, j, tag)
    ensures TagAt(s, j', tag) && (j' == j || j' > |pre|)
  {
    var p := |pre|;
    TagAvoids(t, j, p, tag);
    TagAvoids(t, j, p + 1 + |y|, tag);
    TagStartsWithDollar(t, j, tag);
    if j + |tag| <= p {
      j' := j;
      assert s[j..j + |tag|] == t[j..j + |tag|];
    } else if j >= p + 2 + |y| {
      j' := j - |y| + |x|;
      TailsOfFramed(s, t, pre, q, x, y, post);
      SameTailCopied(t, p + 2 + |y|, s, |x| - |y|);
      SliceCopies(t, p + 2 + |y|, j, j + |tag|, |t|, s, |x| - |y|);
    } else {
      assert false;
    }
  }

  lemma TagStartsWithDollar(t: string, j: nat, tag: string)
    requires tag != "" && tag[0] == '$' && TagAt(t, j, tag)
    ensures t[j] == '$'
  {
    assert t[j] == t[j..j + |tag|][0];
  }

  lemma TailsOfFramed(s: string, t: string, pre: string, q: char, x: string, y: string, post: string)
    requires Framed(s, pre, q, x, post) && Framed(t, pre, q, y, post)
    ensures SameTail(t, |pre| + 2 + |y|, s, |x| - |y|)
  {}

  lemma TagChars(t: string, j: nat, tag: string)
    requires TagAt(t, j, tag)
    ensures forall k :: j <= k < j + |tag| ==> t[k] == tag[k - j]
  {
    forall k | j <= k < j + |tag| ensures t[k] == tag[k - j] { assert t[k] == t[j..j + |tag|][k - j]; }
  }

  lemma TagAvoids(t: string, j: nat, k: nat, tag: string)
    requires k < |t| && IsQuote(t[k]) && TagText(tag) && TagAt(t, j, tag)
    ensures !(j <= k < j + |tag|)
  {
    TagChars(t, j, tag);
  }

  /** Before the literal, blanking goes the same way whatever the literal holds. */
  lemma StepBeforeLiteral(
      s: string, t: string, pre: string, q: char, x: string, y: string, post: string, i: nat, esc: QuoteEscapes)
    requires Framed(s, pre, q, x, post) && Framed(t, pre, q, y, post) && IsQuote(q) && '$' !in y
    requires i < |pre| && BlankStep(s, i, esc).0 <= |pre|
    ensures BlankStep(t, i, esc) == BlankStep(s, i, esc) && Shown(t, i, esc) == Shown(s, i, esc)
  {
    var n := |pre| + 1;
    if IsQuote(s[i]) {
      QuotedPrefix(s, t, i + 1, s[i], esc, n);
    } else if s[i] == '$' {
      DollarBeforeLiteral(s, t, pre, q, x, y, post, i, esc);
    }
  }

  lemma {:induction false} WordStopsAtQuote(s: string, i: nat, p: nat)
    requires i <= p < |s| && IsQuote(s[p])
    ensures WordEnd(s, i) <= p
    decreases p - i
  {
    if i < p && IsWord(s[i]) { WordStopsAtQuote(s, i + 1, p); }
  }

  lemma DollarBeforeLiteral(
      s: string, t: string, pre: string, q: char, x: string, y: string, post: string, i: nat, esc: QuoteEscapes)
    requires Framed(s, pre, q, x, post) && Framed(t, pre, q, y, post) && IsQuote(q) && '$' !in y
    requires i < |pre| && s[i] == '$' && BlankStep(s, i, esc).0 <= |pre|
    ensures BlankStep(t, i, esc) == BlankStep(s, i, esc)
  {
    var n := |pre| + 1;
    SameOpeningTag(s, t, i, |pre|);
    if OpensTag(s, i) {
      var body := TagEnd(s, i);
      var tag := s[i..body];
      TagIsText(s, i);
      if TagCloses(s, body, tag) {
        DollarPrefix(s, t, body, tag, n);
      } else {
        NoTagAppears(s, t, pre, q, x, y, post, body, tag);
      }
    }
  }

  lemma SameOpeningTag(s: string, t: string, i: nat, p: nat)
    requires SameUpTo(s, t, p + 1) && i < p && IsQuote(s[p])
    ensures OpensTag(s, i) <==> OpensTag(t, i)
    ensures OpensTag(s, i) ==> TagEnd(t, i) == TagEnd(s, i) <= p && t[i..TagEnd(s, i)] == s[i..TagEnd(s, i)]
  {
    WordStopsAtQuote(s, i + 1, p);
    WordPrefix(s, t, i + 1, p + 1);
    var w := WordEnd(s, i + 1);
    assert s[i] == t[i] && s[i + 1] == t[i + 1] && s[w] == t[w];
    assert OpensTag(s, i) ==> w < p;
  }

  lemma NoTagAppears(
      s: string, t: string, pre: string, q: char, x: string, y: string, post: string, body: nat, tag: string)
    requires Framed(s, pre, q, x, post) && Framed(t, pre, q, y, post) && IsQuote(q) && '$' !in y
    requires body <= |pre| && TagText(tag) && tag[0] == '$' && !TagCloses(s, body, tag)
    ensures !TagCloses(t, body, tag)
  {
    if TagCloses(t, body, tag) {
      var j := ClosingTagAt(t, body, tag);
      var j' := TagWasThere(s, t, pre, q, x, y, post, j, tag);
      TagClosesAt(s, body, j', tag);
      assert false;
    }
  }

  lemma {:induction false} SameBefore(
      s: string, t: string, pre: string, q: char, x: string, y: string, post: string, i: nat, esc: QuoteEscapes)
    requires Framed(s, pre, q, x, post) && Framed(t, pre, q, y, post) && IsQuote(q) && '$' !in y
    requires Reaches(s, i, |pre|, esc)
    ensures Reaches(t, i, |pre|, esc) && Before(t, i, |pre|, esc) == Before(s, i, |pre|, esc)
    decreases |s| - i
  {
    hide BlankStep, Shown;
    if i < |pre| {
      StepBeforeLiteral(s, t, pre, q, x, y, post, i, esc);
      SameBefore(s, t, pre, q, x, y, post, BlankStep(s, i, esc).0, esc);
    }
  }

  lemma SameTailLength(u: string, lo: nat, t: string, d: int)
    requires SameTail(u, lo, t, d)
    ensures lo <= |u| && 0 <= lo + d && |u| + d == |t|
  {}

  lemma BlankStepTail(u: string, lo: nat, i: nat, t: string, d: int, esc: QuoteEscapes)
    requires SameTail(u, lo, t, d) && lo <= i < |u|
    ensures 0 <= i + d < |t| && BlankStep(t, i + d, esc) == (BlankStep(u, i, esc).0 + d, BlankStep(u, i, esc).1)
    ensures Shown(t, i + d, esc) == Shown(u, i, esc)
  {
    SameTailCopied(u, lo, t, d);
    assert u[i] == t[i + d];
    if IsQuote(u[i]) {
      hide Copied;
      QuotedCopies(u, lo, i + 1, |u|, t, d, u[i], esc);
    } else if u[i] == '$' {
      ClosedTagTail(u, lo, i, t, d, esc);
    }
  }

  lemma OpenedTagTail(u: string, lo: nat, i: nat, t: string, d: int)
    requires SameTail(u, lo, t, d) && Copied(u, lo, |u|, t, d) && lo <= i < |u| && u[i] == t[i + d] == '$'
    requires OpensTag(u, i)
    ensures 0 <= i + d && OpensTag(t, i + d) && TagEnd(t, i + d) == TagEnd(u, i) + d
    ensures var body, tag := TagEnd(u, i), u[i..TagEnd(u, i)];
            && t[i + d..body + d] == tag && TagText(tag)
            && (TagCloses(t, body + d, tag) <==> TagCloses(u, body, tag))
            && DollarEnd(t, body + d, tag) == DollarEnd(u, body, tag) + d
  {
    hide SameTail, Copied, TagText, WordEnd, TagCloses, DollarEnd;
    SameTailLength(u, lo, t, d);
    OpeningCopies(u, lo, i, |u|, t, d);
    var body := TagEnd(u, i);
    TagIsText(u, i);
    SliceCopies(u, lo, i, body, |u|, t, d);
    TagClosesTail(u, lo, body, t, d, u[i..body]);
    DollarCopies(u, lo, body, |u|, t, d, u[i..body]);
  }

  lemma ClosedTagTail(u: string, lo: nat, i: nat, t: string, d: int, esc: QuoteEscapes)
    requires SameTail(u, lo, t, d) && Copied(u, lo, |u|, t, d) && lo <= i < |u| && u[i] == t[i + d] == '$'
    ensures BlankStep(t, i + d, esc) == (BlankStep(u, i, esc).0 + d, BlankStep(u, i, esc).1)
  {
    hide SameTail, Copied, TagText, TagCloses, DollarEnd, OpensTag, TagEnd, WordEnd, QuotedEnd;
    SameTailLength(u, lo, t, d);
    if OpensTag(u, i) {
      OpenedTagTail(u, lo, i, t, d);
    } else {
      OpeningCopies(u, lo, i, |u|, t, d);
    }
  }

  lemma {:induction false} TagClosesTail(u: string, lo: nat, i: nat, t: string, d: int, tag: string)
    requires SameTail(u, lo, t, d) && lo <= i <= |u| && TagText(tag)
    ensures 0 <= i + d && (TagCloses(t, i + d, tag) <==> TagCloses(u, i, tag))
    decreases |u| - i
  {
    if i + |tag| <= |u| {
      SameTailCopied(u, lo, t, d);
      TagCopies(u, lo, i, |u|, t, d, tag);
      TagClosesTail(u, lo, i + 1, t, d, tag);
    }
  }

  lemma {:induction false} BlankTail(u: string, lo: nat, i: nat, t: string, d: int, esc: QuoteEscapes)
    requires SameTail(u, lo, t, d) && lo <= i <= |u|
    ensures 0 <= i + d <= |t| && Blank(t, i + d, esc) == Blank(u, i, esc)
    decreases |u| - i
  {
    hide *;
    SameTailLength(u, lo, t, d);
    if i < |u| {
      BlankTurn(u, i, esc);
      BlankTurn(t, i + d, esc);
      BlankStepTail(u, lo, i, t, d, esc);
      BlankTail(u, lo, BlankStep(u, i, esc).0, t, d, esc);
    }
  }

  /** Reading a literal opened by `q` from `i`: is its closing quote the one at `c`? */
  ghost predicate ClosesAt(s: string, i: nat, q: char, esc: QuoteEscapes, c: nat)
    requires c < |s|
    decreases |s| - i
  {
    i <= c &&
    var step := QuotedStep(s, i, q, esc);
    if s[i] == q && step == 1 then i == c else ClosesAt(s, i + step, q, esc, c)
  }

  lemma {:induction false} ClosesAtEnds(s: string, i: nat, q: char, esc: QuoteEscapes, c: nat)
    requires c < |s| && ClosesAt(s, i, q, esc, c)
    ensures i <= c && QuotedEnd(s, i, q, esc) == c + 1
    ensures s[c] == q && (c + 1 < |s| ==> s[c + 1] != q)
    decreases |s| - i
  {
    var step := QuotedStep(s, i, q, esc);
    if !(s[i] == q && step == 1) { ClosesAtEnds(s, i + step, q, esc, c); }
  }

  /** Contents without the quote, and without backslashes where they escape, run to the closing quote. */
  lemma {:induction false} PlainContentsClose(s: string, i: nat, q: char, esc: QuoteEscapes, c: nat)
    requires i <= c < |s| && s[c] == q && (c + 1 < |s| ==> s[c + 1] != q) && q != '\\'
    requires forall k :: i <= k < c ==> s[k] != q && (esc.Backslash? ==> s[k] != '\\')
    ensures QuotedEnd(s, i, q, esc) == c + 1
    decreases c - i
  {
    if i < c { PlainContentsClose(s, i + 1, q, esc, c); }
  }

  /** Blanking `q x q` leaves a gap two wider than `x`. */
  lemma BlankOfFramed(s: string, pre: string, q: char, x: string, post: string, esc: QuoteEscapes)
    requires Framed(s, pre, q, x, post) && IsQuote(q) && Reaches(s, 0, |pre|, esc)
    requires QuotedEnd(s, |pre| + 1, q, esc) == |pre| + 2 + |x|
    ensures Blank(s, 0, esc) == Before(s, 0, |pre|, esc) + Spaces(|x| + 2) + Blank(post, 0, esc)
  {
    hide Framed, Reaches, QuotedEnd;
    BlankSplits(s, 0, |pre|, esc);
    BlankAtLiteral(s, pre, q, x, post, esc);
    hide Before, Blank, Spaces;
    Regroup(Before(s, 0, |pre|, esc), Spaces(|x| + 2), Blank(post, 0, esc));
  }

  lemma BlankAtLiteral(s: string, pre: string, q: char, x: string, post: string, esc: QuoteEscapes)
    requires Framed(s, pre, q, x, post) && IsQuote(q)
    requires QuotedEnd(s, |pre| + 1, q, esc) == |pre| + 2 + |x|
    ensures Blank(s, |pre|, esc) == Spaces(|x| + 2) + Blank(post, 0, esc)
  {
    var e := |pre| + 2 + |x|;
    assert SameTail(s, e, post, -(e as int)) && s[|pre|] == q;
    hide Framed, SameTail, QuotedEnd;
    BlankTail(s, e, e, post, -(e as int), esc);
    assert BlankStep(s, |pre|, esc) == (e, true);
  }

  lemma FramedIs(pre: string, q: char, x: string, post: string)
    ensures Framed(pre + [q] + x + [q] + post, pre, q, x, post)
  {}

  /**
   Where the blanking loop reaches a quote at top level and the literal closes, replacing its
   contents leaves the classification of the statement unchanged.
   */
  lemma {:induction false} LiteralContentsDoNotMatter(
      kinds: QueryKinds, pre: string, q: char, x: string, y: string, post: string, table: CharTable)
    requires Sane(table) && PlainPrefixes(kinds) && IsQuote(q)
    requires var s := pre + [q] + x + [q] + post;
             Reaches(s, 0, |pre|, kinds.escapes) && ClosesAt(s, |pre| + 1, q, kinds.escapes, |pre| + 1 + |x|)
    requires q !in y && '$' !in y && (kinds.escapes.Backslash? ==> '\\' !in y)
    ensures IsQuery(kinds, pre + [q] + x + [q] + post, table) <==>
            IsQuery(kinds, pre + [q] + y + [q] + post, table)
  {
    var esc := kinds.escapes;
    var s, t := pre + [q] + x + [q] + post, pre + [q] + y + [q] + post;
    FramedIs(pre, q, x, post);
    FramedIs(pre, q, y, post);
    hide Framed, UpperIsQuery;
    BlanksAlike(s, t, pre, q, x, y, post, esc);
    BlanksClassifyAlike(kinds, Before(s, 0, |pre|, esc), |x| + 2, |y| + 2, Blank(post, 0, esc), table);
  }

  lemma BlanksClassifyAlike(kinds: QueryKinds, a: string, n: nat, m: nat, b: string, table: CharTable)
    requires Sane(table) && PlainPrefixes(kinds) && n >= 2 && m >= 2
    ensures UpperIsQuery(kinds, Upper(TrimStart(Uncommented(a + Spaces(n) + b, 0)), table), table) <==>
            UpperIsQuery(kinds, Upper(TrimStart(Uncommented(a + Spaces(m) + b, 0)), table), table)
  {
    UncommentedGap(a + Spaces(n) + b, a + Spaces(m) + b, a, n, m, b, 0);
    hide Gapped, UpperIsQuery;
    var r, r' := Uncommented(a + Spaces(n) + b, 0), Uncommented(a + Spaces(m) + b, 0);
    if r != r' {
      var x, y :| r == x + Spaces(n) + y && r' == x + Spaces(m) + y;
      ViewsClassifyAlike(kinds, x, n, m, y, table);
    }
  }

  lemma {:induction false} BlanksAlike(
      s: string, t: string, pre: string, q: char, x: string, y: string, post: string, esc: QuoteEscapes)
    requires Framed(s, pre, q, x, post) && Framed(t, pre, q, y, post) && IsQuote(q)
    requires Reaches(s, 0, |pre|, esc) && ClosesAt(s, |pre| + 1, q, esc, |pre| + 1 + |x|)
    requires q !in y && '$' !in y && (esc.Backslash? ==> '\\' !in y)
    ensures Blank(s, 0, esc) == Before(s, 0, |pre|, esc) + Spaces(|x| + 2) + Blank(post, 0, esc)
    ensures Blank(t, 0, esc) == Before(s, 0, |pre|, esc) + Spaces(|y| + 2) + Blank(post, 0, esc)
  {
    hide Reaches, Before, Blank, QuotedEnd, IsQuote;
    ClosesAtEnds(s, |pre| + 1, q, esc, |pre| + 1 + |x|);
    hide ClosesAt;
    BlankOfFramed(s, pre, q, x, post, esc);
    ReplacementCloses(s, t, pre, q, x, y, post, esc);
    SameBefore(s, t, pre, q, x, y, post, 0, esc);
    hide Framed;
    BlankOfFramed(t, pre, q, y, post, esc);
  }

  lemma ReplacementCloses(
      s: string, t: string, pre: string, q: char, x: string, y: string, post: string, esc: QuoteEscapes)
    requires Framed(s, pre, q, x, post) && Framed(t, pre, q, y, post) && IsQuote(q)
    requires |pre| + 2 + |x| < |s| ==> s[|pre| + 2 + |x|] != q
    requires q !in y && (esc.Backslash? ==> '\\' !in y)
    ensures QuotedEnd(t, |pre| + 1, q, esc) == |pre| + 2 + |y|
  {
    var c := |pre| + 1 + |y|;
    forall k | |pre| + 1 <= k < c ensures t[k] != q && (esc.Backslash? ==> t[k] != '\\') {
      assert t[k] == y[k - |pre| - 1];
    }
    if c + 1 < |t| { assert t[c + 1] == post[0] && s[|pre| + 2 + |x|] == post[0]; }
    hide Framed;
    PlainContentsClose(t, |pre| + 1, q, esc, c);
  }
}
