/**
 Reading is local: an element is read the same way in every copy of its text whose surroundings cannot
 extend it. Copies are ranges of one text repeated in another at a fixed distance, so the lemmas carry
 that distance instead of cutting the text up.
 */
module LexisCopies {
  import opened Text
  import opened Lexis

  /** A character no element before it can be extended into, except a lone dash. */
  predicate Breaks(c: char) { !IsQuote(c) && !IsWord(c) && c != '$' && c != '*' && c != '/' }

  predicate Neutral(c: char) { Breaks(c) && c != '-' }

  /** `t` holds `s[lo..n]` at distance `d`, and what follows each copy cannot extend an element. */
  ghost predicate Copied(s: string, lo: nat, n: nat, t: string, d: int) {
    && lo <= n <= |s| && 0 <= lo + d && n + d <= |t|
    && (forall k {:trigger s[k]} :: lo <= k < n ==> s[k] == t[k + d])
    && (n < |s| ==> Breaks(s[n]))
    && (n + d < |t| ==> Neutral(t[n + d]))
    && (n == |s| ==> n + d == |t|)
  }

  /** The character at `i`, and any lookahead that could extend an element, are the same in the copy. */
  lemma LookaheadCopies(s: string, lo: nat, i: nat, n: nat, t: string, d: int, c: char)
    requires Copied(s, lo, n, t, d) && lo <= i <= n
    ensures 0 <= i + d <= |t|
    ensures i < n ==> i + d < |t| && t[i + d] == s[i]
    ensures i < n && !Breaks(c) ==> (i + 1 < |s| && s[i + 1] == c <==> i + d + 1 < |t| && t[i + d + 1] == c)
    ensures i == n == |s| ==> i + d == |t|
    ensures i < n && i + 1 == |s| ==> i + d + 1 == |t|
    ensures i + 1 < |s| && i + 1 < n ==> i + d + 1 < |t|
  {
    if i + 1 < n { assert s[i + 1] == t[i + 1 + d]; }
  }

  lemma {:induction false} QuotedCopies(
      s: string, lo: nat, i: nat, n: nat, t: string, d: int, q: char, esc: QuoteEscapes)
    requires Copied(s, lo, n, t, d) && lo <= i <= n && !Breaks(q) && QuotedEnd(s, i, q, esc) <= n
    ensures 0 <= i + d <= |t| && QuotedEnd(t, i + d, q, esc) == QuotedEnd(s, i, q, esc) + d
    decreases |s| - i
  {
    hide Copied, QuotedStep, Breaks;
    LookaheadCopies(s, lo, i, n, t, d, q);
    if i < n {
      QuotedStepCopies(s, lo, i, n, t, d, q, esc);
      var step := QuotedStep(s, i, q, esc);
      if !(s[i] == q && step == 1) { QuotedCopies(s, lo, i + step, n, t, d, q, esc); }
    }
  }

  lemma QuotedStepCopies(s: string, lo: nat, i: nat, n: nat, t: string, d: int, q: char, esc: QuoteEscapes)
    requires Copied(s, lo, n, t, d) && lo <= i < n && !Breaks(q)
    requires i + QuotedStep(s, i, q, esc) <= n
    ensures QuotedStep(t, i + d, q, esc) == QuotedStep(s, i, q, esc)
  {
    LookaheadCopies(s, lo, i, n, t, d, q);
  }

  lemma {:induction false} BlockCopies(s: string, lo: nat, i: nat, n: nat, t: string, d: int)
    requires Copied(s, lo, n, t, d) && lo <= i <= n && BlockEnd(s, i) <= n
    ensures 0 <= i + d <= |t| && BlockEnd(t, i + d) == BlockEnd(s, i) + d
    decreases |s| - i
  {
    LookaheadCopies(s, lo, i, n, t, d, '/');
    hide Copied;
    if i < n && !(s[i] == '*' && i + 1 < |s| && s[i + 1] == '/') { BlockCopies(s, lo, i + 1, n, t, d); }
  }

  lemma {:induction false} WordCopies(s: string, lo: nat, i: nat, n: nat, t: string, d: int)
    requires Copied(s, lo, n, t, d) && lo <= i <= n
    ensures WordEnd(s, i) <= n && WordEnd(t, i + d) == WordEnd(s, i) + d
    decreases n - i
  {
    if i < n && IsWord(s[i]) { WordCopies(s, lo, i + 1, n, t, d); }
  }

  predicate TagText(tag: string) {
    tag != "" && forall k :: 0 <= k < |tag| ==> tag[k] == '$' || IsWord(tag[k])
  }

  lemma NoTagAcross(t: string, i: nat, n: nat, tag: string)
    requires i <= n < |t| && n < i + |tag| && Neutral(t[n])
    requires TagText(tag)
    ensures !TagAt(t, i, tag)
  {
    if i + |tag| <= |t| { assert t[n] == t[i..i + |tag|][n - i]; }
  }

  lemma TagCopies(s: string, lo: nat, i: nat, n: nat, t: string, d: int, tag: string)
    requires Copied(s, lo, n, t, d) && lo <= i <= n
    requires TagText(tag)
    requires TagAt(s, i, tag) ==> i + |tag| <= n
    ensures TagAt(s, i, tag) <==> TagAt(t, i + d, tag)
  {
    if i + |tag| <= n {
      assert s[i..i + |tag|] == t[i + d..i + d + |tag|];
    } else if TagAt(t, i + d, tag) {
      NoTagAcross(t, i + d, n + d, tag);
    }
  }

  lemma {:induction false} DollarCopies(s: string, lo: nat, i: nat, n: nat, t: string, d: int, tag: string)
    requires Copied(s, lo, n, t, d) && lo <= i <= n && TagText(tag) && DollarEnd(s, i, tag) <= n
    ensures DollarEnd(t, i + d, tag) == DollarEnd(s, i, tag) + d
    decreases |s| - i
  {
    if i < n {
      TagCopies(s, lo, i, n, t, d, tag);
      if !TagAt(s, i, tag) { DollarCopies(s, lo, i + 1, n, t, d, tag); }
    }
  }

  lemma OpeningCopies(s: string, lo: nat, i: nat, n: nat, t: string, d: int)
    requires Copied(s, lo, n, t, d) && lo <= i < n && s[i] == '$'
    requires OpensTag(s, i) ==> TagEnd(s, i) <= n
    ensures OpensTag(t, i + d) <==> OpensTag(s, i)
    ensures WordEnd(t, i + d + 1) == WordEnd(s, i + 1) + d
  {
    WordCopies(s, lo, i + 1, n, t, d);
    var w := WordEnd(s, i + 1);
    if i + 1 < n { assert s[i + 1] == t[i + 1 + d]; }
    if w < n { assert s[w] == t[w + d]; }
  }

  lemma DollarElementCopies(s: string, lo: nat, i: nat, n: nat, t: string, d: int, esc: QuoteEscapes)
    requires Copied(s, lo, n, t, d) && lo <= i < n && s[i] == '$' && ElementAt(s, i, esc).end <= n
    ensures ElementAt(t, i + d, esc) == Element(ElementAt(s, i, esc).kind, ElementAt(s, i, esc).end + d)
  {
    hide *;
    LookaheadCopies(s, lo, i, n, t, d, '*');
    DollarElement(s, i, esc);
    if OpensTag(s, i) { TagBeforeEnd(s, i); }
    OpeningCopies(s, lo, i, n, t, d);
    DollarElement(t, i + d, esc);
    if OpensTag(s, i) {
      var body := TagEnd(s, i);
      TagEndCopies(s, i, t, i + d, d);
      TagIsText(s, i);
      SliceCopies(s, lo, i, body, n, t, d);
      DollarCopies(s, lo, body, n, t, d, s[i..body]);
    }
  }

  /** What a `$` reads as. */
  lemma DollarElement(s: string, i: nat, esc: QuoteEscapes)
    requires i < |s| && s[i] == '$'
    ensures OpensTag(s, i) ==>
              ElementAt(s, i, esc) == Element(DollarQuoted, DollarEnd(s, TagEnd(s, i), s[i..TagEnd(s, i)]))
    ensures !OpensTag(s, i) ==> ElementAt(s, i, esc) == Element(Plain, i + 1)
  {
    hide OpensTag, DollarEnd, TagEnd, QuotedEnd, LineEnd, BlockEnd;
  }

  lemma TagBeforeEnd(s: string, i: nat)
    requires i < |s| && OpensTag(s, i)
    ensures TagEnd(s, i) <= DollarEnd(s, TagEnd(s, i), s[i..TagEnd(s, i)])
  {
    hide DollarEnd;
  }

  lemma TagEndCopies(s: string, i: nat, t: string, j: nat, d: int)
    requires i < |s| && j < |t| && OpensTag(s, i) && OpensTag(t, j) && WordEnd(t, j + 1) == WordEnd(s, i + 1) + d
    ensures TagEnd(t, j) == TagEnd(s, i) + d
  {
    hide OpensTag, WordEnd;
  }

  lemma SliceCopies(s: string, lo: nat, i: nat, b: nat, n: nat, t: string, d: int)
    requires Copied(s, lo, n, t, d) && lo <= i <= b <= n
    ensures t[i + d..b + d] == s[i..b]
  {}

  lemma TagIsText(s: string, i: nat)
    requires i < |s| && s[i] == '$' && OpensTag(s, i)
    ensures TagText(s[i..TagEnd(s, i)])
  {
    var tag := s[i..TagEnd(s, i)];
    forall k | 0 <= k < |tag| ensures tag[k] == '$' || IsWord(tag[k]) { assert tag[k] == s[i + k]; }
  }

  lemma QuotedElementCopies(s: string, lo: nat, i: nat, n: nat, t: string, d: int, esc: QuoteEscapes)
    requires Copied(s, lo, n, t, d) && lo <= i < n && IsQuote(s[i]) && ElementAt(s, i, esc).end <= n
    ensures ElementAt(t, i + d, esc) == Element(ElementAt(s, i, esc).kind, ElementAt(s, i, esc).end + d)
  {
    QuotedCopies(s, lo, i + 1, n, t, d, s[i], esc);
    assert t[i + d] == s[i];
    hide Copied, QuotedEnd;
  }

  lemma BlockElementCopies(s: string, lo: nat, i: nat, n: nat, t: string, d: int, esc: QuoteEscapes)
    requires Copied(s, lo, n, t, d) && lo <= i < n && s[i] == '/' && i + 1 < |s| && s[i + 1] == '*'
    requires ElementAt(s, i, esc).end <= n
    ensures ElementAt(t, i + d, esc) == Element(ElementAt(s, i, esc).kind, ElementAt(s, i, esc).end + d)
  {
    LookaheadCopies(s, lo, i, n, t, d, '*');
    BlockCopies(s, lo, i + 2, n, t, d);
    hide Copied, BlockEnd;
  }

  /** A terminator or a plain character: what follows it makes it no comment in the copy either. */
  lemma CharacterCopies(s: string, lo: nat, i: nat, n: nat, t: string, d: int, esc: QuoteEscapes)
    requires Copied(s, lo, n, t, d) && lo <= i < n && s[i] != '$'
    requires ElementAt(s, i, esc).kind in {Terminator, Plain}
    ensures ElementAt(t, i + d, esc) == Element(ElementAt(s, i, esc).kind, i + 1 + d)
  {
    LookaheadCopies(s, lo, i, n, t, d, '*');
    if i + 1 < n { assert s[i + 1] == t[i + 1 + d]; }
    hide QuotedEnd, LineEnd, BlockEnd, DollarEnd, OpensTag;
  }

  lemma ElementCopies(s: string, lo: nat, i: nat, n: nat, t: string, d: int, esc: QuoteEscapes)
    requires Copied(s, lo, n, t, d) && lo <= i < n
    requires var e := ElementAt(s, i, esc); e.end <= n && e.kind != LineComment
    ensures ElementAt(t, i + d, esc) == Element(ElementAt(s, i, esc).kind, ElementAt(s, i, esc).end + d)
  {
    hide Copied, QuotedEnd, LineEnd, BlockEnd, DollarEnd, OpensTag;
    if IsQuote(s[i]) {
      QuotedElementCopies(s, lo, i, n, t, d, esc);
    } else if s[i] == '/' && i + 1 < |s| && s[i + 1] == '*' {
      BlockElementCopies(s, lo, i, n, t, d, esc);
    } else if s[i] == '$' {
      DollarElementCopies(s, lo, i, n, t, d, esc);
    } else {
      CharacterCopies(s, lo, i, n, t, d, esc);
    }
  }

  /** `t` ends like `s` from `lo` on, at distance `d`. */
  ghost predicate SameTail(s: string, lo: nat, t: string, d: int) {
    lo <= |s| && 0 <= lo + d && |s| + d == |t| && forall k {:trigger s[k]} :: lo <= k < |s| ==> s[k] == t[k + d]
  }

  lemma SameTailCopied(s: string, lo: nat, t: string, d: int)
    ensures SameTail(s, lo, t, d) <==> Copied(s, lo, |s|, t, d)
  {}

  lemma DropIsSameTail(u: string, d: nat, rest: string)
    requires d <= |u| && u[d..] == rest
    ensures SameTail(u, d, rest, -(d as int))
  {}

  lemma {:induction false} LineCopies(s: string, lo: nat, i: nat, t: string, d: int)
    requires SameTail(s, lo, t, d) && lo <= i <= |s|
    ensures 0 <= i + d <= |t| && LineEnd(t, i + d) == LineEnd(s, i) + d
    decreases |s| - i
  {
    if i < |s| && s[i] != '\n' { LineCopies(s, lo, i + 1, t, d); }
  }

  lemma NextCopies(s: string, lo: nat, i: nat, t: string, d: int, c: char)
    requires SameTail(s, lo, t, d) && lo <= i < |s|
    ensures t[i + d] == s[i]
    ensures i + 1 < |s| && s[i + 1] == c <==> i + d + 1 < |t| && t[i + d + 1] == c
  {
    if i + 1 < |s| { assert s[i + 1] == t[i + 1 + d]; }
  }
}
