/** From a position in the text to a token. */
module TokenLookup {
  import Lexis
  import opened Options
  import opened StatementLines
  import opened Tokenizer

  predicate Holds(t: Token, offset: nat) { t.start <= offset < t.end }

  /** The last token before `i` that is neither space nor comment. */
  method SkipBack(tokens: seq<Token>, i: nat) returns (r: Option<nat>)
    requires i <= |tokens|
    ensures r.Some? ==> r.value < i && !IsTrivia(tokens[r.value].kind)
                        && forall k :: r.value < k < i ==> IsTrivia(tokens[k].kind)
    ensures r.None? ==> forall k :: 0 <= k < i ==> IsTrivia(tokens[k].kind)
  {
    var j: nat := i;
    while j > 0
      invariant 0 <= j <= i && forall k :: j <= k < i ==> IsTrivia(tokens[k].kind)
    {
      j := j - 1;
      if !IsTrivia(tokens[j].kind) { return Some(j); }
    }
    r := None;
  }

  /** The first token after `i` that is neither space nor comment. */
  method SkipForward(tokens: seq<Token>, i: nat) returns (r: Option<nat>)
    ensures r.Some? ==> i < r.value < |tokens| && !IsTrivia(tokens[r.value].kind)
                        && forall k :: i < k < r.value ==> IsTrivia(tokens[k].kind)
    ensures r.None? ==> forall k :: i < k < |tokens| ==> IsTrivia(tokens[k].kind)
  {
    var j := i;
    while j + 1 < |tokens|
      invariant i <= j && forall k :: i < k <= j && k < |tokens| ==> IsTrivia(tokens[k].kind)
    {
      j := j + 1;
      if !IsTrivia(tokens[j].kind) { return Some(j); }
    }
    r := None;
  }

  /** How many tokens end at or before `offset`, by halving. */
  method PartitionPoint(tokens: seq<Token>, offset: nat) returns (lo: nat)
    requires forall j, k :: 0 <= j < k < |tokens| ==> tokens[j].end <= tokens[k].end
    ensures lo <= |tokens|
    ensures forall k :: 0 <= k < lo ==> tokens[k].end <= offset
    ensures forall k :: lo <= k < |tokens| ==> offset < tokens[k].end
  {
    lo := 0;
    var hi := |tokens|;
    while lo < hi
      invariant lo <= hi <= |tokens|
      invariant forall k :: 0 <= k < lo ==> tokens[k].end <= offset
      invariant forall k :: hi <= k < |tokens| ==> offset < tokens[k].end
    {
      var mid := (lo + hi) / 2;
      if tokens[mid].end <= offset { lo := mid + 1; } else { hi := mid; }
    }
  }

  /** The token that holds `offset`; past and between tokens the last significant one. */
  method FindTokenAtOffset(tokens: seq<Token>, offset: nat) returns (r: Option<nat>)
    requires exists n: nat :: TokensInOrder(tokens, 0, n)
    ensures r.Some? ==> r.value < |tokens|
    ensures (exists k :: 0 <= k < |tokens| && Holds(tokens[k], offset)) ==> r.Some? && Holds(tokens[r.value], offset)
    ensures (forall k :: 0 <= k < |tokens| ==> !Holds(tokens[k], offset)) ==>
              if r.Some? then
                !IsTrivia(tokens[r.value].kind) && forall k :: r.value < k < |tokens| ==> IsTrivia(tokens[k].kind)
              else forall k :: 0 <= k < |tokens| ==> IsTrivia(tokens[k].kind)
  {
    if tokens == [] { return None; }
    ghost var n: nat :| TokensInOrder(tokens, 0, n);
    forall j, k | 0 <= j < k < |tokens| ensures tokens[j].end <= tokens[k].start <= tokens[k].end {
      OrderedStarts(tokens, 0, n, j, k);
      OrderedStarts(tokens, 0, n, k, k);
    }
    var at := PartitionPoint(tokens, offset);
    if at < |tokens| && Holds(tokens[at], offset) { return Some(at); }
    // no token is empty, so a token that merely starts at `offset` has been found above
    r := SkipBack(tokens, |tokens|);
  }

  /** At most one token of a text holds a position. */
  lemma OneTokenHolds(s: string, esc: Lexis.QuoteEscapes, keywords: set<string>, offset: nat, j: nat, k: nat)
    requires var ts := Tokens(s, 0, esc, keywords);
             j < |ts| && k < |ts| && Holds(ts[j], offset) && Holds(ts[k], offset)
    ensures j == k
  {
    var ts := Tokens(s, 0, esc, keywords);
    TokensAreInOrder(s, 0, esc, keywords, 0);
    if j < k { OrderedStarts(ts, 0, |s|, j, k); }
    if k < j { OrderedStarts(ts, 0, |s|, k, j); }
  }
}
