/** The classifier's view of a statement: literals blanked to spaces, comments removed. */
module Blanker {
  import opened Text
  import opened Lexis

  function Spaces(n: nat): (r: string)
    ensures |r| == n && forall k :: 0 <= k < n ==> r[k] == ' '
  {
    seq(n, _ => ' ')
  }

  /** Is there a copy of the tag at or after `k`? */
  predicate TagCloses(s: string, k: nat, tag: string)
    decreases |s| - k
  {
    k + |tag| <= |s| && (TagAt(s, k, tag) || TagCloses(s, k + 1, tag))
  }

  predicate OpensClosedTag(s: string, i: nat)
    requires i < |s|
  {
    s[i] == '$' && OpensTag(s, i) && TagCloses(s, TagEnd(s, i), s[i..TagEnd(s, i)])
  }

  /** How far one turn of the blanking loop goes, and whether it blanks what it passes. */
  function BlankStep(s: string, i: nat, esc: QuoteEscapes): (r: (nat, bool))
    requires i < |s|
    ensures i < r.0 <= |s|
  {
    var c := s[i];
    if IsQuote(c) then (QuotedEnd(s, i + 1, c, esc), true)
    else if OpensClosedTag(s, i) then (DollarEnd(s, TagEnd(s, i), s[i..TagEnd(s, i)]), true)
    else (i + 1, false)
  }

  /** What one turn leaves in the buffer. */
  function Shown(s: string, i: nat, esc: QuoteEscapes): (r: string)
    requires i < |s|
    ensures |r| == BlankStep(s, i, esc).0 - i
  {
    var (j, blanks) := BlankStep(s, i, esc);
    if blanks then Spaces(j - i) else [s[i]]
  }

  function Blank(s: string, i: nat, esc: QuoteEscapes): (r: string)
    requires i <= |s|
    ensures |r| == |s| - i
    decreases |s| - i
  {
    if i == |s| then "" else Shown(s, i, esc) + Blank(s, BlankStep(s, i, esc).0, esc)
  }

  lemma BlankTurn(s: string, i: nat, esc: QuoteEscapes)
    requires i < |s|
    ensures Blank(s, i, esc) == Shown(s, i, esc) + Blank(s, BlankStep(s, i, esc).0, esc)
  {
    hide BlankStep, Shown;
  }

  /** Does the blanking loop, from `i`, stand at `p` at some turn? */
  ghost predicate Reaches(s: string, i: nat, p: nat, esc: QuoteEscapes)
    requires p <= |s|
    decreases |s| - i
  {
    i == p || (i < p && BlankStep(s, i, esc).0 <= p && Reaches(s, BlankStep(s, i, esc).0, p, esc))
  }

  /** What blanking makes of the text up to `p`. */
  ghost function Before(s: string, i: nat, p: nat, esc: QuoteEscapes): string
    requires p <= |s| && Reaches(s, i, p, esc)
    decreases |s| - i
  {
    if i == p then "" else Shown(s, i, esc) + Before(s, BlankStep(s, i, esc).0, p, esc)
  }

  lemma {:induction false} BlankSplits(s: string, i: nat, p: nat, esc: QuoteEscapes)
    requires p <= |s| && Reaches(s, i, p, esc)
    ensures Blank(s, i, esc) == Before(s, i, p, esc) + Blank(s, p, esc)
    decreases |s| - i
  {
    hide BlankStep, Shown;
    if i < p {
      var j := BlankStep(s, i, esc).0;
      BlankSplits(s, j, p, esc);
      Regroup(Shown(s, i, esc), Before(s, j, p, esc), Blank(s, p, esc));
    }
  }

  /** How far one turn of the comment-removing loop goes, and what it writes. */
  function CommentStep(s: string, i: nat): (r: (nat, string))
    requires i < |s|
    ensures i < r.0 <= |s|
  {
    var next := if i + 1 < |s| then s[i + 1] else ' ';
    if s[i] == '-' && next == '-' then
      var nl := LineEnd(s, i + 2);
      if nl < |s| then (nl + 1, "\n") else (nl, "")
    else if s[i] == '/' && next == '*' then (BlockEnd(s, i + 2), " ")
    else (i + 1, [s[i]])
  }

  /** `s` with its comments removed, from `i` on. */
  function Uncommented(s: string, i: nat): string
    requires i <= |s|
    decreases |s| - i
  {
    if i == |s| then "" else var (j, out) := CommentStep(s, i); out + Uncommented(s, j)
  }

  /** The classifier's view of a statement. */
  function CodeView(stmt: string, esc: QuoteEscapes): string { Uncommented(Blank(stmt, 0, esc), 0) }

  // ----- The loops -----

  /** Step over a literal; a trailing escape may overshoot the text by one, as in the source. */
  method PassQuoted(s: string, start: nat, esc: QuoteEscapes) returns (i: nat)
    requires start < |s| && s[start] != '\\'
    ensures (if i <= |s| then i else |s|) == QuotedEnd(s, start + 1, s[start], esc)
    ensures i <= |s| + 1
  {
    var c := s[start];
    i := start + 1;
    while i < |s|
      invariant i <= |s| + 1
      invariant i <= |s| ==> QuotedEnd(s, i, c, esc) == QuotedEnd(s, start + 1, c, esc)
      invariant i > |s| ==> QuotedEnd(s, start + 1, c, esc) == |s|
      decreases |s| + 1 - i
    {
      if s[i] == '\\' && esc.Backslash? {
        i := i + 2;
      } else if s[i] == c {
        if i + 1 < |s| && s[i + 1] == c {
          i := i + 2;
        } else {
          i := i + 1;
          break;
        }
      } else {
        i := i + 1;
      }
    }
  }

  /** `closed` says whether the `$` at `i` opens a quote that closes, and `end` where. */
  method FindDollarQuote(s: string, i: nat) returns (closed: bool, end: nat)
    requires i < |s| && s[i] == '$'
    ensures closed <==> OpensClosedTag(s, i)
    ensures closed ==> end == BlankStep(s, i, Standard).0
  {
    closed, end := false, i;
    var j := i + 1;
    if j < |s| && s[j] != '$' {
      if !(IsAlpha(s[j]) || s[j] == '_') { return; }
      while j < |s| && IsWord(s[j])
        invariant i < j <= |s| && WordEnd(s, j) == WordEnd(s, i + 1)
      {
        j := j + 1;
      }
    }
    if !(j < |s| && s[j] == '$') { return; }
    closed, end := FindClosingTag(s, j + 1, s[i..j + 1]);
  }

  method FindClosingTag(s: string, body: nat, tag: string) returns (closed: bool, end: nat)
    requires body <= |s| && tag != ""
    ensures closed <==> TagCloses(s, body, tag)
    ensures closed ==> end == DollarEnd(s, body, tag)
  {
    var k := body;
    while k + |tag| <= |s|
      invariant body <= k <= |s|
      invariant TagCloses(s, k, tag) == TagCloses(s, body, tag)
      invariant DollarEnd(s, k, tag) == DollarEnd(s, body, tag)
      decreases |s| - k
    {
      if s[k..k + |tag|] == tag { return true, k + |tag|; }
      k := k + 1;
    }
    closed, end := false, k;
  }

  /** The output buffer starts blank, and only characters outside literals are written to it. */
  method BlankStringLiterals(s: string, esc: QuoteEscapes) returns (r: string)
    ensures r == Blank(s, 0, esc)
  {
    hide Blank, BlankStep, Shown;
    var out := new char[|s|](_ => ' ');
    var i := 0;
    while i < |s|
      invariant i <= |s| && SpacesFrom(out[..], i)
      invariant out[..i] + Blank(s, i, esc) == Blank(s, 0, esc)
    {
      BlankTurn(s, i, esc);
      Regroup(out[..i], Shown(s, i, esc), Blank(s, BlankStep(s, i, esc).0, esc));
      var end := BlankOne(s, i, esc, out);
      i := end;
    }
    assert out[..|s|] + "" == out[..];
    return out[..];
  }

  ghost predicate SpacesFrom(b: string, i: nat) { forall k :: i <= k < |b| ==> b[k] == ' ' }

  /** One turn of the loop: only a character outside every literal is written. */
  method BlankOne(s: string, i: nat, esc: QuoteEscapes, out: array<char>) returns (end: nat)
    requires i < |s| == out.Length && SpacesFrom(out[..], i)
    modifies out
    ensures end == BlankStep(s, i, esc).0
    ensures out[..end] == old(out[..i]) + Shown(s, i, esc) && SpacesFrom(out[..], end)
  {
    var c := s[i];
    hide Blank, QuotedEnd, OpensTag, TagCloses, DollarEnd;
    if IsQuote(c) {
      end := PassQuoted(s, i, esc);
      end := if end <= |s| then end else |s|;
      SpacesGrow(out[..], i, end);
      return;
    } else if c == '$' {
      var closed;
      closed, end := FindDollarQuote(s, i);
      if closed {
        SpacesGrow(out[..], i, end);
        return;
      }
    }
    out[i] := c;
    end := i + 1;
    assert out[..end] == old(out[..i]) + [c];
  }

  lemma SpacesGrow(b: string, i: nat, end: nat)
    requires i <= end <= |b| && SpacesFrom(b, i)
    ensures b[..end] == b[..i] + Spaces(end - i) && SpacesFrom(b, end)
  {}

  method PassLineComment(s: string, start: nat) returns (i: nat)
    requires start <= |s|
    ensures i == LineEnd(s, start)
  {
    i := start;
    while i < |s| && s[i] != '\n'
      invariant start <= i <= |s| && LineEnd(s, i) == LineEnd(s, start)
    {
      i := i + 1;
    }
  }

  method PassBlockComment(s: string, start: nat) returns (i: nat)
    requires start <= |s|
    ensures i == BlockEnd(s, start)
  {
    i := start;
    while i < |s|
      invariant start <= i <= |s| && BlockEnd(s, i) == BlockEnd(s, start)
    {
      var ch := s[i];
      i := i + 1;
      if ch == '*' && i < |s| && s[i] == '/' { return i + 1; }
    }
  }

  method RemoveComments(s: string) returns (out: string)
    ensures out == Uncommented(s, 0)
  {
    out := "";
    var i := 0;
    while i < |s|
      invariant i <= |s|
      invariant out + Uncommented(s, i) == Uncommented(s, 0)
    {
      var c := s[i];
      if c == '-' && i + 1 < |s| && s[i + 1] == '-' {
        i := PassLineComment(s, i + 2);
        if i < |s| {
          Regroup(out, "\n", Uncommented(s, i + 1));
          out := out + "\n";
          i := i + 1;
        } else {
          assert "" + Uncommented(s, i) == "";
        }
      } else if c == '/' && i + 1 < |s| && s[i + 1] == '*' {
        i := PassBlockComment(s, i + 2);
        Regroup(out, " ", Uncommented(s, i));
        out := out + " ";
      } else {
        Regroup(out, [c], Uncommented(s, i + 1));
        out := out + [c];
        i := i + 1;
      }
    }
  }

  // ----- Blanking twice -----

  /** What blanking leaves at `k`: no quote, no closed dollar quote, nothing that was not there. */
  ghost predicate Harmless(s: string, want: string, k: nat)
    requires k < |s| && k < |want|
  {
    !IsQuote(want[k]) && (want[k] == s[k] || want[k] == ' ') && (want[k] == '$' ==> !OpensClosedTag(s, k))
  }

  lemma {:induction false} BlankIsHarmless(s: string, i: nat, esc: QuoteEscapes, want: string, k: nat)
    requires i <= k < |s| == |want| && want[i..] == Blank(s, i, esc)
    ensures Harmless(s, want, k)
    decreases |s| - i
  {
    var (j, blanks) := BlankStep(s, i, esc);
    if j <= k { BlankIsHarmless(s, j, esc, want, k); } else if !blanks { assert k == i; }
  }

  lemma {:induction false} TagClosesAt(s: string, k: nat, j: nat, tag: string)
    requires k <= j && TagAt(s, j, tag)
    ensures TagCloses(s, k, tag)
    decreases j - k
  {
    if k < j { TagClosesAt(s, k + 1, j, tag); }
  }

  lemma {:induction false} ClosingTagAt(s: string, k: nat, tag: string) returns (j: nat)
    requires TagCloses(s, k, tag)
    ensures k <= j && TagAt(s, j, tag)
    decreases |s| - k
  {
    if TagAt(s, k, tag) { j := k; } else { j := ClosingTagAt(s, k + 1, tag); }
  }

  /** A dollar quote that closes in the blanked text was there, and closed, in the original. */
  lemma NoClosedTagLeft(s: string, want: string, k: nat)
    requires k < |s| == |want| && forall j :: 0 <= j < |s| ==> Harmless(s, want, j)
    ensures !OpensClosedTag(want, k)
  {
    assert Harmless(s, want, k);
    if OpensClosedTag(want, k) {
      var body := TagEnd(want, k);
      var tag := want[k..body];
      SameOpening(s, want, k);
      var j := ClosingTagAt(want, body, tag);
      SameTag(s, want, k, j);
      TagClosesAt(s, body, j, tag);
      assert false;
    }
  }

  lemma SameOpening(s: string, want: string, k: nat)
    requires k < |s| == |want| && forall j :: 0 <= j < |s| ==> Harmless(s, want, j)
    requires want[k] == '$' && OpensTag(want, k)
    ensures s[k] == '$' && OpensTag(s, k) && TagEnd(s, k) == TagEnd(want, k)
    ensures s[k..TagEnd(want, k)] == want[k..TagEnd(want, k)]
  {
    var w := WordEnd(want, k + 1);
    forall j | k <= j <= w ensures s[j] == want[j] { assert Harmless(s, want, j); }
  }

  lemma SameTag(s: string, want: string, k: nat, j: nat)
    requires k < |s| == |want| && forall x :: 0 <= x < |s| ==> Harmless(s, want, x)
    requires want[k] == '$' && OpensTag(want, k) && TagAt(want, j, want[k..TagEnd(want, k)])
    ensures TagAt(s, j, want[k..TagEnd(want, k)])
  {
    var tag := want[k..TagEnd(want, k)];
    forall x | j <= x < j + |tag| ensures s[x] == want[x] {
      assert Harmless(s, want, x);
      assert want[x] == want[j..j + |tag|][x - j] == tag[x - j] == want[k + (x - j)];
    }
  }

  lemma {:induction false} NothingToBlank(b: string, i: nat, esc: QuoteEscapes)
    requires i <= |b| && forall k :: i <= k < |b| ==> !IsQuote(b[k]) && !OpensClosedTag(b, k)
    ensures Blank(b, i, esc) == b[i..]
    decreases |b| - i
  {
    if i < |b| {
      NothingToBlank(b, i + 1, esc);
      assert BlankStep(b, i, esc) == (i + 1, false);
      assert b[i..] == [b[i]] + b[i + 1..];
    }
  }

  /** Blanking keeps the length, and blanking a blanked text changes nothing. */
  lemma BlankIsIdempotent(s: string, esc: QuoteEscapes)
    ensures |Blank(s, 0, esc)| == |s|
    ensures Blank(Blank(s, 0, esc), 0, esc) == Blank(s, 0, esc)
  {
    var want := Blank(s, 0, esc);
    forall k | 0 <= k < |s| ensures Harmless(s, want, k) { BlankIsHarmless(s, 0, esc, want, k); }
    forall k | 0 <= k < |s| ensures !IsQuote(want[k]) && !OpensClosedTag(want, k) {
      assert Harmless(s, want, k);
      NoClosedTagLeft(s, want, k);
    }
    NothingToBlank(want, 0, esc);
  }
}
