/** What the splitter keeps of a text, on the text and its cuts. */
module SplitMeaning {
  import opened Lexis
  import opened Splitter
  import opened Text

  // ----- The text without its line comments -----

  /** Is position `k` in a line comment? Its newline is not. */
  predicate InLineComment(s: string, i: nat, esc: QuoteEscapes, k: nat)
    decreases |s| - i
  {
    i <= k < |s| &&
    var e := ElementAt(s, i, esc);
    if k < e.end then e.kind == LineComment && s[k] != '\n' else InLineComment(s, e.end, esc, k)
  }

  /** The characters from `lo` to `hi` that are in no line comment. */
  function Between(s: string, lo: nat, hi: nat, esc: QuoteEscapes): string
    requires hi <= |s|
    decreases hi - lo
  {
    if lo >= hi then "" else (if InLineComment(s, 0, esc, lo) then "" else [s[lo]]) + Between(s, lo + 1, hi, esc)
  }

  predicate Within(cuts: seq<nat>, n: nat) { forall k :: 0 <= k < |cuts| ==> cuts[k] < n }

  /** The text from `lo` on, piece by piece between the cuts. */
  function Stretches(s: string, lo: nat, cuts: seq<nat>, esc: QuoteEscapes): seq<string>
    requires Within(cuts, |s|)
    decreases |cuts|
  {
    if cuts == [] then [Between(s, lo, |s|, esc)]
    else [Between(s, lo, cuts[0], esc)] + Stretches(s, cuts[0] + 1, cuts[1..], esc)
  }

  /** The parts that are not blank, trimmed. */
  function NotBlank(parts: seq<string>): seq<string> {
    if parts == [] then [] else (if Trim(parts[0]) == "" then [] else [Trim(parts[0])]) + NotBlank(parts[1..])
  }

  lemma {:induction false} CutsLie(s: string, i: nat, esc: QuoteEscapes)
    requires i <= |s|
    ensures Within(Cuts(s, i, esc), |s|) && forall k :: 0 <= k < |Cuts(s, i, esc)| ==> i <= Cuts(s, i, esc)[k]
    decreases |s| - i
  {
    hide ElementAt;
    if i < |s| { CutsLie(s, ElementAt(s, i, esc).end, esc); }
  }

  // ----- The pieces are the stretches -----

  /** From `i` on the reading that starts there says where the line comments are. */
  ghost predicate InStep(s: string, i: nat, esc: QuoteEscapes) {
    i <= |s| && forall k :: i <= k ==> (InLineComment(s, 0, esc, k) <==> InLineComment(s, i, esc, k))
  }

  lemma StepsOn(s: string, i: nat, esc: QuoteEscapes)
    requires InStep(s, i, esc) && i < |s|
    ensures var e := ElementAt(s, i, esc);
            && InStep(s, e.end, esc)
            && forall k :: i <= k < e.end ==> (InLineComment(s, 0, esc, k) <==> e.kind == LineComment && s[k] != '\n')
  {
    hide ElementAt;
    var e := ElementAt(s, i, esc);
    forall k | e.end <= k ensures InLineComment(s, 0, esc, k) <==> InLineComment(s, e.end, esc, k) {
      assert InLineComment(s, 0, esc, k) <==> InLineComment(s, i, esc, k);
    }
    forall k | i <= k < e.end ensures InLineComment(s, 0, esc, k) <==> e.kind == LineComment && s[k] != '\n' {
      assert InLineComment(s, 0, esc, k) <==> InLineComment(s, i, esc, k);
    }
  }

  lemma {:induction false} BetweenAdds(s: string, lo: nat, m: nat, hi: nat, esc: QuoteEscapes)
    requires lo <= m <= hi <= |s|
    ensures Between(s, lo, hi, esc) == Between(s, lo, m, esc) + Between(s, m, hi, esc)
    decreases m - lo
  {
    hide InLineComment;
    if lo < m {
      BetweenAdds(s, lo + 1, m, hi, esc);
      Regroup(if InLineComment(s, 0, esc, lo) then "" else [s[lo]], Between(s, lo + 1, m, esc), Between(s, m, hi, esc));
    } else {
      assert Between(s, lo, m, esc) == "";
    }
  }

  lemma {:induction false} BetweenAll(s: string, lo: nat, hi: nat, esc: QuoteEscapes)
    requires lo <= hi <= |s| && forall k :: lo <= k < hi ==> !InLineComment(s, 0, esc, k)
    ensures Between(s, lo, hi, esc) == s[lo..hi]
    decreases hi - lo
  {
    hide InLineComment;
    if lo < hi {
      BetweenAll(s, lo + 1, hi, esc);
      assert s[lo..hi] == [s[lo]] + s[lo + 1..hi];
    }
  }

  lemma {:induction false} BetweenNone(s: string, lo: nat, hi: nat, esc: QuoteEscapes)
    requires lo <= hi <= |s| && forall k :: lo <= k < hi ==> InLineComment(s, 0, esc, k)
    ensures Between(s, lo, hi, esc) == ""
    decreases hi - lo
  {
    hide InLineComment;
    if lo < hi { BetweenNone(s, lo + 1, hi, esc); }
  }

  lemma LineCommentIs(s: string, i: nat, esc: QuoteEscapes)
    requires i < |s| && ElementAt(s, i, esc).kind == LineComment
    ensures var e := ElementAt(s, i, esc); forall k :: i <= k < e.end - 1 ==> s[k] != '\n'
  {
    LineIsFree(s, i + 2);
    hide QuotedEnd, BlockEnd, DollarEnd, OpensTag;
  }

  /** What is kept of an element is what of it stands in no line comment. */
  lemma KeptIsBetween(s: string, i: nat, esc: QuoteEscapes)
    requires InStep(s, i, esc) && i < |s|
    ensures var e := ElementAt(s, i, esc); Between(s, i, e.end, esc) == Kept(s, i, e)
  {
    hide ElementAt, InLineComment, Between, InStep;
    StepsOn(s, i, esc);
    var e := ElementAt(s, i, esc);
    if e.kind == LineComment {
      LineCommentIs(s, i, esc);
      BetweenNone(s, i, e.end - 1, esc);
      BetweenAdds(s, i, e.end - 1, e.end, esc);
      if s[e.end - 1] == '\n' {
        BetweenAll(s, e.end - 1, e.end, esc);
        assert s[e.end - 1..e.end] == "\n";
      } else {
        BetweenNone(s, e.end - 1, e.end, esc);
      }
    } else {
      BetweenAll(s, i, e.end, esc);
    }
  }

  function Prefixed(head: string, parts: seq<string>): seq<string>
    requires parts != []
  {
    [head + parts[0]] + parts[1..]
  }

  lemma StretchGrows(s: string, i: nat, m: nat, cuts: seq<nat>, esc: QuoteEscapes, head: string)
    requires Within(cuts, |s|) && i <= m <= |s| && (cuts != [] ==> m <= cuts[0])
    ensures Prefixed(head, Stretches(s, i, cuts, esc))
            == Prefixed(head + Between(s, i, m, esc), Stretches(s, m, cuts, esc))
  {
    hide Between;
    var hi := if cuts == [] then |s| else cuts[0];
    BetweenAdds(s, i, m, hi, esc);
    Regroup(head, Between(s, i, m, esc), Between(s, m, hi, esc));
    var rest := if cuts == [] then [] else Stretches(s, cuts[0] + 1, cuts[1..], esc);
    assert Stretches(s, i, cuts, esc) == [Between(s, i, hi, esc)] + rest;
    assert Stretches(s, m, cuts, esc) == [Between(s, m, hi, esc)] + rest;
  }

  lemma NotBlankFirst(part: string, rest: seq<string>)
    ensures NotBlank([part] + rest) == Flush(part) + NotBlank(rest)
  {
    hide Trim;
    assert ([part] + rest)[1..] == rest;
  }

  lemma StretchEnds(s: string, i: nat, rest: seq<nat>, esc: QuoteEscapes, current: string)
    requires i < |s| && Within([i] + rest, |s|) && Within(rest, |s|)
    ensures NotBlank(Prefixed(current, Stretches(s, i, [i] + rest, esc)))
            == Flush(current) + NotBlank(Prefixed("", Stretches(s, i + 1, rest, esc)))
  {
    hide Flush, NotBlank, Between;
    var parts := Stretches(s, i + 1, rest, esc);
    assert ([i] + rest)[1..] == rest;
    assert Between(s, i, i, esc) == "" by { NothingBetween(s, i, esc); }
    assert Stretches(s, i, [i] + rest, esc) == [""] + parts;
    assert current + "" == current;
    assert Prefixed(current, [""] + parts) == [current] + parts;
    NotBlankFirst(current, parts);
    assert Prefixed("", parts) == parts by { assert "" + parts[0] == parts[0]; }
  }

  lemma NothingBetween(s: string, i: nat, esc: QuoteEscapes)
    requires i <= |s|
    ensures Between(s, i, i, esc) == ""
  {
  }

  lemma AtTheEnd(s: string, esc: QuoteEscapes, current: string)
    ensures Cuts(s, |s|, esc) == []
    ensures NotBlank(Prefixed(current, Stretches(s, |s|, [], esc))) == Flush(current)
  {
    assert Stretches(s, |s|, [], esc) == [""];
    assert current + "" == current;
    assert Prefixed(current, [""]) == [current] + [];
    NotBlankFirst(current, []);
    assert Flush(current) + [] == Flush(current);
  }

  lemma {:induction false} PiecesAre(s: string, i: nat, esc: QuoteEscapes, current: string)
    requires InStep(s, i, esc) && i <= |s| && Within(Cuts(s, i, esc), |s|)
    ensures Pieces(s, i, esc, current) == NotBlank(Prefixed(current, Stretches(s, i, Cuts(s, i, esc), esc)))
    decreases |s| - i
  {
    hide *;
    if i == |s| {
      LastPiece(s, esc, current);
      AtTheEnd(s, esc, current);
      assert Flush(current) + [] == Flush(current);
    } else {
      var e := ElementAt(s, i, esc);
      StepsOn(s, i, esc);
      CutsLie(s, e.end, esc);
      IsTerminatorIff(s, i, esc);
      if s[i] == ';' {
        TerminatorPiece(s, i, esc, current);
        PiecesAre(s, i + 1, esc, "");
        StretchEnds(s, i, Cuts(s, i + 1, esc), esc, current);
      } else {
        ElementPiece(s, i, esc, current);
        KeptIsBetween(s, i, esc);
        PiecesAre(s, e.end, esc, current + Kept(s, i, e));
        StretchGrows(s, i, e.end, Cuts(s, e.end, esc), esc, current);
      }
    }
  }

  lemma IsTerminatorIff(s: string, i: nat, esc: QuoteEscapes)
    requires i < |s|
    ensures s[i] == ';' <==> ElementAt(s, i, esc).kind == Terminator
    ensures s[i] == ';' ==> ElementAt(s, i, esc).end == i + 1
  {
    hide QuotedEnd, LineEnd, BlockEnd, DollarEnd, OpensTag;
  }

  /**
   For every text and both modes: the statements are the stretches between the cuts, line comments left
   out up to their newline, trimmed; blank ones are left out, and no other.
   */
  lemma StatementsAre(s: string, esc: QuoteEscapes)
    ensures Within(Cuts(s, 0, esc), |s|)
    ensures Statements(s, esc) == NotBlank(Stretches(s, 0, Cuts(s, 0, esc), esc))
  {
    hide Pieces, InLineComment, NotBlank, Between;
    CutsLie(s, 0, esc);
    PiecesAre(s, 0, esc, "");
    var parts := Stretches(s, 0, Cuts(s, 0, esc), esc);
    assert "" + parts[0] == parts[0];
    assert Prefixed("", parts) == parts;
  }

  // ----- Where it cuts -----

  /** The kind of the element that position `k` belongs to. */
  function KindAt(s: string, i: nat, esc: QuoteEscapes, k: nat): ElementKind
    requires i <= k < |s|
    decreases |s| - i
  {
    var e := ElementAt(s, i, esc);
    if k < e.end then e.kind else KindAt(s, e.end, esc, k)
  }

  /** Is `k` a semicolon outside every literal and comment, going by the elements from `i` on? */
  predicate CutsAt(s: string, i: nat, esc: QuoteEscapes, k: nat)
    requires i <= k < |s|
  {
    s[k] == ';' && !(KindAt(s, i, esc, k) in {Quoted, DollarQuoted, LineComment, BlockComment})
  }

  lemma CutHere(s: string, i: nat, esc: QuoteEscapes, k: nat)
    requires i <= k < |s|
    ensures var e := ElementAt(s, i, esc);
            if k < e.end then CutsAt(s, i, esc, k) <==> e.kind == Terminator && k == i
            else CutsAt(s, i, esc, k) <==> CutsAt(s, e.end, esc, k)
  {
    IsTerminatorIff(s, i, esc);
    PlainIsOne(s, i, esc);
    hide ElementAt;
  }

  lemma {:induction false} CutsFrom(s: string, i: nat, esc: QuoteEscapes, k: nat)
    requires i <= k < |s|
    ensures k in Cuts(s, i, esc) <==> CutsAt(s, i, esc, k)
    decreases |s| - i
  {
    hide *;
    var e := ElementAt(s, i, esc);
    CutHere(s, i, esc, k);
    CutsTurn(s, i, esc);
    CutsLie(s, e.end, esc);
    NotBefore(Cuts(s, e.end, esc), e.end, k);
    if k >= e.end { CutsFrom(s, e.end, esc, k); }
  }

  lemma NotBefore(cuts: seq<nat>, n: nat, k: nat)
    requires forall a :: 0 <= a < |cuts| ==> n <= cuts[a]
    ensures k < n ==> k !in cuts
  {
  }

  lemma PlainIsOne(s: string, i: nat, esc: QuoteEscapes)
    requires i < |s|
    ensures var e := ElementAt(s, i, esc); e.kind == Plain || e.kind == Terminator ==> e.end == i + 1
  {
    hide QuotedEnd, LineEnd, BlockEnd, DollarEnd, OpensTag;
  }

  ghost predicate Ascending(cuts: seq<nat>) { forall a, b :: 0 <= a < b < |cuts| ==> cuts[a] < cuts[b] }

  lemma ConsAscends(c: nat, rest: seq<nat>)
    requires Ascending(rest) && forall k :: 0 <= k < |rest| ==> c < rest[k]
    ensures Ascending([c] + rest)
  {
    var all := [c] + rest;
    forall a, b | 0 <= a < b < |all| ensures all[a] < all[b] {
      assert all[b] == rest[b - 1] && (a > 0 ==> all[a] == rest[a - 1]);
    }
  }

  lemma CutsTurn(s: string, i: nat, esc: QuoteEscapes)
    requires i < |s|
    ensures var rest := Cuts(s, ElementAt(s, i, esc).end, esc);
            Cuts(s, i, esc) == if ElementAt(s, i, esc).kind == Terminator then [i] + rest else rest
  {
    hide ElementAt;
    var rest := Cuts(s, ElementAt(s, i, esc).end, esc);
    assert [] + rest == rest;
  }

  lemma {:induction false} CutsAscend(s: string, i: nat, esc: QuoteEscapes)
    requires i <= |s|
    ensures Ascending(Cuts(s, i, esc))
    decreases |s| - i
  {
    hide ElementAt, Cuts, Ascending;
    if i < |s| {
      var e := ElementAt(s, i, esc);
      CutsAscend(s, e.end, esc);
      CutsLie(s, e.end, esc);
      CutsTurn(s, i, esc);
      if e.kind == Terminator { ConsAscends(i, Cuts(s, e.end, esc)); }
    } else {
      NoCuts(s, esc);
    }
  }

  lemma NoCuts(s: string, esc: QuoteEscapes)
    ensures Cuts(s, |s|, esc) == [] && Ascending(Cuts(s, |s|, esc))
  {
  }

  /** The cuts are exactly the semicolons outside every literal and comment, in order. */
  lemma CutsAre(s: string, esc: QuoteEscapes)
    ensures forall k :: 0 <= k < |s| ==>
              (k in Cuts(s, 0, esc)
               <==> s[k] == ';' && !(KindAt(s, 0, esc, k) in {Quoted, DollarQuoted, LineComment, BlockComment}))
    ensures Ascending(Cuts(s, 0, esc)) && Within(Cuts(s, 0, esc), |s|)
  {
    hide Cuts, KindAt, Ascending, Within;
    CutsAscend(s, 0, esc);
    CutsLie(s, 0, esc);
    forall k | 0 <= k < |s| ensures k in Cuts(s, 0, esc) <==> CutsAt(s, 0, esc, k) { CutsFrom(s, 0, esc, k); }
  }

  // ----- Nothing but spaces and comments is lost -----

  /** The characters that are no spaces. */
  function Solid(s: string): string {
    if s == "" then "" else (if IsSpace(s[0]) then "" else [s[0]]) + Solid(s[1..])
  }

  function AllOf(parts: seq<string>): string {
    if parts == [] then "" else parts[0] + AllOf(parts[1..])
  }

  /** The characters of `s` from `lo` on that are no spaces, no terminators, and in no line comment. */
  function SolidOutside(s: string, lo: nat, cuts: seq<nat>, esc: QuoteEscapes): string
    decreases |s| - lo
  {
    if lo >= |s| then ""
    else
      (if IsSpace(s[lo]) || InLineComment(s, 0, esc, lo) || lo in cuts then "" else [s[lo]])
      + SolidOutside(s, lo + 1, cuts, esc)
  }

  lemma {:induction false} SolidAdds(a: string, b: string)
    ensures Solid(a + b) == Solid(a) + Solid(b)
  {
    if a == "" {
      assert a + b == b;
    } else {
      SolidAdds(a[1..], b);
      assert (a + b)[1..] == a[1..] + b;
      Regroup(if IsSpace(a[0]) then "" else [a[0]], Solid(a[1..]), Solid(b));
    }
  }

  lemma {:induction false} SpacesAreNotSolid(s: string)
    requires AllSpaces(s, 0, |s|)
    ensures Solid(s) == ""
  {
    if s != "" { SpacesAreNotSolid(s[1..]); }
  }

  lemma TrimKeepsSolid(s: string)
    ensures Solid(Trim(s)) == Solid(s)
  {
    hide Trim, Solid, AllSpaces, IsSpace;
    TrimMeans(s);
    var i, j :| 0 <= i <= j <= |s| && Trim(s) == s[i..j] && AllSpaces(s, 0, i) && AllSpaces(s, j, |s|);
    SolidOfParts(s, i, j);
  }

  lemma SolidOfParts(s: string, i: nat, j: nat)
    requires i <= j <= |s| && AllSpaces(s, 0, i) && AllSpaces(s, j, |s|)
    ensures Solid(s[i..j]) == Solid(s)
  {
    var a, b := s[..i], s[j..];
    EndsAreSpaces(s, i, j);
    hide *;
    SpacesAreNotSolid(a);
    SpacesAreNotSolid(b);
    ThreeParts(s, i, j);
    SolidAdds(a, s[i..j]);
    SolidAdds(a + s[i..j], b);
    assert "" + Solid(s[i..j]) + "" == Solid(s[i..j]);
  }

  lemma EndsAreSpaces(s: string, i: nat, j: nat)
    requires i <= j <= |s| && AllSpaces(s, 0, i) && AllSpaces(s, j, |s|)
    ensures AllSpaces(s[..i], 0, |s[..i]|) && AllSpaces(s[j..], 0, |s[j..]|)
  {
    hide IsSpace;
    assert forall k :: 0 <= k < |s| - j ==> s[j..][k] == s[j + k];
  }

  lemma ThreeParts(s: string, i: nat, j: nat)
    requires i <= j <= |s|
    ensures s == (s[..i] + s[i..j]) + s[j..]
  {
  }

  lemma {:induction false} NotBlankKeepsSolid(parts: seq<string>)
    ensures Solid(AllOf(NotBlank(parts))) == Solid(AllOf(parts))
  {
    hide Trim, Solid;
    if parts != [] {
      NotBlankKeepsSolid(parts[1..]);
      TrimKeepsSolid(parts[0]);
      SolidAdds(parts[0], AllOf(parts[1..]));
      var rest := NotBlank(parts[1..]);
      if Trim(parts[0]) != "" {
        SolidAdds(Trim(parts[0]), AllOf(rest));
        assert ([Trim(parts[0])] + rest)[1..] == rest;
      } else {
        NothingSolid();
        assert [] + rest == rest;
      }
    }
  }

  lemma NothingSolid()
    ensures Solid("") == ""
  {
  }

  lemma SolidStep(s: string, lo: nat, hi: nat, cuts: seq<nat>, esc: QuoteEscapes)
    requires lo < hi <= |s| && lo !in cuts
    ensures var head := if InLineComment(s, 0, esc, lo) then "" else [s[lo]];
            && SolidOutside(s, lo, cuts, esc) == Solid(head) + SolidOutside(s, lo + 1, cuts, esc)
            && Solid(Between(s, lo, hi, esc)) == Solid(head) + Solid(Between(s, lo + 1, hi, esc))
  {
    hide InLineComment, IsSpace, Solid;
    var head := if InLineComment(s, 0, esc, lo) then "" else [s[lo]];
    SolidAdds(head, Between(s, lo + 1, hi, esc));
    OneSolid(s[lo]);
    NothingSolid();
  }

  lemma {:induction false} StretchSolid(s: string, lo: nat, hi: nat, cuts: seq<nat>, esc: QuoteEscapes)
    requires lo <= hi <= |s| && forall k :: lo <= k < hi ==> k !in cuts
    ensures SolidOutside(s, lo, cuts, esc) == Solid(Between(s, lo, hi, esc)) + SolidOutside(s, hi, cuts, esc)
    decreases hi - lo
  {
    hide *;
    if lo < hi {
      StretchSolid(s, lo + 1, hi, cuts, esc);
      SolidStep(s, lo, hi, cuts, esc);
      var head := if InLineComment(s, 0, esc, lo) then "" else [s[lo]];
      Regroup(Solid(head), Solid(Between(s, lo + 1, hi, esc)), SolidOutside(s, hi, cuts, esc));
    } else {
      NothingBetween(s, lo, esc);
      NothingSolid();
      assert "" + SolidOutside(s, lo, cuts, esc) == SolidOutside(s, lo, cuts, esc);
    }
  }

  lemma OneSolid(c: char)
    ensures Solid([c]) == if IsSpace(c) then "" else [c]
  {
    assert [c][1..] == "";
  }

  lemma BetweenCuts(cuts: seq<nat>, n: nat, k: nat)
    requires n <= |cuts| && Ascending(cuts)
    requires (n < |cuts| ==> k < cuts[n]) && forall a :: 0 <= a < n ==> cuts[a] < k
    ensures k !in cuts
  {
    forall a | 0 <= a < |cuts| ensures cuts[a] != k {
      if a > n { assert cuts[n] < cuts[a]; }
    }
  }

  lemma AllOfOne(part: string, rest: seq<string>)
    ensures AllOf([part] + rest) == part + AllOf(rest)
  {
    assert ([part] + rest)[1..] == rest;
  }

  lemma LastStretch(s: string, lo: nat, cuts: seq<nat>, esc: QuoteEscapes)
    requires lo <= |s| && cuts == []
    ensures Within(cuts, |s|) && AllOf(Stretches(s, lo, cuts, esc)) == Between(s, lo, |s|, esc)
  {
    hide Between;
    AllOfOne(Between(s, lo, |s|, esc), []);
    assert [Between(s, lo, |s|, esc)] + [] == [Between(s, lo, |s|, esc)];
  }

  lemma StretchTurn(s: string, lo: nat, n: nat, cuts: seq<nat>, esc: QuoteEscapes)
    requires n < |cuts| && Within(cuts, |s|)
    ensures Within(cuts[n..], |s|) && Within(cuts[n + 1..], |s|)
    ensures AllOf(Stretches(s, lo, cuts[n..], esc))
            == Between(s, lo, cuts[n], esc) + AllOf(Stretches(s, cuts[n] + 1, cuts[n + 1..], esc))
    ensures SolidOutside(s, cuts[n], cuts, esc) == SolidOutside(s, cuts[n] + 1, cuts, esc)
  {
    hide Between, InLineComment, AllOf;
    assert cuts[n..][1..] == cuts[n + 1..];
    AllOfOne(Between(s, lo, cuts[n], esc), Stretches(s, cuts[n] + 1, cuts[n + 1..], esc));
    assert cuts[n] in cuts;
    assert "" + SolidOutside(s, cuts[n] + 1, cuts, esc) == SolidOutside(s, cuts[n] + 1, cuts, esc);
  }

  /** The first `n` cuts lie before `lo`, the others at or behind it. */
  ghost predicate Behind(s: string, lo: nat, n: nat, cuts: seq<nat>) {
    && n <= |cuts| && lo <= |s| && Ascending(cuts) && Within(cuts, |s|)
    && (n < |cuts| ==> lo <= cuts[n]) && forall k :: 0 <= k < n ==> cuts[k] < lo
  }

  lemma BehindNext(s: string, lo: nat, n: nat, cuts: seq<nat>)
    requires Behind(s, lo, n, cuts)
    ensures n <= |cuts| && lo <= |s| && Within(cuts, |s|) && Within(cuts[n..], |s|)
    ensures var hi := if n == |cuts| then |s| else cuts[n];
            && lo <= hi <= |s| && (forall k :: lo <= k < hi ==> k !in cuts)
            && (n < |cuts| ==> hi < |s| && Behind(s, hi + 1, n + 1, cuts))
  {
    var hi := if n == |cuts| then |s| else cuts[n];
    forall k | lo <= k < hi ensures k !in cuts { BetweenCuts(cuts, n, k); }
  }

  lemma {:induction false} StretchesSolid(s: string, lo: nat, n: nat, cuts: seq<nat>, esc: QuoteEscapes)
    requires Behind(s, lo, n, cuts) && n <= |cuts| && Within(cuts[n..], |s|)
    ensures Solid(AllOf(Stretches(s, lo, cuts[n..], esc))) == SolidOutside(s, lo, cuts, esc)
    decreases |cuts| - n
  {
    hide *;
    BehindNext(s, lo, n, cuts);
    var hi := if n == |cuts| then |s| else cuts[n];
    StretchSolid(s, lo, hi, cuts, esc);
    if n == |cuts| {
      LastStretch(s, lo, cuts[n..], esc);
      NothingOutside(s, cuts, esc);
      assert Solid(Between(s, lo, hi, esc)) + "" == Solid(Between(s, lo, hi, esc));
    } else {
      StretchTurn(s, lo, n, cuts, esc);
      StretchesSolid(s, hi + 1, n + 1, cuts, esc);
      SolidAdds(Between(s, lo, hi, esc), AllOf(Stretches(s, hi + 1, cuts[n + 1..], esc)));
    }
  }

  lemma NothingOutside(s: string, cuts: seq<nat>, esc: QuoteEscapes)
    ensures SolidOutside(s, |s|, cuts, esc) == ""
  {
  }

  /** Outside line comments and terminators no character but spaces is lost, doubled or moved. */
  lemma NothingSolidIsLost(s: string, esc: QuoteEscapes)
    ensures Solid(AllOf(Statements(s, esc))) == SolidOutside(s, 0, Cuts(s, 0, esc), esc)
  {
    hide Statements, Stretches, Solid, AllOf, SolidOutside, NotBlank, Cuts;
    StatementsAre(s, esc);
    CutsAre(s, esc);
    var cuts := Cuts(s, 0, esc);
    NotBlankKeepsSolid(Stretches(s, 0, cuts, esc));
    assert cuts[0..] == cuts;
    StretchesSolid(s, 0, 0, cuts, esc);
  }
}
