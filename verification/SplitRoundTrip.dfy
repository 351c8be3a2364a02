/** Splitting and joining undo each other. */
module SplitRoundTrip {
  import opened Text
  import opened Lexis
  import opened LexisCopies
  import opened Splitter

  /** Does reading elements from `i` arrive exactly at `n`, past no line comment and no terminator? */
  ghost predicate Clean(s: string, i: nat, n: nat, esc: QuoteEscapes)
    requires n <= |s|
    decreases |s| - i
  {
    i == n || (i < n && var e := ElementAt(s, i, esc);
                        e.kind != LineComment && e.kind != Terminator && e.end <= n && Clean(s, e.end, n, esc))
  }

  lemma {:induction false} RegionCopies(s: string, lo: nat, i: nat, n: nat, t: string, d: int, esc: QuoteEscapes)
    requires Copied(s, lo, n, t, d) && lo <= i && Clean(s, i, n, esc)
    ensures Clean(t, i + d, n + d, esc)
    decreases |s| - i
  {
    hide ElementAt;
    if i < n {
      ElementCopies(s, lo, i, n, t, d, esc);
      RegionCopies(s, lo, ElementAt(s, i, esc).end, n, t, d, esc);
    }
  }

  // ----- Collected text -----

  /** Reads as whole elements when a terminator follows it. */
  ghost predicate Safe(c: string, esc: QuoteEscapes) { Clean(c + ";", 0, |c|, esc) }

  /** Reads as whole elements on its own. */
  ghost predicate Whole(c: string, esc: QuoteEscapes) { Clean(c, 0, |c|, esc) }

  lemma {:induction false} CleanChain(s: string, i: nat, k: nat, n: nat, esc: QuoteEscapes)
    requires k <= n <= |s| && Clean(s, i, k, esc) && Clean(s, k, n, esc)
    ensures Clean(s, i, n, esc)
    decreases |s| - i
  {
    hide ElementAt;
    if i < k { CleanChain(s, ElementAt(s, i, esc).end, k, n, esc); }
  }

  /** Only a one-character element can end in a space that something follows. */
  lemma {:induction false} DropSpace(s: string, i: nat, n: nat, esc: QuoteEscapes)
    requires i < n < |s| && Clean(s, i, n, esc) && IsSpace(s[n - 1])
    ensures Clean(s, i, n - 1, esc)
    decreases |s| - i
  {
    var e := ElementAt(s, i, esc);
    if e.end < n { DropSpace(s, e.end, n, esc); } else { SpaceIsPlain(s, i, esc); }
  }

  lemma SpaceIsPlain(s: string, i: nat, esc: QuoteEscapes)
    requires i < |s|
    requires var e := ElementAt(s, i, esc); e.end < |s| && IsSpace(s[e.end - 1]) && e.kind != LineComment
    ensures ElementAt(s, i, esc).end == i + 1
  {
    TagLast(s, i);
  }

  lemma TagLast(s: string, i: nat)
    requires i < |s|
    ensures OpensTag(s, i) ==>
              var tag := s[i..TagEnd(s, i)]; tag[|tag| - 1] == '$' && s[TagEnd(s, i) - 1] == '$'
  {}

  lemma SafeIsWhole(c: string, esc: QuoteEscapes)
    requires Safe(c, esc)
    ensures Whole(c, esc)
  {
    hide ElementAt;
    RegionCopies(c + ";", 0, 0, |c|, c, 0, esc);
  }

  lemma SafeWithNewline(c: string, esc: QuoteEscapes)
    requires Safe(c, esc)
    ensures Safe(c + "\n", esc)
  {
    hide ElementAt;
    var t := c + "\n" + ";";
    RegionCopies(c + ";", 0, 0, |c|, t, 0, esc);
    NewlineElement(t, |c|, esc);
    CleanChain(t, 0, |c|, |c| + 1, esc);
  }

  /** Text collected up to a line break, then a region of the source: still whole elements. */
  lemma AppendRegion(c: string, s: string, i: nat, n: nat, t: string, esc: QuoteEscapes)
    requires Safe(c, esc) && (c == "" || c[|c| - 1] == '\n')
    requires i <= n <= |s| && Clean(s, i, n, esc)
    requires t == c + s[i..n] + (if n < |s| then ";" else "")
    requires n < |s| ==> Breaks(s[n])
    ensures Clean(t, 0, |c| + (n - i), esc)
  {
    hide ElementAt;
    var m := |c| + (n - i);
    if c != "" {
      var u := c + ";";
      DropSpace(u, 0, |c|, esc);
      RegionCopies(u, 0, 0, |c| - 1, t, 0, esc);
      NewlineElement(t, |c| - 1, esc);
      CleanChain(t, 0, |c| - 1, |c|, esc);
    }
    RegionCopies(s, i, i, n, t, |c| - i, esc);
    CleanChain(t, 0, |c|, m, esc);
  }

  lemma NewlineElement(s: string, i: nat, esc: QuoteEscapes)
    requires i < |s| && s[i] == '\n'
    ensures ElementAt(s, i, esc) == Element(Plain, i + 1)
    ensures Clean(s, i, i + 1, esc)
  {}

  // ----- Trimming keeps elements whole -----

  lemma SafeTrims(c: string, esc: QuoteEscapes)
    requires Safe(c, esc)
    ensures Safe(Trim(c), esc)
  {
    SafeTrimsStart(c, esc);
    SafeTrimsEnd(TrimStart(c), esc);
  }

  lemma {:induction false} SafeTrimsStart(c: string, esc: QuoteEscapes)
    requires Safe(c, esc)
    ensures Safe(TrimStart(c), esc)
    decreases |c|
  {
    if c != "" && IsSpace(c[0]) {
      var t := c[1..];
      assert Clean(c + ";", 1, |c|, esc);
      RegionCopies(c + ";", 1, 1, |c|, t + ";", -1, esc);
      SafeTrimsStart(t, esc);
    }
  }

  lemma {:induction false} SafeTrimsEnd(c: string, esc: QuoteEscapes)
    requires Safe(c, esc)
    ensures Safe(TrimEnd(c), esc)
    decreases |c|
  {
    hide ElementAt;
    if c != "" && IsSpace(c[|c| - 1]) {
      var t := c[..|c| - 1];
      DropSpace(c + ";", 0, |c|, esc);
      RegionCopies(c + ";", 0, 0, |t|, t + ";", 0, esc);
      SafeTrimsEnd(t, esc);
    }
  }

  lemma WholeTrims(c: string, esc: QuoteEscapes)
    requires Whole(c, esc)
    ensures Whole(Trim(c), esc)
  {
    WholeTrimsStart(c, esc);
    WholeTrimsEnd(TrimStart(c), esc);
  }

  lemma {:induction false} WholeTrimsStart(c: string, esc: QuoteEscapes)
    requires Whole(c, esc)
    ensures Whole(TrimStart(c), esc)
    decreases |c|
  {
    if c != "" && IsSpace(c[0]) {
      var t := c[1..];
      assert Clean(c, 1, |c|, esc);
      RegionCopies(c, 1, 1, |c|, t, -1, esc);
      WholeTrimsStart(t, esc);
    }
  }

  lemma {:induction false} WholeTrimsEnd(c: string, esc: QuoteEscapes)
    requires Whole(c, esc)
    ensures Whole(TrimEnd(c), esc)
    decreases |c|
  {
    if c != "" && IsSpace(c[|c| - 1]) {
      WholeDropsSpace(c, 0, esc);
      WholeTrimsEnd(c[..|c| - 1], esc);
    }
  }

  /** Dropping a final space: it was its own element, or inside a literal that never closes. */
  lemma {:induction false} WholeDropsSpace(c: string, i: nat, esc: QuoteEscapes)
    requires i < |c| && Clean(c, i, |c|, esc) && IsSpace(c[|c| - 1])
    ensures Clean(c[..|c| - 1], i, |c| - 1, esc)
    decreases |c| - i
  {
    hide ElementAt;
    var t := c[..|c| - 1];
    var e := ElementAt(c, i, esc);
    if e.end < |c| {
      ElementCopies(c, 0, i, |t|, t, 0, esc);
      WholeDropsSpace(c, e.end, esc);
    } else if i < |t| {
      OpenElementShrinks(c, i, esc);
    }
  }

  lemma OpenElementShrinks(c: string, i: nat, esc: QuoteEscapes)
    requires i + 1 < |c| && IsSpace(c[|c| - 1])
    requires var e := ElementAt(c, i, esc); e.end == |c| && e.kind != LineComment
    ensures ElementAt(c[..|c| - 1], i, esc) == Element(ElementAt(c, i, esc).kind, |c| - 1)
  {
    var t := c[..|c| - 1];
    var q := c[i];
    assert c == t + [c[|c| - 1]];
    if IsQuote(q) {
      QuotedShrinks(t, c, i + 1, q, esc);
    } else if q == '/' {
      BlockShrinks(t, c, i + 2);
    } else {
      OpenDollarShrinks(t, c, i, esc);
    }
  }

  lemma OpenDollarShrinks(t: string, c: string, i: nat, esc: QuoteEscapes)
    requires Longer(t, c) && i < |t| && c[i] == '$' && OpensTag(c, i)
    requires ElementAt(c, i, esc).end == |c|
    ensures ElementAt(t, i, esc) == Element(DollarQuoted, |t|)
  {
    TagShrinks(t, c, i);
    TagIsText(c, i);
    DollarElement(c, i, esc);
    DollarElement(t, i, esc);
    hide Longer, TagText, OpensTag, WordEnd, DollarEnd, ElementAt;
    DollarShrinks(t, c, TagEnd(c, i), c[i..TagEnd(c, i)]);
  }

  lemma TagShrinks(t: string, c: string, i: nat)
    requires Longer(t, c) && i < |t| && c[i] == '$' && OpensTag(c, i)
    ensures t[i] == '$' && OpensTag(t, i) && TagEnd(t, i) == TagEnd(c, i)
    ensures t[i..TagEnd(t, i)] == c[i..TagEnd(c, i)]
  {
    WordShrinks(t, c, i + 1);
    LongerSlice(t, c, i, TagEnd(c, i));
  }

  ghost predicate Longer(t: string, c: string) {
    |c| == |t| + 1 && IsSpace(c[|t|]) && forall k :: 0 <= k < |t| ==> c[k] == t[k]
  }

  lemma LongerSlice(t: string, c: string, i: nat, j: nat)
    requires Longer(t, c) && i <= j <= |t|
    ensures c[i..j] == t[i..j]
  {}

  lemma {:induction false} QuotedShrinks(t: string, c: string, i: nat, q: char, esc: QuoteEscapes)
    requires Longer(t, c) && i <= |t| && c[|t|] != q && QuotedEnd(c, i, q, esc) == |c|
    ensures QuotedEnd(t, i, q, esc) == |t|
    decreases |t| - i
  {
    hide IsSpace;
    if i < |t| {
      var step := QuotedStep(c, i, q, esc);
      if i + step <= |t| { QuotedShrinks(t, c, i + step, q, esc); }
    }
  }

  lemma {:induction false} BlockShrinks(t: string, c: string, i: nat)
    requires Longer(t, c) && i <= |t| && BlockEnd(c, i) == |c|
    ensures BlockEnd(t, i) == |t|
    decreases |t| - i
  {
    if i < |t| { BlockShrinks(t, c, i + 1); }
  }

  lemma {:induction false} WordShrinks(t: string, c: string, i: nat)
    requires Longer(t, c) && i <= |t|
    ensures WordEnd(t, i) == WordEnd(c, i) <= |t|
    decreases |t| - i
  {
    if i < |t| && IsWord(c[i]) { WordShrinks(t, c, i + 1); }
  }

  lemma EndsInSpace(c: string, i: nat, tag: string)
    requires c != "" && IsSpace(c[|c| - 1]) && TagText(tag)
    ensures TagAt(c, i, tag) ==> i + |tag| < |c|
  {
    if i + |tag| == |c| { assert c[i..i + |tag|][|tag| - 1] == c[|c| - 1]; }
  }

  lemma {:induction false} DollarShrinks(t: string, c: string, i: nat, tag: string)
    requires Longer(t, c) && i <= |t| && TagText(tag) && DollarEnd(c, i, tag) == |c|
    ensures DollarEnd(t, i, tag) == |t|
    decreases |t| - i
  {
    if i < |t| {
      if i + |tag| <= |t| { assert t[i..i + |tag|] == c[i..i + |tag|]; }
      EndsInSpace(c, i, tag);
      DollarShrinks(t, c, i + 1, tag);
    }
  }

  // ----- The list the splitter returns -----

  /** Where the next line comment or terminator starts. */
  function Stop(s: string, i: nat, esc: QuoteEscapes): (n: nat)
    requires i <= |s|
    ensures i <= n <= |s| && Clean(s, i, n, esc)
    ensures n < |s| ==> ElementAt(s, n, esc).kind in {LineComment, Terminator}
    decreases |s| - i
  {
    if i == |s| || ElementAt(s, i, esc).kind in {LineComment, Terminator} then i
    else Stop(s, ElementAt(s, i, esc).end, esc)
  }

  lemma {:induction false} PiecesToStop(s: string, i: nat, n: nat, esc: QuoteEscapes, current: string)
    requires i <= n <= |s| && Clean(s, i, n, esc)
    ensures Pieces(s, i, esc, current) == Pieces(s, n, esc, current + s[i..n])
    decreases |s| - i
  {
    hide ElementAt;
    if i < n {
      var e := ElementAt(s, i, esc);
      PiecesToStop(s, e.end, n, esc, current + s[i..e.end]);
      JoinSlices(current, s, i, e.end, n);
    } else {
      assert current + s[i..n] == current;
    }
  }

  /** Every statement is trimmed, non-empty and whole, and all but the last can be followed by `;`. */
  ghost predicate Good(list: seq<string>, esc: QuoteEscapes) {
    && (forall k :: 0 <= k < |list| ==> list[k] != "" && Trim(list[k]) == list[k] && Whole(list[k], esc))
    && (forall k :: 0 <= k < |list| - 1 ==> Safe(list[k], esc))
  }

  lemma {:induction false} PiecesAreGood(s: string, i: nat, esc: QuoteEscapes, current: string)
    requires i <= |s| && Safe(current, esc) && (current == "" || current[|current| - 1] == '\n')
    ensures Good(Pieces(s, i, esc, current), esc)
    decreases |s| - i
  {
    hide Safe, Whole, Good, ElementAt, Breaks, Clean, Flush;
    var n := Stop(s, i, esc);
    var c := current + s[i..n];
    PiecesToStop(s, i, n, esc, current);
    if n == |s| {
      AppendLast(current, s, i, esc);
      LastIsGood(c, esc);
    } else {
      StopBreaks(s, n, esc);
      AppendMiddle(current, s, i, n, esc);
      var e := ElementAt(s, n, esc);
      if e.kind == Terminator {
        EmptyIsSafe(esc);
        PiecesAreGood(s, e.end, esc, "");
        FlushKeepsGood(c, Pieces(s, e.end, esc, ""), esc);
      } else if s[e.end - 1] == '\n' {
        SafeWithNewline(c, esc);
        PiecesAreGood(s, e.end, esc, c + "\n");
      } else {
        SafeIsWhole(c, esc);
        LastIsGood(c, esc);
        assert c + "" == c;
      }
    }
  }

  lemma AppendLast(current: string, s: string, i: nat, esc: QuoteEscapes)
    requires Safe(current, esc) && (current == "" || current[|current| - 1] == '\n')
    requires i <= |s| && Clean(s, i, |s|, esc)
    ensures Whole(current + s[i..|s|], esc)
  {
    hide Clean;
    var c := current + s[i..|s|];
    assert c + "" == c;
    AppendRegion(current, s, i, |s|, c, esc);
  }

  lemma {:induction false} AppendMiddle(current: string, s: string, i: nat, n: nat, esc: QuoteEscapes)
    requires Safe(current, esc) && (current == "" || current[|current| - 1] == '\n')
    requires i <= n < |s| && Clean(s, i, n, esc) && Breaks(s[n])
    ensures Safe(current + s[i..n], esc)
  {
    hide Clean;
    AppendRegion(current, s, i, n, current + s[i..n] + ";", esc);
  }

  lemma EmptyIsSafe(esc: QuoteEscapes)
    ensures Safe("", esc)
  {}

  lemma StopBreaks(s: string, n: nat, esc: QuoteEscapes)
    requires n < |s| && ElementAt(s, n, esc).kind in {LineComment, Terminator}
    ensures Breaks(s[n])
    ensures ElementAt(s, n, esc).kind == LineComment && s[ElementAt(s, n, esc).end - 1] != '\n' ==>
              ElementAt(s, n, esc).end == |s|
  {}

  lemma LastIsGood(c: string, esc: QuoteEscapes)
    requires Whole(c, esc)
    ensures Good(Flush(c), esc)
  {
    WholeTrims(c, esc);
    TrimIsStable(c);
  }

  lemma FlushKeepsGood(c: string, rest: seq<string>, esc: QuoteEscapes)
    requires Safe(c, esc) && Good(rest, esc)
    ensures Good(Flush(c) + rest, esc)
  {
    hide Clean;
    SafeTrims(c, esc);
    SafeIsWhole(Trim(c), esc);
    TrimIsStable(c);
  }

  // ----- Rescanning -----

  /** A statement followed by `;` and more text is cut off exactly there. */
  lemma CutOff(t: string, rest: string, esc: QuoteEscapes)
    requires Safe(t, esc)
    ensures Statements(t + ";" + rest, esc) == Flush(t) + Statements(rest, esc)
  {
    hide ElementAt, Copied, Safe, Clean, Pieces, Flush, Breaks;
    var u := t + ";" + rest;
    CutParts(t, rest);
    SafeMeans(t, esc);
    TerminatorPiece(u, |t|, esc, t);
    RegionCopies(t + ";", 0, 0, |t|, u, 0, esc);
    PiecesToStop(u, 0, |t|, esc, "");
    Shift(u, |t| + 1, rest, esc, "");
  }

  lemma SafeMeans(c: string, esc: QuoteEscapes)
    ensures Safe(c, esc) <==> Clean(c + ";", 0, |c|, esc)
  {}

  lemma CutParts(t: string, rest: string)
    ensures var u := t + ";" + rest;
            u[|t|] == ';' && u[|t| + 1..] == rest && "" + u[0..|t|] == t && Copied(t + ";", 0, |t|, u, 0)
  {}

  lemma Alone(t: string, esc: QuoteEscapes)
    requires Whole(t, esc)
    ensures Statements(t, esc) == Flush(t)
  {
    hide ElementAt;
    PiecesToStop(t, 0, |t|, esc, "");
    assert "" + t[0..|t|] == t;
  }

  /** Scanning the end of a text is scanning that end as a text of its own. */
  lemma Shift(u: string, d: nat, rest: string, esc: QuoteEscapes, current: string)
    requires d <= |u| && u[d..] == rest
    ensures Pieces(u, d, esc, current) == Pieces(rest, 0, esc, current)
  {
    ShiftAt(u, d, d, rest, esc, current);
  }

  lemma {:induction false} ShiftAt(u: string, d: nat, i: nat, rest: string, esc: QuoteEscapes, current: string)
    requires d <= i <= |u| && u[d..] == rest
    ensures Pieces(u, i, esc, current) == Pieces(rest, i - d, esc, current)
    decreases |u| - i
  {
    hide *;
    if i < |u| {
      ElementShifts(u, d, i, rest, esc);
      var e := ElementAt(u, i, esc);
      KeptShifts(u, d, i, rest, e);
      PieceTurn(u, i, esc, current);
      PieceTurn(rest, i - d, esc, current);
      ShiftAt(u, d, e.end, rest, esc, if e.kind == Terminator then "" else current + Kept(u, i, e));
    } else {
      LastPiece(u, esc, current);
      LastPiece(rest, esc, current);
    }
  }

  /** One element of the scan. */
  lemma PieceTurn(s: string, i: nat, esc: QuoteEscapes, current: string)
    requires i < |s|
    ensures var e := ElementAt(s, i, esc);
            Pieces(s, i, esc, current)
            == if e.kind == Terminator then Flush(current) + Pieces(s, e.end, esc, "")
               else Pieces(s, e.end, esc, current + Kept(s, i, e))
  {
    hide ElementAt, Flush, Kept;
  }

  lemma KeptShifts(u: string, d: nat, i: nat, rest: string, e: Element)
    requires d <= i < e.end <= |u| && u[d..] == rest
    ensures Kept(u, i, e) == Kept(rest, i - d, Element(e.kind, e.end - d))
  {
    var off: int := d;
    SliceCopies(u, d, i, e.end, |u|, rest, -off);
    assert u[e.end - 1] == rest[e.end - d - 1];
  }

  lemma ElementShifts(u: string, d: nat, i: nat, rest: string, esc: QuoteEscapes)
    requires d <= i < |u| && u[d..] == rest
    ensures ElementAt(rest, i - d, esc) == Element(ElementAt(u, i, esc).kind, ElementAt(u, i, esc).end - d)
  {
    var off := -(d as int);
    DropIsSameTail(u, d, rest);
    SameTailCopied(u, d, rest, off);
    if ElementAt(u, i, esc).kind == LineComment {
      LineCopies(u, d, i + 2, rest, off);
      NextCopies(u, d, i, rest, off, '-');
    } else {
      ElementCopies(u, d, i, |u|, rest, off, esc);
    }
  }

  /** Joining a good list with `;` and scanning the result gives the list back. */
  lemma {:induction false} JoinedRescans(list: seq<string>, esc: QuoteEscapes)
    requires Good(list, esc)
    ensures Statements(Join(list, ";"), esc) == list
    decreases |list|
  {
    hide Clean;
    if |list| == 1 {
      Alone(list[0], esc);
    } else if |list| > 1 {
      var rest := list[1..];
      CutOff(list[0], Join(rest, ";"), esc);
      JoinedRescans(rest, esc) by {
        forall k | 0 <= k < |rest| ensures rest[k] == list[k + 1] {}
      }
    }
  }

  /** Rescanning the statements of any text, joined with `;`, gives the same statements. */
  lemma SplitThenJoin(s: string, esc: QuoteEscapes)
    ensures Statements(Join(Statements(s, esc), ";"), esc) == Statements(s, esc)
  {
    EmptyIsSafe(esc);
    PiecesAreGood(s, 0, esc, "");
    JoinedRescans(Statements(s, esc), esc);
  }

  /** Each statement of any text rescans to itself alone. */
  lemma EachStatementAlone(s: string, esc: QuoteEscapes, k: nat)
    requires k < |Statements(s, esc)|
    ensures Statements(Statements(s, esc)[k], esc) == [Statements(s, esc)[k]]
  {
    EmptyIsSafe(esc);
    PiecesAreGood(s, 0, esc, "");
    Alone(Statements(s, esc)[k], esc);
  }
}
