/** What the lines of a text are, and which of them stripping keeps. */
module StripMeaning {
  import opened Lexis
  import opened LineFlags
  import opened StripLines
  import opened Text

  // ----- Lines -----

  /** A line with its terminator, `\n` or `\r\n`. */
  datatype Ended = Ended(text: string, crlf: bool)

  predicate NoNewline(s: string) { forall k :: 0 <= k < |s| ==> s[k] != '\n' }

  /** No newline in the line, and no carriage return at its end: that would be the terminator's. */
  predicate IsLine(l: Ended) { NoNewline(l.text) && (l.text != "" ==> l.text[|l.text| - 1] != '\r') }

  function Body(l: Ended): string { if l.crlf then l.text + "\r" else l.text }

  function Written(ls: seq<Ended>, last: string): string {
    if ls == [] then last else Body(ls[0]) + "\n" + Written(ls[1..], last)
  }

  function Texts(ls: seq<Ended>): seq<string> {
    if ls == [] then [] else [ls[0].text] + Texts(ls[1..])
  }

  lemma {:induction false} LineEndsAt(s: string, i: nat, k: nat)
    requires i <= k <= |s| && (k < |s| ==> s[k] == '\n') && forall j :: i <= j < k ==> s[j] != '\n'
    ensures LineEnd(s, i) == k
    decreases k - i
  {
    if i < k { LineEndsAt(s, i + 1, k); }
  }

  lemma BodyDrops(l: Ended)
    requires IsLine(l)
    ensures NoNewline(Body(l)) && DropReturn(Body(l)) == l.text
  {
    if l.crlf { assert Body(l)[..|l.text|] == l.text; }
  }

  lemma TailSplits(s: string, i: nat, a: string, b: string)
    requires i <= |s| && s[i..] == a + b
    ensures i + |a| <= |s| && s[i..i + |a|] == a && s[i + |a|..] == b
  {
    assert s[i..i + |a|] == s[i..][..|a|];
    assert s[i + |a|..] == s[i..][|a|..];
  }

  lemma SliceHasNoNewline(s: string, i: nat, k: nat)
    requires i <= k <= |s| && NoNewline(s[i..k])
    ensures forall j :: i <= j < k ==> s[j] != '\n'
  {
    forall j | i <= j < k ensures s[j] != '\n' {
      assert s[j] == s[i..k][j - i];
    }
  }

  lemma LineStep(s: string, i: nat, k: nat)
    requires i <= k < |s| && LineEnd(s, i) == k
    ensures Lines(s, i) == [DropReturn(s[i..k])] + Lines(s, k + 1)
  {
    hide DropReturn, LineEnd;
  }

  lemma FirstLine(s: string, i: nat, l: Ended, rest: string)
    requires i <= |s| && s[i..] == Body(l) + "\n" + rest && IsLine(l)
    ensures i + |Body(l)| + 1 <= |s| && s[i + |Body(l)| + 1..] == rest
    ensures Lines(s, i) == [l.text] + Lines(s, i + |Body(l)| + 1)
  {
    hide *;
    var k := i + |Body(l)|;
    BodyDrops(l);
    Regroup(Body(l), "\n", rest);
    TailSplits(s, i, Body(l), "\n" + rest);
    TailSplits(s, k, "\n", rest);
    assert s[k] == s[k..k + 1][0];
    SliceHasNoNewline(s, i, k);
    LineEndsAt(s, i, k);
    LineStep(s, i, k);
  }

  lemma LastLine(s: string, i: nat)
    requires i <= |s| && NoNewline(s[i..])
    ensures Lines(s, i) == if i == |s| then [] else [s[i..]]
  {
    forall j | i <= j < |s| ensures s[j] != '\n' {
      assert s[j] == s[i..][j - i];
    }
    LineEndsAt(s, i, |s|);
  }

  /** Lines written with any terminators, and text behind the last, read back without them. */
  lemma {:induction false} LinesRead(s: string, i: nat, ls: seq<Ended>, last: string)
    requires i <= |s| && s[i..] == Written(ls, last) && NoNewline(last)
    requires forall k :: 0 <= k < |ls| ==> IsLine(ls[k])
    ensures Lines(s, i) == Texts(ls) + (if last == "" then [] else [last])
    decreases |ls|
  {
    hide Lines, IsLine, NoNewline, Body;
    if ls == [] {
      LastLine(s, i);
    } else {
      FirstLine(s, i, ls[0], Written(ls[1..], last));
      LinesRead(s, i + |Body(ls[0])| + 1, ls[1..], last);
    }
  }

  // ----- What stays -----

  predicate Ascending(ks: seq<nat>) { forall i, j :: 0 <= i < j < |ks| ==> ks[i] < ks[j] }

  lemma KeptTurnBeyond(lines: seq<string>, flags: seq<bool>, k: nat, drop: string -> bool)
    requires k >= |lines|
    ensures Kept(lines, flags, k, drop) == []
  {}

  /** A line stays unless its flag is set and `drop` accepts it. */
  lemma {:induction false} KeptMeans(lines: seq<string>, flags: seq<bool>, k: nat, drop: string -> bool, j: nat)
    ensures j in Kept(lines, flags, k, drop) <==>
            k <= j < |lines| && j < |flags| && !(flags[j] && drop(lines[j]))
    decreases |lines| - k
  {
    hide Kept;
    if k < |lines| {
      KeptMeans(lines, flags, k + 1, drop, j);
      KeptTurn(lines, flags, k, drop);
    } else {
      KeptTurnBeyond(lines, flags, k, drop);
    }
  }

  lemma AscendingCons(k: nat, rest: seq<nat>)
    requires Ascending(rest) && forall i :: 0 <= i < |rest| ==> k < rest[i]
    ensures Ascending([k] + rest)
  {}

  lemma {:induction false} KeptAscends(lines: seq<string>, flags: seq<bool>, k: nat, drop: string -> bool)
    ensures Ascending(Kept(lines, flags, k, drop))
    decreases |lines| - k
  {
    hide Kept, Ascending, Stays;
    if k < |lines| {
      KeptAscends(lines, flags, k + 1, drop);
      KeptTurn(lines, flags, k, drop);
      AscendingCons(k, Kept(lines, flags, k + 1, drop));
    } else {
      KeptTurnBeyond(lines, flags, k, drop);
      EmptyAscends();
    }
  }

  lemma EmptyAscends()
    ensures Ascending([])
  {}

  /** The lines picked are those with the given numbers, in that order. */
  lemma {:induction false} PickMeans(lines: seq<string>, kept: seq<nat>)
    requires forall j :: 0 <= j < |kept| ==> kept[j] < |lines|
    ensures |Pick(lines, kept)| == |kept|
    ensures forall j :: 0 <= j < |kept| ==> Pick(lines, kept)[j] == lines[kept[j]]
  {
    if kept != [] {
      PickMeans(lines, kept[1..]);
      assert forall j :: 0 < j < |kept| ==> kept[j] == kept[1..][j - 1];
    }
  }

  /** The numbers of the lines that have a flag and are not dropped by it, in order. */
  ghost predicate StaysExactly(lines: seq<string>, flags: seq<bool>, drop: string -> bool, kept: seq<nat>) {
    && Ascending(kept)
    && forall j: nat :: j in kept <==> j < |lines| && j < |flags| && !(flags[j] && drop(lines[j]))
  }

  lemma KeptExactly(lines: seq<string>, flags: seq<bool>, drop: string -> bool)
    ensures StaysExactly(lines, flags, drop, Kept(lines, flags, 0, drop))
  {
    hide Kept, Ascending;
    var kept := Kept(lines, flags, 0, drop);
    KeptAscends(lines, flags, 0, drop);
    forall j: nat ensures j in kept <==> j < |lines| && j < |flags| && !(flags[j] && drop(lines[j])) {
      KeptMeans(lines, flags, 0, drop, j);
    }
  }

  predicate Picked(lines: seq<string>, kept: seq<nat>, picked: seq<string>) {
    |picked| == |kept| && forall j :: 0 <= j < |kept| ==> kept[j] < |lines| && picked[j] == lines[kept[j]]
  }

  /**
   Stripping joins with newlines the lines that are not dropped, in order; a byte-order mark in front of the
   text is no part of its first line.
   */
  lemma StripMeans(body: string, drop: string -> bool) returns (kept: seq<nat>, picked: seq<string>)
    ensures var s := if body != "" && body[0] as int == 0xFEFF then body[1..] else body;
            && StaysExactly(Lines(s, 0), FlagsFrom(s, 0, Top), drop, kept) && Picked(Lines(s, 0), kept, picked)
            && StripTopLevelLines(body, drop) == Join(picked, "\n")
  {
    hide Lines, FlagsFrom, Kept, Pick, Join, StaysExactly;
    var s := StripBom(body);
    var lines, flags := Lines(s, 0), FlagsFrom(s, 0, Top);
    kept := Kept(lines, flags, 0, drop);
    picked := Pick(lines, kept);
    KeptExactly(lines, flags, drop);
    PickMeans(lines, kept);
  }
}
