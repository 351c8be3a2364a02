/** The line flagger: which line breaks of a body lie outside every literal. */
module LineFlags {
  import opened Text
  import opened Lexis

  /** What the flagger thinks it is inside of. */
  datatype Mode = Top | InQuote(q: char) | InDollar(tag: string)

  /** Where the loop goes from a character that is not a newline. */
  function Advance(s: string, i: nat, m: Mode): (r: (nat, Mode))
    requires i < |s| && s[i] != '\n' && (m.InDollar? ==> m.tag != "")
    ensures i < r.0 <= |s| + 1 && (r.1.InDollar? ==> r.1.tag != "")
  {
    var c := s[i];
    var next := if i + 1 < |s| then s[i + 1] else ' ';
    match m
    case InQuote(q) =>
      if c == q then (if i + 1 < |s| && next == q then (i + 2, m) else (i + 1, Top)) else (i + 1, m)
    case InDollar(tag) =>
      if c == '$' && TagAt(s, i, tag) then (i + |tag|, Top) else (i + 1, m)
    case Top =>
      if IsQuote(c) then (i + 1, InQuote(c))
      else if c == '-' && next == '-' then (LineEnd(s, i + 2), Top)
      else if c == '/' && next == '*' then (BlockEnd(s, i + 2), Top)
      else if c == '$' then
        // a `$` that opens no tag takes the next character with it
        if OpensTag(s, i) then (TagEnd(s, i), InDollar(s[i..TagEnd(s, i)])) else (i + 2, Top)
      else (i + 1, Top)
  }

  /** The flags still to come. */
  function FlagsFrom(s: string, i: nat, m: Mode): (f: seq<bool>)
    requires m.InDollar? ==> m.tag != ""
    ensures f != []
    decreases |s| + 1 - i
  {
    if i >= |s| then [m.Top?]
    else if s[i] == '\n' then [m.Top?] + FlagsFrom(s, i + 1, m)
    else var (j, m') := Advance(s, i, m); FlagsFrom(s, j, m')
  }

  // ----- The loop -----

  method TagOf(s: string, i: nat) returns (isTag: bool, j: nat)
    requires i < |s| && s[i] == '$'
    ensures isTag <==> OpensTag(s, i)
    ensures isTag ==> j == TagEnd(s, i)
  {
    j := i + 1;
    if j < |s| && s[j] == '$' { return true, j + 1; }
    while j < |s| && IsWord(s[j])
      invariant i < j <= |s| && WordEnd(s, j) == WordEnd(s, i + 1)
      invariant j > i + 1 ==> !IsDigit(s[i + 1])
    {
      if j == i + 1 && IsDigit(s[j]) { break; }
      j := j + 1;
    }
    if j > i + 1 && j < |s| && s[j] == '$' { return true, j + 1; }
    isTag := false;
  }

  method TopLevelLineStarts(s: string) returns (flags: seq<bool>)
    ensures flags == FlagsFrom(s, 0, Top)
  {
    flags := [];
    var m := Top;
    var i := 0;
    while i < |s|
      invariant m.InDollar? ==> m.tag != ""
      invariant flags + FlagsFrom(s, i, m) == FlagsFrom(s, 0, Top)
      decreases |s| - i
    {
      if s[i] == '\n' {
        flags := flags + [m.Top?];
        i := i + 1;
      } else {
        i, m := AdvanceBy(s, i, m);
      }
    }
    flags := flags + [m.Top?];
  }

  method AdvanceBy(s: string, at: nat, m: Mode) returns (i: nat, m': Mode)
    requires at < |s| && s[at] != '\n' && (m.InDollar? ==> m.tag != "")
    ensures (i, m') == Advance(s, at, m)
  {
    var c := s[at];
    i, m' := at + 1, m;
    match m
    case InQuote(q) =>
      if c == q {
        if i < |s| && s[i] == q { i := i + 1; } else { m' := Top; }
      }
    case InDollar(tag) =>
      if c == '$' && at + |tag| <= |s| && s[at..at + |tag|] == tag { i, m' := at + |tag|, Top; }
    case Top =>
      if IsQuote(c) {
        m' := InQuote(c);
      } else if c == '-' && i < |s| && s[i] == '-' {
        i := at;
        while i < |s| && s[i] != '\n'
          invariant at <= i <= |s| && LineEnd(s, i) == LineEnd(s, at + 2)
        {
          i := i + 1;
        }
      } else if c == '/' && i < |s| && s[i] == '*' {
        i := at + 2;
        while i < |s|
          invariant at + 2 <= i <= |s| && BlockEnd(s, i) == BlockEnd(s, at + 2)
        {
          if s[i] == '*' && i + 1 < |s| && s[i + 1] == '/' {
            i := i + 2;
            break;
          }
          i := i + 1;
        }
      } else if c == '$' {
        var isTag, j := TagOf(s, at);
        if isTag { i, m' := j, InDollar(s[at..j]); } else { i := at + 2; }
      }
  }

  // ----- What the splitter says about the same newlines -----

  function Newlines(s: string, i: nat, e: nat): nat
    requires i <= e <= |s|
    decreases e - i
  {
    if i == e then 0 else (if s[i] == '\n' then 1 else 0) + Newlines(s, i + 1, e)
  }

  function Repeat(b: bool, n: nat): (f: seq<bool>)
    ensures |f| == n && forall k :: 0 <= k < n ==> f[k] == b
  {
    seq(n, _ => b)
  }

  /** One flag for each newline from `i` on: is the splitter outside every literal there? */
  function NewlineFlags(s: string, i: nat): (f: seq<bool>)
    requires i <= |s|
    ensures |f| == Newlines(s, i, |s|)
    decreases |s| - i
  {
    if i == |s| then []
    else
      var e := ElementAt(s, i, Standard);
      NewlinesAdd(s, i, e.end, |s|);
      Repeat(!IsLiteral(e), Newlines(s, i, e.end)) + NewlineFlags(s, e.end)
  }

  lemma {:induction false} NewlinesAdd(s: string, i: nat, k: nat, e: nat)
    requires i <= k <= e <= |s|
    ensures Newlines(s, i, e) == Newlines(s, i, k) + Newlines(s, k, e)
    decreases k - i
  {
    if i < k { NewlinesAdd(s, i + 1, k, e); }
  }

  /** A `$` that opens no tag. */
  predicate StrayDollar(s: string, i: nat)
    requires i < |s|
  {
    s[i] == '$' && !OpensTag(s, i)
  }

  /** No newline stands in a block comment, and none right after a stray `$`. */
  ghost predicate KeepsNewlines(s: string, i: nat)
    requires i <= |s|
    decreases |s| - i
  {
    i == |s| ||
    (var e := ElementAt(s, i, Standard);
     && (e.kind == BlockComment ==> Newlines(s, i, e.end) == 0)
     && (StrayDollar(s, i) && i + 1 < |s| ==> s[i + 1] != '\n')
     && KeepsNewlines(s, e.end))
  }

  /** No stray `$` stands right before a quote or a comment. */
  ghost predicate KeepsPlace(s: string, i: nat)
    requires i <= |s|
    decreases |s| - i
  {
    i == |s| ||
    (var e := ElementAt(s, i, Standard);
     && (StrayDollar(s, i) && i + 1 < |s| ==>
           !(ElementAt(s, i + 1, Standard).kind in {Quoted, LineComment, BlockComment}))
     && KeepsPlace(s, e.end))
  }

  /** All flags but the one for the end of the text. */
  function Inner(f: seq<bool>): seq<bool>
    requires f != []
  {
    f[..|f| - 1]
  }

  lemma RepeatOneMore(b: bool, n: nat, rest: seq<bool>)
    ensures [b] + (Repeat(b, n) + rest) == Repeat(b, n + 1) + rest
  {}

  lemma {:induction false} QuotedFlags(s: string, i: nat, q: char)
    requires i <= |s| && q != '\n'
    ensures var e := QuotedEnd(s, i, q, Standard);
            Inner(FlagsFrom(s, i, InQuote(q))) == Repeat(false, Newlines(s, i, e)) + Inner(FlagsFrom(s, e, Top))
    decreases |s| - i
  {
    if i < |s| {
      var step := QuotedStep(s, i, q, Standard);
      var e := QuotedEnd(s, i, q, Standard);
      if s[i] == '\n' {
        QuotedFlags(s, i + 1, q);
        RepeatOneMore(false, Newlines(s, i + 1, e), Inner(FlagsFrom(s, e, Top)));
      } else if s[i] == q && step == 1 {
        assert Newlines(s, i, e) == 0;
        assert Repeat(false, 0) + Inner(FlagsFrom(s, e, Top)) == Inner(FlagsFrom(s, e, Top));
      } else {
        QuotedFlags(s, i + step, q);
        NoNewlineInStep(s, i, q);
        NewlinesAdd(s, i, i + step, e);
      }
    }
  }

  lemma NoNewlineInStep(s: string, i: nat, q: char)
    requires i < |s| && s[i] != '\n' && q != '\n'
    ensures Newlines(s, i, i + QuotedStep(s, i, q, Standard)) == 0
  {
    if QuotedStep(s, i, q, Standard) == 2 { assert Newlines(s, i + 1, i + 2) == 0; }
  }

  lemma {:induction false} NoNewlines(s: string, i: nat, e: nat)
    requires i <= e <= |s| && forall k :: i <= k < e ==> s[k] != '\n'
    ensures Newlines(s, i, e) == 0
    decreases e - i
  {
    if i < e { NoNewlines(s, i + 1, e); }
  }

  lemma NewlineTurn(s: string, i: nat, m: Mode)
    requires i < |s| && s[i] == '\n' && (m.InDollar? ==> m.tag != "")
    ensures Inner(FlagsFrom(s, i, m)) == [m.Top?] + Inner(FlagsFrom(s, i + 1, m))
  {}

  lemma DollarTurn(s: string, i: nat, tag: string)
    requires i < |s| && tag != "" && tag[0] == '$' && forall k :: 0 <= k < |tag| ==> tag[k] != '\n'
    ensures TagAt(s, i, tag) ==>
              FlagsFrom(s, i, InDollar(tag)) == FlagsFrom(s, i + |tag|, Top) && Newlines(s, i, i + |tag|) == 0
    ensures !TagAt(s, i, tag) && s[i] != '\n' ==> FlagsFrom(s, i, InDollar(tag)) == FlagsFrom(s, i + 1, InDollar(tag))
  {
    if TagAt(s, i, tag) {
      hide FlagsFrom;
      forall k | i <= k < i + |tag| ensures s[k] == tag[k - i] { assert s[i..i + |tag|][k - i] == tag[k - i]; }
      NoNewlines(s, i, i + |tag|);
    }
    assert TagAt(s, i, tag) ==> s[i] == '$' && Advance(s, i, InDollar(tag)) == (i + |tag|, Top);
    hide TagAt, Newlines;
  }

  lemma {:induction false} DollarFlags(s: string, i: nat, tag: string)
    requires i <= |s| && tag != "" && tag[0] == '$' && forall k :: 0 <= k < |tag| ==> tag[k] != '\n'
    ensures var e := DollarEnd(s, i, tag);
            Inner(FlagsFrom(s, i, InDollar(tag))) == Repeat(false, Newlines(s, i, e)) + Inner(FlagsFrom(s, e, Top))
    decreases |s| - i
  {
    if i < |s| {
      hide FlagsFrom, TagAt;
      var e := DollarEnd(s, i, tag);
      DollarTurn(s, i, tag);
      if TagAt(s, i, tag) {
        NothingRepeated(false, Inner(FlagsFrom(s, e, Top)));
      } else {
        DollarFlags(s, i + 1, tag);
        if s[i] == '\n' {
          NewlineTurn(s, i, InDollar(tag));
          RepeatOneMore(false, Newlines(s, i + 1, e), Inner(FlagsFrom(s, e, Top)));
        }
      }
    }
  }

  lemma NothingRepeated(b: bool, rest: seq<bool>)
    ensures Repeat(b, 0) + rest == rest
  {}

  /** One element of the splitter, seen by the flagger. */
  ghost predicate SeesElement(s: string, i: nat, e: Element)
    requires i < e.end <= |s|
  {
    Inner(FlagsFrom(s, i, Top)) == Repeat(!IsLiteral(e), Newlines(s, i, e.end)) + Inner(FlagsFrom(s, e.end, Top))
  }

  lemma QuotedSeen(s: string, i: nat)
    requires i < |s| && IsQuote(s[i])
    ensures SeesElement(s, i, ElementAt(s, i, Standard))
  {
    QuotedFlags(s, i + 1, s[i]);
  }

  lemma DollarSeen(s: string, i: nat)
    requires i < |s| && s[i] == '$' && OpensTag(s, i)
    ensures SeesElement(s, i, ElementAt(s, i, Standard))
  {
    var body := TagEnd(s, i);
    var tag := s[i..body];
    var e := DollarEnd(s, body, tag);
    DollarOpens(s, i);
    hide OpensTag, FlagsFrom, ElementAt, TagEnd, DollarEnd;
    DollarFlags(s, body, tag);
    NoNewlines(s, i, body);
    NewlinesAdd(s, i, body, e);
  }

  lemma DollarOpens(s: string, i: nat)
    requires i < |s| && s[i] == '$' && OpensTag(s, i)
    ensures var body, tag := TagEnd(s, i), s[i..TagEnd(s, i)];
            && tag[0] == '$' && (forall k :: 0 <= k < |tag| ==> tag[k] != '\n')
            && (forall k :: i <= k < body ==> s[k] != '\n')
            && FlagsFrom(s, i, Top) == FlagsFrom(s, body, InDollar(tag))
            && ElementAt(s, i, Standard) == Element(DollarQuoted, DollarEnd(s, body, tag))
  {
    var body := TagEnd(s, i);
    var tag := s[i..body];
    forall k | 0 <= k < |tag| ensures tag[k] != '\n' { assert tag[k] == s[i + k]; }
    assert Advance(s, i, Top) == (body, InDollar(tag));
  }

  lemma LineSeen(s: string, i: nat)
    requires i + 1 < |s| && s[i] == s[i + 1] == '-'
    ensures SeesElement(s, i, ElementAt(s, i, Standard))
  {
    var nl := LineEnd(s, i + 2);
    LineHasNoNewline(s, i + 2);
    assert Newlines(s, i, nl) == Newlines(s, i + 2, nl);
    var rest := Inner(FlagsFrom(s, nl, Top));
    if nl < |s| {
      NewlinesAdd(s, i, nl, nl + 1);
      assert Repeat(true, 1) == [true];
    } else {
      assert Repeat(true, 0) + rest == rest;
    }
  }

  lemma {:induction false} LineHasNoNewline(s: string, i: nat)
    requires i <= |s|
    ensures Newlines(s, i, LineEnd(s, i)) == 0
    decreases |s| - i
  {
    if i < |s| && s[i] != '\n' { LineHasNoNewline(s, i + 1); }
  }

  lemma BlockSeen(s: string, i: nat)
    requires i + 1 < |s| && s[i] == '/' && s[i + 1] == '*' && Newlines(s, i, BlockEnd(s, i + 2)) == 0
    ensures SeesElement(s, i, ElementAt(s, i, Standard))
  {
    var rest := Inner(FlagsFrom(s, BlockEnd(s, i + 2), Top));
    assert Repeat(true, 0) + rest == rest;
  }

  lemma OrdinarySeen(s: string, i: nat)
    requires i < |s| && ElementAt(s, i, Standard).kind in {Plain, Terminator}
    requires s[i] != '$'
    ensures SeesElement(s, i, ElementAt(s, i, Standard))
  {
    var rest := Inner(FlagsFrom(s, i + 1, Top));
    assert Newlines(s, i + 1, i + 1) == 0;
    if s[i] == '\n' {
      assert Repeat(true, 1) == [true];
    } else {
      assert Repeat(true, 0) + rest == rest;
    }
  }

  /** What follows a stray `$` that is no quote and no comment is one ordinary character. */
  lemma AfterStrayDollar(s: string, i: nat)
    requires i + 1 < |s| && StrayDollar(s, i)
    requires !(ElementAt(s, i + 1, Standard).kind in {Quoted, LineComment, BlockComment})
    ensures ElementAt(s, i, Standard) == Element(Plain, i + 1)
    ensures ElementAt(s, i + 1, Standard).kind in {Plain, Terminator} && ElementAt(s, i + 1, Standard).end == i + 2
    ensures !StrayDollar(s, i + 1) && Advance(s, i, Top) == (i + 2, Top)
    ensures s[i + 1] != '\n' ==> Advance(s, i + 1, Top) == (i + 2, Top)
  {
    assert s[i + 1] != '$';
  }

  lemma PlainDollarSeen(s: string, i: nat)
    requires i < |s| && StrayDollar(s, i)
    requires i + 1 < |s| ==> s[i + 1] != '\n'
    requires i + 1 < |s| ==> !(ElementAt(s, i + 1, Standard).kind in {Quoted, LineComment, BlockComment})
    ensures SeesElement(s, i, ElementAt(s, i, Standard))
  {
    var rest := Inner(FlagsFrom(s, i + 1, Top));
    assert Newlines(s, i + 1, i + 1) == 0;
    assert Repeat(true, 0) + rest == rest;
    if i + 1 < |s| { AfterStrayDollar(s, i); }
  }

  /** An element in which no newline is lost and after which the flagger keeps its place. */
  lemma ElementSeen(s: string, i: nat)
    requires i < |s|
    requires ElementAt(s, i, Standard).kind == BlockComment ==> Newlines(s, i, ElementAt(s, i, Standard).end) == 0
    requires StrayDollar(s, i) && i + 1 < |s| ==>
               s[i + 1] != '\n' && !(ElementAt(s, i + 1, Standard).kind in {Quoted, LineComment, BlockComment})
    ensures SeesElement(s, i, ElementAt(s, i, Standard))
  {
    hide SeesElement, FlagsFrom;
    if IsQuote(s[i]) {
      QuotedSeen(s, i);
    } else if i + 1 < |s| && s[i] == s[i + 1] == '-' {
      LineSeen(s, i);
    } else if i + 1 < |s| && s[i] == '/' && s[i + 1] == '*' {
      BlockSeen(s, i);
    } else if s[i] == '$' {
      if OpensTag(s, i) { DollarSeen(s, i); } else { PlainDollarSeen(s, i); }
    } else {
      OrdinarySeen(s, i);
    }
  }

  lemma {:induction false} FlagsAgreeFrom(s: string, i: nat)
    requires i <= |s| && KeepsNewlines(s, i) && KeepsPlace(s, i)
    ensures Inner(FlagsFrom(s, i, Top)) == NewlineFlags(s, i)
    decreases |s| - i
  {
    if i < |s| {
      hide StrayDollar;
      ElementSeen(s, i);
      assert SeesElement(s, i, ElementAt(s, i, Standard));
      hide FlagsFrom, ElementAt, Newlines;
      FlagsAgreeFrom(s, ElementAt(s, i, Standard).end);
    }
  }

  // ----- A lost newline is never made up for -----

  /** A block comment that holds newlines: the flagger skips them all. */
  lemma BlockSkipped(s: string, i: nat)
    requires i + 1 < |s| && s[i] == '/' && s[i + 1] == '*'
    ensures FlagsFrom(s, i, Top) == FlagsFrom(s, BlockEnd(s, i + 2), Top)
    ensures ElementAt(s, i, Standard) == Element(BlockComment, BlockEnd(s, i + 2))
  {
  }

  /** A newline right after a stray `$`: the flagger skips it. */
  lemma NewlineSkipped(s: string, i: nat)
    requires i + 1 < |s| && StrayDollar(s, i) && s[i + 1] == '\n'
    ensures FlagsFrom(s, i, Top) == FlagsFrom(s, i + 2, Top)
    ensures Newlines(s, i, |s|) == 1 + Newlines(s, i + 2, |s|)
    ensures ElementAt(s, i, Standard) == Element(Plain, i + 1)
    ensures ElementAt(s, i + 1, Standard) == Element(Plain, i + 2)
  {
  }

  lemma BlockIs(s: string, i: nat)
    requires i < |s| && ElementAt(s, i, Standard).kind == BlockComment
    ensures i + 1 < |s| && s[i] == '/' && s[i + 1] == '*'
  {
  }

  /** The flagger never finds more newlines than there are, and fewer as soon as it loses one. */
  lemma {:induction false} CountAtMost(s: string, i: nat)
    requires i <= |s| && KeepsPlace(s, i)
    ensures var n := |Inner(FlagsFrom(s, i, Top))|;
            n <= Newlines(s, i, |s|) && (!KeepsNewlines(s, i) ==> n < Newlines(s, i, |s|))
    decreases |s| - i
  {
    if i < |s| {
      var e := ElementAt(s, i, Standard);
      NewlinesAdd(s, i, e.end, |s|);
      if e.kind == BlockComment && Newlines(s, i, e.end) > 0 {
        BlockIs(s, i);
        BlockSkipped(s, i);
        hide FlagsFrom, ElementAt, Newlines, StrayDollar;
        CountAtMost(s, e.end);
      } else if StrayDollar(s, i) && i + 1 < |s| && s[i + 1] == '\n' {
        NewlineSkipped(s, i);
        hide FlagsFrom, ElementAt, Newlines, StrayDollar;
        assert KeepsPlace(s, i + 1);
        CountAtMost(s, i + 2);
      } else {
        hide StrayDollar;
        ElementSeen(s, i);
        hide FlagsFrom, ElementAt, Newlines;
        CountAtMost(s, e.end);
      }
    }
  }

  /**
   On every text in which no stray `$` stands right before a quote or a comment: the flag of each
   newline says whether the Standard splitter is outside every literal there, exactly when no
   newline stands in a block comment or right after a stray `$`.
   */
  lemma FlagsAgreeIff(s: string)
    requires KeepsPlace(s, 0)
    ensures Inner(FlagsFrom(s, 0, Top)) == NewlineFlags(s, 0) <==> KeepsNewlines(s, 0)
  {
    hide FlagsFrom, NewlineFlags, KeepsNewlines, KeepsPlace;
    CountAtMost(s, 0);
    if KeepsNewlines(s, 0) { FlagsAgreeFrom(s, 0); }
  }

  /** Then there is one flag for each newline and one for the end of the text. */
  lemma FlagsAgree(s: string)
    requires KeepsPlace(s, 0) && KeepsNewlines(s, 0)
    ensures var f := FlagsFrom(s, 0, Top);
            |f| == Newlines(s, 0, |s|) + 1 && f[..|f| - 1] == NewlineFlags(s, 0)
  {
    FlagsAgreeFrom(s, 0);
  }
}
