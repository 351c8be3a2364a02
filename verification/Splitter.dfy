/** The statement splitter: its scanning loop, and what the loop computes. */
module Splitter {
  import opened Text
  import opened Lexis

  function Flush(current: string): seq<string> {
    var stmt := Trim(current);
    if stmt == "" then [] else [stmt]
  }

  /** What the statement keeps of the element at `i`: a line comment leaves only its newline. */
  function Kept(s: string, i: nat, e: Element): string
    requires i < e.end <= |s|
  {
    if e.kind != LineComment then s[i..e.end]
    else if s[e.end - 1] == '\n' then "\n" else ""
  }

  /** The statements still to come from position `i` on, `current` being already collected. */
  function Pieces(s: string, i: nat, esc: QuoteEscapes, current: string): seq<string>
    requires i <= |s|
    decreases |s| - i
  {
    if i == |s| then Flush(current)
    else
      var e := ElementAt(s, i, esc);
      if e.kind == Terminator then Flush(current) + Pieces(s, e.end, esc, "")
      else Pieces(s, e.end, esc, current + Kept(s, i, e))
  }

  function Statements(s: string, esc: QuoteEscapes): seq<string> { Pieces(s, 0, esc, "") }

  /** The positions from `i` on where a statement is cut off. */
  function Cuts(s: string, i: nat, esc: QuoteEscapes): seq<nat>
    requires i <= |s|
    decreases |s| - i
  {
    if i == |s| then []
    else
      var e := ElementAt(s, i, esc);
      (if e.kind == Terminator then [i] else []) + Cuts(s, e.end, esc)
  }

  // ----- The loop -----
  // One method for each arm that consumes more than one character; each returns the position the
  // source's character iterator has reached, and peeking is reading `s[i]`.

  method TakeQuoted(s: string, start: nat, esc: QuoteEscapes) returns (i: nat)
    requires start < |s| && IsQuote(s[start])
    ensures i == ElementAt(s, start, esc).end
  {
    var quote := s[start];
    i := start + 1;
    while i < |s|
      invariant start < i <= |s|
      invariant QuotedEnd(s, i, quote, esc) == QuotedEnd(s, start + 1, quote, esc)
    {
      var ch := s[i];
      i := i + 1;
      if esc.Backslash? && ch == '\\' {
        if i == |s| { break; }
        i := i + 1;
      } else if ch == quote {
        if i < |s| && s[i] == quote { i := i + 1; } else { break; }
      }
    }
  }

  /** `newline` is what the comment leaves behind in the statement. */
  method TakeLineComment(s: string, start: nat, esc: QuoteEscapes) returns (i: nat, newline: string)
    requires start + 1 < |s| && s[start] == s[start + 1] == '-'
    ensures i == ElementAt(s, start, esc).end
    ensures newline == Kept(s, start, ElementAt(s, start, esc))
  {
    i, newline := start + 2, "";
    while i < |s|
      invariant start + 2 <= i <= |s|
      invariant LineEnd(s, i) == LineEnd(s, start + 2)
      invariant newline == "" && s[i - 1] != '\n'
    {
      var ch := s[i];
      i := i + 1;
      if ch == '\n' {
        newline := [ch];
        break;
      }
    }
  }

  method TakeBlockComment(s: string, start: nat, esc: QuoteEscapes) returns (i: nat)
    requires start + 1 < |s| && s[start] == '/' && s[start + 1] == '*'
    ensures i == ElementAt(s, start, esc).end
  {
    i := start + 2;
    while i < |s|
      invariant start + 2 <= i <= |s|
      invariant BlockEnd(s, i) == BlockEnd(s, start + 2)
    {
      var ch := s[i];
      i := i + 1;
      if ch == '*' && i < |s| && s[i] == '/' {
        i := i + 1;
        break;
      }
    }
  }

  /** Read a dollar tag character by character; `isTag` says whether one was completed. */
  method TakeTag(s: string, start: nat) returns (i: nat, tag: string, isTag: bool)
    requires start < |s| && s[start] == '$'
    ensures start < i <= |s| && tag == s[start..i]
    ensures isTag <==> OpensTag(s, start)
    ensures isTag ==> i == TagEnd(s, start)
    ensures !isTag ==> forall k :: start < k < i ==> IsWord(s[k])
  {
    i, tag, isTag := start + 1, "$", true;
    while true
      invariant start < i <= |s| && tag == s[start..i] && isTag
      invariant WordEnd(s, i) == WordEnd(s, start + 1)
      invariant i > start + 1 ==> !IsDigit(s[start + 1])
      decreases |s| - i
    {
      if i < |s| { GrowSlice(s, start, i); }
      if i < |s| && s[i] == '$' {
        i, tag := i + 1, tag + "$";
        break;
      } else if i < |s| && |tag| == 1 && (IsAlpha(s[i]) || s[i] == '_') {
        i, tag := i + 1, tag + [s[i]];
      } else if i < |s| && |tag| > 1 && IsWord(s[i]) {
        i, tag := i + 1, tag + [s[i]];
      } else {
        isTag := false;
        break;
      }
    }
  }

  /** Consume through the closing tag with a sliding window over the last `|tag|` characters. */
  method TakeDollarBody(s: string, start: nat, tag: string) returns (i: nat)
    requires start <= |s| && tag != ""
    ensures i == DollarEnd(s, start, tag)
  {
    hide DollarEnd;
    i := start;
    var window := "";
    ghost var w := start;  // where the window starts
    while i < |s|
      invariant start <= w <= i <= |s|
      invariant window == s[w..i] && |window| <= |tag| && window != tag
      invariant w > start ==> |window| == |tag|
      invariant DollarEnd(s, w, tag) == DollarEnd(s, start, tag)
    {
      SlideWindow(s, w, i, window, tag);
      window := window + [s[i]];
      i := i + 1;
      if |window| > |tag| {
        window := window[1..];
        w := w + 1;
      }
      if |window| == |tag| && window == tag {
        DollarTurn(s, w, tag);
        return;
      }
    }
    NoRoomForTag(s, w, tag);
  }

  lemma GrowSlice(s: string, w: nat, i: nat)
    requires w <= i < |s|
    ensures s[w..i] + [s[i]] == s[w..i + 1]
  {}

  /** The window grown by one character, and what sliding it then leaves to be found. */
  lemma SlideWindow(s: string, w: nat, i: nat, window: string, tag: string)
    requires w <= i < |s| && tag != "" && window == s[w..i] && window != tag
    ensures window + [s[i]] == s[w..i + 1]
    ensures (window + [s[i]])[1..] == s[w + 1..i + 1]
    ensures |window| == |tag| ==> DollarEnd(s, w, tag) == DollarEnd(s, w + 1, tag)
  {
    GrowSlice(s, w, i);
  }

  lemma {:induction false} NoRoomForTag(s: string, w: nat, tag: string)
    requires w <= |s| <= w + |tag| && tag != "" && s[w..] != tag
    ensures DollarEnd(s, w, tag) == |s|
    decreases |s| - w
  {
    if w < |s| {
      assert w + |tag| == |s| ==> s[w..w + |tag|] == s[w..];
      NoRoomForTag(s, w + 1, tag);
    }
  }

  /** What one turn of the loop does to an element that is no terminator. */
  lemma ElementPiece(s: string, i: nat, esc: QuoteEscapes, current: string)
    requires i < |s| && s[i] != ';'
    ensures var e := ElementAt(s, i, esc);
            && Pieces(s, i, esc, current) == Pieces(s, e.end, esc, current + Kept(s, i, e))
            && Cuts(s, i, esc) == Cuts(s, e.end, esc)
            && (!(i + 1 < |s| && s[i] == s[i + 1] == '-') ==> Kept(s, i, e) == s[i..e.end])
  {
    hide QuotedEnd, LineEnd, BlockEnd, DollarEnd, OpensTag, Flush;
  }

  lemma TerminatorPiece(s: string, n: nat, esc: QuoteEscapes, current: string)
    requires n < |s| && s[n] == ';'
    ensures Pieces(s, n, esc, current) == Flush(current) + Pieces(s, n + 1, esc, "")
    ensures Cuts(s, n, esc) == [n] + Cuts(s, n + 1, esc)
  {
    assert ElementAt(s, n, esc) == Element(Terminator, n + 1);
    hide ElementAt, Flush, Kept;
  }

  lemma LastPiece(s: string, esc: QuoteEscapes, current: string)
    ensures Pieces(s, |s|, esc, current) == Flush(current) + [] && Cuts(s, |s|, esc) == []
  {
    hide Flush;
  }

  lemma NothingBefore(s: string, esc: QuoteEscapes)
    ensures [] + Pieces(s, 0, esc, "") == Statements(s, esc) && [] + Cuts(s, 0, esc) == Cuts(s, 0, esc)
  {
    hide Pieces, Cuts;
  }

  /** One turn of the loop on anything but a terminator: where it ends and what is collected then. */
  method TakeElement(s: string, i: nat, esc: QuoteEscapes, current: string) returns (end: nat, out: string)
    requires i < |s| && s[i] != ';'
    ensures i < end <= |s|
    ensures Pieces(s, end, esc, out) == Pieces(s, i, esc, current)
    ensures Cuts(s, end, esc) == Cuts(s, i, esc)
  {
    ElementPiece(s, i, esc, current);
    hide Pieces, Cuts, Kept, QuotedEnd, LineEnd, BlockEnd, DollarEnd, OpensTag;
    var c := s[i];
    end := i + 1;
    if c == '-' && i + 1 < |s| && s[i + 1] == '-' {
      var newline;
      end, newline := TakeLineComment(s, i, esc);
      return end, current + newline;
    } else if IsQuote(c) {
      end := TakeQuoted(s, i, esc);
    } else if c == '/' && i + 1 < |s| && s[i + 1] == '*' {
      end := TakeBlockComment(s, i, esc);
    } else if c == '$' {
      var tag, isTag;
      end, tag, isTag := TakeTag(s, i);
      if isTag {
        end := TakeDollarBody(s, end, tag);
      } else {
        WordsStayPlain(s, i, end, esc, current);
      }
    }
    out := current + s[i..end];
  }

  /** `cuts` records where the loop found its terminators. */
  method SplitLoop(s: string, esc: QuoteEscapes) returns (statements: seq<string>, ghost cuts: seq<nat>)
    ensures statements == Statements(s, esc)
    ensures cuts == Cuts(s, 0, esc)
  {
    statements, cuts := [], [];
    var current := "";
    var i := 0;
    NothingBefore(s, esc);
    hide Pieces, Cuts, Statements, Flush;
    while i < |s|
      invariant 0 <= i <= |s|
      invariant statements + Pieces(s, i, esc, current) == Statements(s, esc)
      invariant cuts + Cuts(s, i, esc) == Cuts(s, 0, esc)
    {
      if s[i] == ';' {
        TerminatorPiece(s, i, esc, current);
        CutKeepsSum(cuts, i, Cuts(s, i + 1, esc));
        cuts := cuts + [i];
        PushKeepsSum(statements, current, Pieces(s, i + 1, esc, ""));
        var stmt := Trim(current);
        if stmt != "" { statements := statements + [stmt]; }
        current := "";
        i := i + 1;
      } else {
        i, current := TakeElement(s, i, esc, current);
      }
    }
    LastPiece(s, esc, current);
    PushKeepsSum(statements, current, []);
    var stmt := Trim(current);
    if stmt != "" { statements := statements + [stmt]; }
  }

  lemma CutKeepsSum(cuts: seq<nat>, i: nat, rest: seq<nat>)
    ensures (cuts + [i]) + rest == cuts + ([i] + rest)
  {}

  lemma PushKeepsSum(statements: seq<string>, current: string, rest: seq<string>)
    ensures (if Trim(current) != "" then statements + [Trim(current)] else statements) + rest ==
            statements + (Flush(current) + rest)
  {}

  /** A `$` that opens no tag, and the word after it, are taken over unchanged. */
  lemma {:induction false} WordsStayPlain(s: string, i: nat, j: nat, esc: QuoteEscapes, current: string)
    requires i < j <= |s|
    requires (s[i] == '$' && !OpensTag(s, i)) || IsWord(s[i])
    requires forall k :: i < k < j ==> IsWord(s[k])
    ensures Pieces(s, i, esc, current) == Pieces(s, j, esc, current + s[i..j])
    ensures Cuts(s, i, esc) == Cuts(s, j, esc)
    decreases j - i
  {
    assert ElementAt(s, i, esc) == Element(Plain, i + 1);
    ElementPiece(s, i, esc, current);
    hide Pieces, Cuts, Kept, ElementAt;
    if i + 1 < j {
      WordsStayPlain(s, i + 1, j, esc, current + s[i..i + 1]);
      JoinSlices(current, s, i, i + 1, j);
    }
  }

  lemma JoinSlices(head: string, s: string, i: nat, k: nat, j: nat)
    requires i <= k <= j <= |s|
    ensures head + s[i..k] + s[k..j] == head + s[i..j]
  {
    assert s[i..k] + s[k..j] == s[i..j];
  }
}
