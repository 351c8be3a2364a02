/** The classifier's whole view against the code that the splitter reads. */
module CodeAgreement {
  import opened Blanker
  import opened BlankerAgreement
  import opened Lexis
  import opened Text

  /** What one element of the splitter leaves: a literal spaces, a line comment its newline, a block comment a space. */
  function Leaves(s: string, i: nat, e: Element): string
    requires i < e.end <= |s|
  {
    if IsLiteral(e) then Spaces(e.end - i)
    else if e.kind == LineComment then if s[e.end - 1] == '\n' then "\n" else ""
    else if e.kind == BlockComment then " "
    else s[i..e.end]
  }

  /** The code that the splitter's elements leave of a text. */
  function CodeOf(s: string, i: nat, esc: QuoteEscapes): string
    requires i <= |s|
    decreases |s| - i
  {
    if i == |s| then "" else var e := ElementAt(s, i, esc); Leaves(s, i, e) + CodeOf(s, e.end, esc)
  }

  /** Where the blanker must stand again: at the newline that ends a line comment, at the mark that ends a block one. */
  function CommentStop(s: string, i: nat, e: Element): (p: nat)
    requires i < e.end <= |s|
    ensures p <= e.end
  {
    if e.kind == LineComment && s[e.end - 1] == '\n' then e.end - 1
    else if e.kind == BlockComment && e.end < |s| && e.end >= i + 2 then e.end - 2
    else e.end
  }

  /**
   From `i` on every dollar quote is closed, and whatever the blanker blanks in a comment ends before
   the comment does.
   */
  ghost predicate KeepsCode(s: string, i: nat, esc: QuoteEscapes)
    requires i <= |s|
    decreases |s| - i
  {
    i == |s|
    || (var e := ElementAt(s, i, esc);
        && (e.kind == DollarQuoted ==> OpensClosedTag(s, i))
        && (IsComment(e) ==> Reaches(s, i, CommentStop(s, i, e), esc))
        && KeepsCode(s, e.end, esc))
  }

  // ----- Blanking, position by position -----

  /** `b` is `s` blanked, and the blanker stands at `i`. */
  ghost predicate InStep(s: string, b: string, i: nat, esc: QuoteEscapes) {
    && i <= |s| == |b| && b[i..] == Blank(s, i, esc)
    && forall k :: 0 <= k < |s| ==> b[k] == s[k] || b[k] == ' '
  }

  lemma BlankInStep(s: string, esc: QuoteEscapes)
    ensures InStep(s, Blank(s, 0, esc), 0, esc)
  {
    var b := Blank(s, 0, esc);
    assert b[0..] == b;
    forall k | 0 <= k < |s| ensures b[k] == s[k] || b[k] == ' ' {
      BlankIsHarmless(s, 0, esc, b, k);
      assert Harmless(s, b, k);
    }
  }

  /** One turn of the blanker. */
  lemma TurnInStep(s: string, b: string, i: nat, esc: QuoteEscapes)
    requires InStep(s, b, i, esc) && i < |s|
    ensures var (j, blanks) := BlankStep(s, i, esc);
            && InStep(s, b, j, esc)
            && (blanks ==> forall k :: i <= k < j ==> b[k] == ' ')
            && (!blanks ==> j == i + 1 && b[i] == s[i])
  {
    var (j, blanks) := BlankStep(s, i, esc);
    assert !blanks ==> j == i + 1;
    BlankTurn(s, i, esc);
    assert b[i..] == Shown(s, i, esc) + Blank(s, j, esc);
    assert b[j..] == b[i..][j - i..];
    hide Blank, BlankStep;
    forall k | i <= k < j ensures b[k] == Shown(s, i, esc)[k - i] { assert b[i..][k - i] == b[k]; }
  }

  lemma {:induction false} ReachInStep(s: string, b: string, i: nat, p: nat, esc: QuoteEscapes)
    requires p <= |s| && InStep(s, b, i, esc) && Reaches(s, i, p, esc)
    ensures InStep(s, b, p, esc)
    decreases |s| - i
  {
    hide BlankStep, InStep;
    if i < p {
      TurnInStep(s, b, i, esc);
      ReachInStep(s, b, BlankStep(s, i, esc).0, p, esc);
    }
  }

  /** Text from `i` to `e` that the blanker copies. */
  lemma {:induction false} CopiedInStep(s: string, b: string, i: nat, e: nat, esc: QuoteEscapes)
    requires i <= e <= |s| && InStep(s, b, i, esc)
    requires forall k :: i <= k < e ==> !IsQuote(s[k]) && s[k] != '$'
    ensures InStep(s, b, e, esc) && forall k :: i <= k < e ==> b[k] == s[k]
    decreases e - i
  {
    if i < e {
      TurnInStep(s, b, i, esc);
      assert BlankStep(s, i, esc) == (i + 1, false);
      hide InStep, BlankStep;
      CopiedInStep(s, b, i + 1, e, esc);
    }
  }

  // ----- Removing comments from it -----

  lemma {:induction false} SpacesPass(b: string, i: nat, e: nat)
    requires i <= e <= |b| && forall k :: i <= k < e ==> b[k] == ' '
    ensures Uncommented(b, i) == Spaces(e - i) + Uncommented(b, e)
    decreases e - i
  {
    if i < e {
      SpacesPass(b, i + 1, e);
      assert Spaces(e - i) == [' '] + Spaces(e - i - 1);
      Regroup([' '], Spaces(e - i - 1), Uncommented(b, e));
    } else {
      assert Spaces(0) + Uncommented(b, e) == Uncommented(b, e);
    }
  }

  lemma {:induction false} LineStops(b: string, i: nat, n: nat)
    requires i <= n <= |b| && (n < |b| ==> b[n] == '\n') && forall k :: i <= k < n ==> b[k] != '\n'
    ensures LineEnd(b, i) == n
    decreases n - i
  {
    if i < n { LineStops(b, i + 1, n); }
  }

  /** Blanks inside a block comment leave its end where it is, as long as the closing mark shows. */
  lemma {:induction false} BlockStops(s: string, b: string, i: nat)
    requires i <= |s| == |b| && forall k :: 0 <= k < |s| ==> b[k] == s[k] || b[k] == ' '
    requires var n := BlockEnd(s, i); n < |s| ==> n >= i + 2 && b[n - 2] == '*' && b[n - 1] == '/'
    ensures BlockEnd(b, i) == BlockEnd(s, i)
    decreases |s| - i
  {
    if i < |s| {
      if s[i] == '*' && i + 1 < |s| && s[i + 1] == '/' {
        if i + 2 == |s| && BlockEnd(b, i) != |s| { BlockToTheEnd(b, i); }
      } else {
        ClosesLater(s, i);
        BlockStops(s, b, i + 1);
      }
    }
  }

  lemma BlockToTheEnd(b: string, i: nat)
    requires i + 2 == |b|
    ensures BlockEnd(b, i) == |b|
  {
    assert BlockEnd(b, i + 2) == |b|;
    assert BlockEnd(b, i + 1) == |b|;
  }

  lemma {:induction false} ClosesLater(s: string, i: nat)
    requires i < |s| && !(i + 1 < |s| && s[i] == '*' && s[i + 1] == '/')
    ensures BlockEnd(s, i) == BlockEnd(s, i + 1)
    ensures BlockEnd(s, i + 1) < |s| ==> BlockEnd(s, i + 1) >= i + 3
  {
    BlockIsWide(s, i + 1);
  }

  lemma {:induction false} BlockIsWide(s: string, i: nat)
    requires i <= |s|
    ensures var n := BlockEnd(s, i); n < |s| ==> n >= i + 2 && s[n - 2] == '*' && s[n - 1] == '/'
    decreases |s| - i
  {
    if i < |s| { BlockIsWide(s, i + 1); }
  }

  /** Where a line comment stops and ends. */
  lemma LineShape(s: string, i: nat, esc: QuoteEscapes) returns (p: nat)
    requires i < |s| && ElementAt(s, i, esc).kind == LineComment
    ensures var e := ElementAt(s, i, esc);
            && i + 2 <= p <= |s| && s[i] == s[i + 1] == '-' && p == CommentStop(s, i, e)
            && e.end == (if p < |s| then p + 1 else p) && (p < |s| ==> s[p] == '\n')
            && (s[e.end - 1] == '\n' <==> p < |s|)
    ensures forall k :: i + 2 <= k < p ==> s[k] != '\n'
  {
    p := LineEnd(s, i + 2);
    LineIsFree(s, i + 2);
    LineTail(s, i + 2);
    hide LineEnd, QuotedEnd, BlockEnd, DollarEnd, OpensTag;
  }

  /** Two characters that are no part of a literal. */
  lemma CopyTwo(s: string, b: string, i: nat, esc: QuoteEscapes)
    requires InStep(s, b, i, esc) && i + 1 < |s|
    requires s[i] in {'-', '/', '*'} && s[i + 1] in {'-', '/', '*'}
    ensures InStep(s, b, i + 2, esc) && b[i] == s[i] && b[i + 1] == s[i + 1]
  {
    CopiedInStep(s, b, i, i + 2, esc);
    hide InStep;
  }

  lemma CopyNewline(s: string, b: string, i: nat, esc: QuoteEscapes)
    requires InStep(s, b, i, esc) && i < |s| && s[i] == '\n'
    ensures InStep(s, b, i + 1, esc) && b[i] == '\n'
  {
    CopiedInStep(s, b, i, i + 1, esc);
    hide InStep;
  }

  lemma LineStep(b: string, i: nat, p: nat)
    requires i + 2 <= p <= |b| && b[i] == b[i + 1] == '-' && LineEnd(b, i + 2) == p
    ensures CommentStep(b, i) == if p < |b| then (p + 1, "\n") else (p, "")
  {
  }

  lemma BlockStep(b: string, i: nat)
    requires i + 2 <= |b| && b[i] == '/' && b[i + 1] == '*'
    ensures CommentStep(b, i) == (BlockEnd(b, i + 2), " ")
  {
  }

  /** A line comment whose newline shows is removed up to it. */
  lemma LineGone(s: string, b: string, i: nat, esc: QuoteEscapes)
    requires InStep(s, b, i, esc) && i < |s| && ElementAt(s, i, esc).kind == LineComment
    requires Reaches(s, i, CommentStop(s, i, ElementAt(s, i, esc)), esc)
    ensures var e := ElementAt(s, i, esc);
            InStep(s, b, e.end, esc) && CommentStep(b, i) == (e.end, Leaves(s, i, e))
  {
    hide *;
    SameLength(s, b, i, esc);
    var p := LineShape(s, i, esc);
    CopyTwo(s, b, i, esc);
    ReachInStep(s, b, i, p, esc);
    if p < |s| { CopyNewline(s, b, p, esc); }
    NoNewNewline(s, b, i + 2, p, esc);
    LineStops(b, i + 2, p);
    LineStep(b, i, p);
    LeavesNewline(s, i, ElementAt(s, i, esc));
  }

  lemma LeavesNewline(s: string, i: nat, e: Element)
    requires i < e.end <= |s|
    ensures e.kind == LineComment ==> Leaves(s, i, e) == if s[e.end - 1] == '\n' then "\n" else ""
    ensures e.kind == BlockComment ==> Leaves(s, i, e) == " "
    ensures IsLiteral(e) ==> Leaves(s, i, e) == Spaces(e.end - i)
    ensures e.kind == Plain || e.kind == Terminator ==> Leaves(s, i, e) == s[i..e.end]
  {
  }

  lemma NoNewNewline(s: string, b: string, i: nat, p: nat, esc: QuoteEscapes)
    requires InStep(s, b, p, esc) && i <= p && forall k :: i <= k < p ==> s[k] != '\n'
    ensures forall k :: i <= k < p ==> b[k] != '\n'
  {
  }

  /** Where a block comment stops and ends. */
  lemma BlockShape(s: string, i: nat, esc: QuoteEscapes) returns (p: nat)
    requires i < |s| && ElementAt(s, i, esc).kind == BlockComment
    ensures var e := ElementAt(s, i, esc);
            && i + 2 <= p <= |s| && s[i] == '/' && s[i + 1] == '*' && p == CommentStop(s, i, e)
            && e.end == BlockEnd(s, i + 2) == (if p < |s| then p + 2 else p)
            && (p < |s| ==> s[p] == '*' && s[p + 1] == '/')
  {
    BlockIsWide(s, i + 2);
    p := CommentStop(s, i, ElementAt(s, i, esc));
    hide QuotedEnd, LineEnd, DollarEnd, OpensTag;
  }

  /** A block comment whose closing mark shows is removed whole. */
  lemma BlockGone(s: string, b: string, i: nat, esc: QuoteEscapes)
    requires InStep(s, b, i, esc) && i < |s| && ElementAt(s, i, esc).kind == BlockComment
    requires Reaches(s, i, CommentStop(s, i, ElementAt(s, i, esc)), esc)
    ensures var e := ElementAt(s, i, esc);
            InStep(s, b, e.end, esc) && CommentStep(b, i) == (e.end, Leaves(s, i, e))
  {
    hide *;
    SameLength(s, b, i, esc);
    var p := BlockShape(s, i, esc);
    CopyTwo(s, b, i, esc);
    ReachInStep(s, b, i, p, esc);
    if p < |s| { CopyTwo(s, b, p, esc); }
    OnlyBlanked(s, b, i, esc);
    BlockStops(s, b, i + 2);
    BlockStep(b, i);
    LeavesNewline(s, i, ElementAt(s, i, esc));
  }

  lemma OnlyBlanked(s: string, b: string, i: nat, esc: QuoteEscapes)
    requires InStep(s, b, i, esc)
    ensures forall k :: 0 <= k < |s| ==> b[k] == s[k] || b[k] == ' '
  {
  }

  lemma {:induction false} LineTail(s: string, i: nat)
    requires 0 < i <= |s| && s[i - 1] != '\n'
    ensures LineEnd(s, i) == |s| ==> s[|s| - 1] != '\n'
    decreases |s| - i
  {
    if i < |s| && s[i] != '\n' { LineTail(s, i + 1); }
  }

  lemma CodeStays(s: string, b: string, i: nat, esc: QuoteEscapes)
    requires i < |s| == |b| && b[i] == s[i]
    requires ElementAt(s, i, esc).kind == Plain || ElementAt(s, i, esc).kind == Terminator
    requires i + 1 < |s| ==> b[i + 1] == s[i + 1] || b[i + 1] == ' '
    ensures CommentStep(b, i) == (i + 1, [s[i]]) && ElementAt(s, i, esc).end == i + 1
  {
  }

  lemma PlainEnd(s: string, i: nat, esc: QuoteEscapes)
    requires i < |s|
    ensures ElementAt(s, i, esc).kind == Plain || ElementAt(s, i, esc).kind == Terminator ==>
              ElementAt(s, i, esc).end == i + 1
  {
  }

  lemma CommentTurn(b: string, i: nat)
    requires i < |b|
    ensures Uncommented(b, i) == CommentStep(b, i).1 + Uncommented(b, CommentStep(b, i).0)
  {
  }

  lemma LiteralGone(s: string, b: string, i: nat, esc: QuoteEscapes)
    requires InStep(s, b, i, esc) && i < |s| && IsLiteral(ElementAt(s, i, esc))
    requires ElementAt(s, i, esc).kind == DollarQuoted ==> OpensClosedTag(s, i)
    ensures var e := ElementAt(s, i, esc);
            InStep(s, b, e.end, esc) && Uncommented(b, i) == Spaces(e.end - i) + Uncommented(b, e.end)
  {
    SameLength(s, b, i, esc);
    BlankStepIs(s, i, esc);
    TurnInStep(s, b, i, esc);
    hide *;
    SameLength(s, b, ElementAt(s, i, esc).end, esc);
    SpacesPass(b, i, ElementAt(s, i, esc).end);
  }

  lemma CharacterShows(s: string, b: string, i: nat, esc: QuoteEscapes)
    requires InStep(s, b, i, esc) && i < |s|
    requires ElementAt(s, i, esc).kind == Plain || ElementAt(s, i, esc).kind == Terminator
    ensures InStep(s, b, i + 1, esc) && CommentStep(b, i) == (i + 1, [s[i]]) && ElementAt(s, i, esc).end == i + 1
  {
    BlankStepIs(s, i, esc);
    PlainEnd(s, i, esc);
    TurnInStep(s, b, i, esc);
    CodeStays(s, b, i, esc);
    hide Blank, BlankStep, ElementAt, CommentStep;
  }

  lemma CharacterGone(s: string, b: string, i: nat, esc: QuoteEscapes)
    requires InStep(s, b, i, esc) && i < |s|
    requires ElementAt(s, i, esc).kind == Plain || ElementAt(s, i, esc).kind == Terminator
    ensures var e := ElementAt(s, i, esc);
            InStep(s, b, e.end, esc) && e.end <= |b| && Uncommented(b, i) == Leaves(s, i, e) + Uncommented(b, e.end)
  {
    hide *;
    SameLength(s, b, i, esc);
    CharacterShows(s, b, i, esc);
    CommentTurn(b, i);
    LeavesNewline(s, i, ElementAt(s, i, esc));
    assert s[i..i + 1] == [s[i]];
  }

  lemma CommentGone(s: string, b: string, i: nat, esc: QuoteEscapes)
    requires InStep(s, b, i, esc) && i < |s| && IsComment(ElementAt(s, i, esc))
    requires Reaches(s, i, CommentStop(s, i, ElementAt(s, i, esc)), esc)
    ensures var e := ElementAt(s, i, esc);
            InStep(s, b, e.end, esc) && e.end <= |b| && Uncommented(b, i) == Leaves(s, i, e) + Uncommented(b, e.end)
  {
    hide ElementAt, CommentStep, InStep, Reaches, Uncommented, CommentStop, Leaves;
    SameLength(s, b, i, esc);
    if ElementAt(s, i, esc).kind == LineComment { LineGone(s, b, i, esc); } else { BlockGone(s, b, i, esc); }
    CommentTurn(b, i);
  }

  /** What is left of each element. */
  lemma ElementGone(s: string, b: string, i: nat, esc: QuoteEscapes)
    requires InStep(s, b, i, esc) && i < |s|
    requires var e := ElementAt(s, i, esc);
             && (e.kind == DollarQuoted ==> OpensClosedTag(s, i))
             && (IsComment(e) ==> Reaches(s, i, CommentStop(s, i, e), esc))
    ensures var e := ElementAt(s, i, esc);
            InStep(s, b, e.end, esc) && e.end <= |b| && Uncommented(b, i) == Leaves(s, i, e) + Uncommented(b, e.end)
  {
    hide ElementAt, CommentStep, InStep, Reaches, OpensClosedTag, Uncommented, CommentStop, Leaves;
    var e := ElementAt(s, i, esc);
    SameLength(s, b, i, esc);
    if IsLiteral(e) {
      LiteralGone(s, b, i, esc);
      LeavesNewline(s, i, e);
    } else if IsComment(e) {
      CommentGone(s, b, i, esc);
    } else {
      CharacterGone(s, b, i, esc);
    }
  }

  lemma {:induction false} UncommentedIs(s: string, b: string, i: nat, esc: QuoteEscapes)
    requires InStep(s, b, i, esc) && KeepsCode(s, i, esc)
    ensures i <= |b| && Uncommented(b, i) == CodeOf(s, i, esc)
    decreases |s| - i
  {
    hide ElementAt, CommentStep, InStep, Reaches, OpensClosedTag, Leaves, CommentStop;
    SameLength(s, b, i, esc);
    if i < |s| {
      ElementGone(s, b, i, esc);
      UncommentedIs(s, b, ElementAt(s, i, esc).end, esc);
    }
  }

  lemma SameLength(s: string, b: string, i: nat, esc: QuoteEscapes)
    requires InStep(s, b, i, esc)
    ensures i <= |s| == |b|
  {
  }

  /**
   For every text and both modes: where every dollar quote is closed and whatever is blanked in a comment
   ends inside it, the classifier sees exactly the code the splitter's elements leave.
   */
  lemma CodeViewIsTheSplittersCode(s: string, esc: QuoteEscapes)
    requires KeepsCode(s, 0, esc)
    ensures CodeView(s, esc) == CodeOf(s, 0, esc)
  {
    hide KeepsCode, Blank, InStep;
    BlankInStep(s, esc);
    UncommentedIs(s, Blank(s, 0, esc), 0, esc);
  }

  /** Wherever blanking agrees with the splitter outright, that holds. */
  lemma {:induction false} AgreeableKeepsCode(s: string, i: nat, esc: QuoteEscapes)
    requires i <= |s| && Agreeable(s, i, esc)
    ensures KeepsCode(s, i, esc)
    decreases |s| - i
  {
    if i < |s| {
      var e := ElementAt(s, i, esc);
      hide ElementAt, Catches, OpensClosedTag;
      if IsComment(e) { UncaughtReaches(s, i, CommentStop(s, i, e), esc); }
      AgreeableKeepsCode(s, e.end, esc);
    }
  }

  lemma {:induction false} UncaughtReaches(s: string, i: nat, p: nat, esc: QuoteEscapes)
    requires i <= p <= |s| && forall k :: i <= k < p ==> !Catches(s, k)
    ensures Reaches(s, i, p, esc)
    decreases p - i
  {
    if i < p {
      assert BlankStep(s, i, esc) == (i + 1, false) by { assert !Catches(s, i); }
      hide BlankStep, Catches;
      UncaughtReaches(s, i + 1, p, esc);
    }
  }

  // ----- The condition is not necessary -----

  const ALL_COMMENT := "/*'*/--"

  /** The literal that the blanker opens in the first comment swallows its end, and a second comment hides that. */
  lemma SwallowedEndCanHide()
    ensures !KeepsCode(ALL_COMMENT, 0, Standard)
    ensures CodeView(ALL_COMMENT, Standard) == CodeOf(ALL_COMMENT, 0, Standard) == " "
  {
    SwallowRead();
    SwallowBlank();
    SwallowView();
    hide ElementAt, BlankStep, Blank, Uncommented, CodeOf, ALL_COMMENT;
    assert !Reaches(ALL_COMMENT, 2, 3, Standard);
    assert !Reaches(ALL_COMMENT, 1, 3, Standard);
    assert !Reaches(ALL_COMMENT, 0, 3, Standard);
  }

  lemma SwallowRead()
    ensures |ALL_COMMENT| == 7 && ElementAt(ALL_COMMENT, 0, Standard) == Element(BlockComment, 5)
    ensures CommentStop(ALL_COMMENT, 0, Element(BlockComment, 5)) == 3
    ensures CodeOf(ALL_COMMENT, 0, Standard) == " "
  {
    var s := ALL_COMMENT;
    assert BlockEnd(s, 2) == BlockEnd(s, 3) == 5;
    assert LineEnd(s, 7) == 7;
    assert ElementAt(s, 5, Standard) == Element(LineComment, 7);
    hide ElementAt, BlockEnd, LineEnd;
    assert CodeOf(s, 7, Standard) == "";
    assert CodeOf(s, 5, Standard) == "" + "";
    assert CodeOf(s, 0, Standard) == " " + "";
  }

  lemma SwallowSteps()
    ensures BlankStep(ALL_COMMENT, 0, Standard) == (1, false) && BlankStep(ALL_COMMENT, 1, Standard) == (2, false)
    ensures BlankStep(ALL_COMMENT, 2, Standard) == (7, true)
  {
    var s := ALL_COMMENT;
    assert QuotedEnd(s, 3, '\'', Standard) == QuotedEnd(s, 5, '\'', Standard) == QuotedEnd(s, 7, '\'', Standard) == 7;
    hide OpensTag, TagCloses, DollarEnd;
  }

  lemma SwallowBlank()
    ensures BlankStep(ALL_COMMENT, 0, Standard) == (1, false) && BlankStep(ALL_COMMENT, 1, Standard) == (2, false)
    ensures BlankStep(ALL_COMMENT, 2, Standard) == (7, true)
    ensures Blank(ALL_COMMENT, 0, Standard) == "/*     "
  {
    var s := ALL_COMMENT;
    SwallowSteps();
    hide BlankStep;
    BlankTurn(s, 2, Standard);
    BlankTurn(s, 1, Standard);
    BlankTurn(s, 0, Standard);
    assert Blank(s, 7, Standard) == "";
    hide Blank;
    assert Blank(s, 2, Standard) == Spaces(5) + "";
    assert Blank(s, 1, Standard) == "*" + Spaces(5);
    assert Blank(s, 0, Standard) == "/" + ("*" + Spaces(5));
  }

  lemma SwallowView()
    ensures Uncommented("/*     ", 0) == " "
  {
    var b := "/*     ";
    assert BlockEnd(b, 7) == 7;
    assert BlockEnd(b, 2) == BlockEnd(b, 3) == BlockEnd(b, 4) == BlockEnd(b, 5) == BlockEnd(b, 6) == 7;
    assert CommentStep(b, 0) == (7, " ");
    assert Uncommented(b, 7) == "";
    assert Uncommented(b, 0) == " " + "";
  }
}
