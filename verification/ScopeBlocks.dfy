/** The frame forest is the stack of open query blocks. */
module ScopeBlocks {
  import opened Scope
  import opened Options

  /** A query block: the whole statement, or the block opened by item `at` inside another. */
  datatype Block = Statement | Inside(at: nat, outer: Block)

  predicate Opens(item: Item) { item.LParen? || item.SetOperator? }

  /** The innermost open block when every `)` closes one block. */
  ghost function Open(items: seq<Item>, i: nat): Block
    requires i <= |items|
  {
    if i == 0 then Statement
    else
      var b := Open(items, i - 1);
      if Opens(items[i - 1]) then Inside(i - 1, b)
      else if items[i - 1].RParen? && b.Inside? then b.outer
      else b
  }

  /** The blocks left when a `)` closes the nearest parenthesis with every arm inside it. */
  ghost function Close(items: seq<Item>, b: Block): Option<Block> {
    if b.Statement? || b.at >= |items| then None
    else if items[b.at].LParen? then Some(b.outer)
    else Close(items, b.outer)
  }

  /** The innermost block open by the grammar: an unmatched `)` closes nothing. */
  ghost function Lexical(items: seq<Item>, i: nat): Block
    requires i <= |items|
  {
    if i == 0 then Statement
    else
      var b := Lexical(items, i - 1);
      if Opens(items[i - 1]) then Inside(i - 1, b)
      else if items[i - 1].RParen? then Close(items, b).UnwrapOr(b)
      else b
  }

  predicate IsArm(items: seq<Item>, b: Block) {
    b.Inside? && b.at < |items| && items[b.at].SetOperator?
  }

  /** No `)` is met while a set-operation arm is the innermost block. */
  ghost predicate ArmsStayOpen(items: seq<Item>, n: nat)
    requires n <= |items|
  {
    forall j :: 0 <= j < n && items[j].RParen? ==> !IsArm(items, Lexical(items, j))
  }

  /** A block on the stack was opened before now, in the block it is in. */
  lemma {:induction false} BlockIsReal(items: seq<Item>, i: nat)
    requires i <= |items|
    ensures var b := Open(items, i);
            b.Inside? ==> b.at < i && Opens(items[b.at]) && b.outer == Open(items, b.at)
    decreases i
  {
    if i > 0 {
      BlockIsReal(items, i - 1);
      var b := Open(items, i - 1);
      if items[i - 1].RParen? && b.Inside? { BlockIsReal(items, b.at); }
    }
  }

  // ----- One `)` closes one block: when that is right -----

  lemma {:induction false} SameBlock(items: seq<Item>, i: nat)
    requires i <= |items| && ArmsStayOpen(items, i)
    ensures Open(items, i) == Lexical(items, i)
  {
    if i > 0 {
      SameBlock(items, i - 1);
      BlockIsReal(items, i - 1);
    }
  }

  /** A `)` after an arm leaves the wrong block open. */
  lemma {:induction false} ClosedArm(items: seq<Item>, j: nat)
    requires j < |items| && items[j].RParen? && IsArm(items, Lexical(items, j))
    requires Open(items, j) == Lexical(items, j)
    ensures Open(items, j + 1) != Lexical(items, j + 1)
  {
    var b := Lexical(items, j);
    CloseShrinks(items, b.outer);
    assert Open(items, j + 1) == b.outer;
    assert Lexical(items, j + 1) == Close(items, b.outer).UnwrapOr(b);
    assert Height(b.outer) < Height(b);
  }

  ghost function Height(b: Block): nat { if b.Statement? then 0 else 1 + Height(b.outer) }

  lemma {:induction false} CloseShrinks(items: seq<Item>, b: Block)
    ensures Close(items, b).Some? ==> Height(Close(items, b).value) < Height(b)
  {
    if b.Inside? { CloseShrinks(items, b.outer); }
  }

  lemma DiffersSomewhere(items: seq<Item>, j: nat)
    requires j <= |items| && Open(items, j) != Lexical(items, j)
    ensures !(forall i :: 0 <= i <= |items| ==> Open(items, i) == Lexical(items, i))
  {
  }

  /** The frames stand for the open blocks at every position exactly when no `)` meets an arm. */
  lemma StackIsLexicalIff(items: seq<Item>)
    ensures (forall i :: 0 <= i <= |items| ==> Open(items, i) == Lexical(items, i))
            <==> ArmsStayOpen(items, |items|)
  {
    hide Open, Lexical;
    if ArmsStayOpen(items, |items|) {
      forall i | 0 <= i <= |items| ensures Open(items, i) == Lexical(items, i) {
        SameBlock(items, i);
      }
    } else {
      var j :| 0 <= j < |items| && items[j].RParen? && IsArm(items, Lexical(items, j));
      if Open(items, j) == Lexical(items, j) {
        ClosedArm(items, j);
        DiffersSomewhere(items, j + 1);
      } else {
        DiffersSomewhere(items, j);
      }
    }
  }

  // ----- Frames stand for blocks -----

  /** The frame of a block. */
  ghost function Slot(items: seq<Item>, b: Block): nat {
    if b.Statement? || b.at > |items| then 0 else |StateAt(items, b.at).frames|
  }

  ghost predicate IsBlock(items: seq<Item>, b: Block, n: nat)
    requires n <= |items|
  {
    b.Inside? ==> b.at < n && Opens(items[b.at]) && b.outer == Open(items, b.at)
  }

  /** How many leading tables of its parent a block hides. */
  ghost function Hidden(items: seq<Item>, p: nat): nat
    requires p < |items|
  {
    if items[p].LParen? then 0
    else
      var st := StateAt(items, p);
      var scope := st.frames[st.top].scope;
      NonCteTables(scope.tables, scope.ctes)
  }

  lemma NewFrame(items: seq<Item>, p: nat)
    requires p < |items| && Opens(items[p])
    ensures StateAt(items, p + 1).frames
            == StateAt(items, p).frames + [Frame(StateAt(items, p).top, Hidden(items, p), EMPTY_SCOPE)]
  {
  }

  /** A frame keeps its parent and what it hides. */
  lemma {:induction false} FrameKept(items: seq<Item>, p: nat, n: nat)
    requires p < n <= |items| && Opens(items[p])
    ensures var f := |StateAt(items, p).frames|;
            && f < |StateAt(items, n).frames|
            && StateAt(items, n).frames[f].parent == StateAt(items, p).top
            && StateAt(items, n).frames[f].hiddenPrefix == Hidden(items, p)
    decreases n
  {
    hide Hidden;
    if n == p + 1 {
      NewFrame(items, p);
    } else {
      FrameKept(items, p, n - 1);
      StepKeeps(StateAt(items, n - 1), items[n - 1], |StateAt(items, p).frames|);
    }
  }

  /** One step leaves every frame's links alone, and every scope but the top one's. */
  lemma StepKeeps(st: State, item: Item, f: nat)
    requires Valid(st) && f < |st.frames|
    ensures var r := Step(st, item);
            && f < |r.frames|
            && r.frames[f].parent == st.frames[f].parent && r.frames[f].hiddenPrefix == st.frames[f].hiddenPrefix
            && (f != st.top || !item.Names? ==> r.frames[f] == st.frames[f])
  {
    hide AddAll, NonCteTables;
  }

  lemma TopAfterPop(items: seq<Item>, i: nat)
    requires 0 < i <= |items| && items[i - 1].RParen?
    requires Open(items, i - 1).Inside? && IsBlock(items, Open(items, i - 1), i - 1)
    requires StateAt(items, i - 1).top == Slot(items, Open(items, i - 1))
    requires StateAt(items, Open(items, i - 1).at).top == Slot(items, Open(items, i - 1).outer)
    ensures StateAt(items, i).top == Slot(items, Open(items, i))
  {
    var b := Open(items, i - 1);
    FrameKept(items, b.at, i - 1);
  }

  /** The top frame is the frame of the innermost open block. */
  lemma {:induction false} TopIsInnermost(items: seq<Item>, i: nat)
    requires i <= |items|
    ensures StateAt(items, i).top == Slot(items, Open(items, i))
    decreases i
  {
    if i > 0 {
      TopIsInnermost(items, i - 1);
      BlockIsReal(items, i - 1);
      var b := Open(items, i - 1);
      if items[i - 1].RParen? {
        if b.Inside? {
          TopIsInnermost(items, b.at);
          TopAfterPop(items, i);
        }
      }
    }
  }

  /** Following parents from the cursor's frame visits the frames of the enclosing blocks, inside out. */
  lemma ParentIsOuter(items: seq<Item>, b: Block)
    requires b.Inside? && IsBlock(items, b, |items|)
    ensures var f := Slot(items, b);
            && f < |FinalFrames(items)|
            && FinalFrames(items)[f].parent == Slot(items, b.outer)
            && FinalFrames(items)[f].hiddenPrefix == Hidden(items, b.at)
  {
    FrameKept(items, b.at, |items|);
    TopIsInnermost(items, b.at);
  }

  /** Distinct blocks have distinct frames. */
  lemma SlotsDiffer(items: seq<Item>, b: Block, c: Block)
    requires IsBlock(items, b, |items|) && IsBlock(items, c, |items|) && b != c
    ensures Slot(items, b) != Slot(items, c)
  {
    if b.Inside? && c.Inside? {
      var p, q := if b.at < c.at then b.at else c.at, if b.at < c.at then c.at else b.at;
      if p < q {
        NewFrame(items, p);
        FramesGrow(items, p + 1, q);
      }
    }
  }

  lemma SlotInRange(items: seq<Item>, b: Block, n: nat)
    requires n <= |items| && IsBlock(items, b, n)
    ensures Slot(items, b) < |StateAt(items, n).frames|
  {
    if b.Inside? { FrameKept(items, b.at, n); }
  }
}
