/** Which tables a cursor sees, in terms of the query blocks alone, on statements without a `WITH`. */
module ScopeVisibility {
  import opened Scope
  import opened ScopeBlocks
  import opened Options

  ghost predicate NoWith(items: seq<Item>) {
    forall k :: 0 <= k < |items| && items[k].Names? ==> items[k].ctes == []
  }

  function NameOf(a: Addition): string { match a case Add(t) => t.name case AddVirtual(n) => n }

  predicate Mentions(adds: seq<Addition>, name: string) {
    exists k :: 0 <= k < |adds| && NameOf(adds[k]) == name
  }

  /** Does this item's table list name `name`? */
  predicate Declares(item: Item, name: string) { item.Names? && Mentions(item.adds, name) }

  /**
   Does a cursor in block `b` see what `target` declares? `target` is `b` or encloses it, and the
   block just inside it is a parenthesis, not an arm of its set operation.
   */
  predicate Sees(items: seq<Item>, b: Block, target: Block, hidden: bool) {
    || (b == target && !hidden)
    || (b.Inside? && Sees(items, b.outer, target, IsArm(items, b)))
  }

  predicate Encloses(target: Block, b: Block) {
    b == target || (b.Inside? && Encloses(target, b.outer))
  }

  // ----- Table lists -----

  lemma {:induction false} AddedNames(s: QueryScope, adds: seq<Addition>, name: string)
    ensures HasTableNamed(AddAll(s, adds).tables, name) <==> HasTableNamed(s.tables, name) || Mentions(adds, name)
    decreases |adds|
  {
    if adds == [] {
    } else {
      AddedNames(AddOne(s, adds[0]), adds[1..], name);
      AddedName(s, adds[0], name);
      assert Mentions(adds, name) <==> NameOf(adds[0]) == name || Mentions(adds[1..], name) by {
        if Mentions(adds, name) && NameOf(adds[0]) != name {
          var k :| 0 <= k < |adds| && NameOf(adds[k]) == name;
          assert adds[1..][k - 1] == adds[k];
        }
        if Mentions(adds[1..], name) {
          var k :| 0 <= k < |adds[1..]| && NameOf(adds[1..][k]) == name;
          assert adds[k + 1] == adds[1..][k];
        }
      }
    }
  }

  lemma Appended(tables: seq<TableRef>, t: TableRef, name: string)
    ensures HasTableNamed(tables + [t], name) <==> HasTableNamed(tables, name) || t.name == name
  {
    if HasTableNamed(tables, name) {
      var k :| 0 <= k < |tables| && tables[k].name == name;
      assert (tables + [t])[k].name == name;
    }
    if t.name == name { assert (tables + [t])[|tables|].name == name; }
  }

  lemma TableAdded(s: QueryScope, t: TableRef, name: string)
    ensures HasTableNamed(AddTable(s, t).tables, name) <==> HasTableNamed(s.tables, name) || t.name == name
  {
    Appended(s.tables, t, name);
    if t in s.tables && t.name == name {
      var k :| 0 <= k < |s.tables| && s.tables[k] == t;
      assert s.tables[k].name == name;
    }
  }

  lemma AddedName(s: QueryScope, a: Addition, name: string)
    ensures HasTableNamed(AddOne(s, a).tables, name) <==> HasTableNamed(s.tables, name) || NameOf(a) == name
  {
    match a
    case Add(t) => TableAdded(s, t, name);
    case AddVirtual(n) => Appended(s.tables, TableRef(n, None, None), name);
  }

  lemma {:induction false} CollectedNames(s: QueryScope, tables: seq<TableRef>, name: string)
    ensures HasTableNamed(AddTables(s, tables).tables, name)
            <==> HasTableNamed(s.tables, name) || HasTableNamed(tables, name)
    decreases |tables|
  {
    if tables == [] {
    } else {
      CollectedNames(AddTable(s, tables[0]), tables[1..], name);
      TableAdded(s, tables[0], name);
      assert HasTableNamed(tables, name) <==> tables[0].name == name || HasTableNamed(tables[1..], name) by {
        if HasTableNamed(tables, name) && tables[0].name != name {
          var k :| 0 <= k < |tables| && tables[k].name == name;
          assert tables[1..][k - 1].name == name;
        }
        if HasTableNamed(tables[1..], name) {
          var k :| 0 <= k < |tables[1..]| && tables[1..][k].name == name;
          assert tables[k + 1].name == name;
        }
      }
    }
  }

  lemma {:induction false} NoNames(tables: seq<TableRef>)
    ensures NonCteTables(tables, []) == |tables|
    decreases |tables|
  {
    if tables != [] { NoNames(tables[1..]); }
  }

  // ----- What a block's frame holds -----

  /** Is `name` declared in block `b` before item `n`? */
  ghost predicate DeclaredIn(items: seq<Item>, b: Block, name: string, n: nat)
    requires n <= |items|
  {
    exists k :: 0 <= k < n && Open(items, k) == b && Declares(items[k], name)
  }

  lemma DeclaredNext(items: seq<Item>, b: Block, name: string, n: nat)
    requires 0 < n <= |items|
    ensures DeclaredIn(items, b, name, n)
            <==> DeclaredIn(items, b, name, n - 1) || (Open(items, n - 1) == b && Declares(items[n - 1], name))
  {
    hide Open, Declares;
    if DeclaredIn(items, b, name, n) {
      var k :| 0 <= k < n && Open(items, k) == b && Declares(items[k], name);
    }
    if DeclaredIn(items, b, name, n - 1) {
      var k :| 0 <= k < n - 1 && Open(items, k) == b && Declares(items[k], name);
    }
  }

  /** Nothing is declared in a block before it opens. */
  lemma NotYet(items: seq<Item>, b: Block, name: string)
    requires IsBlock(items, b, |items|)
    ensures DeclaredIn(items, b, name, if b.Inside? then b.at + 1 else 0) == false
  {
    if b.Inside? {
      forall k | 0 <= k < b.at + 1 ensures Open(items, k) != b {
        BlockIsReal(items, k);
      }
    }
  }

  lemma {:induction false} NoCtes(items: seq<Item>, n: nat, f: nat)
    requires NoWith(items) && n <= |items| && f < |StateAt(items, n).frames|
    ensures StateAt(items, n).frames[f].scope.ctes == []
  {
    if n > 0 {
      var st := StateAt(items, n - 1);
      if f < |st.frames| { NoCtes(items, n - 1, f); }
      hide NonCteTables;
      match items[n - 1]
      case Names(ctes, adds) => assert items[n - 1].ctes == [];
      case _ =>
    }
  }

  lemma RegisteredNames(st: State, item: Item, f: nat, name: string)
    requires Valid(st) && f < |st.frames|
    ensures f < |Step(st, item).frames|
    ensures HasTableNamed(Step(st, item).frames[f].scope.tables, name)
            <==> HasTableNamed(st.frames[f].scope.tables, name) || (f == st.top && Declares(item, name))
  {
    hide HasTableNamed, Mentions, NonCteTables;
    StepKeeps(st, item, f);
    if item.Names? && f == st.top {
      var scope := st.frames[f].scope;
      AddedNames(scope.(ctes := scope.ctes + item.ctes), item.adds, name);
    }
  }

  lemma NewFrameIsEmpty(items: seq<Item>, b: Block, name: string)
    requires IsBlock(items, b, |items|)
    ensures var n := if b.Inside? then b.at + 1 else 0;
            && Slot(items, b) < |StateAt(items, n).frames|
            && !HasTableNamed(StateAt(items, n).frames[Slot(items, b)].scope.tables, name)
  {
    if b.Inside? { NewFrame(items, b.at); }
  }

  /** One more item: the block's frame gains what the item declares there. */
  lemma OneMoreItem(items: seq<Item>, b: Block, name: string, n: nat)
    requires 0 < n <= |items| && IsBlock(items, b, n - 1)
    ensures Slot(items, b) < |StateAt(items, n - 1).frames| && Slot(items, b) < |StateAt(items, n).frames|
    ensures HasTableNamed(StateAt(items, n).frames[Slot(items, b)].scope.tables, name)
            <==> HasTableNamed(StateAt(items, n - 1).frames[Slot(items, b)].scope.tables, name)
                 || (Open(items, n - 1) == b && Declares(items[n - 1], name))
  {
    hide Declares, HasTableNamed, Open, Step, Slot;
    SlotInRange(items, b, n - 1);
    RegisteredNames(StateAt(items, n - 1), items[n - 1], Slot(items, b), name);
    TopIsInnermost(items, n - 1);
    OpenIsBlock(items, n - 1);
    if Open(items, n - 1) != b { SlotsDiffer(items, b, Open(items, n - 1)); }
  }

  lemma BlockBefore(items: seq<Item>, b: Block, n: nat)
    requires n <= |items| && IsBlock(items, b, n)
    ensures IsBlock(items, b, |items|)
    ensures n != (if b.Inside? then b.at + 1 else 0) ==> n > 0 && IsBlock(items, b, n - 1)
  {
    hide Open, Opens;
  }

  /** A frame's tables are the names its block has declared so far. */
  lemma {:induction false} BlockTables(items: seq<Item>, b: Block, name: string, n: nat)
    requires n <= |items| && IsBlock(items, b, n)
    ensures Slot(items, b) < |StateAt(items, n).frames|
    ensures HasTableNamed(StateAt(items, n).frames[Slot(items, b)].scope.tables, name)
            <==> DeclaredIn(items, b, name, n)
    decreases n
  {
    hide *;
    BlockBefore(items, b, n);
    if n == (if b.Inside? then b.at + 1 else 0) {
      NotYet(items, b, name);
      NewFrameIsEmpty(items, b, name);
    } else {
      BlockTables(items, b, name, n - 1);
      DeclaredNext(items, b, name, n);
      OneMoreItem(items, b, name, n);
    }
  }

  lemma OpenIsBlock(items: seq<Item>, i: nat)
    requires i <= |items|
    ensures IsBlock(items, Open(items, i), i)
  {
    BlockIsReal(items, i);
  }

  // ----- An arm's block never comes back -----

  /** Once a set operator is met, its arm encloses everything that follows. */
  lemma {:induction false} ArmStays(items: seq<Item>, p: nat, n: nat)
    requires p < n <= |items| && items[p].SetOperator? && ArmsStayOpen(items, |items|)
    ensures Encloses(Inside(p, Open(items, p)), Open(items, n))
    decreases n
  {
    if n > p + 1 {
      ArmStays(items, p, n - 1);
      SameBlock(items, n - 1);
    }
  }

  lemma {:induction false} EnclosedIsLater(items: seq<Item>, p: nat, b: Block, n: nat)
    requires p < n <= |items| && IsBlock(items, b, n) && Encloses(Inside(p, Open(items, p)), b)
    ensures b.Inside? && p <= b.at
    decreases n
  {
    if b != Inside(p, Open(items, p)) {
      OpenIsBlock(items, b.at);
      if p < b.at {
        EnclosedIsLater(items, p, b.outer, b.at);
      } else {
        NotEnclosedEarly(items, p, b.outer, b.at);
      }
    }
  }

  lemma {:induction false} NotEnclosedEarly(items: seq<Item>, p: nat, b: Block, n: nat)
    requires n <= |items| && IsBlock(items, b, n) && n <= p <= |items|
    ensures !Encloses(Inside(p, Open(items, p)), b)
    decreases n
  {
    if b.Inside? {
      OpenIsBlock(items, b.at);
      NotEnclosedEarly(items, p, b.outer, b.at);
    }
  }

  lemma {:induction false} FrameQuiet(items: seq<Item>, f: nat, p: nat, n: nat)
    requires p <= n <= |items| && f < |StateAt(items, p).frames|
    requires forall k :: p <= k < n ==> StateAt(items, k).top != f || !items[k].Names?
    ensures f < |StateAt(items, n).frames| && StateAt(items, n).frames[f] == StateAt(items, p).frames[f]
    decreases n
  {
    if n > p {
      FrameQuiet(items, f, p, n - 1);
      StepKeeps(StateAt(items, n - 1), items[n - 1], f);
    }
  }

  /** After a set operator the block it splits is never the innermost one again. */
  lemma NeverInnermostAgain(items: seq<Item>, p: nat, k: nat)
    requires p < k <= |items| && items[p].SetOperator? && ArmsStayOpen(items, |items|)
    ensures StateAt(items, k).top != StateAt(items, p).top
  {
    ArmStays(items, p, k);
    OpenIsBlock(items, k);
    OpenIsBlock(items, p);
    EnclosedIsLater(items, p, Open(items, k), k);
    TopIsInnermost(items, k);
    TopIsInnermost(items, p);
    SlotsDiffer(items, Open(items, k), Open(items, p));
  }

  /** An arm hides every table of the block it splits. */
  lemma ArmHidesAll(items: seq<Item>, p: nat)
    requires p < |items| && items[p].SetOperator? && NoWith(items) && ArmsStayOpen(items, |items|)
    ensures var f := StateAt(items, p).top;
            f < |FinalFrames(items)| && Drop(FinalFrames(items)[f].scope.tables, Hidden(items, p)) == []
  {
    var f := StateAt(items, p).top;
    forall k | p <= k < |items| ensures StateAt(items, k).top != f || !items[k].Names? {
      if k > p { NeverInnermostAgain(items, p, k); }
    }
    FrameQuiet(items, f, p, |items|);
    NoCtes(items, p, f);
    NoNames(StateAt(items, p).frames[f].scope.tables);
  }

  // ----- The walk -----

  ghost predicate SeesName(items: seq<Item>, b: Block, hidden: bool, name: string) {
    exists k :: 0 <= k < |items| && Declares(items[k], name) && Sees(items, b, Open(items, k), hidden)
  }

  lemma SeesNameHereOrOut(items: seq<Item>, b: Block, hidden: bool, name: string)
    ensures SeesName(items, b, hidden, name)
            <==> (!hidden && DeclaredIn(items, b, name, |items|))
                 || (b.Inside? && SeesName(items, b.outer, IsArm(items, b), name))
  {
    hide Declares, Open;
    if SeesName(items, b, hidden, name) {
      var k :| 0 <= k < |items| && Declares(items[k], name) && Sees(items, b, Open(items, k), hidden);
    }
    if !hidden && DeclaredIn(items, b, name, |items|) {
      var k :| 0 <= k < |items| && Open(items, k) == b && Declares(items[k], name);
      assert Sees(items, b, Open(items, k), hidden);
    }
    if b.Inside? && SeesName(items, b.outer, IsArm(items, b), name) {
      var k :| 0 <= k < |items| && Declares(items[k], name) && Sees(items, b.outer, Open(items, k), IsArm(items, b));
      assert Sees(items, b, Open(items, k), hidden);
    }
  }

  /** What one frame of the walk adds. */
  lemma FrameAdds(items: seq<Item>, b: Block, skip: nat, visible: QueryScope, name: string)
    requires IsBlock(items, b, |items|) && NoWith(items)
    ensures Slot(items, b) < |FinalFrames(items)|
    ensures var s := FinalFrames(items)[Slot(items, b)].scope;
            && (HasTableNamed(AddTables(visible, Drop(s.tables, skip)).tables, name)
                <==> HasTableNamed(visible.tables, name) || HasTableNamed(Drop(s.tables, skip), name))
            && (skip == 0 ==> (HasTableNamed(Drop(s.tables, skip), name) <==> DeclaredIn(items, b, name, |items|)))
            && s.ctes == []
  {
    hide Declares, HasTableNamed, DeclaredIn, Open, AddTables;
    SlotInRange(items, b, |items|);
    BlockTables(items, b, name, |items|);
    NoCtes(items, |items|, Slot(items, b));
    CollectedNames(visible, Drop(FinalFrames(items)[Slot(items, b)].scope.tables, skip), name);
  }

  lemma {:induction false} WalkNames(items: seq<Item>, b: Block, skip: nat, hidden: bool, visible: QueryScope,
                                     name: string)
    requires IsBlock(items, b, |items|) && NoWith(items) && ArmsStayOpen(items, |items|)
    requires Slot(items, b) < |FinalFrames(items)|
    requires if hidden then Drop(FinalFrames(items)[Slot(items, b)].scope.tables, skip) == [] else skip == 0
    ensures HasTableNamed(Walk(FinalFrames(items), Slot(items, b), skip, visible).tables, name)
            <==> HasTableNamed(visible.tables, name) || SeesName(items, b, hidden, name)
    decreases b
  {
    hide Declares, DeclaredIn, Open, AddTables, FinalFrames, ArmsStayOpen, SeesName;
    FrameAdds(items, b, skip, visible, name);
    SeesNameHereOrOut(items, b, hidden, name);
    var v := AddTables(visible, Drop(FinalFrames(items)[Slot(items, b)].scope.tables, skip));
    assert AddCtes(v, []) == v;
    if b.Inside? {
      ParentIsOuter(items, b);
      OuterIsBlock(items, b);
      SlotInRange(items, b.outer, |items|);
      if IsArm(items, b) { ArmHidesAll(items, b.at); TopIsInnermost(items, b.at); }
      NotRoot(items, b);
      WalkNames(items, b.outer, Hidden(items, b.at), IsArm(items, b), v, name);
    }
  }

  lemma OuterIsBlock(items: seq<Item>, b: Block)
    requires b.Inside? && IsBlock(items, b, |items|)
    ensures IsBlock(items, b.outer, |items|)
  {
    OpenIsBlock(items, b.at);
  }

  lemma NotRoot(items: seq<Item>, b: Block)
    requires b.Inside? && b.at <= |items|
    ensures Slot(items, b) > 0
  {
  }

  // ----- The visible tables -----

  /** The block a cursor stands in; past the items it stands in the statement's own block. */
  ghost function CursorBlock(items: seq<Item>, c: nat): Block {
    if c < |items| then Lexical(items, c) else Statement
  }

  /** Does item `k` name `name` in a block that the cursor sees into? */
  ghost predicate VisibleFrom(items: seq<Item>, c: nat, k: nat, name: string)
    requires k < |items|
  {
    Declares(items[k], name) && Sees(items, CursorBlock(items, c), Lexical(items, k), false)
  }

  /**
   Without `WITH`, and when no `)` meets an arm: a cursor sees a table name exactly when an open
   block that it can see into names it somewhere, before or after the cursor.
   */
  lemma VisibleTables(items: seq<Item>, c: nat, name: string)
    requires NoWith(items) && ArmsStayOpen(items, |items|)
    ensures HasTableNamed(Resolve(items, Some(c)).tables, name)
            <==> exists k :: 0 <= k < |items| && VisibleFrom(items, c, k, name)
  {
    hide Walk;
    var b := if c < |items| then Open(items, c) else Statement;
    if c < |items| {
      OpenIsBlock(items, c);
      SameBlock(items, c);
      TopIsInnermost(items, c);
      FramesGrow(items, c, |items|);
    }
    SlotInRange(items, b, |items|);
    WalkNames(items, b, 0, false, EMPTY_SCOPE, name);
    forall k | 0 <= k < |items|
      ensures VisibleFrom(items, c, k, name) <==> Declares(items[k], name) && Sees(items, b, Open(items, k), false)
    {
      SameBlock(items, k);
    }
  }
}
