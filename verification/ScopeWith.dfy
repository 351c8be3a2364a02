/** Which tables a cursor sees when there is a `WITH`, and when an arm is isolated then. */
module ScopeWith {
  import opened Scope
  import opened ScopeBlocks
  import opened ScopeVisibility
  import opened ScopeIsolation
  import opened Options

  // ----- What an arm leaves of a table list -----

  lemma {:induction false} CteCountSplits(tables: seq<TableRef>, ctes: seq<string>, n: nat)
    requires n <= |tables|
    ensures NonCteTables(tables, ctes) == NonCteTables(tables[..n], ctes) + NonCteTables(tables[n..], ctes)
  {
    if n == 0 {
      assert tables[0..] == tables;
    } else {
      CteCountSplits(tables[1..], ctes, n - 1);
      assert tables[..n][1..] == tables[1..][..n - 1];
      assert tables[n..] == tables[1..][n - 1..];
    }
  }

  predicate AllCtes(tables: seq<TableRef>, ctes: seq<string>) {
    forall k :: 0 <= k < |tables| ==> tables[k].name in ctes
  }

  predicate NoneCte(tables: seq<TableRef>, ctes: seq<string>) {
    forall k :: 0 <= k < |tables| ==> tables[k].name !in ctes
  }

  lemma {:induction false} CountIsExtreme(tables: seq<TableRef>, ctes: seq<string>)
    ensures NonCteTables(tables, ctes) == 0 <==> AllCtes(tables, ctes)
    ensures NonCteTables(tables, ctes) == |tables| <==> NoneCte(tables, ctes)
    decreases |tables|
  {
    if tables != [] {
      CountIsExtreme(tables[1..], ctes);
      forall k | 0 < k < |tables| ensures tables[k] == tables[1..][k - 1] {
      }
      if AllCtes(tables[1..], ctes) && tables[0].name in ctes {
        forall k | 0 <= k < |tables| ensures tables[k].name in ctes {
          if k > 0 { assert tables[1..][k - 1].name in ctes; }
        }
      }
      if NoneCte(tables[1..], ctes) && tables[0].name !in ctes {
        forall k | 0 <= k < |tables| ensures tables[k].name !in ctes {
          if k > 0 { assert tables[1..][k - 1].name !in ctes; }
        }
      }
    }
  }

  /**
   What an arm leaves of the tables its parent has when the arm starts is `WITH` names only,
   exactly when no `WITH` name stands among the leading tables it skips.
   */
  lemma PrefixHidesTheFromListIff(tables: seq<TableRef>, ctes: seq<string>)
    ensures var n := NonCteTables(tables, ctes);
            AllCtes(tables[n..], ctes) <==> NoneCte(tables[..n], ctes)
  {
    var n := NonCteTables(tables, ctes);
    CteCountSplits(tables, ctes, n);
    CountIsExtreme(tables[..n], ctes);
    CountIsExtreme(tables[n..], ctes);
  }

  lemma NameKept(s: QueryScope, added: string, name: string)
    ensures HasTableNamed(s.tables, name) ==> HasTableNamed(AddVirtualTable(s, added).tables, name)
  {
    if k :| 0 <= k < |s.tables| && s.tables[k].name == name {
      assert AddVirtualTable(s, added).tables[k] == s.tables[k];
    }
  }

  /** `WITH` names go after the tables that are there, and none is missing. */
  lemma {:induction false} VirtualsAppend(s: QueryScope, names: seq<string>)
    ensures var r, n := AddVirtuals(s, names).tables, |s.tables|;
            && n <= |r| && r[..n] == s.tables
            && (forall k :: n <= k < |r| ==> r[k].name in names && !HasTableNamed(s.tables, r[k].name))
            && forall m :: m in names ==> HasTableNamed(r, m)
    decreases |names|
  {
    if names != [] {
      var s1 := AddVirtualTable(s, names[0]);
      VirtualsAppend(s1, names[1..]);
      var r := AddVirtuals(s, names).tables;
      assert r[..|s.tables|] == r[..|s1.tables|][..|s.tables|];
      assert HasTableNamed(s1.tables, names[0]) by {
        if s1 != s { assert s1.tables[|s.tables|].name == names[0]; }
      }
      var k :| 0 <= k < |s1.tables| && s1.tables[k].name == names[0];
      assert r[..|s1.tables|][k].name == names[0];
      assert HasTableNamed(r, names[0]);
      forall m | m in names ensures HasTableNamed(r, m) {
        if m != names[0] { assert m in names[1..]; }
      }
      forall k | |s.tables| <= k < |r| ensures r[k].name in names && !HasTableNamed(s.tables, r[k].name) {
        NameKept(s, names[0], r[k].name);
        if k < |s1.tables| { assert r[..|s1.tables|][k] == s1.tables[k]; }
      }
    }
  }

  /** The tables of a block that an arm inside it still sees, if nothing joins the block's list later. */
  function LeftForArm(tables: seq<TableRef>, ctes: seq<string>): seq<TableRef> {
    Drop(AddVirtuals(QueryScope(tables, ctes), ctes).tables, NonCteTables(tables, ctes))
  }

  lemma LeftSplits(tables: seq<TableRef>, ctes: seq<string>, name: string)
    ensures var n, r := NonCteTables(tables, ctes), AddVirtuals(QueryScope(tables, ctes), ctes).tables;
            && n <= |tables| <= |r|
            && (HasTableNamed(LeftForArm(tables, ctes), name)
                <==> HasTableNamed(tables[n..], name) || HasTableNamed(r[|tables|..], name))
            && (HasTableNamed(r, name) <==> HasTableNamed(tables, name) || HasTableNamed(r[|tables|..], name))
            && (HasTableNamed(tables, name) <==> HasTableNamed(tables[..n], name) || HasTableNamed(tables[n..], name))
  {
    hide AddVirtuals;
    VirtualsAppend(QueryScope(tables, ctes), ctes);
    var n, r := NonCteTables(tables, ctes), AddVirtuals(QueryScope(tables, ctes), ctes).tables;
    NameInJoin(tables[n..], r[|tables|..], name);
    NameInJoin(tables, r[|tables|..], name);
    NameInJoin(tables[..n], tables[n..], name);
    assert r[n..] == tables[n..] + r[|tables|..] by { assert r == tables + r[|tables|..]; }
    assert r == tables + r[|tables|..];
    assert tables == tables[..n] + tables[n..];
  }

  lemma NameInJoin(a: seq<TableRef>, b: seq<TableRef>, name: string)
    ensures HasTableNamed(a + b, name) <==> HasTableNamed(a, name) || HasTableNamed(b, name)
  {
    if HasTableNamed(a, name) {
      var k :| 0 <= k < |a| && a[k].name == name;
      assert (a + b)[k].name == name;
    }
    if HasTableNamed(b, name) {
      var k :| 0 <= k < |b| && b[k].name == name;
      assert (a + b)[|a| + k].name == name;
    }
  }

  /**
   A name on the wrong side of the skipped prefix: a plain table behind it, or a `WITH` name that is
   in it and nowhere behind it.
   */
  predicate Misplaced(tables: seq<TableRef>, ctes: seq<string>, name: string) {
    var n := NonCteTables(tables, ctes);
    if name in ctes then HasTableNamed(tables[..n], name) && !HasTableNamed(tables[n..], name)
    else HasTableNamed(tables[n..], name)
  }

  /** An arm sees the `WITH` names of the block it splits, but for the misplaced names. */
  lemma LeftIsCtesButMisplaced(tables: seq<TableRef>, ctes: seq<string>, name: string)
    ensures HasTableNamed(LeftForArm(tables, ctes), name) <==> (name in ctes) != Misplaced(tables, ctes, name)
  {
    hide LeftForArm, AddVirtuals, NonCteTables;
    LeftSplits(tables, ctes, name);
    VirtualsAppend(QueryScope(tables, ctes), ctes);
    var r := AddVirtuals(QueryScope(tables, ctes), ctes).tables;
    if HasTableNamed(r[|tables|..], name) {
      var k :| 0 <= k < |r[|tables|..]| && r[|tables|..][k].name == name;
      assert r[|tables| + k].name in ctes;
    }
  }

  /** Every plain table stands before every `WITH` name. */
  predicate PlainTablesFirst(tables: seq<TableRef>, ctes: seq<string>) {
    forall i, j :: 0 <= i < j < |tables| && tables[i].name in ctes ==> tables[j].name in ctes
  }

  lemma PlainFirstMeans(tables: seq<TableRef>, ctes: seq<string>)
    ensures PlainTablesFirst(tables, ctes) <==> AllCtes(tables[NonCteTables(tables, ctes)..], ctes)
  {
    hide NonCteTables;
    var n := NonCteTables(tables, ctes);
    PrefixHidesTheFromListIff(tables, ctes);
    forall k | n <= k < |tables| ensures tables[n..][k - n] == tables[k] {
    }
    forall k | 0 <= k < n ensures tables[..n][k] == tables[k] {
    }
    if PlainTablesFirst(tables, ctes) {
      if i :| 0 <= i < n && tables[i].name in ctes {
        forall k | 0 <= k < |tables[n..]| ensures tables[n..][k].name in ctes {
          assert tables[n..][k] == tables[n + k];
        }
      }
    }
    if AllCtes(tables[n..], ctes) {
      forall i, j | 0 <= i < j < |tables| && tables[i].name in ctes ensures tables[j].name in ctes {
        assert tables[n..][j - n] == tables[j];
      }
    }
  }

  /** Nothing is misplaced exactly when the plain tables come first. */
  lemma NothingMisplacedIff(tables: seq<TableRef>, ctes: seq<string>)
    ensures (forall name :: !Misplaced(tables, ctes, name)) <==> PlainTablesFirst(tables, ctes)
  {
    hide NonCteTables;
    var n := NonCteTables(tables, ctes);
    PlainFirstMeans(tables, ctes);
    PrefixHidesTheFromListIff(tables, ctes);
    if !AllCtes(tables[n..], ctes) {
      var k :| 0 <= k < |tables[n..]| && tables[n..][k].name !in ctes;
      assert Misplaced(tables, ctes, tables[n..][k].name);
    }
  }

  // ----- What a block declares -----

  /** The table list and `WITH` names that block `b` has declared before item `n`. */
  ghost function BlockScope(items: seq<Item>, b: Block, n: nat): QueryScope
    requires n <= |items|
  {
    if n == 0 then EMPTY_SCOPE
    else
      var before := BlockScope(items, b, n - 1);
      if items[n - 1].Names? && Open(items, n - 1) == b then
        AddAll(before.(ctes := before.ctes + items[n - 1].ctes), items[n - 1].adds)
      else before
  }

  lemma {:induction false} NoScopeYet(items: seq<Item>, b: Block, n: nat)
    requires n <= |items| && forall k :: 0 <= k < n ==> Open(items, k) != b
    ensures BlockScope(items, b, n) == EMPTY_SCOPE
  {
    if n > 0 { NoScopeYet(items, b, n - 1); }
  }

  lemma NotOpenYet(items: seq<Item>, b: Block, k: nat)
    requires b.Inside? && k <= b.at <= |items|
    ensures Open(items, k) != b
  {
    BlockIsReal(items, k);
  }

  lemma ScopeStep(items: seq<Item>, b: Block, n: nat)
    requires 0 < n <= |items| && IsBlock(items, b, n - 1)
    requires Slot(items, b) < |StateAt(items, n - 1).frames|
    requires StateAt(items, n - 1).frames[Slot(items, b)].scope == BlockScope(items, b, n - 1)
    ensures Slot(items, b) < |StateAt(items, n).frames|
    ensures StateAt(items, n).frames[Slot(items, b)].scope == BlockScope(items, b, n)
  {
    hide AddAll, NonCteTables, Slot;
    TopIsInnermost(items, n - 1);
    OpenIsBlock(items, n - 1);
    if Open(items, n - 1) != b { SlotsDiffer(items, b, Open(items, n - 1)); }
    StepKeeps(StateAt(items, n - 1), items[n - 1], Slot(items, b));
  }

  lemma FreshScope(items: seq<Item>, b: Block)
    requires IsBlock(items, b, |items|)
    ensures var n := if b.Inside? then b.at + 1 else 0;
            && Slot(items, b) < |StateAt(items, n).frames|
            && StateAt(items, n).frames[Slot(items, b)].scope == BlockScope(items, b, n)
  {
    if b.Inside? {
      NewFrame(items, b.at);
      forall k | 0 <= k < b.at + 1 ensures Open(items, k) != b {
        NotOpenYet(items, b, k);
      }
      NoScopeYet(items, b, b.at + 1);
    }
  }

  /** A block's frame holds what the block has declared. */
  lemma {:induction false} FrameHoldsScope(items: seq<Item>, b: Block, n: nat)
    requires n <= |items| && IsBlock(items, b, n)
    ensures Slot(items, b) < |StateAt(items, n).frames|
    ensures StateAt(items, n).frames[Slot(items, b)].scope == BlockScope(items, b, n)
    decreases n
  {
    hide Open, BlockScope, Slot;
    if n == (if b.Inside? then b.at + 1 else 0) {
      FreshScope(items, b);
    } else {
      FrameHoldsScope(items, b, n - 1);
      ScopeStep(items, b, n);
    }
  }

  // ----- The walk -----

  /** Does block `b` name `name` anywhere, as a table or in its `WITH`? */
  ghost predicate NamedIn(items: seq<Item>, b: Block, name: string) {
    var s := BlockScope(items, b, |items|);
    HasTableNamed(s.tables, name) || name in s.ctes
  }

  /** What the arm opened at `p` sees of the block it splits. */
  ghost function Left(items: seq<Item>, p: nat): seq<TableRef>
    requires p <= |items|
  {
    var s := BlockScope(items, Open(items, p), p);
    LeftForArm(s.tables, s.ctes)
  }

  /** What is seen from block `b`, reached from inside through the arm opened at `arm`, if through one. */
  ghost predicate SeesWith(items: seq<Item>, b: Block, arm: Option<nat>, name: string)
    requires arm.Some? ==> arm.value <= |items|
  {
    || (if arm.Some? then HasTableNamed(Left(items, arm.value), name) else NamedIn(items, b, name))
    || (b.Inside? && SeesWith(items, b.outer, if IsArm(items, b) then Some(b.at) else None, name))
  }

  lemma VirtualNames(s: QueryScope, name: string)
    ensures HasTableNamed(AddVirtuals(s, s.ctes).tables, name) <==> HasTableNamed(s.tables, name) || name in s.ctes
  {
    VirtualsAppend(s, s.ctes);
    var r := AddVirtuals(s, s.ctes).tables;
    if HasTableNamed(s.tables, name) {
      var k :| 0 <= k < |s.tables| && s.tables[k].name == name;
      assert r[..|s.tables|][k] == r[k];
    }
    if HasTableNamed(r, name) && name !in s.ctes {
      var k :| 0 <= k < |r| && r[k].name == name;
      assert r[..|s.tables|][k] == r[k];
    }
  }

  lemma FinalScope(items: seq<Item>, b: Block)
    requires IsBlock(items, b, |items|)
    ensures Slot(items, b) < |FinalFrames(items)|
    ensures var s := BlockScope(items, b, |items|);
            FinalFrames(items)[Slot(items, b)].scope == AddVirtuals(s, s.ctes)
  {
    hide BlockScope, Slot, AddVirtuals, Open;
    FrameHoldsScope(items, b, |items|);
  }

  /** The block an arm splits declares nothing more once the arm is open. */
  lemma {:induction false} ScopeFixed(items: seq<Item>, p: nat, n: nat)
    requires p < n <= |items| && items[p].SetOperator? && ArmsStayOpen(items, |items|)
    ensures BlockScope(items, Open(items, p), n) == BlockScope(items, Open(items, p), p)
    decreases n
  {
    if n > p + 1 {
      ScopeFixed(items, p, n - 1);
      NeverInnermostAgain(items, p, n - 1);
      TopIsInnermost(items, n - 1);
      TopIsInnermost(items, p);
    }
  }

  /** What the walk takes from a block reached through an arm. */
  lemma ArmTakesLeft(items: seq<Item>, p: nat)
    requires p < |items| && items[p].SetOperator? && ArmsStayOpen(items, |items|)
    ensures var b := Open(items, p);
            && Slot(items, b) < |FinalFrames(items)|
            && Drop(FinalFrames(items)[Slot(items, b)].scope.tables, Hidden(items, p)) == Left(items, p)
  {
    hide BlockScope, Slot, AddVirtuals, NonCteTables, ArmsStayOpen, Open;
    var b := Open(items, p);
    OpenIsBlock(items, p);
    FinalScope(items, b);
    ScopeFixed(items, p, |items|);
    FrameHoldsScope(items, b, p);
    TopIsInnermost(items, p);
  }

  lemma LevelAdds(items: seq<Item>, b: Block, arm: Option<nat>, skip: nat, visible: QueryScope, name: string)
    requires IsBlock(items, b, |items|) && ArmsStayOpen(items, |items|)
    requires if arm.None? then skip == 0
             else arm.value < |items| && items[arm.value].SetOperator? && b == Open(items, arm.value)
                  && skip == Hidden(items, arm.value)
    ensures Slot(items, b) < |FinalFrames(items)|
    ensures HasTableNamed(AddTables(visible, Drop(FinalFrames(items)[Slot(items, b)].scope.tables, skip)).tables, name)
            <==> HasTableNamed(visible.tables, name)
                 || (if arm.Some? then HasTableNamed(Left(items, arm.value), name) else NamedIn(items, b, name))
  {
    hide BlockScope, Slot, AddVirtuals, AddTables, HasTableNamed, Open, ArmsStayOpen, Left, Hidden;
    FinalScope(items, b);
    CollectedNames(visible, Drop(FinalFrames(items)[Slot(items, b)].scope.tables, skip), name);
    if arm.None? {
      VirtualNames(BlockScope(items, b, |items|), name);
    } else {
      ArmTakesLeft(items, arm.value);
    }
  }

  lemma {:induction false} CtesLeaveTables(s: QueryScope, ctes: seq<string>, name: string)
    ensures HasTableNamed(AddCtes(s, ctes).tables, name) <==> HasTableNamed(s.tables, name)
  {
  }

  lemma {:induction false} WalkSees(items: seq<Item>, b: Block, arm: Option<nat>, skip: nat, visible: QueryScope,
                                    name: string)
    requires IsBlock(items, b, |items|) && ArmsStayOpen(items, |items|)
    requires if arm.None? then skip == 0
             else arm.value < |items| && items[arm.value].SetOperator? && b == Open(items, arm.value)
                  && skip == Hidden(items, arm.value)
    requires Slot(items, b) < |FinalFrames(items)|
    ensures HasTableNamed(Walk(FinalFrames(items), Slot(items, b), skip, visible).tables, name)
            <==> HasTableNamed(visible.tables, name) || SeesWith(items, b, arm, name)
    decreases b
  {
    hide NamedIn, Left, Open, AddTables, AddCtes, FinalFrames, ArmsStayOpen, HasTableNamed, Hidden;
    LevelAdds(items, b, arm, skip, visible, name);
    var f := FinalFrames(items)[Slot(items, b)];
    var v := AddTables(visible, Drop(f.scope.tables, skip));
    CtesLeaveTables(v, f.scope.ctes, name);
    if b.Inside? {
      ParentIsOuter(items, b);
      OuterIsBlock(items, b);
      SlotInRange(items, b.outer, |items|);
      ParenHidesNothing(items, b.at);
      assert Slot(items, b) > 0;
      hide Slot;
      WalkSees(items, b.outer, if IsArm(items, b) then Some(b.at) else None, Hidden(items, b.at),
               AddCtes(v, f.scope.ctes), name);
    }
  }

  lemma ParenHidesNothing(items: seq<Item>, p: nat)
    requires p < |items|
    ensures items[p].LParen? ==> Hidden(items, p) == 0
  {
  }

  /**
   With or without `WITH`, when no `)` meets an arm: a cursor sees a name exactly when a block open
   around it names it, counting of a block that an arm splits only what the skipped prefix leaves.
   */
  lemma VisibleTablesWith(items: seq<Item>, c: nat, name: string)
    requires ArmsStayOpen(items, |items|)
    ensures HasTableNamed(Resolve(items, Some(c)).tables, name)
            <==> SeesWith(items, CursorBlock(items, c), None, name)
  {
    hide Walk, SeesWith;
    var b := CursorBlock(items, c);
    if c < |items| {
      SameBlock(items, c);
      OpenIsBlock(items, c);
      TopIsInnermost(items, c);
      FramesGrow(items, c, |items|);
    }
    SlotInRange(items, b, |items|);
    WalkSees(items, b, None, 0, EMPTY_SCOPE, name);
  }

  // ----- Arms outside parentheses -----

  /** The first set operator of the statement. */
  predicate FirstOperator(items: seq<Item>, q: nat) {
    && q < |items| && items[q].SetOperator?
    && forall k :: 0 <= k < q ==> !items[k].SetOperator?
  }

  /** An arm has no `WITH` of its own but in parentheses. */
  ghost predicate NoWithInArms(items: seq<Item>) {
    forall k :: 0 <= k < |items| && items[k].Names? && IsArm(items, Lexical(items, k)) ==> items[k].ctes == []
  }

  /** Is `name` named in block `b` or in a parenthesis or arm around it, up to the nearest arm? */
  ghost predicate OwnName(items: seq<Item>, b: Block, name: string) {
    NamedIn(items, b, name) || (b.Inside? && !IsArm(items, b) && OwnName(items, b.outer, name))
  }

  /** What the statement has declared before its first operator. */
  ghost function Earlier(items: seq<Item>, q: nat): QueryScope
    requires q <= |items|
  {
    BlockScope(items, Statement, q)
  }

  lemma {:induction false} NoArmYet(items: seq<Item>, i: nat)
    requires i <= |items| && forall k :: 0 <= k < i ==> !items[k].SetOperator?
    ensures forall b :: Encloses(b, Open(items, i)) ==> !IsArm(items, b)
    decreases i
  {
    if i > 0 {
      NoArmYet(items, i - 1);
      BlockIsReal(items, i - 1);
    }
  }

  /** Without parentheses around it and without an arm, a block is the statement itself. */
  lemma {:induction false} OnlyTheStatement(items: seq<Item>, b: Block)
    requires Parens(items, b) == 0 && forall a :: Encloses(a, b) ==> !IsArm(items, a)
    ensures b == Statement
  {
    if b.Inside? { assert Encloses(b, b); }
  }

  lemma FirstSplitsTheStatement(items: seq<Item>, q: nat)
    requires FirstOperator(items, q) && TopLevelOperators(items)
    ensures Open(items, q) == Statement
  {
    NoArmYet(items, q);
    DepthIsParens(items, q);
    OnlyTheStatement(items, Open(items, q));
  }

  /** No later operator splits the statement's own block. */
  lemma OthersSplitArms(items: seq<Item>, q: nat, p: nat)
    requires FirstOperator(items, q) && TopLevelOperators(items)
    requires p < |items| && items[p].SetOperator? && Open(items, p) == Statement
    ensures p == q
  {
    TopLevelArmsStay(items, |items|);
    if q < p { ArmStays(items, q, p); }
  }

  lemma {:induction false} ArmHasNoCtes(items: seq<Item>, b: Block, n: nat)
    requires n <= |items| && NoWithInArms(items) && ArmsStayOpen(items, |items|) && IsArm(items, b)
    ensures BlockScope(items, b, n).ctes == []
  {
    hide AddAll, Open, Lexical;
    if n > 0 {
      ArmHasNoCtes(items, b, n - 1);
      SameBlock(items, n - 1);
    }
  }

  /** Nothing is seen of an arm from the arm after it. */
  lemma EarlierArmGone(items: seq<Item>, p: nat, name: string)
    requires p < |items| && NoWithInArms(items) && ArmsStayOpen(items, |items|) && IsArm(items, Open(items, p))
    ensures !HasTableNamed(Left(items, p), name)
  {
    var b := Open(items, p);
    ArmHasNoCtes(items, b, p);
    var s := BlockScope(items, b, p);
    NoNames(s.tables);
    assert AddVirtuals(s, []) == s;
  }

  /** Through a chain of arms only the statement's own block is seen, and what the first arm left of it. */
  lemma {:induction false} ThroughArms(items: seq<Item>, q: nat, b: Block, p: nat, name: string)
    requires FirstOperator(items, q) && TopLevelOperators(items) && NoWithInArms(items)
    requires p < |items| && items[p].SetOperator? && b == Open(items, p) && Parens(items, b) == 0
    ensures SeesWith(items, b, Some(p), name) <==> HasTableNamed(Left(items, q), name)
    decreases b
  {
    hide Left;
    if b == Statement {
      OthersSplitArms(items, q, p);
    } else {
      TopLevelArmsStay(items, |items|);
      OpenIsBlock(items, p);
      EarlierArmGone(items, p, name);
      ThroughArms(items, q, b.outer, b.at, name);
    }
  }

  lemma {:induction false} UpToTheArm(items: seq<Item>, q: nat, b: Block, n: nat, name: string)
    requires FirstOperator(items, q) && TopLevelOperators(items) && NoWithInArms(items)
    requires n <= |items| && IsBlock(items, b, n) && ArmsOutermost(items, b)
    requires Encloses(Inside(q, Statement), b)
    ensures SeesWith(items, b, None, name) <==> OwnName(items, b, name) || HasTableNamed(Left(items, q), name)
    decreases b
  {
    hide Left, NamedIn;
    OpenIsBlock(items, b.at);
    if IsArm(items, b) {
      ThroughArms(items, q, b.outer, b.at, name);
    } else {
      UpToTheArm(items, q, b.outer, b.at, name);
    }
  }

  /**
   After an operator, also in the arm's subqueries, a cursor sees the names of its own side and what
   the first arm leaves of the statement's list.
   */
  lemma ArmSees(items: seq<Item>, q: nat, c: nat, name: string)
    requires FirstOperator(items, q) && TopLevelOperators(items) && NoWithInArms(items) && q < c < |items|
    ensures var s := Earlier(items, q);
            HasTableNamed(Resolve(items, Some(c)).tables, name)
            <==> OwnName(items, CursorBlock(items, c), name) || HasTableNamed(LeftForArm(s.tables, s.ctes), name)
  {
    hide Resolve, SeesWith, OwnName;
    TopLevelArmsStay(items, |items|);
    VisibleTablesWith(items, c, name);
    SameBlock(items, c);
    OpenIsBlock(items, c);
    DepthIsParens(items, c);
    FirstSplitsTheStatement(items, q);
    ArmStays(items, q, c);
    UpToTheArm(items, q, Open(items, c), c, name);
  }

  /** Does a cursor see, beside the names of its own side, exactly the statement's `WITH` names? */
  ghost predicate Isolated(items: seq<Item>, q: nat, c: nat)
    requires q <= |items|
  {
    forall name :: !OwnName(items, CursorBlock(items, c), name) ==>
      (HasTableNamed(Resolve(items, Some(c)).tables, name) <==> name in Earlier(items, q).ctes)
  }

  /**
   Set-operation arms under `WITH`: nothing of the earlier `FROM` lists and every `WITH` name is
   seen exactly when every misplaced name of the statement's list is named again on the cursor's side.
   */
  lemma ArmIsIsolatedIff(items: seq<Item>, q: nat, c: nat)
    requires FirstOperator(items, q) && TopLevelOperators(items) && NoWithInArms(items) && q < c < |items|
    ensures var s := Earlier(items, q);
            Isolated(items, q, c)
            <==> forall name :: Misplaced(s.tables, s.ctes, name) ==> OwnName(items, CursorBlock(items, c), name)
  {
    hide Resolve, OwnName, Misplaced, Earlier, LeftForArm, HasTableNamed;
    var s := Earlier(items, q);
    forall name
      ensures !OwnName(items, CursorBlock(items, c), name) ==>
                ((HasTableNamed(Resolve(items, Some(c)).tables, name) <==> name in s.ctes)
                 <==> !Misplaced(s.tables, s.ctes, name))
    {
      ArmSees(items, q, c, name);
      LeftIsCtesButMisplaced(s.tables, s.ctes, name);
    }
  }

  /** In a statement that lists its plain tables before its `WITH` names every arm is isolated. */
  lemma PlainTablesFirstIsolates(items: seq<Item>, q: nat, c: nat)
    requires FirstOperator(items, q) && TopLevelOperators(items) && NoWithInArms(items) && q < c < |items|
    requires PlainTablesFirst(Earlier(items, q).tables, Earlier(items, q).ctes)
    ensures Isolated(items, q, c)
  {
    hide Isolated, Misplaced, PlainTablesFirst;
    NothingMisplacedIff(Earlier(items, q).tables, Earlier(items, q).ctes);
    ArmIsIsolatedIff(items, q, c);
  }

  /**
   In any other statement an arm is not, unless it names again what is misplaced: in particular no
   arm is that shares no name with the statement's list.
   */
  lemma IsolatedIffPlainTablesFirst(items: seq<Item>, q: nat, c: nat)
    requires FirstOperator(items, q) && TopLevelOperators(items) && NoWithInArms(items) && q < c < |items|
    requires forall name :: HasTableNamed(Earlier(items, q).tables, name) ==>
                              !OwnName(items, CursorBlock(items, c), name)
    ensures Isolated(items, q, c) <==> PlainTablesFirst(Earlier(items, q).tables, Earlier(items, q).ctes)
  {
    hide Isolated, Misplaced, PlainTablesFirst, OwnName, Earlier;
    var s := Earlier(items, q);
    NothingMisplacedIff(s.tables, s.ctes);
    ArmIsIsolatedIff(items, q, c);
    forall name | Misplaced(s.tables, s.ctes, name) ensures HasTableNamed(s.tables, name) {
      MisplacedIsListed(s.tables, s.ctes, name);
    }
  }

  lemma MisplacedIsListed(tables: seq<TableRef>, ctes: seq<string>, name: string)
    requires Misplaced(tables, ctes, name)
    ensures HasTableNamed(tables, name)
  {
    LeftSplits(tables, ctes, name);
  }
}
