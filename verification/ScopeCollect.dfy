/** The whole answer of the resolver, block by block, with names, aliases, schemas and order. */
module ScopeCollect {
  import opened Options
  import opened Scope
  import opened ScopeBlocks
  import opened ScopeVisibility
  import opened ScopeWith

  /** What the walk takes of block `b`, reached from inside through the arm opened at `arm`, if through one. */
  ghost function Taken(items: seq<Item>, b: Block, arm: Option<nat>): seq<TableRef>
    requires arm.Some? ==> arm.value <= |items|
  {
    if arm.Some? then Left(items, arm.value)
    else var s := BlockScope(items, b, |items|); AddVirtuals(s, s.ctes).tables
  }

  /** The tables and `WITH` names of the blocks open around `b`, innermost first, without repetition. */
  ghost function Collected(items: seq<Item>, b: Block, arm: Option<nat>, inner: QueryScope): QueryScope
    requires arm.Some? ==> arm.value <= |items|
    decreases b
  {
    var v := AddCtes(AddTables(inner, Taken(items, b, arm)), BlockScope(items, b, |items|).ctes);
    if b.Inside? then Collected(items, b.outer, if IsArm(items, b) then Some(b.at) else None, v) else v
  }

  lemma FrameIsTaken(items: seq<Item>, b: Block, arm: Option<nat>, skip: nat)
    requires IsBlock(items, b, |items|) && ArmsStayOpen(items, |items|)
    requires if arm.None? then skip == 0
             else arm.value < |items| && items[arm.value].SetOperator? && b == Open(items, arm.value)
                  && skip == Hidden(items, arm.value)
    ensures Slot(items, b) < |FinalFrames(items)|
    ensures var s := FinalFrames(items)[Slot(items, b)].scope;
            Drop(s.tables, skip) == Taken(items, b, arm) && s.ctes == BlockScope(items, b, |items|).ctes
  {
    hide BlockScope, Slot, AddVirtuals, Open, ArmsStayOpen, Left, Hidden;
    FinalScope(items, b);
    if arm.Some? { ArmTakesLeft(items, arm.value); }
  }

  lemma {:induction false} WalkCollects(items: seq<Item>, b: Block, arm: Option<nat>, skip: nat, inner: QueryScope)
    requires IsBlock(items, b, |items|) && ArmsStayOpen(items, |items|)
    requires if arm.None? then skip == 0
             else arm.value < |items| && items[arm.value].SetOperator? && b == Open(items, arm.value)
                  && skip == Hidden(items, arm.value)
    requires Slot(items, b) < |FinalFrames(items)|
    ensures Walk(FinalFrames(items), Slot(items, b), skip, inner) == Collected(items, b, arm, inner)
    decreases b
  {
    hide Open, AddTables, AddCtes, FinalFrames, ArmsStayOpen, Hidden, BlockScope, Taken;
    FrameIsTaken(items, b, arm, skip);
    var f := FinalFrames(items)[Slot(items, b)];
    if b.Inside? {
      ParentIsOuter(items, b);
      OuterIsBlock(items, b);
      SlotInRange(items, b.outer, |items|);
      ParenHidesNothing(items, b.at);
      assert Slot(items, b) > 0;
      hide Slot;
      WalkCollects(items, b.outer, if IsArm(items, b) then Some(b.at) else None, Hidden(items, b.at),
                   AddCtes(AddTables(inner, Drop(f.scope.tables, skip)), f.scope.ctes));
    } else {
      assert Slot(items, b) == 0;
    }
  }

  /**
   With or without `WITH`, when no `)` meets an arm: the resolver's answer, with every alias, schema and
   `WITH` name and in its order, is what the blocks open around the cursor declare, innermost first.
   */
  lemma ResolverCollects(items: seq<Item>, c: nat)
    requires ArmsStayOpen(items, |items|)
    ensures Resolve(items, Some(c)) == Collected(items, CursorBlock(items, c), None, EMPTY_SCOPE)
  {
    hide Walk, Collected;
    var b := CursorBlock(items, c);
    if c < |items| {
      SameBlock(items, c);
      OpenIsBlock(items, c);
      TopIsInnermost(items, c);
      FramesGrow(items, c, |items|);
    }
    SlotInRange(items, b, |items|);
    WalkCollects(items, b, None, 0, EMPTY_SCOPE);
  }

  // ----- Which references are visible -----

  lemma {:induction false} AddedTables(s: QueryScope, tables: seq<TableRef>, t: TableRef)
    ensures t in AddTables(s, tables).tables <==> t in s.tables || t in tables
    decreases |tables|
  {
    if tables != [] {
      AddedTables(AddTable(s, tables[0]), tables[1..], t);
      assert tables == [tables[0]] + tables[1..];
    }
  }

  /** Is `t` among what the walk takes of `b` or of a block around it? */
  ghost predicate SeesRef(items: seq<Item>, b: Block, arm: Option<nat>, t: TableRef)
    requires arm.Some? ==> arm.value <= |items|
  {
    || t in Taken(items, b, arm)
    || (b.Inside? && SeesRef(items, b.outer, if IsArm(items, b) then Some(b.at) else None, t))
  }

  lemma {:induction false} CollectedRefs(items: seq<Item>, b: Block, arm: Option<nat>, inner: QueryScope, t: TableRef)
    requires arm.Some? ==> arm.value <= |items|
    ensures t in Collected(items, b, arm, inner).tables <==> t in inner.tables || SeesRef(items, b, arm, t)
    decreases b
  {
    hide AddTables, AddCtes, Taken, BlockScope;
    AddedTables(inner, Taken(items, b, arm), t);
    var v := AddCtes(AddTables(inner, Taken(items, b, arm)), BlockScope(items, b, |items|).ctes);
    if b.Inside? {
      CollectedRefs(items, b.outer, if IsArm(items, b) then Some(b.at) else None, v, t);
    }
  }

  // ----- What a block lists -----

  /** Everything that block `b` adds to its table list before item `n`, in order. */
  ghost function BlockAdds(items: seq<Item>, b: Block, n: nat): seq<Addition>
    requires n <= |items|
  {
    if n == 0 then []
    else
      BlockAdds(items, b, n - 1)
      + (if items[n - 1].Names? && Open(items, n - 1) == b then items[n - 1].adds else [])
  }

  /** Is the alias of a derived table the first thing added under this name? */
  predicate FirstVirtual(adds: seq<Addition>, name: string)
    decreases |adds|
  {
    adds != [] &&
    var before := adds[..|adds| - 1];
    FirstVirtual(before, name) || (adds[|adds| - 1] == AddVirtual(name) && !Mentions(before, name))
  }

  /** Do these additions list `t`: as it stands, or for a bare name as the alias of a derived table? */
  predicate Gives(adds: seq<Addition>, t: TableRef) {
    Add(t) in adds || (t == TableRef(t.name, None, None) && FirstVirtual(adds, t.name))
  }

  lemma OneAdded(s: QueryScope, a: Addition, t: TableRef)
    ensures t in AddOne(s, a).tables
            <==> t in s.tables || a == Add(t)
                 || (t == TableRef(t.name, None, None) && a == AddVirtual(t.name) && !HasTableNamed(s.tables, t.name))
  {
  }

  lemma {:induction false} AddedRefs(ctes: seq<string>, adds: seq<Addition>, t: TableRef)
    ensures t in AddAll(QueryScope([], ctes), adds).tables <==> Gives(adds, t)
    decreases |adds|
  {
    hide AddOne, HasTableNamed, Mentions;
    var s := QueryScope([], ctes);
    if adds != [] {
      var before, last := adds[..|adds| - 1], adds[|adds| - 1];
      assert adds == before + [last];
      AddAllJoin(s, before, [last]);
      OneIsAll(AddAll(s, before), last);
      AddedRefs(ctes, before, t);
      OneAdded(AddAll(s, before), last, t);
      AddedNames(s, before, t.name);
      NoneNamed(t.name);
      assert Add(t) in adds <==> Add(t) in before || last == Add(t);
      hide AddAll;
    }
  }

  lemma OneIsAll(s: QueryScope, a: Addition)
    ensures AddAll(s, [a]) == AddOne(s, a)
  {
    assert [a][1..] == [];
  }

  lemma NoneNamed(name: string)
    ensures !HasTableNamed([], name)
  {
  }

  /** What a block lists does not depend on its `WITH` names. */
  lemma {:induction false} TablesOnly(s: QueryScope, ctes: seq<string>, adds: seq<Addition>)
    ensures AddAll(s.(ctes := ctes), adds).tables == AddAll(s, adds).tables
    decreases |adds|
  {
    if adds != [] {
      TablesOnly(AddOne(s, adds[0]), ctes, adds[1..]);
      assert AddOne(s.(ctes := ctes), adds[0]) == AddOne(s, adds[0]).(ctes := ctes);
    }
  }

  lemma {:induction false} BlockTablesAre(items: seq<Item>, b: Block, n: nat)
    requires n <= |items|
    ensures BlockScope(items, b, n).tables == AddAll(EMPTY_SCOPE, BlockAdds(items, b, n)).tables
  {
    hide Open;
    if n > 0 {
      BlockTablesAre(items, b, n - 1);
      var adds, item := BlockAdds(items, b, n - 1), items[n - 1];
      var before, so := BlockScope(items, b, n - 1), AddAll(EMPTY_SCOPE, adds);
      if item.Names? && Open(items, n - 1) == b {
        AddAllJoin(EMPTY_SCOPE, adds, item.adds);
        TablesOnly(so, before.ctes + item.ctes, item.adds);
        assert before.(ctes := before.ctes + item.ctes) == so.(ctes := before.ctes + item.ctes);
      } else {
        assert adds + [] == adds;
      }
      hide AddAll;
    }
  }

  /** Does block `b` list `t`? */
  ghost predicate ListsRef(items: seq<Item>, b: Block, t: TableRef) { Gives(BlockAdds(items, b, |items|), t) }

  lemma BlockRefs(items: seq<Item>, b: Block, t: TableRef)
    ensures t in BlockScope(items, b, |items|).tables <==> ListsRef(items, b, t)
  {
    hide BlockScope, AddAll, Gives, BlockAdds;
    BlockTablesAre(items, b, |items|);
    AddedRefs([], BlockAdds(items, b, |items|), t);
  }

  /** Does a block that the cursor sees whole list `t`? An arm cuts off the block it splits. */
  ghost predicate SeesListed(items: seq<Item>, b: Block, hidden: bool, t: TableRef) {
    || (!hidden && ListsRef(items, b, t))
    || (b.Inside? && SeesListed(items, b.outer, IsArm(items, b), t))
  }

  lemma {:induction false} RefsOfBlocks(items: seq<Item>, b: Block, arm: Option<nat>, t: TableRef)
    requires NoWith(items) && (arm.Some? ==> arm.value < |items| && Left(items, arm.value) == [])
    requires forall p :: 0 <= p < |items| && items[p].SetOperator? ==> Left(items, p) == []
    ensures SeesRef(items, b, arm, t) <==> SeesListed(items, b, arm.Some?, t)
    decreases b
  {
    hide ListsRef, Left, BlockScope;
    BlockRefs(items, b, t);
    NoBlockCtes(items, b, |items|);
    NoVirtuals(BlockScope(items, b, |items|));
    if b.Inside? { RefsOfBlocks(items, b.outer, if IsArm(items, b) then Some(b.at) else None, t); }
  }

  lemma NoVirtuals(s: QueryScope)
    ensures AddVirtuals(s, []) == s
  {
  }

  /** Without `WITH` an arm leaves nothing. */
  lemma NothingLeft(items: seq<Item>, p: nat)
    requires p < |items| && items[p].SetOperator? && NoWith(items)
    ensures Left(items, p) == []
  {
    hide NonCteTables, Open;
    NoBlockCtes(items, Open(items, p), p);
    NoNames(BlockScope(items, Open(items, p), p).tables);
    var s := BlockScope(items, Open(items, p), p);
    assert AddVirtuals(s, []) == s;
  }

  lemma {:induction false} NoBlockCtes(items: seq<Item>, b: Block, n: nat)
    requires n <= |items| && NoWith(items)
    ensures BlockScope(items, b, n).ctes == []
  {
    if n > 0 { NoBlockCtes(items, b, n - 1); }
  }

  /**
   Without `WITH`, when no `)` meets an arm: a cursor sees a reference with this very alias and schema,
   or with neither, exactly when an open block that it can see into lists it so, before or after the cursor.
   */
  lemma VisibleRefs(items: seq<Item>, c: nat, t: TableRef)
    requires NoWith(items) && ArmsStayOpen(items, |items|)
    ensures t in Resolve(items, Some(c)).tables <==> SeesListed(items, CursorBlock(items, c), false, t)
  {
    hide Left, SeesRef, SeesListed, Collected, CursorBlock;
    ResolverCollects(items, c);
    CollectedRefs(items, CursorBlock(items, c), None, EMPTY_SCOPE, t);
    forall p | 0 <= p < |items| && items[p].SetOperator? ensures Left(items, p) == [] { NothingLeft(items, p); }
    RefsOfBlocks(items, CursorBlock(items, c), None, t);
  }

  // ----- Which `WITH` names are visible -----

  predicate NoRepeats(names: seq<string>) { forall j, k :: 0 <= j < k < |names| ==> names[j] != names[k] }

  lemma {:induction false} AddedCtes(s: QueryScope, ctes: seq<string>, name: string)
    requires NoRepeats(s.ctes)
    ensures NoRepeats(AddCtes(s, ctes).ctes)
    ensures name in AddCtes(s, ctes).ctes <==> name in s.ctes || name in ctes
    decreases |ctes|
  {
    if ctes != [] {
      var t := if ctes[0] in s.ctes then s else s.(ctes := s.ctes + [ctes[0]]);
      assert forall k :: 0 <= k < |s.ctes| ==> s.ctes[k] in s.ctes;
      AddedCtes(t, ctes[1..], name);
      assert ctes == [ctes[0]] + ctes[1..];
    }
  }

  /** Is `name` given by a `WITH` of block `b` before item `n`? */
  ghost predicate GivenIn(items: seq<Item>, b: Block, name: string, n: nat)
    requires n <= |items|
  {
    exists k :: 0 <= k < n && Open(items, k) == b && items[k].Names? && name in items[k].ctes
  }

  lemma GivenNext(items: seq<Item>, b: Block, name: string, n: nat)
    requires 0 < n <= |items|
    ensures GivenIn(items, b, name, n) <==>
            || GivenIn(items, b, name, n - 1)
            || (Open(items, n - 1) == b && items[n - 1].Names? && name in items[n - 1].ctes)
  {
    hide Open;
    if GivenIn(items, b, name, n) {
      var k :| 0 <= k < n && Open(items, k) == b && items[k].Names? && name in items[k].ctes;
    }
    if GivenIn(items, b, name, n - 1) {
      var k :| 0 <= k < n - 1 && Open(items, k) == b && items[k].Names? && name in items[k].ctes;
    }
  }

  lemma {:induction false} BlockCtes(items: seq<Item>, b: Block, name: string, n: nat)
    requires n <= |items|
    ensures name in BlockScope(items, b, n).ctes <==> GivenIn(items, b, name, n)
  {
    hide Open, AddAll, GivenIn;
    if n > 0 {
      BlockCtes(items, b, name, n - 1);
      GivenNext(items, b, name, n);
    } else {
      NoneGiven(items, b, name);
    }
  }

  lemma NoneGiven(items: seq<Item>, b: Block, name: string)
    ensures !GivenIn(items, b, name, 0)
  {}

  /** Does `b` or a block around it give `name`? */
  ghost predicate SeesGiven(items: seq<Item>, b: Block, name: string) {
    GivenIn(items, b, name, |items|) || (b.Inside? && SeesGiven(items, b.outer, name))
  }

  lemma {:induction false} CollectedCtes(items: seq<Item>, b: Block, arm: Option<nat>, inner: QueryScope, name: string)
    requires (arm.Some? ==> arm.value <= |items|) && NoRepeats(inner.ctes)
    ensures NoRepeats(Collected(items, b, arm, inner).ctes)
    ensures name in Collected(items, b, arm, inner).ctes <==> name in inner.ctes || SeesGiven(items, b, name)
    decreases b
  {
    hide AddTables, AddCtes, Taken, BlockScope, GivenIn, NoRepeats;
    BlockCtes(items, b, name, |items|);
    var s := AddTables(inner, Taken(items, b, arm));
    AddedCtes(s, BlockScope(items, b, |items|).ctes, name);
    var v := AddCtes(s, BlockScope(items, b, |items|).ctes);
    if b.Inside? {
      CollectedCtes(items, b.outer, if IsArm(items, b) then Some(b.at) else None, v, name);
    }
  }

  /** A cursor sees each `WITH` name of the blocks open around it, an arm's whole statement included, once. */
  lemma VisibleCtes(items: seq<Item>, c: nat, name: string)
    requires ArmsStayOpen(items, |items|)
    ensures NoRepeats(Resolve(items, Some(c)).ctes)
    ensures name in Resolve(items, Some(c)).ctes <==> SeesGiven(items, CursorBlock(items, c), name)
  {
    hide Collected, SeesGiven, CursorBlock, Resolve, ArmsStayOpen;
    ResolverCollects(items, c);
    CollectedCtes(items, CursorBlock(items, c), None, EMPTY_SCOPE, name);
  }
}
