/** Table visibility at a cursor: the frame forest of `resolve_scope_at`. */
module Scope {
  import opened Options

  datatype TableRef = TableRef(name: string, alias: Option<string>, schema: Option<string>)

  /** One entry of a table list: a relation, or an alias that stands for a derived table. */
  datatype Addition = Add(table: TableRef) | AddVirtual(name: string)

  /**
   A token as the frames see it: a keyword comes with what its `WITH` list and its table list name,
   which `ScopeTokens` reads off the tokens that follow it.
   */
  datatype Item = LParen | RParen | SetOperator | Names(ctes: seq<string>, adds: seq<Addition>) | Other

  datatype QueryScope = QueryScope(tables: seq<TableRef>, ctes: seq<string>)

  datatype Frame = Frame(parent: nat, hiddenPrefix: nat, scope: QueryScope)

  datatype State = State(frames: seq<Frame>, top: nat)

  const EMPTY_SCOPE := QueryScope([], [])

  function AddTable(s: QueryScope, t: TableRef): QueryScope {
    if t in s.tables then s else s.(tables := s.tables + [t])
  }

  predicate HasTableNamed(tables: seq<TableRef>, name: string) {
    exists k :: 0 <= k < |tables| && tables[k].name == name
  }

  function AddVirtualTable(s: QueryScope, name: string): QueryScope {
    if HasTableNamed(s.tables, name) then s else s.(tables := s.tables + [TableRef(name, None, None)])
  }

  function AddOne(s: QueryScope, a: Addition): QueryScope {
    match a
    case Add(t) => AddTable(s, t)
    case AddVirtual(name) => AddVirtualTable(s, name)
  }

  function AddAll(s: QueryScope, adds: seq<Addition>): (r: QueryScope)
    ensures r.ctes == s.ctes
    decreases |adds|
  {
    if adds == [] then s else AddAll(AddOne(s, adds[0]), adds[1..])
  }

  lemma {:induction false} AddAllJoin(s: QueryScope, a: seq<Addition>, b: seq<Addition>)
    ensures AddAll(s, a + b) == AddAll(AddAll(s, a), b)
    decreases |a|
  {
    if a == [] {
      assert a + b == b;
    } else {
      AddAllJoin(AddOne(s, a[0]), a[1..], b);
      assert (a + b)[1..] == a[1..] + b;
    }
  }

  /** How many tables are not `WITH` names. */
  function NonCteTables(tables: seq<TableRef>, ctes: seq<string>): (n: nat)
    ensures n <= |tables|
    decreases |tables|
  {
    if tables == [] then 0
    else (if tables[0].name in ctes then 0 else 1) + NonCteTables(tables[1..], ctes)
  }

  // ----- The scan -----

  ghost predicate Valid(st: State) {
    && st.top < |st.frames| && st.frames[0].parent == 0
    && forall j :: 0 < j < |st.frames| ==> st.frames[j].parent < j
  }

  function Register(st: State, ctes: seq<string>, adds: seq<Addition>): State
    requires st.top < |st.frames|
  {
    var f := st.frames[st.top];
    var scope := AddAll(f.scope.(ctes := f.scope.ctes + ctes), adds);
    st.(frames := st.frames[st.top := f.(scope := scope)])
  }

  function Step(st: State, item: Item): (r: State)
    requires Valid(st)
    ensures Valid(r) && |r.frames| >= |st.frames|
  {
    match item
    case LParen =>
      State(st.frames + [Frame(st.top, 0, EMPTY_SCOPE)], |st.frames|)
    case RParen =>
      if st.top > 0 then st.(top := st.frames[st.top].parent) else st
    case SetOperator =>
      var scope := st.frames[st.top].scope;
      State(st.frames + [Frame(st.top, NonCteTables(scope.tables, scope.ctes), EMPTY_SCOPE)], |st.frames|)
    case Names(ctes, adds) => Register(st, ctes, adds)
    case Other => st
  }

  const START := State([Frame(0, 0, EMPTY_SCOPE)], 0)

  /** The state before item `i`. */
  function StateAt(items: seq<Item>, i: nat): (st: State)
    requires i <= |items|
    ensures Valid(st)
  {
    if i == 0 then START else Step(StateAt(items, i - 1), items[i - 1])
  }

  function AddVirtuals(s: QueryScope, names: seq<string>): (r: QueryScope)
    ensures r.ctes == s.ctes
    decreases |names|
  {
    if names == [] then s else AddVirtuals(AddVirtualTable(s, names[0]), names[1..])
  }

  /** `WITH` names are tables of the block that declares them. */
  function WithCtes(f: Frame): Frame { f.(scope := AddVirtuals(f.scope, f.scope.ctes)) }

  function FinalFrames(items: seq<Item>): (frames: seq<Frame>)
    ensures frames != [] && frames[0].parent == 0 && forall j :: 0 < j < |frames| ==> frames[j].parent < j
  {
    var frames := StateAt(items, |items|).frames;
    seq(|frames|, j requires 0 <= j < |frames| => WithCtes(frames[j]))
  }

  function AddTables(s: QueryScope, tables: seq<TableRef>): (r: QueryScope)
    ensures r.ctes == s.ctes
    decreases |tables|
  {
    if tables == [] then s else AddTables(AddTable(s, tables[0]), tables[1..])
  }

  function AddCtes(s: QueryScope, ctes: seq<string>): (r: QueryScope)
    ensures r.tables == s.tables
    decreases |ctes|
  {
    if ctes == [] then s
    else AddCtes(if ctes[0] in s.ctes then s else s.(ctes := s.ctes + [ctes[0]]), ctes[1..])
  }

  function Drop<T>(s: seq<T>, n: nat): seq<T> { if n <= |s| then s[n..] else [] }

  /** Collect the scopes on the way from frame `at` to the root. */
  function Walk(frames: seq<Frame>, at: nat, skip: nat, visible: QueryScope): QueryScope
    requires at < |frames| && frames[0].parent == 0
    requires forall j :: 0 < j < |frames| ==> frames[j].parent < j
    decreases at
  {
    var f := frames[at];
    var v := AddCtes(AddTables(visible, Drop(f.scope.tables, skip)), f.scope.ctes);
    if at == 0 then v else Walk(frames, f.parent, f.hiddenPrefix, v)
  }

  /** Where the cursor stands: a cursor past the tokens stands in the root frame. */
  function CursorFrame(items: seq<Item>, cursor: nat): nat {
    if cursor < |items| then StateAt(items, cursor).top else 0
  }

  lemma {:induction false} FramesGrow(items: seq<Item>, i: nat, j: nat)
    requires i <= j <= |items|
    ensures |StateAt(items, i).frames| <= |StateAt(items, j).frames|
    decreases j - i
  {
    if i < j { FramesGrow(items, i, j - 1); }
  }

  function Resolve(items: seq<Item>, cursor: Option<nat>): QueryScope {
    var frames := FinalFrames(items);
    match cursor
    case None => frames[0].scope
    case Some(c) =>
      FramesGrow(items, if c < |items| then c else 0, |items|);
      Walk(frames, CursorFrame(items, c), 0, EMPTY_SCOPE)
  }

  // ----- The loops -----

  method AddCteTables(frames: seq<Frame>) returns (r: seq<Frame>)
    ensures |r| == |frames| && forall j :: 0 <= j < |r| ==> r[j] == WithCtes(frames[j])
  {
    r := frames;
    for j := 0 to |frames|
      invariant |r| == |frames|
      invariant forall k :: 0 <= k < j ==> r[k] == WithCtes(frames[k])
      invariant forall k :: j <= k < |r| ==> r[k] == frames[k]
    {
      r := r[j := WithCtes(r[j])];
    }
  }

  method WalkUp(frames: seq<Frame>, cursorFrame: nat) returns (visible: QueryScope)
    requires cursorFrame < |frames| && frames[0].parent == 0
    requires forall j :: 0 < j < |frames| ==> frames[j].parent < j
    ensures visible == Walk(frames, cursorFrame, 0, EMPTY_SCOPE)
  {
    hide AddTables, AddCtes;
    visible := EMPTY_SCOPE;
    var at: nat, skip: nat := cursorFrame, 0;
    while true
      invariant at < |frames|
      invariant Walk(frames, at, skip, visible) == Walk(frames, cursorFrame, 0, EMPTY_SCOPE)
      decreases at
    {
      var frame := frames[at];
      visible := AddCtes(AddTables(visible, Drop(frame.scope.tables, skip)), frame.scope.ctes);
      skip := frame.hiddenPrefix;
      if frame.parent == at { break; }
      at := frame.parent;
    }
  }
}
