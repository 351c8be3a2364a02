/** The table resolver on tokens. */
module ScopeTokens {
  import opened Options
  import opened Scope
  import opened TableLists
  import opened TableRefs
  import opened Tokenizer

  const SET_OPERATORS := {"UNION", "INTERSECT", "EXCEPT"}

  /** The statement words that end a `WITH` list. */
  const BODY_WORDS := {"SELECT", "UPDATE", "DELETE", "INSERT", "CREATE", "ALTER", "DROP", "TRUNCATE", "EXPLAIN",
                       "SHOW"}

  // ----- The names of a `WITH` -----

  /** From `i` over space, comments and closed parentheses. */
  function OverGroups(ts: seq<Tok>, i: nat): (r: nat)
    requires i <= |ts|
    ensures i <= r <= |ts|
    decreases |ts| - i
  {
    if i == |ts| then i
    else if IsTrivia(ts[i].kind) then OverGroups(ts, i + 1)
    else if ts[i].kind == TokenKind.LParen then
      var after := Matching(ts, i);
      if after.Some? then OverGroups(ts, after.value) else |ts|
    else i
  }

  predicate IsAs(t: Tok) { t.kind == Keyword && Says(t, "AS") }

  /** Behind the parenthesis that follows token `at`, if one does. */
  function OverBody(ts: seq<Tok>, at: nat): (r: Option<nat>)
    requires at < |ts|
    ensures r.Some? ==> at < r.value <= |ts|
  {
    var next := NextSignificant(ts, at + 1);
    if next.Some? && ts[next.value].kind == TokenKind.LParen then Some(Matching(ts, next.value).UnwrapOr(|ts|))
    else None
  }

  /** One turn of the `WITH` scan: whether it ends, what name it finds, and where it goes on. */
  datatype Turn = Ends | Goes(name: Option<string>, next: nat)

  function CteTurn(ts: seq<Tok>, i: nat, found: bool): (r: Turn)
    requires i < |ts|
    ensures r.Goes? ==> i < r.next <= |ts|
  {
    if ts[i].kind == Keyword && found then
      if AsciiUpper(ts[i].text) in BODY_WORDS then Ends
      else if Says(ts[i], "AS") then Goes(None, OverBody(ts, i).UnwrapOr(i + 1))
      else Goes(None, i + 1)
    else if IsName(ts[i]) then
      var check := OverGroups(ts, i + 1);
      if check < |ts| && IsAs(ts[check]) then Goes(Some(ts[i].text), OverBody(ts, check).UnwrapOr(i + 1))
      else Goes(None, i + 1)
    else Goes(None, i + 1)
  }

  /** The names that the `WITH` scan finds from `i` on. */
  function CteNames(ts: seq<Tok>, i: nat, found: bool): seq<string>
    requires i <= |ts|
    decreases |ts| - i
  {
    if i == |ts| then []
    else
      match CteTurn(ts, i, found)
      case Ends => []
      case Goes(None, next) => CteNames(ts, next, found)
      case Goes(Some(name), next) => [name] + CteNames(ts, next, true)
  }

  method ExtractCteNames(ts: seq<Tok>, with: nat, ctes: seq<string>) returns (r: seq<string>)
    requires with < |ts|
    ensures r == ctes + CteNames(ts, with + 1, false)
  {
    r := ctes;
    var i, found := with + 1, false;
    while i < |ts|
      invariant i <= |ts| && r + CteNames(ts, i, found) == ctes + CteNames(ts, with + 1, false)
    {
      match CteTurn(ts, i, found) {
        case Ends => break;
        case Goes(None, next) => i := next;
        case Goes(Some(name), next) =>
          assert r + ([name] + CteNames(ts, next, true)) == (r + [name]) + CteNames(ts, next, true);
          r := r + [name];
          i, found := next, true;
      }
    }
  }

  // ----- What a keyword registers -----

  function PrevSignificant(ts: seq<Tok>, i: nat): (r: Option<nat>)
    requires i <= |ts|
    ensures r.Some? ==> r.value < i
  {
    if i == 0 then None else if !IsTrivia(ts[i - 1].kind) then Some(i - 1) else PrevSignificant(ts, i - 1)
  }

  /** Do the keywords `words` stand before token `i`, the first of them nearest? */
  predicate Preceded(ts: seq<Tok>, i: nat, words: seq<string>)
    requires i <= |ts|
    decreases |words|
  {
    words == []
    || (var p := PrevSignificant(ts, i);
        p.Some? && ts[p.value].kind == Keyword && Says(ts[p.value], words[0]) && Preceded(ts, p.value, words[1..]))
  }

  /** `ON DUPLICATE KEY UPDATE` names a column, not a relation. */
  predicate IsUpsert(ts: seq<Tok>, i: nat)
    requires i < |ts|
  {
    Says(ts[i], "UPDATE") && Preceded(ts, i, ["KEY", "DUPLICATE", "ON"])
  }

  predicate StartsTableList(ts: seq<Tok>, i: nat)
    requires i < |ts|
  {
    AsciiUpper(ts[i].text) in TABLE_WORDS && !IsUpsert(ts, i) && NextSignificant(ts, i + 1).Some?
  }

  ghost function ListedAt(ts: seq<Tok>, i: nat, parse: nat -> Parsed): seq<Addition>
    requires i < |ts| && Progresses(parse)
  {
    if StartsTableList(ts, i) then Additions(Listing(ts, NextSignificant(ts, i + 1).value, parse)) else []
  }

  /** A token as the frames see it. */
  ghost function ItemAt(ts: seq<Tok>, i: nat, parse: nat -> Parsed): Item
    requires i < |ts| && Progresses(parse)
  {
    match ts[i].kind
    case LParen => Item.LParen
    case RParen => Item.RParen
    case Keyword =>
      if AsciiUpper(ts[i].text) in SET_OPERATORS then SetOperator
      else Names(if Says(ts[i], "WITH") then CteNames(ts, i + 1, false) else [], ListedAt(ts, i, parse))
    case _ => Other
  }

  ghost function ItemsOf(ts: seq<Tok>, parse: nat -> Parsed): (items: seq<Item>)
    requires Progresses(parse)
    ensures |items| == |ts|
  {
    seq(|ts|, i requires 0 <= i < |ts| => ItemAt(ts, i, parse))
  }

  /** What a keyword that is no set operator puts into the block it stands in. */
  method RegisterKeyword(ts: seq<Tok>, i: nat, parse: nat -> Parsed, before: QueryScope) returns (scope: QueryScope)
    requires i < |ts| && Progresses(parse)
    ensures scope == AddAll(before.(ctes := before.ctes
                              + (if Says(ts[i], "WITH") then CteNames(ts, i + 1, false) else [])),
                            ListedAt(ts, i, parse))
  {
    hide AddAll, CteNames, Listing;
    scope := before;
    assert before.ctes + [] == before.ctes;
    if Says(ts[i], "WITH") {
      var ctes := ExtractCteNames(ts, i, scope.ctes);
      scope := scope.(ctes := ctes);
    }
    if StartsTableList(ts, i) {
      scope := RegisterTableList(ts, NextSignificant(ts, i + 1).value, parse, scope);
    } else {
      NothingAdded(scope);
    }
  }

  lemma NothingAdded(s: QueryScope)
    ensures AddAll(s, []) == s
  {
  }

  /** One token of the resolver's scan. */
  method AdvanceToken(ts: seq<Tok>, i: nat, parse: nat -> Parsed, frames: seq<Frame>, top: nat)
      returns (frames': seq<Frame>, top': nat)
    requires i < |ts| && Progresses(parse) && Valid(State(frames, top))
    ensures State(frames', top') == Step(State(frames, top), ItemAt(ts, i, parse))
  {
    hide AddAll, CteNames, ListedAt, NonCteTables;
    frames', top' := frames, top;
    match ts[i].kind {
      case LParen =>
        frames' := frames + [Frame(top, 0, EMPTY_SCOPE)];
        top' := |frames'| - 1;
      case RParen =>
        if top > 0 { top' := frames[top].parent; }
      case Keyword =>
        if AsciiUpper(ts[i].text) in SET_OPERATORS {
          var hidden := NonCteTables(frames[top].scope.tables, frames[top].scope.ctes);
          frames' := frames + [Frame(top, hidden, EMPTY_SCOPE)];
          top' := |frames'| - 1;
        } else {
          var scope := RegisterKeyword(ts, i, parse, frames[top].scope);
          frames' := frames[top := frames[top].(scope := scope)];
        }
      case _ =>
    }
  }

  method ScanTokens(ts: seq<Tok>, parse: nat -> Parsed, cursor: nat) returns (frames: seq<Frame>, cursorFrame: nat)
    requires Progresses(parse)
    ensures frames == StateAt(ItemsOf(ts, parse), |ts|).frames && cursorFrame == CursorFrame(ItemsOf(ts, parse), cursor)
  {
    hide Step, ItemAt;
    ghost var items := ItemsOf(ts, parse);
    frames := [Frame(0, 0, EMPTY_SCOPE)];
    var top: nat := 0;
    cursorFrame := 0;
    var i := 0;
    while i < |ts|
      invariant 0 <= i <= |ts| && State(frames, top) == StateAt(items, i)
      invariant cursorFrame == if cursor < i then StateAt(items, cursor).top else 0
    {
      if i == cursor { cursorFrame := top; }
      frames, top := AdvanceToken(ts, i, parse, frames, top);
      i := i + 1;
    }
  }

  /** What a cursor on token `cursor` can see: the resolver, for every reference parser that makes progress. */
  method ResolveTokens(ts: seq<Tok>, parse: nat -> Parsed, cursor: Option<nat>) returns (visible: QueryScope)
    requires Progresses(parse)
    ensures visible == Resolve(ItemsOf(ts, parse), cursor)
  {
    hide Walk, WithCtes, StateAt, ItemsOf;
    ghost var items := ItemsOf(ts, parse);
    var frames, cursorFrame := ScanTokens(ts, parse, cursor.UnwrapOr(|ts|));
    frames := AddCteTables(frames);
    assert frames == FinalFrames(items);
    if cursor.None? { return frames[0].scope; }
    FramesGrow(items, if cursor.value < |items| then cursor.value else 0, |items|);
    visible := WalkUp(frames, cursorFrame);
  }

  /** The resolver, with the reference parser it has. */
  method ResolveScopeAt(ts: seq<Tok>, cursor: Option<nat>) returns (visible: QueryScope)
    ensures Progresses(ParserOf(ts)) && visible == Resolve(ItemsOf(ts, ParserOf(ts)), cursor)
  {
    ParserProgresses(ts);
    visible := ResolveTokens(ts, ParserOf(ts), cursor);
  }
}
