/** What the resolver lists, by the shapes of tokens. */
module ResolverMeaning {
  import opened ListMeaning
  import opened Options
  import opened RefMeaning
  import opened Scope
  import opened ScopeTokens
  import opened TableLists
  import opened TableRefs
  import opened Tokenizer

  // ----- One token -----

  predicate SetWord(w: string) { w == "UNION" || w == "INTERSECT" || w == "EXCEPT" }

  predicate BodyWord(w: string) {
    || w == "SELECT" || w == "UPDATE" || w == "DELETE" || w == "INSERT" || w == "CREATE" || w == "ALTER"
    || w == "DROP" || w == "TRUNCATE" || w == "EXPLAIN" || w == "SHOW"
  }

  lemma SetWordIff(w: string)
    ensures w in SET_OPERATORS <==> SetWord(w)
  {}

  lemma BodyWordIff(w: string)
    ensures w in BODY_WORDS <==> BodyWord(w)
  {}

  /**
   Parentheses open and close a block, the three set operators start an arm, and a keyword names something only
   if it is WITH or a word that a relation list follows.
   */
  lemma ItemMeans(ts: seq<Tok>, i: nat, parse: nat -> Parsed)
    requires i < |ts| && Progresses(parse)
    ensures var t, item := ts[i], ItemAt(ts, i, parse);
            && (t.kind == TokenKind.LParen <==> item == Item.LParen)
            && (t.kind == TokenKind.RParen <==> item == Item.RParen)
            && (t.kind == Keyword && SetWord(AsciiUpper(t.text)) <==> item == SetOperator)
            && (t.kind == Keyword && !SetWord(AsciiUpper(t.text)) <==> item.Names?)
            && (item.Names? && AsciiUpper(t.text) != "WITH" ==> item.ctes == [])
            && (item.Names? && !RelationWord(AsciiUpper(t.text)) ==> item.adds == [])
  {
    SetWordIff(AsciiUpper(ts[i].text));
    RelationWordIff(AsciiUpper(ts[i].text));
    hide CteNames, SetWord, RelationWord, AsciiUpper, IsUpsert, Listing, NextSignificant;
  }

  /** Once a name is found, a WITH list ends at the first statement word. */
  lemma WithEndsIff(ts: seq<Tok>, i: nat, found: bool)
    requires i < |ts|
    ensures CteTurn(ts, i, found).Ends? <==> found && ts[i].kind == Keyword && BodyWord(AsciiUpper(ts[i].text))
  {
    BodyWordIff(AsciiUpper(ts[i].text));
    hide BodyWord, AsciiUpper, OverBody, OverGroups;
  }

  /** A clause word ends a relation list where it stands. */
  lemma ListStops(ts: seq<Tok>, i: nat, x: nat)
    requires Next(ts, i, x) && ts[x].kind == Keyword && ColumnWord(AsciiUpper(ts[x].text))
    ensures Progresses(ParserOf(ts)) && Listing(ts, i, ParserOf(ts)) == []
  {
    ParserProgresses(ts);
    NextIs(ts, i, x);
    ColumnIsNoModifier(AsciiUpper(ts[x].text));
    assert !IsQualifier(ts, x);
    NoModifier(ts, x);
    ColumnWordIff(AsciiUpper(ts[x].text));
    hide NextSignificant, Next, AsciiUpper, ColumnWord, IsModifier, AfterComma, ParserOf;
  }

  lemma ColumnIsNoModifier(w: string)
    requires ColumnWord(w)
    ensures !ModifierWord(w)
  {}

  // ----- ON DUPLICATE KEY UPDATE -----

  /** The keyword `w` stands at `p`, with only space and comments between it and `i`. */
  predicate KeywordBefore(ts: seq<Tok>, i: nat, w: string, p: nat) {
    && p < i <= |ts| && ts[p].kind == Keyword && AsciiUpper(ts[p].text) == w
    && forall k :: p < k < i ==> Blank(ts[k])
  }

  predicate UpsertAt(ts: seq<Tok>, u: nat, k: nat, d: nat, o: nat) {
    KeywordBefore(ts, u, "KEY", k) && KeywordBefore(ts, k, "DUPLICATE", d) && KeywordBefore(ts, d, "ON", o)
  }

  ghost predicate Upsert(ts: seq<Tok>, u: nat)
    requires u < |ts|
  {
    AsciiUpper(ts[u].text) == "UPDATE" && exists k: nat, d: nat, o: nat :: UpsertAt(ts, u, k, d, o)
  }

  lemma {:induction false} PrevIs(ts: seq<Tok>, i: nat, w: string, p: nat)
    requires KeywordBefore(ts, i, w, p)
    ensures PrevSignificant(ts, i) == Some(p)
    decreases i
  {
    if p < i - 1 { PrevIs(ts, i - 1, w, p); }
  }

  lemma {:induction false} PrevFound(ts: seq<Tok>, i: nat)
    requires i <= |ts| && PrevSignificant(ts, i).Some?
    ensures forall k :: PrevSignificant(ts, i).value < k < i ==> Blank(ts[k])
  {
    if IsTrivia(ts[i - 1].kind) { PrevFound(ts, i - 1); }
  }

  /** `words[0]` is the keyword before token `i`, and the rest stand before it. */
  lemma PrecededStep(ts: seq<Tok>, i: nat, words: seq<string>)
    requires i <= |ts| && words != []
    ensures Preceded(ts, i, words) <==>
            var p := PrevSignificant(ts, i);
            p.Some? && KeywordBefore(ts, i, words[0], p.value) && Preceded(ts, p.value, words[1..])
  {
    if PrevSignificant(ts, i).Some? { PrevFound(ts, i); }
    hide AsciiUpper, PrevSignificant;
  }

  /** An UPDATE is an upsert's exactly when ON, DUPLICATE and KEY stand before it. */
  lemma UpsertIff(ts: seq<Tok>, u: nat)
    requires u < |ts|
    ensures IsUpsert(ts, u) <==> Upsert(ts, u)
  {
    var words := ["KEY", "DUPLICATE", "ON"];
    assert words[1..] == ["DUPLICATE", "ON"] && words[1..][1..] == ["ON"] && ["ON"][1..] == [];
    hide AsciiUpper, PrevSignificant, KeywordBefore, Preceded;
    PrecededStep(ts, u, words);
    var k := PrevSignificant(ts, u);
    if k.Some? {
      PrecededStep(ts, k.value, ["DUPLICATE", "ON"]);
      var d := PrevSignificant(ts, k.value);
      if d.Some? {
        PrecededStep(ts, d.value, ["ON"]);
        var o := PrevSignificant(ts, d.value);
        if o.Some? { NothingPrecedes(ts, o.value); }
        if Preceded(ts, u, words) { assert UpsertAt(ts, u, k.value, d.value, o.value); }
      }
    }
    if Upsert(ts, u) {
      var k: nat, d: nat, o: nat :| UpsertAt(ts, u, k, d, o);
      PrevIs(ts, u, "KEY", k);
      PrevIs(ts, k, "DUPLICATE", d);
      PrevIs(ts, d, "ON", o);
    }
  }

  lemma NothingPrecedes(ts: seq<Tok>, i: nat)
    requires i <= |ts|
    ensures Preceded(ts, i, [])
  {}

  // ----- A relation keyword and its list -----

  lemma ListingSkips(ts: seq<Tok>, i: nat, n: nat, parse: nat -> Parsed)
    requires Progresses(parse) && NextSignificant(ts, i) == Some(n)
    ensures Listing(ts, n, parse) == Listing(ts, i, parse)
  {
    hide Element, AfterComma, IsModifier;
    NextFound(ts, i);
    NextIs(ts, n, n);
  }

  lemma ShapedStarts(ts: seq<Tok>, i: nat, shapes: seq<Shape>)
    requires Shaped(ts, i, shapes)
    ensures NextSignificant(ts, i).Some?
  {
    hide NextSignificant, AsciiUpper;
    var x := shapes[0].at;
    StartsIs(ts, i, x);
  }

  /** A relation word that is no upsert lists what stands behind it. */
  lemma ListedMeans(ts: seq<Tok>, r: nat, shapes: seq<Shape>)
    requires r < |ts| && RelationWord(AsciiUpper(ts[r].text)) && !Upsert(ts, r) && Shaped(ts, r + 1, shapes)
    ensures Progresses(ParserOf(ts)) && ListedAt(ts, r, ParserOf(ts)) == SaysAll(ts, shapes)
  {
    hide AsciiUpper, Upsert, Listing, NextSignificant, Shaped, SaysAll, RelationWord, ParserOf, Additions, IsUpsert;
    ParserProgresses(ts);
    UpsertIff(ts, r);
    RelationWordIff(AsciiUpper(ts[r].text));
    ShapedStarts(ts, r + 1, shapes);
    ListingSkips(ts, r + 1, NextSignificant(ts, r + 1).value, ParserOf(ts));
    ListMeans(ts, r + 1, shapes);
  }

  // ----- One list in a statement -----

  function RefOf(ts: seq<Tok>, s: Shape): TableRef
    requires s.Relation?
  {
    TableRef(TextOf(ts, s.last), TextAt(ts, s.alias), TextAt(ts, s.schema))
  }

  ghost predicate AllRelations(shapes: seq<Shape>) { forall k :: 0 <= k < |shapes| ==> shapes[k].Relation? }

  function RefsOf(ts: seq<Tok>, shapes: seq<Shape>): seq<TableRef>
    requires AllRelations(shapes)
  {
    seq(|shapes|, k requires 0 <= k < |shapes| => RefOf(ts, shapes[k]))
  }

  predicate Distinct(refs: seq<TableRef>) { forall j, k :: 0 <= j < k < |refs| ==> refs[j] != refs[k] }

  /** The token names nothing: no parenthesis, no set operator, no WITH and no relation word. */
  predicate Quiet(t: Tok) {
    && !IsParen(t)
    && (t.kind == Keyword ==>
          var w := AsciiUpper(t.text); !SetWord(w) && w != "WITH" && !RelationWord(w))
  }

  /** One relation word with its list, and nothing else that names a relation or opens a block. */
  ghost predicate OneList(ts: seq<Tok>, r: nat, shapes: seq<Shape>) {
    && r < |ts| && ts[r].kind == Keyword && RelationWord(AsciiUpper(ts[r].text)) && !Upsert(ts, r)
    && Shaped(ts, r + 1, shapes) && AllRelations(shapes)
    && forall k :: 0 <= k < |ts| && k != r ==> Quiet(ts[k])
  }

  predicate Silent(item: Item) { item == Other || item == Names([], []) }

  lemma {:induction false} OneFrame(items: seq<Item>, r: nat, adds: seq<Addition>, i: nat)
    requires r < |items| && items[r] == Names([], adds) && i <= |items|
    requires forall k :: 0 <= k < |items| && k != r ==> Silent(items[k])
    ensures StateAt(items, i) ==
            State([Frame(0, 0, if i <= r then EMPTY_SCOPE else AddAll(EMPTY_SCOPE, adds))], 0)
  {
    hide AddAll;
    if i > 0 {
      OneFrame(items, r, adds, i - 1);
      var f := StateAt(items, i - 1).frames[0];
      assert f.scope.ctes == [] && f.scope.ctes + [] == [];
      if i - 1 != r {
        assert Silent(items[i - 1]);
        NothingAdded(f.scope);
      }
    }
  }

  lemma {:induction false} DistinctAdded(s: QueryScope, refs: seq<TableRef>)
    requires Distinct(s.tables + refs)
    ensures AddTables(s, refs) == s.(tables := s.tables + refs)
    ensures AddAll(s, seq(|refs|, k requires 0 <= k < |refs| => Add(refs[k]))) == s.(tables := s.tables + refs)
    decreases |refs|
  {
    var adds := seq(|refs|, k requires 0 <= k < |refs| => Add(refs[k]));
    if refs == [] {
      assert s.tables + refs == s.tables;
    } else {
      var all, s' := s.tables + refs, s.(tables := s.tables + [refs[0]]);
      assert all[|s.tables|] == refs[0] && forall j :: 0 <= j < |s.tables| ==> s.tables[j] == all[j];
      assert refs[0] !in s.tables;
      assert s'.tables + refs[1..] == all;
      assert adds[1..] == seq(|refs[1..]|, k requires 0 <= k < |refs[1..]| => Add(refs[1..][k]));
      DistinctAdded(s', refs[1..]);
    }
  }

  lemma {:induction false} SaysRefs(ts: seq<Tok>, shapes: seq<Shape>)
    requires AllRelations(shapes)
    ensures var refs := RefsOf(ts, shapes);
            SaysAll(ts, shapes) == seq(|refs|, k requires 0 <= k < |refs| => Add(refs[k]))
    decreases |shapes|
  {
    if shapes != [] {
      SaysRefs(ts, shapes[1..]);
      assert RefsOf(ts, shapes) == [RefOf(ts, shapes[0])] + RefsOf(ts, shapes[1..]);
    }
  }

  lemma ResolvedFrame(items: seq<Item>, r: nat, refs: seq<TableRef>, adds: seq<Addition>, cursor: Option<nat>)
    requires r < |items| && items[r] == Names([], adds) && Distinct(refs)
    requires adds == seq(|refs|, k requires 0 <= k < |refs| => Add(refs[k]))
    requires forall k :: 0 <= k < |items| && k != r ==> Silent(items[k])
    ensures Resolve(items, cursor) == QueryScope(refs, [])
  {
    assert [] + refs == refs;
    DistinctAdded(EMPTY_SCOPE, refs);
    OneFrame(items, r, adds, |items|);
    if cursor.Some? && cursor.value < |items| { OneFrame(items, r, adds, cursor.value); }
    assert refs[0..] == refs;
    hide StateAt, AddAll, AddTables;
    assert FinalFrames(items) == [Frame(0, 0, QueryScope(refs, []))];
  }

  lemma OneListItems(ts: seq<Tok>, r: nat, shapes: seq<Shape>)
    requires OneList(ts, r, shapes) && Progresses(ParserOf(ts))
    ensures var items := ItemsOf(ts, ParserOf(ts));
            && r < |items| && items[r] == Names([], SaysAll(ts, shapes))
            && forall k :: 0 <= k < |items| && k != r ==> Silent(items[k])
  {
    hide AsciiUpper, Upsert, Shaped, SaysAll, ItemAt, SetWord, ParserOf, RelationWord;
    var items := ItemsOf(ts, ParserOf(ts));
    ListedMeans(ts, r, shapes);
    RelationIsNoOperator(AsciiUpper(ts[r].text));
    NamesAt(ts, r, ParserOf(ts));
    forall k | 0 <= k < |items| && k != r ensures Silent(items[k]) {
      assert Quiet(ts[k]);
      ItemMeans(ts, k, ParserOf(ts));
      if ts[k].kind != Keyword { OthersAre(ts, k, ParserOf(ts)); }
    }
  }

  lemma RelationIsNoOperator(w: string)
    requires RelationWord(w)
    ensures !SetWord(w) && w != "WITH"
  {}

  lemma NamesAt(ts: seq<Tok>, i: nat, parse: nat -> Parsed)
    requires i < |ts| && Progresses(parse) && ts[i].kind == Keyword
    requires !SetWord(AsciiUpper(ts[i].text)) && AsciiUpper(ts[i].text) != "WITH"
    ensures ItemAt(ts, i, parse) == Names([], ListedAt(ts, i, parse))
  {
    SetWordIff(AsciiUpper(ts[i].text));
    hide AsciiUpper, SetWord, ListedAt, CteNames;
  }

  lemma OthersAre(ts: seq<Tok>, i: nat, parse: nat -> Parsed)
    requires i < |ts| && Progresses(parse) && ts[i].kind != Keyword && !IsParen(ts[i])
    ensures ItemAt(ts, i, parse) == Other
  {
    hide AsciiUpper, ListedAt, CteNames;
  }

  /**
   In a statement with one relation list the resolver lists, from every cursor, exactly the relations of that
   list, each with its name, alias and schema, in order.
   */
  lemma ResolverLists(ts: seq<Tok>, r: nat, shapes: seq<Shape>, cursor: Option<nat>)
    requires OneList(ts, r, shapes) && Distinct(RefsOf(ts, shapes))
    ensures Progresses(ParserOf(ts))
            && Resolve(ItemsOf(ts, ParserOf(ts)), cursor) == QueryScope(RefsOf(ts, shapes), [])
  {
    hide OneList, ItemsOf, Resolve, ParserOf, SaysAll, RefsOf, Distinct;
    ParserProgresses(ts);
    OneListItems(ts, r, shapes);
    RelationsOf(ts, r, shapes);
    SaysRefs(ts, shapes);
    ResolvedFrame(ItemsOf(ts, ParserOf(ts)), r, RefsOf(ts, shapes), SaysAll(ts, shapes), cursor);
  }

  lemma RelationsOf(ts: seq<Tok>, r: nat, shapes: seq<Shape>)
    requires OneList(ts, r, shapes)
    ensures AllRelations(shapes)
  {}

  /** `FROM users u` with a space between the words: the table `users`, alias `u`. */
  lemma FromUsersU(cursor: Option<nat>)
    ensures var gap := Tok(Whitespace, " ", false);
            var ts := [Tok(Keyword, "FROM", true), gap, Tok(Ident, "users", false), gap, Tok(Ident, "u", false)];
            && Progresses(ParserOf(ts))
            && Resolve(ItemsOf(ts, ParserOf(ts)), cursor) == QueryScope([TableRef("users", Some("u"), None)], [])
  {
    var gap := Tok(Whitespace, " ", false);
    var ts := [Tok(Keyword, "FROM", true), gap, Tok(Ident, "users", false), gap, Tok(Ident, "u", false)];
    var s := Relation(2, 2, None, Some(4));
    FromUsersUShape(ts, s);
    hide OneList, ItemsOf, Resolve, ParserOf;
    assert [s][0] == s;
    assert RefsOf(ts, [s]) == [TableRef("users", Some("u"), None)];
    ResolverLists(ts, 0, [s], cursor);
  }

  lemma FromUsersUShape(ts: seq<Tok>, s: Shape)
    requires |ts| == 5 && ts[0] == Tok(Keyword, "FROM", true) && ts[1].kind == Whitespace && ts[3].kind == Whitespace
    requires ts[2] == Tok(Ident, "users", false) && ts[4] == Tok(Ident, "u", false)
    requires s == Relation(2, 2, None, Some(4))
    ensures OneList(ts, 0, [s])
  {
    UpperWords();
    hide AsciiUpper;
    assert Next(ts, 1, 2) && Next(ts, 3, 4) && NothingFrom(ts, 5);
    assert !IsQualifier(ts, 2) && Starts(ts, 1, 2);
    assert AliasShape(ts, 2, Some(4));
    assert !ParenBehind(ts, 3);
    assert ShapeAt(ts, s);
    assert Shaped(ts, 1, [s]);
  }

  lemma UpperWords()
    ensures AsciiUpper("FROM") == "FROM" && AsciiUpper("users") == "USERS" && AsciiUpper("u") == "U"
  {}
}
