/** What a table list registers, and what the resolver then lists, on shapes of tokens. */
module ListMeaning {
  import opened Options
  import opened RefMeaning
  import opened Scope
  import opened TableLists
  import opened TableRefs
  import opened Tokenizer

  // ----- Shapes of a list -----

  /** An element of a list: where it stands, where its name or parenthesis ends, and its schema and alias. */
  datatype Shape =
    | Relation(at: nat, last: nat, schema: Option<nat>, alias: Option<nat>)
    | Derived(at: nat, last: nat, alias: Option<nat>)
    | Call(at: nat, open: nat, last: nat, alias: Option<nat>)

  function Count(ts: seq<Tok>, kind: TokenKind, i: nat): nat
    requires i <= |ts|
  {
    if i == 0 then 0 else Count(ts, kind, i - 1) + (if ts[i - 1].kind == kind then 1 else 0)
  }

  function Balance(ts: seq<Tok>, i: nat): int
    requires i <= |ts|
  {
    Count(ts, TokenKind.LParen, i) - Count(ts, TokenKind.RParen, i)
  }

  /** The parenthesis at `close` is the one that closes `lp`. */
  predicate Closes(ts: seq<Tok>, lp: nat, close: nat) {
    && lp < close < |ts| && ts[lp].kind == TokenKind.LParen
    && Balance(ts, close + 1) == Balance(ts, lp) && forall k :: lp < k <= close ==> Balance(ts, k) != Balance(ts, lp)
  }

  predicate ModifierWord(w: string) { w == "LATERAL" || w == "ONLY" }

  /** `LATERAL` or `ONLY` at `m`, with a name or a parenthesis behind it at `x`. */
  predicate Modifies(ts: seq<Tok>, m: nat, x: nat) {
    && Next(ts, m + 1, x) && (Named(ts[m]) || ts[m].kind == Keyword) && ModifierWord(AsciiUpper(ts[m].text))
    && (Named(ts[x]) || ts[x].kind == TokenKind.LParen)
  }

  ghost predicate IsQualifier(ts: seq<Tok>, m: nat) { exists x: nat :: Modifies(ts, m, x) }

  predicate ModifiedBy(ts: seq<Tok>, i: nat, m: nat, x: nat) { Next(ts, i, m) && Modifies(ts, m, x) }

  /** The element at `x` is the first thing from `i` on, but for one `LATERAL` or `ONLY` that qualifies it. */
  ghost predicate Starts(ts: seq<Tok>, i: nat, x: nat) {
    (Next(ts, i, x) && !IsQualifier(ts, x)) || exists m: nat :: ModifiedBy(ts, i, m, x)
  }

  predicate OpenedBy(ts: seq<Tok>, i: nat, x: nat) { Next(ts, i, x) && ts[x].kind == TokenKind.LParen }

  ghost predicate ParenBehind(ts: seq<Tok>, i: nat) { exists x: nat :: OpenedBy(ts, i, x) }

  ghost predicate ShapeAt(ts: seq<Tok>, s: Shape) {
    && s.at <= s.last < |ts| && AliasShape(ts, s.last, s.alias)
    && !(ts[s.at].kind == Keyword && ColumnWord(AsciiUpper(ts[s.at].text)))
    && match s
       case Relation(at, last, schema, _) =>
         NameShape(ts, at, last, schema) && ts[last].text != "" && !ParenBehind(ts, at + 1)
       case Derived(at, last, _) => Closes(ts, at, last)
       case Call(at, open, last, _) =>
         NameShape(ts, at, at, None) && ts[at].text != "" && OpenedBy(ts, at + 1, open) && Closes(ts, open, last)
  }

  /** The last token of an element. */
  function LastOf(s: Shape): nat { s.alias.UnwrapOr(s.last) }

  predicate CommaAt(ts: seq<Tok>, e: nat, c: nat) { Next(ts, e + 1, c) && ts[c].kind == Comma }

  predicate StopAt(ts: seq<Tok>, e: nat, x: nat) {
    Next(ts, e + 1, x) && !Named(ts[x]) && !AsToken(ts[x]) && ts[x].kind != Comma
  }

  ghost predicate Stops(ts: seq<Tok>, e: nat) { NothingFrom(ts, e + 1) || exists x: nat :: StopAt(ts, e, x) }

  /** From `i` on the elements stand with commas between them, and the list ends behind the last. */
  ghost predicate Shaped(ts: seq<Tok>, i: nat, shapes: seq<Shape>)
    decreases |shapes|
  {
    && shapes != [] && ShapeAt(ts, shapes[0]) && Starts(ts, i, shapes[0].at)
    && if |shapes| == 1 then Stops(ts, LastOf(shapes[0]))
       else exists c: nat :: CommaAt(ts, LastOf(shapes[0]), c) && Shaped(ts, c + 1, shapes[1..])
  }

  function TextOf(ts: seq<Tok>, i: nat): string { if i < |ts| then ts[i].text else "" }

  function Virtual(ts: seq<Tok>, alias: Option<nat>): seq<Addition> {
    if alias.Some? then [AddVirtual(TextOf(ts, alias.value))] else []
  }

  /** The name, alias and schema of a relation, the name of a call, and the alias of a derived table. */
  function Says1(ts: seq<Tok>, s: Shape): seq<Addition> {
    match s
    case Relation(_, last, schema, alias) => [Add(TableRef(TextOf(ts, last), TextAt(ts, alias), TextAt(ts, schema)))]
    case Derived(_, _, alias) => Virtual(ts, alias)
    case Call(at, _, _, alias) => [Add(TableRef(TextOf(ts, at), None, None))] + Virtual(ts, alias)
  }

  function SaysAll(ts: seq<Tok>, shapes: seq<Shape>): seq<Addition> {
    if shapes == [] then [] else Says1(ts, shapes[0]) + SaysAll(ts, shapes[1..])
  }

  // ----- Parts -----

  lemma {:induction false} LevelIsBalance(ts: seq<Tok>, i: nat)
    requires i <= |ts|
    ensures Level(ts, i) == Balance(ts, i)
  {
    if i > 0 { LevelIsBalance(ts, i - 1); }
  }

  lemma {:induction false} ReturnsAt(ts: seq<Tok>, lp: nat, j: nat, close: nat)
    requires Closes(ts, lp, close) && lp < j <= close + 1
    ensures ReturnFrom(ts, lp, j) == Some(close + 1)
    decreases close + 1 - j
  {
    LevelIsBalance(ts, lp);
    LevelIsBalance(ts, j);
    if j <= close { ReturnsAt(ts, lp, j + 1, close); }
  }

  lemma ClosedIsMatched(ts: seq<Tok>, lp: nat, close: nat)
    requires Closes(ts, lp, close)
    ensures Matching(ts, lp) == Some(close + 1) && lp < close < |ts| && ts[lp].kind == TokenKind.LParen
  {
    ReturnsAt(ts, lp, lp + 1, close);
  }

  lemma NextFound(ts: seq<Tok>, i: nat)
    requires NextSignificant(ts, i).Some?
    ensures Next(ts, i, NextSignificant(ts, i).value)
  {}

  lemma ModifierIs(ts: seq<Tok>, m: nat, x: nat)
    requires Modifies(ts, m, x)
    ensures IsModifier(ts, m)
  {
    NextIs(ts, m + 1, x);
    hide NextSignificant, AsciiUpper, Next;
  }

  lemma ModifierQualifies(ts: seq<Tok>, m: nat)
    requires m < |ts| && IsModifier(ts, m)
    ensures IsQualifier(ts, m)
  {
    hide NextSignificant, AsciiUpper, Next;
    NextFound(ts, m + 1);
    assert Modifies(ts, m, NextSignificant(ts, m + 1).value);
  }

  lemma NoModifier(ts: seq<Tok>, m: nat)
    requires m < |ts| && !IsQualifier(ts, m)
    ensures !IsModifier(ts, m)
  {
    hide *;
    if IsModifier(ts, m) { ModifierQualifies(ts, m); }
  }

  lemma StartsIs(ts: seq<Tok>, i: nat, x: nat)
    requires Starts(ts, i, x)
    ensures ElementStart(ts, i) == Some(x) && i <= x < |ts|
  {
    hide NextSignificant, IsModifier, IsQualifier;
    if Next(ts, i, x) && !IsQualifier(ts, x) {
      NextIs(ts, i, x);
      NoModifier(ts, x);
    } else {
      var m: nat :| ModifiedBy(ts, i, m, x);
      NextIs(ts, i, m);
      NextIs(ts, m + 1, x);
      ModifierIs(ts, m, x);
    }
  }

  // ----- Elements -----

  function Entries(at: nat, adds: seq<Addition>): seq<Entry> {
    seq(|adds|, k requires 0 <= k < |adds| => Entry(at, adds[k]))
  }

  lemma EntriesSay(at: nat, adds: seq<Addition>)
    ensures Additions(Entries(at, adds)) == adds
  {}

  lemma BareDerived(ts: seq<Tok>, lp: nat, last: nat, a: nat)
    requires lp < |ts| && Matching(ts, lp) == Some(last + 1)
    requires NextSignificant(ts, last + 1) == Some(a) && a < |ts| && Named(ts[a]) && !ts[a].known
    ensures DerivedAlias(ts, lp) == Some(ts[a].text)
  {
    hide NextSignificant, AsciiUpper, Matching;
  }

  lemma AsDerived(ts: seq<Tok>, lp: nat, last: nat, x: nat, a: nat)
    requires lp < |ts| && Matching(ts, lp) == Some(last + 1)
    requires NextSignificant(ts, last + 1) == Some(x) && x < |ts| && AsToken(ts[x])
    requires NextSignificant(ts, x + 1) == Some(a) && a < |ts| && Named(ts[a])
    ensures DerivedAlias(ts, lp) == Some(ts[a].text)
  {
    hide NextSignificant, AsciiUpper, Matching;
  }

  lemma NoDerived(ts: seq<Tok>, lp: nat, last: nat, x: Option<nat>)
    requires lp < |ts| && Matching(ts, lp) == Some(last + 1) && NextSignificant(ts, last + 1) == x
    requires x.Some? ==> x.value < |ts| && !Named(ts[x.value]) && !AsToken(ts[x.value])
    ensures DerivedAlias(ts, lp) == None
  {
    hide NextSignificant, AsciiUpper, Matching;
  }

  /**
   Behind the parenthesis that closes `lp`, `AS` takes any name or keyword for the alias, and without it a name
   is the alias unless it is a known keyword.
   */
  lemma DerivedNameIff(ts: seq<Tok>, lp: nat, close: nat, x: nat, a: nat)
    requires Closes(ts, lp, close) && Next(ts, close + 1, x) && (AsToken(ts[x]) ==> Next(ts, x + 1, a))
    ensures DerivedAlias(ts, lp) ==
            if AsToken(ts[x]) then if Named(ts[a]) || ts[a].kind == Keyword then Some(ts[a].text) else None
            else if Named(ts[x]) && !ts[x].known then Some(ts[x].text) else None
  {
    ClosedIsMatched(ts, lp, close);
    NextIs(ts, close + 1, x);
    if AsToken(ts[x]) { NextIs(ts, x + 1, a); }
    hide Closes, Next, NextSignificant, Matching, AsciiUpper;
  }

  /** What stands behind `last`: the alias, `AS` at `x` and then the alias, or `x` and no alias. */
  lemma AliasCases(ts: seq<Tok>, last: nat, alias: Option<nat>) returns (x: Option<nat>)
    requires AliasShape(ts, last, alias)
    ensures NextSignificant(ts, last + 1) == if x.Some? then x else alias
    ensures alias.Some? ==> alias.value < |ts| && Named(ts[alias.value]) && !ts[alias.value].known
    ensures alias.Some? && x.Some? ==>
              x.value < |ts| && AsToken(ts[x.value]) && NextSignificant(ts, x.value + 1) == alias
    ensures alias.None? && x.Some? ==> x.value < |ts| && !Named(ts[x.value]) && !AsToken(ts[x.value])
  {
    hide NextSignificant, Next, NothingFrom, AliasedBy, StoppedBy, FreeName, AsToken, Named;
    if alias.Some? {
      FreeIsNamed(ts[alias.value]);
      if Next(ts, last + 1, alias.value) {
        NextIs(ts, last + 1, alias.value);
        x := None;
      } else {
        var y: nat :| AliasedBy(ts, last, y, alias.value);
        AsIs(ts, last, y, alias.value);
        x := Some(y);
      }
    } else if NothingFrom(ts, last + 1) {
      NothingIs(ts, last + 1);
      x := None;
    } else {
      var y: nat :| StoppedBy(ts, last, y);
      StopIs(ts, last, y);
      x := Some(y);
    }
  }

  lemma TextAtIs(ts: seq<Tok>, alias: Option<nat>)
    requires alias.Some? ==> alias.value < |ts|
    ensures TextAt(ts, alias) == if alias.Some? then Some(ts[alias.value].text) else None
  {}

  /** The alias found behind the parenthesis closed at `last`. */
  lemma DerivedAliasIs(ts: seq<Tok>, lp: nat, last: nat, alias: Option<nat>)
    requires lp < |ts| && Matching(ts, lp) == Some(last + 1) && AliasShape(ts, last, alias)
    ensures DerivedAlias(ts, lp) == TextAt(ts, alias)
  {
    hide *;
    var x := AliasCases(ts, last, alias);
    TextAtIs(ts, alias);
    if alias.None? {
      NoDerived(ts, lp, last, x);
    } else if x.None? {
      BareDerived(ts, lp, last, alias.value);
    } else {
      AsDerived(ts, lp, last, x.value, alias.value);
    }
  }

  lemma FreeIsNamed(t: Tok)
    requires FreeName(t)
    ensures Named(t) && !t.known && t.kind != Keyword
  {}

  lemma AliasEntryIs(ts: seq<Tok>, at: nat, lp: nat, last: nat, alias: Option<nat>)
    requires lp < |ts| && Matching(ts, lp) == Some(last + 1) && AliasShape(ts, last, alias)
    ensures AliasEntry(ts, at, lp) == Entries(at, Virtual(ts, alias))
  {
    DerivedAliasIs(ts, lp, last, alias);
    AliasIsBehind(ts, last, alias);
    hide DerivedAlias, AliasShape, Matching;
  }

  /** One element registers what it says, and reading goes on behind its name, alias or parenthesis. */
  ghost predicate Reads(ts: seq<Tok>, s: Shape) {
    s.at < |ts| && Element(ts, s.at, ParserOf(ts))
      == (Entries(s.at, Says1(ts, s)), Some(if s.Relation? then LastOf(s) + 1 else s.last + 1))
  }

  lemma NoColumnWord(ts: seq<Tok>, i: nat)
    requires i < |ts| && !(ts[i].kind == Keyword && ColumnWord(AsciiUpper(ts[i].text)))
    ensures !(ts[i].kind == Keyword && AsciiUpper(ts[i].text) in COLUMN_WORDS)
  {
    ColumnWordIff(AsciiUpper(ts[i].text));
    hide ColumnWord, AsciiUpper;
  }

  lemma ElementOfRelation(ts: seq<Tok>, i: nat, p: Parsed)
    requires i < |ts| && !(ts[i].kind == Keyword && AsciiUpper(ts[i].text) in COLUMN_WORDS) && IsNameOrKeyword(ts[i])
    requires TableRefAt(ts, i) == p && p.name != ""
    requires var args := NextSignificant(ts, i + 1); args.Some? ==> ts[args.value].kind != TokenKind.LParen
    ensures Element(ts, i, ParserOf(ts))
            == (Entries(i, [Add(TableRef(p.name, p.alias, p.schema))]), Some(i + p.consumed))
  {
    OneEntry(i, Add(TableRef(p.name, p.alias, p.schema)));
    hide Entries, NextSignificant, TableRefAt, AsciiUpper;
  }

  lemma OneEntry(at: nat, a: Addition)
    ensures Entries(at, [a]) == [Entry(at, a)]
  {}

  lemma ElementOfCall(ts: seq<Tok>, i: nat, open: nat, p: Parsed)
    requires i < |ts| && !(ts[i].kind == Keyword && AsciiUpper(ts[i].text) in COLUMN_WORDS) && IsNameOrKeyword(ts[i])
    requires TableRefAt(ts, i) == p && p.name != ""
    requires NextSignificant(ts, i + 1) == Some(open) && open < |ts| && ts[open].kind == TokenKind.LParen
    ensures Element(ts, i, ParserOf(ts))
            == ([Entry(i, Add(TableRef(p.name, p.alias, p.schema)))] + AliasEntry(ts, i, open), Matching(ts, open))
  {
    hide NextSignificant, TableRefAt, AsciiUpper, AliasEntry, Matching;
  }

  lemma ElementOfDerived(ts: seq<Tok>, i: nat)
    requires i < |ts| && ts[i].kind == TokenKind.LParen
    ensures Element(ts, i, ParserOf(ts)) == (AliasEntry(ts, i, i), Matching(ts, i))
  {
    hide NextSignificant, TableRefAt, AsciiUpper, AliasEntry, Matching;
  }

  lemma RelationReads(ts: seq<Tok>, s: Shape)
    requires ShapeAt(ts, s) && s.Relation?
    ensures Reads(ts, s)
  {
    hide NameShape, AliasShape, TableRefAt, AsciiUpper, ColumnWord, NextSignificant, OpenedBy, Element;
    ShapeBounds(ts, s.at, s.last, s.schema);
    AliasIsBehind(ts, s.last, s.alias);
    ReferenceMeans(ts, s.at, s.last, s.schema, s.alias);
    NoColumnWord(ts, s.at);
    NoParen(ts, s.at + 1);
    ElementOfRelation(ts, s.at, TableRefAt(ts, s.at));
  }

  lemma NoParen(ts: seq<Tok>, i: nat)
    requires !ParenBehind(ts, i)
    ensures var args := NextSignificant(ts, i); args.Some? ==> ts[args.value].kind != TokenKind.LParen
  {
    var args := NextSignificant(ts, i);
    if args.Some? {
      NextFound(ts, i);
      hide Next, NextSignificant;
      assert !OpenedBy(ts, i, args.value);
    }
  }

  lemma ParenIsNoAlias(ts: seq<Tok>, i: nat, open: nat)
    requires OpenedBy(ts, i + 1, open)
    ensures AliasShape(ts, i, None) && NextSignificant(ts, i + 1) == Some(open) && open < |ts|
    ensures ts[open].kind == TokenKind.LParen
  {
    NextIs(ts, i + 1, open);
    assert StoppedBy(ts, i, open);
  }

  lemma CallReads(ts: seq<Tok>, s: Shape)
    requires ShapeAt(ts, s) && s.Call?
    ensures Reads(ts, s)
  {
    hide NameShape, AliasShape, TableRefAt, AsciiUpper, ColumnWord, NextSignificant, OpenedBy, Element, Closes,
      AliasEntry, Matching, Virtual;
    ShapeBounds(ts, s.at, s.at, None);
    ParenIsNoAlias(ts, s.at, s.open);
    ReferenceMeans(ts, s.at, s.at, None, None);
    NoColumnWord(ts, s.at);
    ClosedIsMatched(ts, s.open, s.last);
    AliasEntryIs(ts, s.at, s.open, s.last, s.alias);
    ElementOfCall(ts, s.at, s.open, TableRefAt(ts, s.at));
    EntriesJoin(s.at, Add(TableRef(ts[s.at].text, None, None)), Virtual(ts, s.alias));
  }

  lemma EntriesJoin(at: nat, a: Addition, rest: seq<Addition>)
    ensures [Entry(at, a)] + Entries(at, rest) == Entries(at, [a] + rest)
  {}

  lemma DerivedReads(ts: seq<Tok>, s: Shape)
    requires ShapeAt(ts, s) && s.Derived?
    ensures Reads(ts, s)
  {
    hide AliasShape, AsciiUpper, ColumnWord, Element, Closes, AliasEntry, Matching, Virtual;
    ClosedIsMatched(ts, s.at, s.last);
    AliasEntryIs(ts, s.at, s.at, s.last, s.alias);
    ElementOfDerived(ts, s.at);
  }

  // ----- Behind an element -----

  /** Where the list goes on behind the token at `e`, when no name and no `AS` follows it. */
  ghost predicate GoesOn(ts: seq<Tok>, e: nat, next: Option<nat>) {
    match next
    case Some(n) => n > 0 && CommaAt(ts, e, n - 1)
    case None => Stops(ts, e)
  }

  lemma CommaIs(ts: seq<Tok>, e: nat, c: nat)
    requires CommaAt(ts, e, c)
    ensures NextSignificant(ts, e + 1) == Some(c) && NextSignificant(ts, c) == Some(c)
    ensures c < |ts| && ts[c].kind == Comma
  {
    NextIs(ts, e + 1, c);
    NextIs(ts, c, c);
  }

  lemma StopIsNoComma(ts: seq<Tok>, e: nat, x: nat)
    requires StopAt(ts, e, x)
    ensures NextSignificant(ts, e + 1) == Some(x) && NextSignificant(ts, x) == Some(x) && x < |ts|
    ensures ts[x].kind != Comma && !Named(ts[x]) && !AsToken(ts[x])
  {
    hide AsToken;
    NextIs(ts, e + 1, x);
    NextIs(ts, x, x);
  }

  lemma AfterCommaIs(ts: seq<Tok>, i: nat, tail: nat, z: Option<nat>)
    requires SkipAliasTail(ts, i) == tail && NextSignificant(ts, tail) == z
    ensures AfterComma(ts, i) == if z.Some? && ts[z.value].kind == Comma then Some(z.value + 1) else None
  {
    hide NextSignificant, SkipAliasTail;
  }

  lemma TailStops(ts: seq<Tok>, i: nat, x: Option<nat>)
    requires NextSignificant(ts, i) == x
    requires x.Some? ==> x.value < |ts| && !Named(ts[x.value]) && !AsToken(ts[x.value])
    ensures SkipAliasTail(ts, i) == x.UnwrapOr(i)
  {
    hide NextSignificant, AsciiUpper;
  }

  /** Behind `e` stands nothing, a comma, or something else that is no name and no `AS`. */
  lemma Behind(ts: seq<Tok>, e: nat, next: Option<nat>) returns (x: Option<nat>)
    requires GoesOn(ts, e, next)
    ensures NextSignificant(ts, e + 1) == x && NextSignificant(ts, x.UnwrapOr(e + 1)) == x
    ensures x.Some? ==> x.value < |ts| && !Named(ts[x.value]) && !AsToken(ts[x.value])
    ensures next == if x.Some? && ts[x.value].kind == Comma then Some(x.value + 1) else None
  {
    hide NextSignificant, CommaAt, StopAt, NothingFrom, AsciiUpper;
    match next
    case Some(n) => CommaIs(ts, e, n - 1); x := Some(n - 1);
    case None =>
      if NothingFrom(ts, e + 1) {
        NothingIs(ts, e + 1);
        x := None;
      } else {
        var y: nat :| StopAt(ts, e, y);
        StopIsNoComma(ts, e, y);
        x := Some(y);
      }
  }

  lemma PlainTail(ts: seq<Tok>, e: nat, next: Option<nat>)
    requires GoesOn(ts, e, next)
    ensures AfterComma(ts, e + 1) == next
  {
    hide *;
    var x := Behind(ts, e, next);
    TailStops(ts, e + 1, x);
    AfterCommaIs(ts, e + 1, x.UnwrapOr(e + 1), x);
  }

  /** The name of a derived table is passed over. */
  lemma AliasTail(ts: seq<Tok>, last: nat, a: nat, next: Option<nat>)
    requires AliasShape(ts, last, Some(a)) && GoesOn(ts, a, next)
    ensures AfterComma(ts, last + 1) == next
  {
    hide *;
    TailPassed(ts, last, a);
    var x := Behind(ts, a, next);
    AfterCommaIs(ts, last + 1, a + 1, x);
  }

  lemma TailPassed(ts: seq<Tok>, last: nat, a: nat)
    requires AliasShape(ts, last, Some(a))
    ensures SkipAliasTail(ts, last + 1) == a + 1
  {
    hide NextSignificant, Next, AliasedBy, FreeName, AsciiUpper;
    FreeIsNamed(ts[a]);
    if Next(ts, last + 1, a) {
      NextIs(ts, last + 1, a);
    } else {
      var x: nat :| AliasedBy(ts, last, x, a);
      AsIs(ts, last, x, a);
    }
  }

  lemma ElementReads(ts: seq<Tok>, s: Shape, next: Option<nat>)
    requires ShapeAt(ts, s) && GoesOn(ts, LastOf(s), next)
    ensures Reads(ts, s) && AfterComma(ts, if s.Relation? then LastOf(s) + 1 else s.last + 1) == next
  {
    hide GoesOn, Reads, AfterComma, AliasShape, NameShape, Closes, OpenedBy, AsciiUpper, ParenBehind;
    match s
    case Relation(_, _, _, _) => RelationReads(ts, s); PlainTail(ts, LastOf(s), next);
    case Derived(_, last, alias) =>
      DerivedReads(ts, s);
      if alias.Some? { AliasTail(ts, last, alias.value, next); } else { PlainTail(ts, last, next); }
    case Call(_, _, last, alias) =>
      CallReads(ts, s);
      if alias.Some? { AliasTail(ts, last, alias.value, next); } else { PlainTail(ts, last, next); }
  }

  // ----- The list -----

  lemma ListingStep(ts: seq<Tok>, i: nat, s: Shape, next: Option<nat>)
    requires Progresses(ParserOf(ts)) && ElementStart(ts, i) == Some(s.at) && Reads(ts, s)
    requires AfterComma(ts, if s.Relation? then LastOf(s) + 1 else s.last + 1) == next
    ensures Listing(ts, i, ParserOf(ts)) == Entries(s.at, Says1(ts, s))
            + (if next.Some? then Listing(ts, next.value, ParserOf(ts)) else [])
  {
    hide ElementStart, Element, AfterComma, Says1, Entries, ParserOf;
  }

  lemma AdditionsJoin(a: seq<Entry>, b: seq<Entry>)
    ensures Additions(a + b) == Additions(a) + Additions(b)
  {}

  lemma ShapedParts(ts: seq<Tok>, i: nat, shapes: seq<Shape>) returns (next: Option<nat>)
    requires Shaped(ts, i, shapes)
    ensures shapes != [] && ShapeAt(ts, shapes[0]) && Starts(ts, i, shapes[0].at)
    ensures GoesOn(ts, LastOf(shapes[0]), next)
    ensures if next.Some? then Shaped(ts, next.value, shapes[1..]) else |shapes| == 1
  {
    hide ShapeAt, Starts, CommaAt, StopAt, NothingFrom;
    if |shapes| == 1 {
      next := None;
    } else {
      var c: nat :| CommaAt(ts, LastOf(shapes[0]), c) && Shaped(ts, c + 1, shapes[1..]);
      next := Some(c + 1);
    }
  }

  lemma SaysStep(ts: seq<Tok>, shapes: seq<Shape>)
    requires shapes != []
    ensures SaysAll(ts, shapes) == Says1(ts, shapes[0]) + SaysAll(ts, shapes[1..])
    ensures |shapes| == 1 ==> SaysAll(ts, shapes[1..]) == []
  {
    hide Says1;
  }

  /** The list registers, in order, what its elements say. */
  lemma {:induction false} ListMeans(ts: seq<Tok>, i: nat, shapes: seq<Shape>)
    requires Shaped(ts, i, shapes)
    ensures Progresses(ParserOf(ts)) && Additions(Listing(ts, i, ParserOf(ts))) == SaysAll(ts, shapes)
    decreases |shapes|
  {
    hide *;
    ParserProgresses(ts);
    var next := ShapedParts(ts, i, shapes);
    var s := shapes[0];
    StartsIs(ts, i, s.at);
    ElementReads(ts, s, next);
    ListingStep(ts, i, s, next);
    EntriesSay(s.at, Says1(ts, s));
    SaysStep(ts, shapes);
    if next.Some? {
      ListMeans(ts, next.value, shapes[1..]);
      AdditionsJoin(Entries(s.at, Says1(ts, s)), Listing(ts, next.value, ParserOf(ts)));
    } else {
      assert Entries(s.at, Says1(ts, s)) + [] == Entries(s.at, Says1(ts, s));
    }
  }
}
