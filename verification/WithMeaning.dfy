/** The names of a `WITH` list, on the shapes of its tokens. */
module WithMeaning {
  import opened ListMeaning
  import opened Options
  import opened RefMeaning
  import opened ResolverMeaning
  import opened ScopeTokens
  import opened TableLists
  import opened Tokenizer
  import opened WithLists

  /** A definition: its name, the parentheses of its columns if it has any, its `AS`, and those of its body. */
  datatype Definition = Definition(name: nat, columns: Option<(nat, nat)>, asAt: nat, open: nat, close: nat)

  /** What stands before the `AS`: the name, and the columns if there are any. */
  function HeadEnd(d: Definition): nat { if d.columns.Some? then d.columns.value.1 else d.name }

  predicate DefinitionAt(ts: seq<Tok>, d: Definition) {
    && d.name < |ts| && Named(ts[d.name])
    && (d.columns.Some? ==>
          var (g, h) := d.columns.value; OpenedBy(ts, d.name + 1, g) && Closes(ts, g, h))
    && Next(ts, HeadEnd(d) + 1, d.asAt) && AsToken(ts[d.asAt])
    && OpenedBy(ts, d.asAt + 1, d.open) && Closes(ts, d.open, d.close)
  }

  predicate BodyAt(ts: seq<Tok>, e: nat, b: nat) {
    Next(ts, e + 1, b) && ts[b].kind == Keyword && BodyWord(AsciiUpper(ts[b].text))
  }

  /** Definitions with commas between them, and then a statement word. */
  ghost predicate DefinedFrom(ts: seq<Tok>, i: nat, ds: seq<Definition>)
    decreases |ds|
  {
    && ds != [] && Next(ts, i, ds[0].name) && DefinitionAt(ts, ds[0])
    && if |ds| == 1 then exists b: nat :: BodyAt(ts, ds[0].close, b)
       else exists c: nat :: CommaAt(ts, ds[0].close, c) && DefinedFrom(ts, c + 1, ds[1..])
  }

  function NamesOf(ts: seq<Tok>, ds: seq<Definition>): seq<string> {
    if ds == [] then [] else [TextOf(ts, ds[0].name)] + NamesOf(ts, ds[1..])
  }

  lemma NamesStep(ts: seq<Tok>, ds: seq<Definition>)
    requires ds != [] && ds[0].name < |ts|
    ensures NamesOf(ts, ds) == [ts[ds[0].name].text] + NamesOf(ts, ds[1..])
    ensures |ds| == 1 ==> NamesOf(ts, ds) == [ts[ds[0].name].text]
  {}

  // ----- One definition -----

  lemma {:induction false} OverTrivia(ts: seq<Tok>, i: nat, x: nat)
    requires Next(ts, i, x)
    ensures OverGroups(ts, i) == OverGroups(ts, x)
    decreases x - i
  {
    if i < x { OverTrivia(ts, i + 1, x); }
  }

  lemma StopsAtAs(ts: seq<Tok>, i: nat, x: nat)
    requires Next(ts, i, x) && AsToken(ts[x])
    ensures OverGroups(ts, i) == x
  {
    OverTrivia(ts, i, x);
    hide Next, AsciiUpper;
  }

  lemma OverOneGroup(ts: seq<Tok>, i: nat, g: nat, h: nat)
    requires OpenedBy(ts, i, g) && Closes(ts, g, h)
    ensures h < |ts| && OverGroups(ts, i) == OverGroups(ts, h + 1)
  {
    OverTrivia(ts, i, g);
    ClosedIsMatched(ts, g, h);
    hide Next, Matching;
  }

  lemma HeadIsPassed(ts: seq<Tok>, d: Definition)
    requires DefinitionAt(ts, d)
    ensures d.asAt < |ts| && OverGroups(ts, d.name + 1) == d.asAt
  {
    hide OverGroups, Next, Closes, AsToken;
    StopsAtAs(ts, HeadEnd(d) + 1, d.asAt);
    AsInText(ts, HeadEnd(d) + 1, d.asAt);
    if d.columns.Some? {
      OverOneGroup(ts, d.name + 1, d.columns.value.0, d.columns.value.1);
    }
  }

  lemma AsInText(ts: seq<Tok>, i: nat, x: nat)
    requires Next(ts, i, x)
    ensures i <= x < |ts|
  {}

  lemma EndIs(ts: seq<Tok>, d: Definition)
    requires d.name < |ts| && d.asAt < |ts| && OverGroups(ts, d.name + 1) == d.asAt
    requires Named(ts[d.name]) && AsToken(ts[d.asAt]) && NextSignificant(ts, d.asAt + 1) == Some(d.open)
    requires d.open < |ts| && ts[d.open].kind == TokenKind.LParen && Matching(ts, d.open) == Some(d.close + 1)
    ensures DefinitionEnd(ts, d.name) == Some(d.close + 1)
  {
    hide OverGroups, NextSignificant, Matching, AsciiUpper;
  }

  lemma DefinitionIs(ts: seq<Tok>, d: Definition)
    requires DefinitionAt(ts, d)
    ensures d.name < d.close < |ts| && DefinitionEnd(ts, d.name) == Some(d.close + 1)
  {
    hide OverGroups, Next, Closes, AsToken, NextSignificant, Matching;
    HeadIsPassed(ts, d);
    OpenIs(ts, d.asAt + 1, d.open);
    ClosedIsMatched(ts, d.open, d.close);
    EndIs(ts, d);
  }

  lemma OpenIs(ts: seq<Tok>, i: nat, x: nat)
    requires OpenedBy(ts, i, x)
    ensures NextSignificant(ts, i) == Some(x) && i <= x < |ts| && ts[x].kind == TokenKind.LParen
  {
    NextIs(ts, i, x);
  }

  // ----- The list -----

  lemma LastDefinition(ts: seq<Tok>, i: nat, x: nat, end: nat, b: nat)
    requires NextSignificant(ts, i) == Some(x) && i <= x < |ts| && DefinitionEnd(ts, x) == Some(end)
    requires NextSignificant(ts, end) == Some(b) && end <= b < |ts|
    requires ts[b].kind == Keyword && AsciiUpper(ts[b].text) in BODY_WORDS
    ensures Definitions(ts, i) == Some([ts[x].text])
  {
    hide NextSignificant, DefinitionEnd, AsciiUpper;
  }

  lemma NextDefinition(ts: seq<Tok>, i: nat, x: nat, end: nat, c: nat, names: seq<string>)
    requires NextSignificant(ts, i) == Some(x) && i <= x < |ts| && DefinitionEnd(ts, x) == Some(end)
    requires NextSignificant(ts, end) == Some(c) && end <= c < |ts| && ts[c].kind == Comma
    requires Definitions(ts, c + 1) == Some(names)
    ensures Definitions(ts, i) == Some([ts[x].text] + names)
  {
    hide NextSignificant, DefinitionEnd, AsciiUpper;
  }

  lemma BodyIs(ts: seq<Tok>, e: nat, b: nat)
    requires BodyAt(ts, e, b)
    ensures NextSignificant(ts, e + 1) == Some(b) && e < b < |ts|
    ensures ts[b].kind == Keyword && AsciiUpper(ts[b].text) in BODY_WORDS
  {
    NextIs(ts, e + 1, b);
    BodyWordIff(AsciiUpper(ts[b].text));
    hide AsciiUpper, BodyWord;
  }

  lemma CommaFollows(ts: seq<Tok>, e: nat, c: nat)
    requires CommaAt(ts, e, c)
    ensures NextSignificant(ts, e + 1) == Some(c) && e < c < |ts| && ts[c].kind == Comma
  {
    NextIs(ts, e + 1, c);
  }

  lemma {:induction false} DefinitionsAre(ts: seq<Tok>, i: nat, ds: seq<Definition>)
    requires DefinedFrom(ts, i, ds)
    ensures Definitions(ts, i) == Some(NamesOf(ts, ds))
    decreases |ds|
  {
    hide Definitions, DefinitionAt, BodyAt, CommaAt, Next, DefinitionEnd, NextSignificant, NamesOf, TextOf;
    var d := ds[0];
    NextIs(ts, i, d.name);
    DefinitionIs(ts, d);
    NamesStep(ts, ds);
    if |ds| == 1 {
      var b: nat :| BodyAt(ts, d.close, b);
      BodyIs(ts, d.close, b);
      LastDefinition(ts, i, d.name, d.close + 1, b);
    } else {
      var c: nat :| CommaAt(ts, d.close, c) && DefinedFrom(ts, c + 1, ds[1..]);
      CommaFollows(ts, d.close, c);
      DefinitionsAre(ts, c + 1, ds[1..]);
      NextDefinition(ts, i, d.name, d.close + 1, c, NamesOf(ts, ds[1..]));
    }
  }

  /** A `WITH` gives the names of its definitions, in order. */
  lemma WithNames(ts: seq<Tok>, with: nat, ds: seq<Definition>)
    requires with < |ts| && DefinedFrom(ts, with + 1, ds)
    ensures CteNames(ts, with + 1, false) == NamesOf(ts, ds)
  {
    hide *;
    FirstIsName(ts, with + 1, ds);
    DefinitionsAre(ts, with + 1, ds);
    NotRecursive(ts, with);
    WithNamesFound(ts, with);
  }

  lemma FirstIsName(ts: seq<Tok>, i: nat, ds: seq<Definition>)
    requires DefinedFrom(ts, i, ds)
    ensures NextSignificant(ts, i).Some? && ts[NextSignificant(ts, i).value].kind != Keyword
  {
    hide NextSignificant, Closes;
    NextIs(ts, i, ds[0].name);
  }

  lemma NotRecursive(ts: seq<Tok>, with: nat)
    requires with < |ts| && NextSignificant(ts, with + 1).Some?
    requires ts[NextSignificant(ts, with + 1).value].kind != Keyword
    ensures WithDefinitions(ts, with) == Definitions(ts, with + 1)
  {
    hide NextSignificant, Definitions;
  }

  /** `RECURSIVE` is passed over. */
  lemma RecursiveWithNames(ts: seq<Tok>, with: nat, r: nat, ds: seq<Definition>)
    requires with < |ts| && Next(ts, with + 1, r) && ts[r].kind == Keyword && AsciiUpper(ts[r].text) == "RECURSIVE"
    requires DefinedFrom(ts, r + 1, ds)
    ensures CteNames(ts, with + 1, false) == NamesOf(ts, ds)
  {
    hide CteNames, Definitions, NextSignificant, Next, AsciiUpper, DefinedFrom, NamesOf;
    NextIs(ts, with + 1, r);
    DefinitionsAre(ts, r + 1, ds);
    WithNamesFound(ts, with);
  }

  /** Behind a name, `AS` and a parenthesis are passed over whole, also where a keyword is used for the next name. */
  lemma BodyIsPassed(ts: seq<Tok>, i: nat, open: nat, close: nat)
    requires i < |ts| && AsToken(ts[i]) && OpenedBy(ts, i + 1, open) && Closes(ts, open, close)
    ensures CteNames(ts, i, true) == CteNames(ts, close + 1, true)
  {
    OpenIs(ts, i + 1, open);
    ClosedIsMatched(ts, open, close);
    AsIsNoBody(AsciiUpper(ts[i].text));
    hide NextSignificant, Matching, AsciiUpper, Next, Closes;
    assert CteTurn(ts, i, true) == Goes(None, close + 1);
  }

  lemma AsIsNoBody(w: string)
    ensures w == "AS" ==> w !in BODY_WORDS
  {}
}
