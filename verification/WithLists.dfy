/** The names that the scan over a `WITH` list finds. */
module WithLists {
  import opened Options
  import opened ScopeTokens
  import opened TableLists
  import opened Tokenizer

  /** Just past `name AS (body)` or `name (columns) AS (body)`, if that is what stands at `x`. */
  function DefinitionEnd(ts: seq<Tok>, x: nat): (r: Option<nat>)
    requires x < |ts|
    ensures r.Some? ==> x < r.value <= |ts|
  {
    var at := OverGroups(ts, x + 1);
    if !IsName(ts[x]) || at == |ts| || !IsAs(ts[at]) then None
    else
      var body := NextSignificant(ts, at + 1);
      if body.Some? && ts[body.value].kind == TokenKind.LParen then Matching(ts, body.value) else None
  }

  /** The names defined from `i` on, when what stands there is a list of definitions and then a statement. */
  function Definitions(ts: seq<Tok>, i: nat): (r: Option<seq<string>>)
    decreases |ts| - i
  {
    var x := NextSignificant(ts, i);
    if x.None? then None
    else
      var end := DefinitionEnd(ts, x.value);
      var next := if end.Some? then NextSignificant(ts, end.value) else None;
      if next.None? then None
      else if ts[next.value].kind == Comma then
        match Definitions(ts, next.value + 1)
        case Some(names) => Some([ts[x.value].text] + names)
        case None => None
      else if ts[next.value].kind == Keyword && AsciiUpper(ts[next.value].text) in BODY_WORDS then
        Some([ts[x.value].text])
      else None
  }

  /** What a `WITH`, with or without `RECURSIVE`, defines. */
  function WithDefinitions(ts: seq<Tok>, with: nat): Option<seq<string>>
    requires with < |ts|
  {
    var x := NextSignificant(ts, with + 1);
    if x.Some? && ts[x.value].kind == Keyword && Says(ts[x.value], "RECURSIVE") then Definitions(ts, x.value + 1)
    else Definitions(ts, with + 1)
  }

  /** The scan steps over trivia. */
  lemma {:induction false} TriviaPassed(ts: seq<Tok>, i: nat, found: bool)
    requires NextSignificant(ts, i).Some?
    ensures i <= |ts| && CteNames(ts, i, found) == CteNames(ts, NextSignificant(ts, i).value, found)
    decreases |ts| - i
  {
    if IsTrivia(ts[i].kind) {
      TriviaPassed(ts, i + 1, found);
      assert CteTurn(ts, i, found) == Goes(None, i + 1);
    }
  }

  lemma DefinitionTurn(ts: seq<Tok>, x: nat, found: bool)
    requires x < |ts| && DefinitionEnd(ts, x).Some?
    ensures CteNames(ts, x, found) == [ts[x].text] + CteNames(ts, DefinitionEnd(ts, x).value, true)
  {
    hide OverGroups, NextSignificant, Matching, AsciiUpper;
    assert CteTurn(ts, x, found) == Goes(Some(ts[x].text), DefinitionEnd(ts, x).value);
    hide CteTurn, DefinitionEnd;
  }

  lemma CommaTurn(ts: seq<Tok>, i: nat, found: bool)
    requires i < |ts| && ts[i].kind == Comma
    ensures CteNames(ts, i, found) == CteNames(ts, i + 1, found)
  {
    assert CteTurn(ts, i, found) == Goes(None, i + 1);
  }

  lemma BodyTurn(ts: seq<Tok>, i: nat)
    requires i < |ts| && ts[i].kind == Keyword && AsciiUpper(ts[i].text) in BODY_WORDS
    ensures CteNames(ts, i, true) == []
  {
    assert CteTurn(ts, i, true) == Ends;
  }

  lemma {:induction false} DefinedNamesFound(ts: seq<Tok>, i: nat, found: bool)
    requires Definitions(ts, i).Some?
    ensures i <= |ts| && CteNames(ts, i, found) == Definitions(ts, i).value
    decreases |ts| - i
  {
    hide CteNames, DefinitionEnd, NextSignificant, AsciiUpper;
    var x := NextSignificant(ts, i).value;
    TriviaPassed(ts, i, found);
    DefinitionTurn(ts, x, found);
    var end := DefinitionEnd(ts, x).value;
    TriviaPassed(ts, end, true);
    var next := NextSignificant(ts, end).value;
    if ts[next].kind == Comma {
      CommaTurn(ts, next, true);
      DefinedNamesFound(ts, next + 1, true);
    } else {
      BodyTurn(ts, next);
    }
  }

  lemma RecursiveTurn(ts: seq<Tok>, i: nat)
    requires i < |ts| && ts[i].kind == Keyword
    ensures CteNames(ts, i, false) == CteNames(ts, i + 1, false)
  {
    assert CteTurn(ts, i, false) == Goes(None, i + 1);
  }

  /** A well-formed `WITH` list, columns, comments and `RECURSIVE` included: the scan finds exactly its names. */
  lemma WithNamesFound(ts: seq<Tok>, with: nat)
    requires with < |ts| && WithDefinitions(ts, with).Some?
    ensures CteNames(ts, with + 1, false) == WithDefinitions(ts, with).value
  {
    hide CteNames, Definitions, AsciiUpper;
    var x := NextSignificant(ts, with + 1);
    if x.Some? && ts[x.value].kind == Keyword && Says(ts[x.value], "RECURSIVE") {
      TriviaPassed(ts, with + 1, false);
      RecursiveTurn(ts, x.value);
      DefinedNamesFound(ts, x.value + 1, false);
    } else {
      DefinedNamesFound(ts, with + 1, false);
    }
  }

  // ----- A word between `AS` and the body -----

  const MATERIALIZED := [Tok(Ident, "a", false), Tok(Keyword, "AS", true), Tok(Ident, "MATERIALIZED", false),
                         Tok(TokenKind.LParen, "(", false), Tok(Keyword, "SELECT", true),
                         Tok(TokenKind.RParen, ")", false), Tok(Comma, ",", false), Tok(Ident, "b", false),
                         Tok(Keyword, "AS", true), Tok(TokenKind.LParen, "(", false), Tok(Keyword, "SELECT", true),
                         Tok(TokenKind.RParen, ")", false)]

  /** `a AS MATERIALIZED (SELECT …), b AS (…)`: the scan walks into the body, stops at `SELECT` and loses `b`. */
  lemma MaterializedLosesTheRest()
    ensures CteNames(MATERIALIZED, 0, false) == ["a"]
  {
    var ts := MATERIALIZED;
    MaterializedTurns();
    hide CteTurn, MATERIALIZED;
    assert CteNames(ts, 4, true) == [];
    assert CteNames(ts, 3, true) == [];
    assert CteNames(ts, 2, true) == [];
    assert CteNames(ts, 1, true) == [];
    assert CteNames(ts, 0, false) == ["a"] + [];
  }

  lemma MaterializedTurns()
    ensures |MATERIALIZED| == 12
    ensures CteTurn(MATERIALIZED, 0, false) == Goes(Some("a"), 1)
    ensures CteTurn(MATERIALIZED, 1, true) == Goes(None, 2) && CteTurn(MATERIALIZED, 2, true) == Goes(None, 3)
    ensures CteTurn(MATERIALIZED, 3, true) == Goes(None, 4) && CteTurn(MATERIALIZED, 4, true) == Ends
  {
    var ts := MATERIALIZED;
    assert AsciiUpper("AS") == "AS" && AsciiUpper("SELECT") == "SELECT";
    assert NextSignificant(ts, 2) == Some(2);
    assert Level(ts, 3) == Level(ts, 2) == Level(ts, 1) == 0;
    assert Level(ts, 6) == 0 && Level(ts, 5) == Level(ts, 4) == 1;
    assert Matching(ts, 3) == Some(6);
    assert OverGroups(ts, 1) == 1;
    assert OverGroups(ts, 3) == OverGroups(ts, 6) == 6;
  }
}
