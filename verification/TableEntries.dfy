/** Which entries a table list registers, and at which depth. */
module TableEntries {
  import opened Options
  import opened Scope
  import opened TableLists
  import opened TableRefs
  import opened Tokenizer

  // ----- Which lists stay at one depth -----

  /** From `i` on there is nothing to list: at most parentheses without an alias, and then no reference. */
  predicate ListsNothing(ts: seq<Tok>, i: nat)
    decreases |ts| - i
  {
    var x := ElementStart(ts, i);
    x.None? ||
    (if ts[x.value].kind == TokenKind.LParen then
       DerivedAlias(ts, x.value).None?
       && (var after := Matching(ts, x.value);
           after.None? || AfterComma(ts, after.value).None? || ListsNothing(ts, AfterComma(ts, after.value).value))
     else
       || (ts[x.value].kind == Keyword && AsciiUpper(ts[x.value].text) in COLUMN_WORDS)
       || TableRefAt(ts, x.value).name == "")
  }

  lemma {:induction false} ListsNothingMeans(ts: seq<Tok>, i: nat)
    ensures Progresses(ParserOf(ts)) && (ListsNothing(ts, i) <==> Listing(ts, i, ParserOf(ts)) == [])
    decreases |ts| - i
  {
    ParserProgresses(ts);
    hide ElementStart, AfterComma, TableRefAt, DerivedAlias;
    var x := ElementStart(ts, i);
    if x.Some? && ts[x.value].kind == TokenKind.LParen {
      var after := Matching(ts, x.value);
      if after.Some? && AfterComma(ts, after.value).Some? { ListsNothingMeans(ts, AfterComma(ts, after.value).value); }
    } else if x.Some? && !IsNameOrKeyword(ts[x.value]) {
      NoReferenceHere(ts, x.value);
    }
  }

  lemma NoReferenceHere(ts: seq<Tok>, x: nat)
    requires x < |ts| && !IsNameOrKeyword(ts[x])
    ensures TableRefAt(ts, x).name == ""
  {
  }

  /** Nothing is to be listed behind a reference that takes a parenthesis. */
  ghost predicate EndsAtStutter(ts: seq<Tok>, i: nat)
    decreases |ts| - i
  {
    ParserProgresses(ts);
    var x := ElementStart(ts, i);
    x.None? ||
    (var end := Element(ts, x.value, ParserOf(ts)).1;
     var next := if end.Some? then AfterComma(ts, end.value) else None;
     next.None?
     || (if TakesParen(ts, x.value) then ListsNothing(ts, next.value) else EndsAtStutter(ts, next.value)))
  }

  lemma ReferenceEndLevel(ts: seq<Tok>, x: nat)
    requires x + TableRefAt(ts, x).consumed <= |ts|
    ensures Level(ts, x + TableRefAt(ts, x).consumed) == Level(ts, x) <==> !TakesParen(ts, x)
  {
    hide Level, TableRefAt, ExtraToken;
    ReferenceParens(ts, x);
    var extra, end := ExtraToken(ts, x), x + TableRefAt(ts, x).consumed;
    FlatKeepsLevel(ts, x, if extra.Some? then extra.value else end);
    if extra.Some? { ParenStep(ts, extra.value); }
  }

  lemma ArgumentsEndLevel(ts: seq<Tok>, x: nat, lp: nat)
    requires x < |ts| && !IsParen(ts[x])
    requires NextSignificant(ts, x + 1) == Some(lp) && Matching(ts, lp).Some?
    ensures Level(ts, Matching(ts, lp).value) == Level(ts, x)
  {
    hide Level;
    FlatKeepsLevel(ts, x, x + 1);
    NextKeepsLevel(ts, x + 1);
  }

  /** An element ends at its own depth, or one off when its reference takes a parenthesis. */
  lemma ElementEndLevel(ts: seq<Tok>, x: nat)
    requires x < |ts|
    ensures var end := Element(ts, x, ParserOf(ts)).1;
            end.Some? && end.value <= |ts| ==> (Level(ts, end.value) == Level(ts, x) <==> !TakesParen(ts, x))
  {
    hide Level, DerivedAlias, Says, BehindIfExists, Matching, TableRefAt, TakesParen;
    var end := Element(ts, x, ParserOf(ts)).1;
    if end.Some? && end.value <= |ts| {
      var args := NextSignificant(ts, x + 1);
      if ts[x].kind == TokenKind.LParen {
        MatchingLevel(ts, x);
      } else if args.Some? && ts[args.value].kind == TokenKind.LParen {
        NoExtraBeforeParen(ts, x, args.value);
        ArgumentsEndLevel(ts, x, args.value);
      } else {
        ReferenceEndLevel(ts, x);
      }
    }
  }

  lemma MatchingLevel(ts: seq<Tok>, lp: nat)
    requires lp < |ts| && ts[lp].kind == TokenKind.LParen
    ensures Matching(ts, lp).Some? ==> Level(ts, Matching(ts, lp).value) == Level(ts, lp)
    ensures !TakesParen(ts, lp)
  {
    hide Level;
  }

  lemma ParenStep(ts: seq<Tok>, k: nat)
    requires k < |ts|
    ensures Level(ts, k + 1) == Level(ts, k) <==> !IsParen(ts[k])
  {
  }

  lemma NoExtraBeforeParen(ts: seq<Tok>, x: nat, lp: nat)
    requires x < |ts| && NextSignificant(ts, x + 1) == Some(lp) && ts[lp].kind == TokenKind.LParen
    ensures ExtraToken(ts, x) == None && !TakesParen(ts, x)
  {
  }

  /** A list that registers anything registers something at the depth it starts at. */
  lemma {:induction false} FirstEntryLevel(ts: seq<Tok>, i: nat) returns (e: Entry)
    requires i <= |ts| && Progresses(ParserOf(ts)) && Listing(ts, i, ParserOf(ts)) != []
    ensures e in Listing(ts, i, ParserOf(ts)) && e.at < |ts| && Level(ts, e.at) == Level(ts, i)
    decreases |ts| - i
  {
    hide ElementStart, AfterComma, TableRefAt, Level;
    var x := ElementStart(ts, i).value;
    StartKeepsLevel(ts, i);
    var (entries, end) := Element(ts, x, ParserOf(ts));
    if entries != [] {
      e := entries[0];
    } else {
      var next := AfterComma(ts, end.value).value;
      CommaKeepsLevel(ts, end.value);
      e := FirstEntryLevel(ts, next);
    }
  }

  /**
   For every token list: everything a table list registers stands at the depth the list starts at,
   exactly when no reference `a..b` takes a parenthesis and is followed by another entry.
   */
  lemma {:induction false} ListAtOneLevelIff(ts: seq<Tok>, i: nat)
    requires i <= |ts|
    ensures Progresses(ParserOf(ts))
    ensures (forall e :: e in Listing(ts, i, ParserOf(ts)) ==> e.at < |ts| && Level(ts, e.at) == Level(ts, i))
            <==> EndsAtStutter(ts, i)
    decreases |ts| - i
  {
    ParserProgresses(ts);
    hide ElementStart, Element, AfterComma, TakesParen, ParserOf, Level;
    if ElementStart(ts, i).Some? {
      var x := ElementStart(ts, i).value;
      StartKeepsLevel(ts, i);
      var (entries, end) := Element(ts, x, ParserOf(ts));
      EntriesStandAt(ts, x);
      if end.Some? && AfterComma(ts, end.value).Some? {
        var next := AfterComma(ts, end.value).value;
        CommaKeepsLevel(ts, end.value);
        ElementEndLevel(ts, x);
        if TakesParen(ts, x) {
          ListsNothingMeans(ts, next);
          if Listing(ts, next, ParserOf(ts)) != [] {
            var e := FirstEntryLevel(ts, next);
            assert e in Listing(ts, i, ParserOf(ts));
          }
        } else {
          ListAtOneLevelIff(ts, next);
        }
      }
    }
  }

  lemma EntriesStandAt(ts: seq<Tok>, x: nat)
    requires x < |ts|
    ensures forall e :: e in Element(ts, x, ParserOf(ts)).0 ==> e.at == x
  {
    hide TableRefAt, DerivedAlias;
  }

  // ----- Every entry is read -----

  /** Where an element's comma is looked for: behind the element and its alias. */
  function Passed(ts: seq<Tok>, x: nat): (e: nat)
    requires x < |ts|
    ensures x <= e
  {
    var end := Element(ts, x, ParserOf(ts)).1;
    ParserProgresses(ts);
    if end.Some? then SkipAliasTail(ts, end.value) else x
  }

  /** Does the element pass over a comma of its own depth? */
  ghost predicate PassesComma(ts: seq<Tok>, x: nat)
    requires x < |ts|
  {
    exists k :: x <= k < Passed(ts, x) && k < |ts| && ts[k].kind == Comma && Level(ts, k) == Level(ts, x)
  }

  /** Does the element take a comma with it: a reference `a..b` directly before one? */
  predicate SwallowsComma(ts: seq<Tok>, x: nat)
    requires x < |ts|
  {
    Element(ts, x, ParserOf(ts)).1.Some? && ts[x].kind != TokenKind.LParen && TakesComma(ts, x)
  }

  lemma NoCommaInTail(ts: seq<Tok>, i: nat, k: nat)
    requires i <= k < SkipAliasTail(ts, i) && k < |ts|
    ensures ts[k].kind != Comma
  {
    hide Says;
  }

  /** A parenthesised element: everything in it is deeper. */
  lemma ParenPassesNoComma(ts: seq<Tok>, x: nat, lp: nat)
    requires x <= lp < |ts| && ts[lp].kind == TokenKind.LParen && Matching(ts, lp).Some?
    requires forall k :: x <= k < lp ==> ts[k].kind != Comma && !IsParen(ts[k])
    ensures forall k :: x <= k < SkipAliasTail(ts, Matching(ts, lp).value) && k < |ts| && ts[k].kind == Comma ==>
              Level(ts, k) != Level(ts, x)
  {
    hide Level, SkipAliasTail;
    var after := Matching(ts, lp).value;
    FlatKeepsLevel(ts, x, lp);
    forall k | x <= k < SkipAliasTail(ts, after) && k < |ts| && ts[k].kind == Comma
      ensures Level(ts, k) != Level(ts, x)
    {
      if k >= after { NoCommaInTail(ts, after, k); } else { InsideIsDeeper(ts, lp, k); }
    }
  }

  lemma ReferencePassesCommaIff(ts: seq<Tok>, x: nat)
    requires x < |ts|
    ensures (exists k :: x <= k < SkipAliasTail(ts, x + TableRefAt(ts, x).consumed) && k < |ts|
                         && ts[k].kind == Comma && Level(ts, k) == Level(ts, x))
            <==> TakesComma(ts, x)
  {
    hide Level, TableRefAt, ExtraToken, SkipAliasTail;
    ReferenceParens(ts, x);
    var end, extra := x + TableRefAt(ts, x).consumed, ExtraToken(ts, x);
    if TakesComma(ts, x) {
      FlatKeepsLevel(ts, x, extra.value);
      TailIsBehind(ts, end);
      assert ts[extra.value].kind == Comma && Level(ts, extra.value) == Level(ts, x);
    } else {
      forall k | x <= k < SkipAliasTail(ts, end) && k < |ts| ensures ts[k].kind != Comma {
        if k >= end { NoCommaInTail(ts, end, k); }
      }
    }
  }

  lemma TailIsBehind(ts: seq<Tok>, i: nat)
    ensures i <= SkipAliasTail(ts, i)
  {
  }

  lemma NothingInParenthesis(ts: seq<Tok>, x: nat)
    requires x < |ts|
    ensures var args := NextSignificant(ts, x + 1);
            args.Some? ==> forall k :: x < k < args.value ==> ts[k].kind != Comma && !IsParen(ts[k])
  {
  }

  /** An element passes over a comma of its own depth exactly when it is an `a..b` directly before one. */
  lemma ElementPassesCommaIff(ts: seq<Tok>, x: nat)
    requires x < |ts|
    ensures PassesComma(ts, x) <==> SwallowsComma(ts, x)
  {
    hide Level, DerivedAlias, Says, BehindIfExists, Matching, TableRefAt, ExtraToken, SkipAliasTail, NextSignificant;
    var end := Element(ts, x, ParserOf(ts)).1;
    if end.Some? {
      var args := NextSignificant(ts, x + 1);
      if ts[x].kind == TokenKind.LParen {
        ParenPassesNoComma(ts, x, x);
      } else if args.Some? && ts[args.value].kind == TokenKind.LParen {
        NothingInParenthesis(ts, x);
        ParenPassesNoComma(ts, x, args.value);
        NoExtraBeforeParen(ts, x, args.value);
      } else {
        ReferencePassesCommaIff(ts, x);
      }
    }
  }

  /** Where the list goes on from the element at `x`. */
  function NextEntry(ts: seq<Tok>, x: nat): (r: Option<nat>)
    requires x < |ts|
    ensures r.Some? ==> x < r.value <= |ts|
  {
    ParserProgresses(ts);
    var end := Element(ts, x, ParserOf(ts)).1;
    if end.Some? then AfterComma(ts, end.value) else None
  }

  /** No element of the list passes over a comma of its depth. */
  ghost predicate ReadsEveryComma(ts: seq<Tok>, i: nat)
    decreases |ts| - i
  {
    var x := ElementStart(ts, i);
    x.None? ||
    (!PassesComma(ts, x.value)
     && (NextEntry(ts, x.value).Some? ==> ReadsEveryComma(ts, NextEntry(ts, x.value).value)))
  }

  predicate NoneSwallowed(ts: seq<Tok>, i: nat)
    decreases |ts| - i
  {
    var x := ElementStart(ts, i);
    x.None? ||
    (!SwallowsComma(ts, x.value)
     && (NextEntry(ts, x.value).Some? ==> NoneSwallowed(ts, NextEntry(ts, x.value).value)))
  }

  /**
   For every token list: the list goes on from every comma of its depth that it comes to, exactly when no
   reference `a..b` stands directly before a comma.
   */
  lemma {:induction false} EveryCommaIsReadIff(ts: seq<Tok>, i: nat)
    ensures ReadsEveryComma(ts, i) <==> NoneSwallowed(ts, i)
    decreases |ts| - i
  {
    hide PassesComma, SwallowsComma, ElementStart, NextEntry;
    var x := ElementStart(ts, i);
    if x.Some? {
      ElementPassesCommaIff(ts, x.value);
      if NextEntry(ts, x.value).Some? { EveryCommaIsReadIff(ts, NextEntry(ts, x.value).value); }
    }
  }

  // ----- Every entry is listed -----

  /** The places where an entry is read. */
  function EntryStarts(ts: seq<Tok>, i: nat): seq<nat>
    decreases |ts| - i
  {
    var x := ElementStart(ts, i);
    if x.Some? && NextEntry(ts, x.value).Some? then [i] + EntryStarts(ts, NextEntry(ts, x.value).value) else [i]
  }

  /** Where the list stops reading: no comma follows there, or nothing that can be an entry. */
  function StopsAt(ts: seq<Tok>, i: nat): nat
    decreases |ts| - i
  {
    var x := ElementStart(ts, i);
    if x.None? then |ts|
    else if NextEntry(ts, x.value).Some? then StopsAt(ts, NextEntry(ts, x.value).value)
    else Passed(ts, x.value)
  }

  /** No reference of the list takes a parenthesis or a comma with it. */
  predicate NoStutter(ts: seq<Tok>, i: nat)
    decreases |ts| - i
  {
    var x := ElementStart(ts, i);
    x.None? ||
    (!SwallowsComma(ts, x.value) && !TakesParen(ts, x.value)
     && (NextEntry(ts, x.value).Some? ==> NoStutter(ts, NextEntry(ts, x.value).value)))
  }

  lemma NoCommaBefore(ts: seq<Tok>, i: nat, k: nat)
    requires i <= k < |ts| && (ElementStart(ts, i).Some? ==> k < ElementStart(ts, i).value)
    ensures ts[k].kind != Comma
  {
    hide Says;
  }

  lemma NextEntryIs(ts: seq<Tok>, x: nat, k: nat)
    requires x < |ts| && NextEntry(ts, x).Some? && Passed(ts, x) <= k < NextEntry(ts, x).value
    ensures ts[k].kind == Comma ==> k + 1 == NextEntry(ts, x).value
  {
    hide Element, SkipAliasTail;
  }

  lemma NextEntryLevel(ts: seq<Tok>, i: nat, x: nat)
    requires i <= |ts| && ElementStart(ts, i) == Some(x) && NextEntry(ts, x).Some? && !TakesParen(ts, x)
    ensures Level(ts, x) == Level(ts, i) && Level(ts, NextEntry(ts, x).value) == Level(ts, i)
  {
    hide Level, Element, AfterComma, TakesParen, ElementStart, ParserOf;
    StartKeepsLevel(ts, i);
    ElementEndLevel(ts, x);
    CommaKeepsLevel(ts, Element(ts, x, ParserOf(ts)).1.value);
  }

  lemma CommaIsBehind(ts: seq<Tok>, x: nat, k: nat)
    requires x <= k < |ts| && !PassesComma(ts, x) && ts[k].kind == Comma && Level(ts, k) == Level(ts, x)
    ensures Passed(ts, x) <= k
  {
    hide Passed, Level;
  }

  /** Behind every comma of the list's depth, up to where it stops, an entry is read. */
  lemma {:induction false} CommaStartsEntry(ts: seq<Tok>, i: nat, k: nat)
    requires i <= k < |ts| && k < StopsAt(ts, i) && NoStutter(ts, i)
    requires ts[k].kind == Comma && Level(ts, k) == Level(ts, i)
    ensures k + 1 in EntryStarts(ts, i)
    decreases |ts| - i
  {
    hide ElementStart, NextEntry, Passed, Level, SwallowsComma, TakesParen;
    var x := ElementStart(ts, i);
    if x.None? {
      NoCommaBefore(ts, i, k);
    } else {
      if k < x.value { NoCommaBefore(ts, i, k); }
      ElementPassesCommaIff(ts, x.value);
      StartKeepsLevel(ts, i);
      if k >= x.value { CommaIsBehind(ts, x.value, k); }
      hide PassesComma;
      var next := NextEntry(ts, x.value);
      if next.Some? {
        NextEntryLevel(ts, i, x.value);
        if k < next.value {
          NextEntryIs(ts, x.value, k);
          HeadStarts(ts, next.value);
        } else {
          CommaStartsEntry(ts, next.value, k);
        }
      }
    }
  }

  lemma HeadStarts(ts: seq<Tok>, i: nat)
    ensures i in EntryStarts(ts, i)
  {
  }

  lemma {:induction false} EntryReadIsListed(ts: seq<Tok>, i: nat, j: nat, x: nat)
    requires j in EntryStarts(ts, i) && ElementStart(ts, j) == Some(x)
    ensures Progresses(ParserOf(ts))
    ensures forall e :: e in Element(ts, x, ParserOf(ts)).0 ==> e in Listing(ts, i, ParserOf(ts))
    decreases |ts| - i
  {
    ParserProgresses(ts);
    hide ElementStart, Element, AfterComma, ParserOf;
    var here := ElementStart(ts, i);
    if j != i && here.Some? && NextEntry(ts, here.value).Some? {
      EntryReadIsListed(ts, NextEntry(ts, here.value).value, j, x);
    }
  }

  /**
   In a list without such references, every entry is listed: behind each comma of the list's depth, up to
   where the list stops, whatever the element there names is registered.
   */
  lemma EveryEntryIsListed(ts: seq<Tok>, i: nat, k: nat, x: nat)
    requires i <= k < |ts| && k < StopsAt(ts, i) && NoStutter(ts, i)
    requires ts[k].kind == Comma && Level(ts, k) == Level(ts, i) && ElementStart(ts, k + 1) == Some(x)
    ensures Progresses(ParserOf(ts))
    ensures forall e :: e in Element(ts, x, ParserOf(ts)).0 ==> e in Listing(ts, i, ParserOf(ts))
    ensures IsName(ts[x]) && TableRefAt(ts, x).name != "" ==>
              var p := TableRefAt(ts, x);
              Entry(x, Add(TableRef(p.name, p.alias, p.schema))) in Listing(ts, i, ParserOf(ts))
  {
    hide TableRefAt, DerivedAlias, Level, NoStutter, StopsAt, EntryStarts, ElementStart, Listing;
    ParserProgresses(ts);
    CommaStartsEntry(ts, i, k);
    EntryReadIsListed(ts, i, k + 1, x);
    var p := TableRefAt(ts, x);
    if IsName(ts[x]) && p.name != "" {
      var entries := Element(ts, x, ParserOf(ts)).0;
      assert entries[0] == Entry(x, Add(TableRef(p.name, p.alias, p.schema)));
      assert entries[0] in entries;
    }
  }

  // ----- Two lists -----

  const STUTTER := [Tok(TokenKind.LParen, "(", false), Tok(Ident, "a", false), Tok(Dot, ".", false),
                    Tok(Dot, ".", false), Tok(Ident, "b", false), Tok(TokenKind.RParen, ")", false),
                    Tok(Comma, ",", false), Tok(Ident, "c", false)]

  /** `(… FROM a..b), c`: the inner list takes the parenthesis with it and registers the outer `c`. */
  lemma StutterLeaks()
    ensures Progresses(ParserOf(STUTTER)) && Level(STUTTER, 1) == 1 && Level(STUTTER, 7) == 0
    ensures Listing(STUTTER, 1, ParserOf(STUTTER)) == [Entry(1, Add(TableRef("b", None, Some("a")))),
                                                       Entry(7, Add(TableRef("c", None, None)))]
  {
    ParserProgresses(STUTTER);
    StutterLevels();
    StutterFirst();
    StutterSecond();
    hide Element, AfterComma, ElementStart, ParserOf, STUTTER, Level;
    assert Listing(STUTTER, 7, ParserOf(STUTTER)) == [Entry(7, Add(TableRef("c", None, None)))];
  }

  lemma StutterLevels()
    ensures Level(STUTTER, 1) == 1 && Level(STUTTER, 7) == 0
  {
    assert Level(STUTTER, 5) == Level(STUTTER, 4) == Level(STUTTER, 3) == Level(STUTTER, 2) == Level(STUTTER, 1);
    assert Level(STUTTER, 7) == Level(STUTTER, 6);
  }

  lemma SignificantHere(ts: seq<Tok>, i: nat)
    ensures i < |ts| && !IsTrivia(ts[i].kind) ==> NextSignificant(ts, i) == Some(i)
    ensures i >= |ts| ==> NextSignificant(ts, i) == None
  {
  }

  /** A name, two dots and a name, with no alias directly behind it. */
  lemma StutterParse(ts: seq<Tok>, i: nat, dot: nat, next: nat, j: nat)
    requires i < |ts| && IsName(ts[i]) && !Says(ts[i], "IF")
    requires NextSignificant(ts, i + 1) == Some(dot) && ts[dot].kind == Dot
    requires NextSignificant(ts, dot + 1) == Some(next) && !IsNameOrKeyword(ts[next])
    requires PastDots(ts, dot) == j < |ts| && IsNameOrKeyword(ts[j]) && (j + 1 < |ts| ==> !IsName(ts[j + 1]))
    ensures TableRefAt(ts, i) == Parsed(Some(ts[i].text), ts[j].text, None, j - i + 2)
  {
    hide NextSignificant, Says, PastDots, Reference, BareAliasAfter, AliasAfter;
  }

  lemma StutterFirstReads()
    ensures TableRefAt(STUTTER, 1) == Parsed(Some("a"), "b", None, 5)
  {
    SignificantHere(STUTTER, 2);
    SignificantHere(STUTTER, 3);
    assert PastDots(STUTTER, 2) == PastDots(STUTTER, 3) == 4;
    assert |AsciiUpper("a")| == 1;
    hide NextSignificant, AsciiUpper, TableRefAt, PastDots;
    StutterParse(STUTTER, 1, 2, 3, 4);
  }

  lemma StutterFirst()
    ensures ElementStart(STUTTER, 1) == Some(1)
    ensures Element(STUTTER, 1, ParserOf(STUTTER)) == ([Entry(1, Add(TableRef("b", None, Some("a"))))], Some(6))
    ensures AfterComma(STUTTER, 6) == Some(7)
  {
    StutterComma();
    StutterFirstReads();
    StutterStarts();
    SignificantHere(STUTTER, 2);
    hide NextSignificant, AsciiUpper, TableRefAt, DerivedAlias, AfterComma, ElementStart, Says;
  }

  lemma StutterStarts()
    ensures ElementStart(STUTTER, 1) == Some(1)
  {
    SignificantHere(STUTTER, 1);
    assert |AsciiUpper("a")| == 1;
    hide NextSignificant, AsciiUpper;
  }

  lemma StutterComma()
    ensures AfterComma(STUTTER, 6) == Some(7)
  {
    SignificantHere(STUTTER, 6);
    hide NextSignificant, AsciiUpper;
  }

  lemma StutterSecond()
    ensures ElementStart(STUTTER, 7) == Some(7)
    ensures Element(STUTTER, 7, ParserOf(STUTTER)) == ([Entry(7, Add(TableRef("c", None, None)))], Some(8))
    ensures AfterComma(STUTTER, 8) == None
  {
    SignificantHere(STUTTER, 7);
    SignificantHere(STUTTER, 8);
    assert |AsciiUpper("c")| == 1;
    hide NextSignificant, AsciiUpper;
    assert TableRefAt(STUTTER, 7) == Parsed(None, "c", None, 1);
    hide TableRefAt;
  }

  const SWALLOW := [Tok(Ident, "a", false), Tok(Dot, ".", false), Tok(Dot, ".", false), Tok(Ident, "b", false),
                    Tok(Comma, ",", false), Tok(Ident, "c", false)]

  /** `a..b,c`: the reference takes the comma, and `c` is read as an alias and not listed. */
  lemma SwallowedEntry()
    ensures Progresses(ParserOf(SWALLOW))
    ensures Listing(SWALLOW, 0, ParserOf(SWALLOW)) == [Entry(0, Add(TableRef("b", None, Some("a"))))]
  {
    ParserProgresses(SWALLOW);
    SwallowRead();
    SwallowEnds();
    hide Element, AfterComma, ElementStart, ParserOf, SWALLOW;
  }

  lemma SwallowParses()
    ensures TableRefAt(SWALLOW, 0) == Parsed(Some("a"), "b", None, 5)
  {
    SignificantHere(SWALLOW, 1);
    SignificantHere(SWALLOW, 2);
    assert PastDots(SWALLOW, 1) == PastDots(SWALLOW, 2) == 3;
    assert |AsciiUpper("a")| == 1;
    hide NextSignificant, AsciiUpper, TableRefAt, PastDots;
    StutterParse(SWALLOW, 0, 1, 2, 3);
  }

  lemma SwallowRead()
    ensures ElementStart(SWALLOW, 0) == Some(0)
    ensures Element(SWALLOW, 0, ParserOf(SWALLOW)) == ([Entry(0, Add(TableRef("b", None, Some("a"))))], Some(5))
  {
    SwallowParses();
    SignificantHere(SWALLOW, 0);
    SignificantHere(SWALLOW, 1);
    assert |AsciiUpper("a")| == 1;
    hide NextSignificant, AsciiUpper, TableRefAt, DerivedAlias, AfterComma;
  }

  lemma SwallowEnds()
    ensures AfterComma(SWALLOW, 5) == None
  {
    SignificantHere(SWALLOW, 5);
    SignificantHere(SWALLOW, 6);
    hide NextSignificant, AsciiUpper;
  }
}
