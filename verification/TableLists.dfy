/** The table list after a relation keyword: its entries, its parentheses and where it ends. */
module TableLists {
  import opened Options
  import opened Scope
  import opened Tokenizer

  /** A token with the name it displays, and whether that is a known keyword. */
  datatype Tok = Tok(kind: TokenKind, text: string, known: bool)

  /** The clause words that are never a relation name. */
  const COLUMN_WORDS := {"WHERE", "SET", "ON", "HAVING", "SELECT", "AND", "OR", "NOT", "BY", "DISTINCT",
                         "RETURNING", "ALL", "AFTER"}

  /** The words a relation list follows. */
  const TABLE_WORDS := {"ANALYZE", "CALL", "COPY", "FROM", "INTO", "JOIN", "REFERENCES", "SEQUENCE", "TABLE",
                        "UPDATE", "VACUUM"}

  /** What the reference parser says at a token: the name is empty when there is no reference. */
  datatype Parsed = Parsed(schema: Option<string>, name: string, alias: Option<string>, consumed: nat)

  /** A list entry and the token that introduces it. */
  datatype Entry = Entry(at: nat, addition: Addition)

  predicate IsName(t: Tok) { t.kind == Ident || t.kind == QuotedIdent }

  predicate IsParen(t: Tok) { t.kind == TokenKind.LParen || t.kind == TokenKind.RParen }

  predicate Says(t: Tok, word: string) { AsciiUpper(t.text) == word }

  // ----- Matching parentheses -----

  /** Parenthesis depth before token `i`. */
  function Level(ts: seq<Tok>, i: nat): int
    requires i <= |ts|
  {
    if i == 0 then 0
    else
      Level(ts, i - 1)
      + (if ts[i - 1].kind == TokenKind.LParen then 1 else if ts[i - 1].kind == TokenKind.RParen then -1 else 0)
  }

  /** Just past the first token from `lp` on after which the depth is what it was before `lp`. */
  function Matching(ts: seq<Tok>, lp: nat): (r: Option<nat>)
    requires lp < |ts|
  {
    ReturnFrom(ts, lp, lp + 1)
  }

  function ReturnFrom(ts: seq<Tok>, lp: nat, j: nat): (r: Option<nat>)
    requires lp < j <= |ts|
    ensures r.Some? ==> j <= r.value <= |ts| && Level(ts, r.value) == Level(ts, lp)
    ensures forall k :: j <= k < (if r.Some? then r.value else |ts| + 1) ==> Level(ts, k) != Level(ts, lp)
    decreases |ts| - j
  {
    if Level(ts, j) == Level(ts, lp) then Some(j)
    else if j == |ts| then None
    else ReturnFrom(ts, lp, j + 1)
  }

  /** The counting loop finds that place. */
  method MatchingRParen(ts: seq<Tok>, lp: nat) returns (r: Option<nat>)
    requires lp < |ts| && ts[lp].kind == TokenKind.LParen
    ensures r == Matching(ts, lp)
  {
    var depth, j := 1, lp + 1;
    while j < |ts|
      invariant lp < j <= |ts| && depth == Level(ts, j) - Level(ts, lp) && depth > 0
      invariant ReturnFrom(ts, lp, j) == ReturnFrom(ts, lp, lp + 1)
    {
      match ts[j].kind {
        case LParen => depth := depth + 1;
        case RParen =>
          depth := depth - 1;
          if depth == 0 { return Some(j + 1); }
        case _ =>
      }
      j := j + 1;
    }
    r := None;
  }

  /** Inside a matched parenthesis the depth never comes back to what it was outside. */
  lemma {:induction false} InsideIsDeeper(ts: seq<Tok>, lp: nat, k: nat)
    requires lp < k <= |ts| && ts[lp].kind == TokenKind.LParen
    requires Matching(ts, lp).Some? ==> k < Matching(ts, lp).value
    ensures Level(ts, k) > Level(ts, lp)
    decreases k
  {
    if k > lp + 1 { InsideIsDeeper(ts, lp, k - 1); }
  }

  // ----- The list -----

  function NextSignificant(ts: seq<Tok>, i: nat): (r: Option<nat>)
    ensures r.Some? ==> i <= r.value < |ts| && !IsTrivia(ts[r.value].kind)
    ensures forall k :: i <= k < (if r.Some? then r.value else |ts|) ==> IsTrivia(ts[k].kind)
    decreases |ts| - i
  {
    if i >= |ts| then None else if !IsTrivia(ts[i].kind) then Some(i) else NextSignificant(ts, i + 1)
  }

  /** `LATERAL` and `ONLY` before a reference are not names themselves. */
  predicate IsModifier(ts: seq<Tok>, i: nat)
    requires i < |ts|
  {
    && (IsName(ts[i]) || ts[i].kind == Keyword)
    && (Says(ts[i], "LATERAL") || Says(ts[i], "ONLY"))
    && var j := NextSignificant(ts, i + 1);
       j.Some? && (ts[j.value].kind == TokenKind.LParen || IsName(ts[j.value]))
  }

  function ElementStart(ts: seq<Tok>, i: nat): (r: Option<nat>)
    ensures r.Some? ==> i <= r.value < |ts|
  {
    var x := NextSignificant(ts, i);
    if x.Some? && IsModifier(ts, x.value) then NextSignificant(ts, x.value + 1) else x
  }

  /** The alias written after the parenthesis opened at `lp`. */
  function DerivedAlias(ts: seq<Tok>, lp: nat): Option<string>
    requires lp < |ts|
  {
    var after := Matching(ts, lp);
    if after.None? then None
    else
      var a := NextSignificant(ts, after.value);
      if a.None? then None
      else if ts[a.value].kind == Keyword && Says(ts[a.value], "AS") then
        var name := NextSignificant(ts, a.value + 1);
        if name.Some? && (IsName(ts[name.value]) || ts[name.value].kind == Keyword) then Some(ts[name.value].text)
        else None
      else if IsName(ts[a.value]) && !ts[a.value].known then Some(ts[a.value].text)
      else None
  }

  function AliasEntry(ts: seq<Tok>, at: nat, lp: nat): seq<Entry>
    requires lp < |ts|
  {
    var name := DerivedAlias(ts, lp);
    if name.Some? then [Entry(at, AddVirtual(name.value))] else []
  }

  /** One element: what it registers, and where reading goes on, if it does. */
  function Element(ts: seq<Tok>, i: nat, parse: nat -> Parsed): (r: (seq<Entry>, Option<nat>))
    requires i < |ts|
    ensures r.1.Some? && (parse(i).name == "" || parse(i).consumed >= 1) ==> r.1.value > i
  {
    if ts[i].kind == Keyword && AsciiUpper(ts[i].text) in COLUMN_WORDS then ([], None)
    else if ts[i].kind == TokenKind.LParen then (AliasEntry(ts, i, i), Matching(ts, i))
    else if IsName(ts[i]) || ts[i].kind == Keyword then
      var p := parse(i);
      if p.name == "" then ([], None)
      else
        var entry := Entry(i, Add(TableRef(p.name, p.alias, p.schema)));
        var args := NextSignificant(ts, i + 1);
        if args.Some? && ts[args.value].kind == TokenKind.LParen then
          ([entry] + AliasEntry(ts, i, args.value), Matching(ts, args.value))
        else ([entry], Some(i + p.consumed))
    else ([], None)
  }

  function SkipAliasTail(ts: seq<Tok>, i: nat): (r: nat)
    ensures i <= r
  {
    var first := NextSignificant(ts, i);
    if first.None? then i
    else if ts[first.value].kind == Keyword && Says(ts[first.value], "AS") then
      var name := NextSignificant(ts, first.value + 1);
      if name.Some? && IsName(ts[name.value]) then name.value + 1 else first.value
    else if IsName(ts[first.value]) then first.value + 1
    else first.value
  }

  /** The parser takes at least one token for a reference; nothing more is needed for the list to end. */
  ghost predicate Progresses(parse: nat -> Parsed) {
    forall i :: parse(i).name != "" ==> parse(i).consumed >= 1
  }

  /** Where the next element would start, after an element that ended at `i`. */
  function AfterComma(ts: seq<Tok>, i: nat): (r: Option<nat>)
    ensures r.Some? ==> i < r.value <= |ts| && ts[r.value - 1].kind == Comma
  {
    var z := NextSignificant(ts, SkipAliasTail(ts, i));
    if z.Some? && ts[z.value].kind == Comma then Some(z.value + 1) else None
  }

  /** Everything the list from `i` on registers, in order. */
  ghost function Listing(ts: seq<Tok>, i: nat, parse: nat -> Parsed): seq<Entry>
    requires Progresses(parse)
    decreases |ts| - i
  {
    var x := ElementStart(ts, i);
    if x.None? then []
    else
      var (entries, end) := Element(ts, x.value, parse);
      var next := if end.Some? then AfterComma(ts, end.value) else None;
      if next.Some? then entries + Listing(ts, next.value, parse) else entries
  }

  function Additions(entries: seq<Entry>): seq<Addition> {
    seq(|entries|, k requires 0 <= k < |entries| => entries[k].addition)
  }

  lemma NoAdditions(s: QueryScope)
    ensures AddAll(s, Additions([])) == s
  {
  }

  /** The registering loop. */
  method RegisterTableList(ts: seq<Tok>, start: nat, parse: nat -> Parsed, before: QueryScope)
      returns (scope: QueryScope)
    requires Progresses(parse)
    ensures scope == AddAll(before, Additions(Listing(ts, start, parse)))
  {
    hide AddAll, ElementStart, Element, AfterComma;
    scope := before;
    var i := start;
    ghost var done: seq<Entry> := [];
    NoAdditions(before);
    while true
      invariant done + Listing(ts, i, parse) == Listing(ts, start, parse)
      invariant scope == AddAll(before, Additions(done))
      decreases |ts| - i
    {
      var x := ElementStart(ts, i);
      if x.None? {
        assert done + [] == done;
        return;
      }
      var (entries, end) := Element(ts, x.value, parse);
      AddAllJoin(before, Additions(done), Additions(entries));
      assert Additions(done) + Additions(entries) == Additions(done + entries);
      scope := AddAll(scope, Additions(entries));
      if end.None? { return; }
      var next := AfterComma(ts, end.value);
      if next.None? { return; }
      assert done + (entries + Listing(ts, next.value, parse)) == done + entries + Listing(ts, next.value, parse);
      done := done + entries;
      i := next.value;
    }
  }

  // ----- One depth -----

  /** No reference runs over a parenthesis. */
  ghost predicate StaysFlat(ts: seq<Tok>, parse: nat -> Parsed) {
    forall i, k :: 0 <= i <= k < i + parse(i).consumed && k < |ts| && parse(i).name != "" ==> !IsParen(ts[k])
  }

  lemma {:induction false} FlatKeepsLevel(ts: seq<Tok>, a: nat, b: nat)
    requires a <= b <= |ts| && forall k :: a <= k < b ==> !IsParen(ts[k])
    ensures Level(ts, b) == Level(ts, a)
    decreases b - a
  {
    if a < b { FlatKeepsLevel(ts, a, b - 1); }
  }

  lemma NextKeepsLevel(ts: seq<Tok>, i: nat)
    requires i <= |ts| && NextSignificant(ts, i).Some?
    ensures Level(ts, NextSignificant(ts, i).value) == Level(ts, i)
  {
    FlatKeepsLevel(ts, i, NextSignificant(ts, i).value);
  }

  lemma StartKeepsLevel(ts: seq<Tok>, i: nat)
    requires i <= |ts| && ElementStart(ts, i).Some?
    ensures Level(ts, ElementStart(ts, i).value) == Level(ts, i)
  {
    hide Says, Level;
    var x := NextSignificant(ts, i);
    NextKeepsLevel(ts, i);
    if IsModifier(ts, x.value) {
      FlatKeepsLevel(ts, x.value, x.value + 1);
      NextKeepsLevel(ts, x.value + 1);
    }
  }

  lemma ElementKeepsLevel(ts: seq<Tok>, i: nat, parse: nat -> Parsed)
    requires i < |ts| && StaysFlat(ts, parse)
    ensures var r := Element(ts, i, parse);
            && (forall k :: 0 <= k < |r.0| ==> r.0[k].at == i)
            && (r.1.Some? && r.1.value <= |ts| ==> Level(ts, r.1.value) == Level(ts, i))
  {
    hide Level, DerivedAlias;
    var r := Element(ts, i, parse);
    if r.1.Some? && r.1.value <= |ts| && ts[i].kind != TokenKind.LParen {
      var args := NextSignificant(ts, i + 1);
      if args.Some? && ts[args.value].kind == TokenKind.LParen {
        FlatKeepsLevel(ts, i, i + 1);
        NextKeepsLevel(ts, i + 1);
      } else {
        FlatKeepsLevel(ts, i, i + parse(i).consumed);
      }
    }
  }

  lemma CommaKeepsLevel(ts: seq<Tok>, i: nat)
    requires AfterComma(ts, i).Some?
    ensures i <= |ts| && Level(ts, AfterComma(ts, i).value) == Level(ts, i)
  {
    hide Says, Level;
    var tail, next := SkipAliasTail(ts, i), AfterComma(ts, i).value;
    var first := NextSignificant(ts, i);
    if first.Some? && ts[first.value].kind == Keyword && Says(ts[first.value], "AS") {
      var name := NextSignificant(ts, first.value + 1);
    }
    FlatKeepsLevel(ts, i, tail);
    NextKeepsLevel(ts, tail);
    FlatKeepsLevel(ts, next - 1, next);
  }

  /**
   Every entry of a list stands at the depth the list starts at: what a derived table or an
   argument list holds inside is never registered.
   */
  lemma {:induction false} ListAtOneLevel(ts: seq<Tok>, i: nat, parse: nat -> Parsed)
    requires Progresses(parse) && StaysFlat(ts, parse) && i <= |ts|
    ensures forall e :: e in Listing(ts, i, parse) ==> i <= e.at < |ts| && Level(ts, e.at) == Level(ts, i)
    decreases |ts| - i
  {
    hide ElementStart, Element, AfterComma, StaysFlat;
    if ElementStart(ts, i).Some? {
      var x := ElementStart(ts, i).value;
      StartKeepsLevel(ts, i);
      ElementKeepsLevel(ts, x, parse);
      var (entries, end) := Element(ts, x, parse);
      forall e | e in entries ensures e.at == x {
        var k :| 0 <= k < |entries| && entries[k] == e;
      }
      if end.Some? && AfterComma(ts, end.value).Some? {
        CommaKeepsLevel(ts, end.value);
        ListAtOneLevel(ts, AfterComma(ts, end.value).value, parse);
      }
    }
  }
}
