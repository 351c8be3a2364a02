/** One table reference: `a`, `b.a` or `c.b.a`, with its alias. */
module TableRefs {
  import opened Options
  import opened TableLists
  import opened Tokenizer

  const PREDICATE_WORDS := {"IN", "BETWEEN", "LIKE", "ILIKE", "IS", "EXISTS"}

  const NO_REFERENCE := Parsed(None, "", None, 0)

  /** A parenthesis or a comma. */
  predicate IsBreak(t: Tok) { IsParen(t) || t.kind == Comma }

  predicate IsNameOrKeyword(t: Tok) { IsName(t) || t.kind == Keyword }

  predicate IsClauseWord(upper: string) { upper in TABLE_WORDS || upper in COLUMN_WORDS || upper in PREDICATE_WORDS }

  predicate NoCapitals(s: string) { forall k :: 0 <= k < |s| ==> !('A' <= s[k] <= 'Z') }

  /** Can the token be an alias? The clause words are only recognised here in lower case. */
  predicate IsAlias(t: Tok) {
    IsName(t) && !t.known && !(NoCapitals(t.text) && IsClauseWord(AsciiUpper(t.text)))
  }

  /** The token that names the alias after token `i`, with or without `AS`. */
  function AliasAfter(ts: seq<Tok>, i: nat): (r: Option<nat>)
    ensures r.Some? ==> i < r.value < |ts|
    ensures r.Some? ==> forall k :: i < k <= r.value ==> !IsBreak(ts[k])
  {
    var x := NextSignificant(ts, i + 1);
    if x.None? then None
    else if ts[x.value].kind == Keyword && Says(ts[x.value], "AS") then
      var a := NextSignificant(ts, x.value + 1);
      if a.Some? && IsAlias(ts[a.value]) then a else None
    else if IsAlias(ts[x.value]) then x
    else None
  }

  /** An unqualified name also takes a known word for its alias, but no clause word in any case. */
  function BareAliasAfter(ts: seq<Tok>, i: nat): (r: Option<nat>)
    ensures r.Some? ==> i < r.value < |ts|
    ensures r.Some? ==> forall k :: i < k <= r.value ==> !IsBreak(ts[k])
  {
    var strict, x := AliasAfter(ts, i), NextSignificant(ts, i + 1);
    if strict.Some? then strict
    else if x.Some? && IsName(ts[x.value]) && !IsClauseWord(AsciiUpper(ts[x.value].text))
            && AsciiUpper(ts[x.value].text) !in {"AS", "ON", "USING"} then x
    else None
  }

  /** The reference from `i` to the name at `last`, and to its alias if it has one. */
  function Reference(ts: seq<Tok>, i: nat, schema: Option<string>, last: nat, alias: Option<nat>): Parsed
    requires i <= last < |ts| && (alias.Some? ==> last < alias.value < |ts|)
  {
    match alias
    case Some(a) => Parsed(schema, ts[last].text, Some(ts[a].text), a - i + 1)
    case None => Parsed(schema, ts[last].text, None, last - i + 1)
  }

  /** The name that follows a dot that follows token `i`. */
  function NameAfterDot(ts: seq<Tok>, i: nat): (r: Option<nat>)
    ensures r.Some? ==> i < r.value < |ts|
    ensures r.Some? ==> forall k :: i < k <= r.value ==> !IsBreak(ts[k])
  {
    var dot := NextSignificant(ts, i + 1);
    if dot.None? || ts[dot.value].kind != Dot then None
    else
      var name := NextSignificant(ts, dot.value + 1);
      if name.Some? && IsNameOrKeyword(ts[name.value]) then name else None
  }

  function PastDots(ts: seq<Tok>, j: nat): (r: nat)
    requires j <= |ts|
    ensures j <= r <= |ts| && forall k :: j <= k < r ==> ts[k].kind == Dot
    decreases |ts| - j
  {
    if j < |ts| && ts[j].kind == Dot then PastDots(ts, j + 1) else j
  }

  /** `a..b`: the name behind the dots, counted one token too long. */
  function Stuttered(ts: seq<Tok>, i: nat, dot: nat): Parsed
    requires i < dot < |ts|
  {
    var j := PastDots(ts, dot);
    if j == |ts| || !IsNameOrKeyword(ts[j]) then Parsed(None, ts[i].text, None, 1)
    else if j + 1 < |ts| && IsName(ts[j + 1]) && !ts[j + 1].known then
      Parsed(Some(ts[i].text), ts[j].text, Some(ts[j + 1].text), j - i + 3)
    else Parsed(Some(ts[i].text), ts[j].text, None, j - i + 2)
  }

  /** The reference behind `IF EXISTS`. */
  function BehindIfExists(ts: seq<Tok>, i: nat): (r: Option<nat>)
    requires i < |ts|
    ensures r.Some? ==> i < r.value < |ts| && forall k :: i < k < r.value ==> !IsBreak(ts[k])
  {
    if !Says(ts[i], "IF") then None
    else
      var e := NextSignificant(ts, i + 1);
      if e.Some? && ts[e.value].kind == Keyword && Says(ts[e.value], "EXISTS") then NextSignificant(ts, e.value + 1)
      else None
  }

  /** The reference at token `i`. */
  function TableRefAt(ts: seq<Tok>, i: nat): (p: Parsed)
    ensures p.name != "" ==> p.consumed >= 1
    decreases |ts| - i
  {
    if i >= |ts| || !IsNameOrKeyword(ts[i]) then NO_REFERENCE
    else if BehindIfExists(ts, i).Some? then
      var t := BehindIfExists(ts, i).value;
      var p := TableRefAt(ts, t);
      p.(consumed := p.consumed + (t - i))
    else
      var dot, table := NextSignificant(ts, i + 1), NameAfterDot(ts, i);
      if dot.None? || ts[dot.value].kind != Dot then Reference(ts, i, None, i, BareAliasAfter(ts, i))
      else if table.None? then Stuttered(ts, i, dot.value)
      else
        var third := NameAfterDot(ts, table.value);
        if third.Some? then Reference(ts, i, Some(ts[table.value].text), third.value, AliasAfter(ts, third.value))
        else Reference(ts, i, Some(ts[i].text), table.value, AliasAfter(ts, table.value))
  }

  function ParserOf(ts: seq<Tok>): nat -> Parsed { (i: nat) => TableRefAt(ts, i) }

  lemma ParserProgresses(ts: seq<Tok>)
    ensures Progresses(ParserOf(ts))
  {
  }

  // ----- The parser as it runs -----

  method FindPastDots(ts: seq<Tok>, dot: nat) returns (j: nat)
    requires dot < |ts| && ts[dot].kind == Dot
    ensures j == PastDots(ts, dot)
  {
    j := dot;
    while j < |ts|
      invariant dot <= j <= |ts| && PastDots(ts, j) == PastDots(ts, dot)
    {
      if ts[j].kind != Dot { return; }
      j := j + 1;
    }
  }

  method ParseTableRef(ts: seq<Tok>, i: nat) returns (p: Parsed)
    ensures p == TableRefAt(ts, i)
    decreases |ts| - i
  {
    hide AliasAfter, BareAliasAfter, IsAlias, Says, IsBreak, NextSignificant, NameAfterDot, BehindIfExists, PastDots,
      Reference;
    if i >= |ts| || !IsNameOrKeyword(ts[i]) { return NO_REFERENCE; }
    var behind := BehindIfExists(ts, i);
    if behind.Some? {
      p := ParseTableRef(ts, behind.value);
      return p.(consumed := p.consumed + (behind.value - i));
    }
    var dot := NextSignificant(ts, i + 1);
    if dot.Some? && ts[dot.value].kind == Dot {
      var table := NameAfterDot(ts, i);
      if table.Some? {
        var third := NameAfterDot(ts, table.value);
        if third.Some? {
          return Reference(ts, i, Some(ts[table.value].text), third.value, AliasAfter(ts, third.value));
        }
        return Reference(ts, i, Some(ts[i].text), table.value, AliasAfter(ts, table.value));
      }
      var j := FindPastDots(ts, dot.value);
      if j < |ts| && IsNameOrKeyword(ts[j]) {
        if j + 1 < |ts| && IsName(ts[j + 1]) && !ts[j + 1].known {
          return Parsed(Some(ts[i].text), ts[j].text, Some(ts[j + 1].text), j - i + 3);
        }
        return Parsed(Some(ts[i].text), ts[j].text, None, j - i + 2);
      }
      return Parsed(None, ts[i].text, None, 1);
    }
    p := Reference(ts, i, None, i, BareAliasAfter(ts, i));
  }

  // ----- Parentheses and commas -----

  /** The token that `a..b` counts beside its own. */
  function ExtraToken(ts: seq<Tok>, i: nat): (r: Option<nat>)
    ensures r.Some? ==> i < r.value
    decreases |ts| - i
  {
    if i >= |ts| || !IsNameOrKeyword(ts[i]) then None
    else if BehindIfExists(ts, i).Some? then ExtraToken(ts, BehindIfExists(ts, i).value)
    else
      var dot := NextSignificant(ts, i + 1);
      if dot.None? || ts[dot.value].kind != Dot || NameAfterDot(ts, i).Some? then None
      else
        var j := PastDots(ts, dot.value);
        if j == |ts| || !IsNameOrKeyword(ts[j]) then None
        else if j + 1 < |ts| && IsName(ts[j + 1]) && !ts[j + 1].known then Some(j + 2)
        else Some(j + 1)
  }

  /** Does the reference at `i` take a parenthesis for its last token? */
  predicate TakesParen(ts: seq<Tok>, i: nat) {
    var x := ExtraToken(ts, i);
    x.Some? && x.value < |ts| && IsParen(ts[x.value])
  }

  predicate TakesComma(ts: seq<Tok>, i: nat) {
    var x := ExtraToken(ts, i);
    x.Some? && x.value < |ts| && ts[x.value].kind == Comma
  }

  ghost predicate Flat(ts: seq<Tok>, i: nat, e: nat) { forall k :: i <= k < e && k < |ts| ==> !IsBreak(ts[k]) }

  lemma StutterIsFlat(ts: seq<Tok>, i: nat, dot: nat)
    requires i < |ts| && IsNameOrKeyword(ts[i]) && NextSignificant(ts, i + 1) == Some(dot) && ts[dot].kind == Dot
    ensures var j := PastDots(ts, dot);
            j < |ts| && IsNameOrKeyword(ts[j]) ==>
              Flat(ts, i, j + 1) && (j + 1 < |ts| && IsName(ts[j + 1]) ==> Flat(ts, i, j + 2))
  {
  }

  lemma ReferenceIsFlat(ts: seq<Tok>, i: nat, schema: Option<string>, last: nat, alias: Option<nat>)
    requires i <= last < |ts| && (alias.Some? ==> last < alias.value < |ts|)
    requires Flat(ts, i, last + 1)
    requires alias.Some? ==> forall k :: last < k <= alias.value ==> !IsBreak(ts[k])
    ensures Flat(ts, i, i + Reference(ts, i, schema, last, alias).consumed)
  {
  }

  /** The reference at `i` takes no parenthesis and no comma, but for the token that `a..b` counts too many. */
  ghost predicate ParensCounted(ts: seq<Tok>, i: nat) {
    var p, x := TableRefAt(ts, i), ExtraToken(ts, i);
    && Flat(ts, i, if x.Some? then x.value else i + p.consumed)
    && (x.Some? ==> i + p.consumed == x.value + 1)
  }

  lemma DottedIs(ts: seq<Tok>, i: nat) returns (schema: Option<string>, last: nat)
    requires i < |ts| && IsNameOrKeyword(ts[i]) && BehindIfExists(ts, i).None? && NameAfterDot(ts, i).Some?
    ensures i <= last < |ts| && Flat(ts, i, last + 1)
    ensures TableRefAt(ts, i) == Reference(ts, i, schema, last, AliasAfter(ts, last)) && ExtraToken(ts, i).None?
  {
    hide AliasAfter, BehindIfExists, NextSignificant, PastDots, Reference, BareAliasAfter, Stuttered;
    assert NextSignificant(ts, i + 1).Some? && ts[NextSignificant(ts, i + 1).value].kind == Dot;
    var table := NameAfterDot(ts, i).value;
    var third := NameAfterDot(ts, table);
    schema, last := Some(if third.Some? then ts[table].text else ts[i].text), third.UnwrapOr(table);
    hide NameAfterDot;
  }

  lemma DottedParens(ts: seq<Tok>, i: nat)
    requires i < |ts| && IsNameOrKeyword(ts[i]) && BehindIfExists(ts, i).None? && NameAfterDot(ts, i).Some?
    ensures ParensCounted(ts, i)
  {
    hide AliasAfter, BehindIfExists, NameAfterDot, TableRefAt, ExtraToken, Reference, Flat;
    var schema, last := DottedIs(ts, i);
    ReferenceIsFlat(ts, i, schema, last, AliasAfter(ts, last));
  }

  lemma StutterParens(ts: seq<Tok>, i: nat, dot: nat)
    requires i < |ts| && IsNameOrKeyword(ts[i]) && BehindIfExists(ts, i).None? && NameAfterDot(ts, i).None?
    requires NextSignificant(ts, i + 1) == Some(dot) && ts[dot].kind == Dot
    ensures ParensCounted(ts, i)
  {
    hide BehindIfExists, NameAfterDot, PastDots;
    StutterIsFlat(ts, i, dot);
    OneIsFlat(ts, i);
    hide NextSignificant, Flat;
  }

  lemma OneIsFlat(ts: seq<Tok>, i: nat)
    requires i < |ts| && IsNameOrKeyword(ts[i])
    ensures Flat(ts, i, i + 1)
  {
  }

  lemma UnqualifiedParens(ts: seq<Tok>, i: nat)
    requires i < |ts| && IsNameOrKeyword(ts[i]) && BehindIfExists(ts, i).None?
    requires NextSignificant(ts, i + 1).None? || ts[NextSignificant(ts, i + 1).value].kind != Dot
    ensures ParensCounted(ts, i)
  {
    hide BareAliasAfter, BehindIfExists, NextSignificant;
    OneIsFlat(ts, i);
    ReferenceIsFlat(ts, i, None, i, BareAliasAfter(ts, i));
    hide Flat, Reference;
  }

  lemma IfExistsParens(ts: seq<Tok>, i: nat)
    requires i < |ts| && IsNameOrKeyword(ts[i]) && BehindIfExists(ts, i).Some?
    requires ParensCounted(ts, BehindIfExists(ts, i).value)
    ensures ParensCounted(ts, i)
  {
    hide BehindIfExists, NextSignificant, NameAfterDot, PastDots;
  }

  lemma {:induction false} ReferenceParens(ts: seq<Tok>, i: nat)
    ensures ParensCounted(ts, i)
    decreases |ts| - i
  {
    if i >= |ts| || !IsNameOrKeyword(ts[i]) { return; }
    hide *;
    var dot := NextSignificant(ts, i + 1);
    if BehindIfExists(ts, i).Some? {
      ReferenceParens(ts, BehindIfExists(ts, i).value);
      IfExistsParens(ts, i);
    } else if NameAfterDot(ts, i).Some? {
      DottedParens(ts, i);
    } else if dot.Some? && ts[dot.value].kind == Dot {
      StutterParens(ts, i, dot.value);
    } else {
      UnqualifiedParens(ts, i);
    }
  }
}
