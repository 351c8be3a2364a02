/** A table reference, by the shape of its tokens. */
module RefMeaning {
  import opened Options
  import opened TableLists
  import opened TableRefs
  import opened Tokenizer

  // ----- Shapes -----

  predicate Blank(t: Tok) {
    t.kind == Whitespace || t.kind == TokenKind.LineComment || t.kind == TokenKind.BlockComment
  }

  /** `j` is the first token from `i` on that is neither space nor comment. */
  predicate Next(ts: seq<Tok>, i: nat, j: nat) {
    i <= j < |ts| && !Blank(ts[j]) && forall k :: i <= k < j ==> Blank(ts[k])
  }

  predicate NothingFrom(ts: seq<Tok>, i: nat) { forall k :: i <= k < |ts| ==> Blank(ts[k]) }

  predicate Named(t: Tok) { t.kind == Ident || t.kind == QuotedIdent }

  /** The words that open a clause, a relation list or a predicate. */
  predicate ClauseWord(w: string) {
    || ColumnWord(w) || RelationWord(w)
    || w == "IN" || w == "BETWEEN" || w == "LIKE" || w == "ILIKE" || w == "IS" || w == "EXISTS"
  }

  /** The words that end a relation list. */
  predicate ColumnWord(w: string) {
    || w == "WHERE" || w == "SET" || w == "ON" || w == "HAVING" || w == "SELECT" || w == "AND" || w == "OR"
    || w == "NOT" || w == "BY" || w == "DISTINCT" || w == "RETURNING" || w == "ALL" || w == "AFTER"
  }

  /** The words a relation list follows. */
  predicate RelationWord(w: string) {
    || w == "ANALYZE" || w == "CALL" || w == "COPY" || w == "FROM" || w == "INTO" || w == "JOIN"
    || w == "REFERENCES" || w == "SEQUENCE" || w == "TABLE" || w == "UPDATE" || w == "VACUUM"
  }

  predicate AsToken(t: Tok) { t.kind == Keyword && AsciiUpper(t.text) == "AS" }

  /** A name that is no known keyword and no clause word. */
  predicate FreeName(t: Tok) { Named(t) && !t.known && !ClauseWord(AsciiUpper(t.text)) }

  /** `x`, `y.x` or `z.y.x` from `i` to the name at `last`, with the schema at `schema`. */
  ghost predicate NameShape(ts: seq<Tok>, i: nat, last: nat, schema: Option<nat>) {
    && i <= last < |ts| && (Named(ts[i]) || ts[i].kind == Keyword) && AsciiUpper(ts[i].text) != "IF"
    && ((last == i && schema == None)
        || (schema == Some(i) && Dotted(ts, i, last))
        || (schema.Some? && Dotted(ts, i, schema.value) && Dotted(ts, schema.value, last)))
  }

  /** A dot follows token `i`, and the name `j` the dot. */
  ghost predicate Dotted(ts: seq<Tok>, i: nat, j: nat) {
    (exists d: nat :: DottedBy(ts, i, d, j)) && j < |ts| && (Named(ts[j]) || ts[j].kind == Keyword)
  }

  predicate DottedBy(ts: seq<Tok>, i: nat, d: nat, j: nat) {
    Next(ts, i + 1, d) && ts[d].kind == Dot && Next(ts, d + 1, j)
  }

  /** `AS` at `x` and the name at `a` follow token `last`. */
  predicate AliasedBy(ts: seq<Tok>, last: nat, x: nat, a: nat) {
    Next(ts, last + 1, x) && AsToken(ts[x]) && Next(ts, x + 1, a)
  }

  /** What follows token `last` is neither a name nor `AS` nor a dot. */
  predicate StoppedBy(ts: seq<Tok>, last: nat, x: nat) {
    Next(ts, last + 1, x) && !Named(ts[x]) && !AsToken(ts[x]) && ts[x].kind != Dot
  }

  /** Behind the name at `last` stands the alias, with or without `AS`; or something that can be none. */
  ghost predicate AliasShape(ts: seq<Tok>, last: nat, alias: Option<nat>) {
    match alias
    case Some(a) =>
      a < |ts| && FreeName(ts[a])
      && (Next(ts, last + 1, a) || exists x: nat :: AliasedBy(ts, last, x, a))
    case None =>
      NothingFrom(ts, last + 1)
      || exists x: nat :: StoppedBy(ts, last, x)
  }

  function TextAt(ts: seq<Tok>, at: Option<nat>): Option<string> {
    if at.Some? && at.value < |ts| then Some(ts[at.value].text) else None
  }

  // ----- Reading a shape -----

  lemma {:induction false} NextIs(ts: seq<Tok>, i: nat, j: nat)
    requires Next(ts, i, j)
    ensures NextSignificant(ts, i) == Some(j) && i <= j < |ts|
    decreases j - i
  {
    if i < j { NextIs(ts, i + 1, j); }
  }

  lemma {:induction false} NothingIs(ts: seq<Tok>, i: nat)
    requires NothingFrom(ts, i)
    ensures NextSignificant(ts, i) == None
    decreases |ts| - i
  {
    if i < |ts| { NothingIs(ts, i + 1); }
  }

  lemma RelationWordIff(w: string)
    ensures w in TABLE_WORDS <==> RelationWord(w)
  {}

  lemma ColumnWordIff(w: string)
    ensures w in COLUMN_WORDS <==> ColumnWord(w)
  {}

  lemma ClauseWordIff(w: string)
    ensures IsClauseWord(w) <==> ClauseWord(w)
  {
    hide RelationWord, ColumnWord;
    ColumnWordIff(w);
    RelationWordIff(w);
  }

  lemma FreeNameIsAlias(t: Tok)
    requires FreeName(t)
    ensures IsAlias(t) && IsName(t) && t.kind != Keyword && t.kind != Dot
  {
    ClauseWordIff(AsciiUpper(t.text));
    hide AsciiUpper, IsClauseWord, ClauseWord, NoCapitals;
  }

  /** What the parser finds behind the last name. */
  ghost predicate Found(ts: seq<Tok>, last: nat, alias: Option<nat>) {
    && AliasAfter(ts, last) == alias && BareAliasAfter(ts, last) == alias
    && (NextSignificant(ts, last + 1).Some? ==> ts[NextSignificant(ts, last + 1).value].kind != Dot)
  }

  lemma NoneFound(ts: seq<Tok>, last: nat, x: Option<nat>)
    requires NextSignificant(ts, last + 1) == x
    requires x.Some? ==> x.value < |ts| && !Named(ts[x.value]) && !AsToken(ts[x.value]) && ts[x.value].kind != Dot
    ensures Found(ts, last, None)
  {
    hide NextSignificant, AsciiUpper, IsClauseWord, NoCapitals;
  }

  lemma StopIs(ts: seq<Tok>, last: nat, x: nat)
    requires StoppedBy(ts, last, x)
    ensures NextSignificant(ts, last + 1) == Some(x) && last < x < |ts|
    ensures !Named(ts[x]) && !AsToken(ts[x]) && ts[x].kind != Dot
  {
    hide AsToken;
    NextIs(ts, last + 1, x);
  }

  lemma NoAliasFound(ts: seq<Tok>, last: nat)
    requires AliasShape(ts, last, None)
    ensures Found(ts, last, None)
  {
    hide NextSignificant, Next, NothingFrom, Named, AsToken, Found, StoppedBy;
    if NothingFrom(ts, last + 1) {
      NothingIs(ts, last + 1);
      NoneFound(ts, last, None);
    } else {
      var x: nat :| StoppedBy(ts, last, x);
      StopIs(ts, last, x);
      NoneFound(ts, last, Some(x));
    }
  }

  lemma BareFound(ts: seq<Tok>, last: nat, a: nat)
    requires NextSignificant(ts, last + 1) == Some(a) && last < a < |ts| && IsAlias(ts[a])
    requires ts[a].kind != Keyword && ts[a].kind != Dot
    ensures Found(ts, last, Some(a))
  {
    hide NextSignificant, IsAlias, Says, IsClauseWord;
  }

  lemma AsFound(ts: seq<Tok>, last: nat, x: nat, a: nat)
    requires NextSignificant(ts, last + 1) == Some(x) && last < x < |ts| && AsToken(ts[x])
    requires NextSignificant(ts, x + 1) == Some(a) && x < a < |ts| && IsAlias(ts[a])
    ensures Found(ts, last, Some(a))
  {
    hide NextSignificant, IsAlias, AsciiUpper, IsClauseWord;
  }

  lemma AsIs(ts: seq<Tok>, last: nat, x: nat, a: nat)
    requires AliasedBy(ts, last, x, a)
    ensures NextSignificant(ts, last + 1) == Some(x) && last < x < a < |ts| && AsToken(ts[x])
    ensures NextSignificant(ts, x + 1) == Some(a)
  {
    hide AsToken;
    NextIs(ts, last + 1, x);
    NextIs(ts, x + 1, a);
  }

  lemma AliasFound(ts: seq<Tok>, last: nat, a: nat)
    requires AliasShape(ts, last, Some(a))
    ensures Found(ts, last, Some(a))
  {
    hide NextSignificant, Next, IsAlias, FreeName, AliasedBy, Found, IsName;
    FreeNameIsAlias(ts[a]);
    if Next(ts, last + 1, a) {
      NextIs(ts, last + 1, a);
      BareFound(ts, last, a);
    } else {
      var x: nat :| AliasedBy(ts, last, x, a);
      AsIs(ts, last, x, a);
      AsFound(ts, last, x, a);
    }
  }

  lemma NameBehindDot(ts: seq<Tok>, i: nat, d: nat, j: nat)
    requires NextSignificant(ts, i + 1) == Some(d) && d < |ts| && ts[d].kind == Dot
    requires NextSignificant(ts, d + 1) == Some(j) && j < |ts| && (Named(ts[j]) || ts[j].kind == Keyword)
    ensures NameAfterDot(ts, i) == Some(j)
  {
    hide NextSignificant;
  }

  lemma DottedIsFound(ts: seq<Tok>, i: nat, j: nat)
    requires Dotted(ts, i, j)
    ensures NameAfterDot(ts, i) == Some(j)
    ensures NextSignificant(ts, i + 1).Some? && ts[NextSignificant(ts, i + 1).value].kind == Dot
  {
    hide NextSignificant, NameAfterDot;
    var d: nat :| DottedBy(ts, i, d, j);
    NextIs(ts, i + 1, d);
    NextIs(ts, d + 1, j);
    NameBehindDot(ts, i, d, j);
  }

  lemma NoDotFound(ts: seq<Tok>, last: nat, alias: Option<nat>)
    requires Found(ts, last, alias)
    ensures NameAfterDot(ts, last) == None
  {}

  lemma NotBehindIf(ts: seq<Tok>, i: nat)
    requires i < |ts| && AsciiUpper(ts[i].text) != "IF"
    ensures BehindIfExists(ts, i) == None
  {}

  lemma ReferenceIs(ts: seq<Tok>, i: nat, schema: Option<string>, last: nat, alias: Option<nat>)
    requires i <= last < |ts| && (alias.Some? ==> last < alias.value < |ts|)
    ensures Reference(ts, i, schema, last, alias)
            == Parsed(schema, ts[last].text, TextAt(ts, alias), alias.UnwrapOr(last) - i + 1)
  {}

  lemma AliasIsBehind(ts: seq<Tok>, last: nat, alias: Option<nat>)
    requires AliasShape(ts, last, alias)
    ensures alias.Some? ==> last < alias.value < |ts|
  {
    hide FreeName, AsToken;
  }

  lemma DottedIsBehind(ts: seq<Tok>, i: nat, j: nat)
    requires Dotted(ts, i, j)
    ensures i < j < |ts|
  {}

  lemma ShapeBounds(ts: seq<Tok>, i: nat, last: nat, schema: Option<nat>)
    requires NameShape(ts, i, last, schema)
    ensures i <= last < |ts| && IsNameOrKeyword(ts[i]) && (schema.Some? ==> i <= schema.value < |ts|)
    ensures BehindIfExists(ts, i) == None
  {
    hide Dotted, BehindIfExists, AsciiUpper;
    NotBehindIf(ts, i);
    if schema.Some? && schema != Some(i) { DottedIsBehind(ts, i, schema.value); }
  }

  lemma OneName(ts: seq<Tok>, i: nat, alias: Option<nat>)
    requires i < |ts| && IsNameOrKeyword(ts[i]) && BehindIfExists(ts, i) == None && Found(ts, i, alias)
    ensures TableRefAt(ts, i) == Reference(ts, i, None, i, alias)
  {
    hide AliasAfter, BareAliasAfter, NameAfterDot, NextSignificant, BehindIfExists, Reference, Stuttered;
  }

  lemma TwoNames(ts: seq<Tok>, i: nat, last: nat, alias: Option<nat>)
    requires i < last < |ts| && IsNameOrKeyword(ts[i]) && BehindIfExists(ts, i) == None && Found(ts, last, alias)
    requires Dotted(ts, i, last) && (alias.Some? ==> last < alias.value < |ts|)
    ensures TableRefAt(ts, i) == Reference(ts, i, Some(ts[i].text), last, alias)
  {
    DottedIsFound(ts, i, last);
    NoDotFound(ts, last, alias);
    hide AliasAfter, BareAliasAfter, NameAfterDot, NextSignificant, BehindIfExists, Reference, Stuttered, Dotted;
  }

  lemma ThreeNames(ts: seq<Tok>, i: nat, j: nat, last: nat, alias: Option<nat>)
    requires i < j < last < |ts| && IsNameOrKeyword(ts[i]) && BehindIfExists(ts, i) == None && Found(ts, last, alias)
    requires Dotted(ts, i, j) && Dotted(ts, j, last) && (alias.Some? ==> last < alias.value < |ts|)
    ensures TableRefAt(ts, i) == Reference(ts, i, Some(ts[j].text), last, alias)
  {
    DottedIsFound(ts, i, j);
    DottedIsFound(ts, j, last);
    hide AliasAfter, BareAliasAfter, NameAfterDot, NextSignificant, BehindIfExists, Reference, Stuttered, Dotted;
  }

  /**
   The name is the text of the last name, the schema that of the name before it, and the alias the text of
   the free name that follows; the reference ends with the last of them.
   */
  lemma ReferenceMeans(ts: seq<Tok>, i: nat, last: nat, schema: Option<nat>, alias: Option<nat>)
    requires NameShape(ts, i, last, schema) && AliasShape(ts, last, alias)
    ensures alias.UnwrapOr(last) >= i && last < |ts|
    ensures TableRefAt(ts, i)
            == Parsed(TextAt(ts, schema), ts[last].text, TextAt(ts, alias), alias.UnwrapOr(last) - i + 1)
  {
    ShapeBounds(ts, i, last, schema);
    AliasIsBehind(ts, last, alias);
    hide BehindIfExists, Reference, Dotted, AliasShape, TableRefAt, Found, IsNameOrKeyword, AsciiUpper;
    if alias.Some? { AliasFound(ts, last, alias.value); } else { NoAliasFound(ts, last); }
    ReferenceIs(ts, i, TextAt(ts, schema), last, alias);
    if schema == None {
      OneName(ts, i, alias);
    } else if schema == Some(i) && Dotted(ts, i, last) {
      DottedIsBehind(ts, i, last);
      TwoNames(ts, i, last, alias);
    } else {
      var j := schema.value;
      DottedIsBehind(ts, i, j);
      DottedIsBehind(ts, j, last);
      ThreeNames(ts, i, j, last, alias);
    }
  }

  /** `IF EXISTS` before a reference is passed over. */
  lemma IfExistsIsPassed(ts: seq<Tok>, i: nat, e: nat, t: nat)
    requires i < |ts| && (Named(ts[i]) || ts[i].kind == Keyword) && AsciiUpper(ts[i].text) == "IF"
    requires Next(ts, i + 1, e) && ts[e].kind == Keyword && AsciiUpper(ts[e].text) == "EXISTS" && Next(ts, e + 1, t)
    ensures var p := TableRefAt(ts, t); TableRefAt(ts, i) == p.(consumed := p.consumed + (t - i))
  {
    hide NextSignificant, Next, BehindIfExists, AsciiUpper;
    NextIs(ts, i + 1, e);
    NextIs(ts, e + 1, t);
    BehindIs(ts, i, e, t);
    hide NameAfterDot, Reference, Stuttered, BareAliasAfter, AliasAfter;
  }

  lemma BehindIs(ts: seq<Tok>, i: nat, e: nat, t: nat)
    requires i < |ts| && AsciiUpper(ts[i].text) == "IF" && NextSignificant(ts, i + 1) == Some(e) && e < |ts|
    requires ts[e].kind == Keyword && AsciiUpper(ts[e].text) == "EXISTS" && NextSignificant(ts, e + 1) == Some(t)
    ensures BehindIfExists(ts, i) == Some(t)
  {
    hide NextSignificant, AsciiUpper;
  }

  // ----- Odd shapes -----

  predicate LowerCase(s: string) { forall k :: 0 <= k < |s| ==> !(65 <= s[k] as int <= 90) }

  /**
   Any name behind a qualified name is its alias unless it is a known keyword, or a clause word without a
   capital. An unqualified name also takes a known keyword that is no clause word, and not AS or USING.
   */
  lemma NameBehindIff(ts: seq<Tok>, last: nat, x: nat)
    requires Next(ts, last + 1, x) && Named(ts[x])
    ensures var upper := AsciiUpper(ts[x].text);
            var strict := !ts[x].known && !(LowerCase(ts[x].text) && ClauseWord(upper));
            && AliasAfter(ts, last) == (if strict then Some(x) else None)
            && BareAliasAfter(ts, last) ==
               (if strict || (!ClauseWord(upper) && upper != "AS" && upper != "USING") then Some(x) else None)
  {
    NextIs(ts, last + 1, x);
    hide NextSignificant, Next, AsciiUpper, IsClauseWord, ClauseWord;
    ClauseWordIff(AsciiUpper(ts[x].text));
    OnIsAClauseWord();
  }

  lemma OnIsAClauseWord()
    ensures ClauseWord("ON")
  {}

  /** `a..b`: schema and name around the dots; only a name directly behind is an alias. */
  lemma StutterMeans(ts: seq<Tok>, i: nat, d: nat, j: nat)
    requires i < |ts| && (Named(ts[i]) || ts[i].kind == Keyword) && AsciiUpper(ts[i].text) != "IF"
    requires d + 1 < j < |ts| && Next(ts, i + 1, d) && DotsTo(ts, d, j) && (Named(ts[j]) || ts[j].kind == Keyword)
    ensures TableRefAt(ts, i) ==
            if j + 1 < |ts| && Named(ts[j + 1]) && !ts[j + 1].known
            then Parsed(Some(ts[i].text), ts[j].text, Some(ts[j + 1].text), j - i + 3)
            else Parsed(Some(ts[i].text), ts[j].text, None, j - i + 2)
  {
    hide *;
    NextIs(ts, i + 1, d);
    NamedMeans(ts[i]);
    NamedMeans(ts[j]);
    DotsMean(ts, d, j);
    NotBehindIf(ts, i);
    StutterIs(ts, i, d);
    StutteredIs(ts, i, d, j);
  }

  predicate DotsTo(ts: seq<Tok>, d: nat, j: nat)
    requires j <= |ts|
  {
    forall k :: d <= k < j ==> ts[k].kind == Dot
  }

  lemma DotsMean(ts: seq<Tok>, d: nat, j: nat)
    requires d + 1 < j < |ts| && DotsTo(ts, d, j) && ts[j].kind != Dot
    ensures ts[d].kind == Dot && ts[d + 1].kind == Dot
    ensures NextSignificant(ts, d + 1) == Some(d + 1) && PastDots(ts, d) == j
  {
    NextIs(ts, d + 1, d + 1);
    DotsPassed(ts, d, j);
  }

  lemma NamedMeans(t: Tok)
    ensures IsNameOrKeyword(t) <==> Named(t) || t.kind == Keyword
    ensures Named(t) || t.kind == Keyword ==> t.kind != Dot
  {}

  lemma StutteredIs(ts: seq<Tok>, i: nat, d: nat, j: nat)
    requires i < d < j < |ts| && PastDots(ts, d) == j && (Named(ts[j]) || ts[j].kind == Keyword)
    ensures Stuttered(ts, i, d) ==
            if j + 1 < |ts| && Named(ts[j + 1]) && !ts[j + 1].known
            then Parsed(Some(ts[i].text), ts[j].text, Some(ts[j + 1].text), j - i + 3)
            else Parsed(Some(ts[i].text), ts[j].text, None, j - i + 2)
  {
    hide PastDots;
  }

  lemma StutterIs(ts: seq<Tok>, i: nat, d: nat)
    requires i < |ts| && IsNameOrKeyword(ts[i]) && BehindIfExists(ts, i) == None
    requires NextSignificant(ts, i + 1) == Some(d) && i < d && d + 1 < |ts| && ts[d].kind == Dot
    requires NextSignificant(ts, d + 1) == Some(d + 1) && ts[d + 1].kind == Dot
    ensures TableRefAt(ts, i) == Stuttered(ts, i, d)
  {
    hide NextSignificant, BehindIfExists, Stuttered, Reference, AliasAfter, BareAliasAfter;
  }

  lemma {:induction false} DotsPassed(ts: seq<Tok>, d: nat, j: nat)
    requires d <= j < |ts| && (forall k :: d <= k < j ==> ts[k].kind == Dot) && ts[j].kind != Dot
    ensures PastDots(ts, d) == j
    decreases j - d
  {
    if d < j { DotsPassed(ts, d + 1, j); }
  }
}
