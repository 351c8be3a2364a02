/** Query or DML: the classification of a statement from its code view, by dialect tables. */
module Classifier {
  import opened Text
  import opened Lexis
  import opened Blanker

  /** Which statements return rows, per dialect. */
  datatype QueryKinds = QueryKinds(startsWith: seq<string>, contains: seq<string>, escapes: QuoteEscapes)

  /** Upper-casing and the characters of a word, as the Unicode tables of the platform give them. */
  datatype CharTable = CharTable(upper: char -> string, word: char -> bool)

  predicate Sane(table: CharTable) { table.upper(' ') == " " && !table.word(' ') }

  function Upper(s: string, table: CharTable): string {
    if s == "" then "" else table.upper(s[0]) + Upper(s[1..], table)
  }

  /** The text between separators, the last piece started by `piece`. */
  function Words(s: string, piece: string, table: CharTable): seq<string> {
    if s == "" then [piece]
    else if table.word(s[0]) then Words(s[1..], piece + [s[0]], table)
    else [piece] + Words(s[1..], "", table)
  }

  predicate UpperIsQuery(kinds: QueryKinds, upper: string, table: CharTable) {
    || (exists k :: 0 <= k < |kinds.startsWith| && kinds.startsWith[k] <= upper)
    || (exists k :: 0 <= k < |kinds.contains| && kinds.contains[k] in Words(upper, "", table))
  }

  predicate IsQuery(kinds: QueryKinds, stmt: string, table: CharTable) {
    UpperIsQuery(kinds, Upper(TrimStart(CodeView(stmt, kinds.escapes)), table), table)
  }

  const SQLITE_QUERY := QueryKinds(["SELECT", "WITH", "EXPLAIN", "PRAGMA", "VALUES"], ["RETURNING"], Standard)

  const POSTGRES_QUERY :=
    QueryKinds(["SELECT", "WITH", "EXPLAIN", "SHOW", "TABLE ", "VALUES"], ["RETURNING"], Standard)

  const MYSQL_QUERY :=
    QueryKinds(["SELECT", "WITH", "EXPLAIN", "SHOW", "DESCRIBE", "DESC "], ["RETURNING"], Backslash)

  /** A prefix to look for has a space at most at its end. */
  predicate SpaceOnlyLast(p: string) { forall k :: 0 <= k < |p| - 1 ==> p[k] != ' ' }

  predicate PlainPrefixes(kinds: QueryKinds) {
    forall k :: 0 <= k < |kinds.startsWith| ==> SpaceOnlyLast(kinds.startsWith[k])
  }

  lemma DialectsHavePlainPrefixes()
    ensures PlainPrefixes(SQLITE_QUERY) && PlainPrefixes(POSTGRES_QUERY) && PlainPrefixes(MYSQL_QUERY)
  {}

  // ----- The width of a gap does not matter to the classification -----

  lemma {:induction false} UpperAdds(a: string, b: string, table: CharTable)
    ensures Upper(a + b, table) == Upper(a, table) + Upper(b, table)
  {
    if a == "" {
      assert a + b == b;
    } else {
      UpperAdds(a[1..], b, table);
      assert (a + b)[1..] == a[1..] + b;
    }
  }

  lemma {:induction false} UpperSpaces(n: nat, table: CharTable)
    requires Sane(table)
    ensures Upper(Spaces(n), table) == Spaces(n)
  {
    if n > 0 {
      assert Spaces(n)[1..] == Spaces(n - 1);
      UpperSpaces(n - 1, table);
    }
  }

  lemma {:induction false} WordsAdd(a: string, b: string, piece: string, table: CharTable)
    requires Sane(table)
    ensures Words(a + [' '] + b, piece, table) == Words(a, piece, table) + Words(b, "", table)
  {
    if a == "" {
      assert (a + [' '] + b)[1..] == b;
    } else {
      assert (a + [' '] + b)[1..] == a[1..] + [' '] + b;
      WordsAdd(a[1..], b, if table.word(a[0]) then piece + [a[0]] else "", table);
    }
  }

  lemma {:induction false} WordsOfSpaces(n: nat, b: string, table: CharTable)
    requires Sane(table)
    ensures Words(Spaces(n) + b, "", table) == seq(n, _ => "") + Words(b, "", table)
  {
    if n == 0 {
      assert Spaces(0) + b == b;
    } else {
      assert Spaces(n) + b == "" + [' '] + (Spaces(n - 1) + b);
      WordsAdd("", Spaces(n - 1) + b, "", table);
      WordsOfSpaces(n - 1, b, table);
      assert Words("", "", table) == [""];
    }
  }

  /** The words around a gap of at least two spaces. */
  lemma WordsAroundGap(a: string, n: nat, b: string, w: string, table: CharTable)
    requires Sane(table) && n >= 2
    ensures w in Words(a + Spaces(n) + b, "", table) <==>
            w in Words(a, "", table) || w == "" || w in Words(b, "", table)
  {
    assert a + Spaces(n) + b == a + [' '] + (Spaces(n - 1) + b);
    WordsAdd(a, Spaces(n - 1) + b, "", table);
    WordsOfSpaces(n - 1, b, table);
    assert seq(n - 1, _ => "")[0] == "";
  }

  lemma PrefixOfGap(p: string, a: string, n: nat, m: nat, b: string)
    requires SpaceOnlyLast(p) && n >= 1 && m >= 1 && p <= a + Spaces(n) + b
    ensures p <= a + Spaces(m) + b
  {
    var u, v := a + Spaces(n) + b, a + Spaces(m) + b;
    assert u[|a|] == ' ';
    assert |p| <= |a| + 1;
    assert forall k :: 0 <= k < |p| ==> p[k] == u[k] == v[k];
  }

  lemma GapWidthIrrelevant(kinds: QueryKinds, a: string, n: nat, m: nat, b: string, table: CharTable)
    requires Sane(table) && PlainPrefixes(kinds) && n >= 2 && m >= 2
    ensures UpperIsQuery(kinds, a + Spaces(n) + b, table) <==> UpperIsQuery(kinds, a + Spaces(m) + b, table)
  {
    var u, v := a + Spaces(n) + b, a + Spaces(m) + b;
    forall k | 0 <= k < |kinds.startsWith|
      ensures kinds.startsWith[k] <= u <==> kinds.startsWith[k] <= v
    {
      var p := kinds.startsWith[k];
      if p <= u { PrefixOfGap(p, a, n, m, b); }
      if p <= v { PrefixOfGap(p, a, m, n, b); }
    }
    forall k | 0 <= k < |kinds.contains|
      ensures kinds.contains[k] in Words(u, "", table) <==> kinds.contains[k] in Words(v, "", table)
    {
      WordsAroundGap(a, n, b, kinds.contains[k], table);
      WordsAroundGap(a, m, b, kinds.contains[k], table);
    }
  }

  lemma {:induction false} TrimStartOfGap(x: string, rest: string)
    ensures TrimStart(x) != "" ==> TrimStart(x + rest) == TrimStart(x) + rest
    ensures TrimStart(x) == "" ==> TrimStart(x + rest) == TrimStart(rest)
  {
    if x == "" {
      assert x + rest == rest;
    } else if IsSpace(x[0]) {
      assert (x + rest)[1..] == x[1..] + rest;
      TrimStartOfGap(x[1..], rest);
    }
  }

  lemma {:induction false} TrimStartOfSpaces(n: nat, rest: string)
    ensures TrimStart(Spaces(n) + rest) == TrimStart(rest)
  {
    if n == 0 {
      assert Spaces(0) + rest == rest;
    } else {
      assert (Spaces(n) + rest)[1..] == Spaces(n - 1) + rest;
      TrimStartOfSpaces(n - 1, rest);
    }
  }

  /** Two code views that differ in the width of one gap classify alike. */
  lemma ViewsClassifyAlike(kinds: QueryKinds, x: string, n: nat, m: nat, y: string, table: CharTable)
    requires Sane(table) && PlainPrefixes(kinds) && n >= 2 && m >= 2
    ensures UpperIsQuery(kinds, Upper(TrimStart(x + Spaces(n) + y), table), table) <==>
            UpperIsQuery(kinds, Upper(TrimStart(x + Spaces(m) + y), table), table)
  {
    assert x + Spaces(n) + y == x + (Spaces(n) + y) && x + Spaces(m) + y == x + (Spaces(m) + y);
    TrimStartOfGap(x, Spaces(n) + y);
    TrimStartOfGap(x, Spaces(m) + y);
    TrimStartOfSpaces(n, y);
    TrimStartOfSpaces(m, y);
    if TrimStart(x) != "" {
      var t := TrimStart(x);
      UpperOfGap(t, n, y, table);
      UpperOfGap(t, m, y, table);
      GapWidthIrrelevant(kinds, Upper(t, table), n, m, Upper(y, table), table);
    }
  }

  lemma UpperOfGap(x: string, n: nat, y: string, table: CharTable)
    requires Sane(table)
    ensures Upper(x + (Spaces(n) + y), table) == Upper(x, table) + Spaces(n) + Upper(y, table)
  {
    UpperAdds(x, Spaces(n) + y, table);
    UpperAdds(Spaces(n), y, table);
    UpperSpaces(n, table);
  }
}
