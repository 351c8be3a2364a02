/** Which statements are queries, word by word. */
module ClassifierMeaning {
  import opened Text
  import opened Lexis
  import opened Blanker
  import opened Classifier

  /** What the Unicode tables say of ASCII. */
  ghost predicate KnowsAscii(table: CharTable) {
    forall c: char {:trigger table.upper(c)} {:trigger table.word(c)} :: c as int < 128 ==>
      && table.upper(c) == [if 97 <= c as int <= 122 then (c as int - 32) as char else c]
      && (table.word(c) <==>
            48 <= c as int <= 57 || 65 <= c as int <= 90 || c as int == 95 || 97 <= c as int <= 122)
  }

  // ----- Words that stand alone -----

  /** `w` stands in `s` at `k` with no word character directly before or after it. */
  predicate AloneAt(s: string, w: string, k: nat, table: CharTable) {
    && k + |w| <= |s| && s[k..k + |w|] == w
    && (k > 0 ==> !table.word(s[k - 1]))
    && (k + |w| < |s| ==> !table.word(s[k + |w|]))
  }

  ghost predicate Alone(s: string, w: string, table: CharTable) { exists k: nat :: AloneAt(s, w, k, table) }

  predicate AllWord(s: string, table: CharTable) { forall k :: 0 <= k < |s| ==> table.word(s[k]) }

  /** A run of word characters holds no proper part alone. */
  lemma AloneInARun(piece: string, w: string, table: CharTable)
    requires w != "" && AllWord(piece, table)
    ensures Alone(piece, w, table) <==> w == piece
  {
    if w == piece {
      assert AloneAt(piece, w, 0, table);
    }
    if k: nat :| AloneAt(piece, w, k, table) {
      assert k == 0 && |w| == |piece|;
      assert piece[0..|w|] == piece;
    }
  }

  /** The first `m` characters of `s` are of words, and the next is not. */
  predicate RunTo(s: string, m: nat, table: CharTable) {
    m < |s| && (forall i :: 0 <= i < m ==> table.word(s[i])) && !table.word(s[m])
  }

  lemma NoWordCrosses(s: string, w: string, k: nat, m: nat, table: CharTable)
    requires k + |w| <= |s| && s[k..k + |w|] == w && AllWord(w, table) && k <= m < |s| && !table.word(s[m])
    ensures k + |w| <= m
  {
    assert forall i :: 0 <= i < |w| ==> s[k + i] == w[i];
  }

  /** What stands alone up to the separator is the whole run before it. */
  lemma AloneBefore(s: string, m: nat, w: string, k: nat, table: CharTable)
    requires w != "" && RunTo(s, m, table) && AllWord(w, table) && AloneAt(s, w, k, table) && k <= m
    ensures w == s[..m]
  {
    NoWordCrosses(s, w, k, m, table);
    assert k == 0 && |w| == m;
  }

  lemma AloneBehind(s: string, m: nat, w: string, k: nat, table: CharTable)
    requires m < k && m < |s| && !table.word(s[m])
    ensures AloneAt(s, w, k, table) <==> AloneAt(s[m + 1..], w, k - m - 1, table)
  {
    if k + |w| <= |s| {
      assert s[m + 1..][k - m - 1..k - m - 1 + |w|] == s[k..k + |w|];
    }
  }

  /** A word stands alone in the run before a separator, or behind it. */
  lemma AloneAroundASeparator(s: string, m: nat, w: string, table: CharTable)
    requires w != "" && RunTo(s, m, table) && AllWord(w, table)
    ensures Alone(s, w, table) <==> w == s[..m] || Alone(s[m + 1..], w, table)
  {
    if w == s[..m] {
      assert s[0..0 + |w|] == w;
      assert AloneAt(s, w, 0, table);
    }
    hide AloneAt, RunTo, AllWord;
    var rest := s[m + 1..];
    if j: nat :| AloneAt(rest, w, j, table) {
      RunEnds(s, m, table);
      AloneBehind(s, m, w, m + 1 + j, table);
    }
    if k: nat :| AloneAt(s, w, k, table) {
      RunEnds(s, m, table);
      if k <= m {
        AloneBefore(s, m, w, k, table);
      } else {
        AloneBehind(s, m, w, k, table);
      }
    }
  }

  lemma RunEnds(s: string, m: nat, table: CharTable)
    requires RunTo(s, m, table)
    ensures m < |s| && !table.word(s[m])
  {}

  lemma {:induction false} WordsAreAlone(s: string, piece: string, w: string, table: CharTable)
    requires w != "" && AllWord(piece, table) && AllWord(w, table)
    ensures w in Words(s, piece, table) <==> Alone(piece + s, w, table)
  {
    hide Alone, AloneAt;
    if s == "" {
      assert piece + s == piece;
      AloneInARun(piece, w, table);
    } else if table.word(s[0]) {
      WordsAreAlone(s[1..], piece + [s[0]], w, table);
      assert piece + [s[0]] + s[1..] == piece + s;
    } else {
      WordsAreAlone(s[1..], "", w, table);
      var m, whole := |piece|, piece + s;
      assert "" + s[1..] == s[1..] && whole[m + 1..] == s[1..] && whole[..m] == piece;
      AloneAroundASeparator(whole, m, w, table);
    }
  }

  // ----- What is a query -----

  /** The code of a statement, upper-cased, from its first character that is no space. */
  function View(stmt: string, esc: QuoteEscapes, table: CharTable): string {
    Upper(TrimStart(CodeView(stmt, esc)), table)
  }

  lemma ReturningIsAWord(table: CharTable)
    requires KnowsAscii(table)
    ensures AllWord("RETURNING", table)
  {
    forall k | 0 <= k < |"RETURNING"| ensures table.word("RETURNING"[k]) {
      assert 65 <= "RETURNING"[k] as int <= 90;
    }
  }

  lemma UpperQueryIff(kinds: QueryKinds, v: string, table: CharTable)
    requires KnowsAscii(table) && kinds.contains == ["RETURNING"]
    ensures UpperIsQuery(kinds, v, table) <==>
            (exists k :: 0 <= k < |kinds.startsWith| && kinds.startsWith[k] <= v) || Alone(v, "RETURNING", table)
  {
    hide Alone, Words, KnowsAscii;
    ReturningIsAWord(table);
    WordsAreAlone(v, "", "RETURNING", table);
    assert "" + v == v;
    assert kinds.contains[0] == "RETURNING";
  }

  lemma SqliteQueryIff(stmt: string, table: CharTable)
    requires KnowsAscii(table)
    ensures var v := View(stmt, Standard, table);
            IsQuery(SQLITE_QUERY, stmt, table) <==>
            || "SELECT" <= v || "WITH" <= v || "EXPLAIN" <= v || "PRAGMA" <= v || "VALUES" <= v
            || Alone(v, "RETURNING", table)
  {
    hide UpperIsQuery, Alone, CodeView, Upper, TrimStart, KnowsAscii;
    var v := View(stmt, Standard, table);
    UpperQueryIff(SQLITE_QUERY, v, table);
    var p := SQLITE_QUERY.startsWith;
    assert p[0] == "SELECT" && p[1] == "WITH" && p[2] == "EXPLAIN" && p[3] == "PRAGMA" && p[4] == "VALUES";
  }

  lemma PostgresQueryIff(stmt: string, table: CharTable)
    requires KnowsAscii(table)
    ensures var v := View(stmt, Standard, table);
            IsQuery(POSTGRES_QUERY, stmt, table) <==>
            || "SELECT" <= v || "WITH" <= v || "EXPLAIN" <= v || "SHOW" <= v || "TABLE " <= v || "VALUES" <= v
            || Alone(v, "RETURNING", table)
  {
    hide UpperIsQuery, Alone, CodeView, Upper, TrimStart, KnowsAscii;
    var v := View(stmt, Standard, table);
    UpperQueryIff(POSTGRES_QUERY, v, table);
    var p := POSTGRES_QUERY.startsWith;
    assert p[0] == "SELECT" && p[1] == "WITH" && p[2] == "EXPLAIN";
    assert p[3] == "SHOW" && p[4] == "TABLE " && p[5] == "VALUES";
  }

  lemma MysqlQueryIff(stmt: string, table: CharTable)
    requires KnowsAscii(table)
    ensures var v := View(stmt, Backslash, table);
            IsQuery(MYSQL_QUERY, stmt, table) <==>
            || "SELECT" <= v || "WITH" <= v || "EXPLAIN" <= v || "SHOW" <= v || "DESCRIBE" <= v || "DESC " <= v
            || Alone(v, "RETURNING", table)
  {
    hide UpperIsQuery, Alone, CodeView, Upper, TrimStart, KnowsAscii;
    var v := View(stmt, Backslash, table);
    UpperQueryIff(MYSQL_QUERY, v, table);
    var p := MYSQL_QUERY.startsWith;
    assert p[0] == "SELECT" && p[1] == "WITH" && p[2] == "EXPLAIN";
    assert p[3] == "SHOW" && p[4] == "DESCRIBE" && p[5] == "DESC ";
  }

  predicate BeginsAsDml(v: string) { "INSERT" <= v || "UPDATE" <= v || "DELETE" <= v }

  /** Every RETURNING in the text is part of a longer word. */
  predicate OnlyInLongerWords(v: string, table: CharTable) {
    forall k {:trigger v[k..k + 9]} :: 0 <= k <= |v| - 9 && v[k..k + 9] == "RETURNING" ==>
      (k > 0 && table.word(v[k - 1])) || (k + 9 < |v| && table.word(v[k + 9]))
  }

  lemma LongerWordsAreNotAlone(v: string, table: CharTable)
    ensures OnlyInLongerWords(v, table) ==> !Alone(v, "RETURNING", table)
  {
    if k: nat :| AloneAt(v, "RETURNING", k, table) {
      assert v[k..k + 9] == "RETURNING";
    }
  }

  lemma DmlBeginsOtherwise(v: string, p: string)
    requires BeginsAsDml(v) && |p| >= 3
    requires p[0] != 'I' && p[0] != 'U' && (p[0] != 'D' || p[2] != 'L')
    ensures !(p <= v)
  {}

  lemma DmlBeginsAsNone(v: string)
    requires BeginsAsDml(v)
    ensures !("SELECT" <= v) && !("WITH" <= v) && !("EXPLAIN" <= v) && !("PRAGMA" <= v) && !("VALUES" <= v)
    ensures !("SHOW" <= v) && !("TABLE " <= v) && !("DESCRIBE" <= v) && !("DESC " <= v)
  {
    hide BeginsAsDml;
    DmlBeginsOtherwise(v, "SELECT");
    DmlBeginsOtherwise(v, "WITH");
    DmlBeginsOtherwise(v, "EXPLAIN");
    DmlBeginsOtherwise(v, "PRAGMA");
    DmlBeginsOtherwise(v, "VALUES");
    DmlBeginsOtherwise(v, "SHOW");
    DmlBeginsOtherwise(v, "TABLE ");
    DmlBeginsOtherwise(v, "DESCRIBE");
    DmlBeginsOtherwise(v, "DESC ");
  }

  /** DML is a query exactly when RETURNING stands alone in it; a column `returning_flag` does not make it one. */
  lemma DmlIsAQueryIff(stmt: string, table: CharTable)
    requires KnowsAscii(table)
    ensures var v := View(stmt, Standard, table);
            BeginsAsDml(v) ==>
              && (IsQuery(SQLITE_QUERY, stmt, table) <==> Alone(v, "RETURNING", table))
              && (IsQuery(POSTGRES_QUERY, stmt, table) <==> Alone(v, "RETURNING", table))
              && (OnlyInLongerWords(v, table) ==>
                    !IsQuery(SQLITE_QUERY, stmt, table) && !IsQuery(POSTGRES_QUERY, stmt, table))
    ensures var v := View(stmt, Backslash, table);
            BeginsAsDml(v) ==>
              && (IsQuery(MYSQL_QUERY, stmt, table) <==> Alone(v, "RETURNING", table))
              && (OnlyInLongerWords(v, table) ==> !IsQuery(MYSQL_QUERY, stmt, table))
  {
    hide IsQuery, View, KnowsAscii, Alone, OnlyInLongerWords, BeginsAsDml;
    var v, w := View(stmt, Standard, table), View(stmt, Backslash, table);
    LongerWordsAreNotAlone(v, table);
    LongerWordsAreNotAlone(w, table);
    if BeginsAsDml(v) { DmlBeginsAsNone(v); }
    if BeginsAsDml(w) { DmlBeginsAsNone(w); }
    SqliteQueryIff(stmt, table);
    PostgresQueryIff(stmt, table);
    MysqlQueryIff(stmt, table);
  }

  // ----- Any case of letters -----

  /** `w` with each of its ASCII capitals in either case. */
  predicate Spells(s: string, w: string) {
    && |s| == |w|
    && forall k :: 0 <= k < |w| ==> s[k] == w[k] || (65 <= w[k] as int <= 90 && s[k] as int == w[k] as int + 32)
  }

  lemma {:induction false} SpelledUpper(s: string, w: string, rest: string, table: CharTable)
    requires KnowsAscii(table) && Spells(s, w)
    requires forall k :: 0 <= k < |w| ==> w[k] as int == 32 || 65 <= w[k] as int <= 90
    ensures w <= Upper(s + rest, table)
  {
    if w != "" {
      SpelledUpper(s[1..], w[1..], rest, table);
      assert (s + rest)[1..] == s[1..] + rest;
      assert (s + rest)[0] == s[0] && table.upper(s[0]) == [w[0]];
      assert w == [w[0]] + w[1..];
    }
  }

  /** A statement whose code begins with SELECT in any case, behind any space, is a query in every dialect. */
  lemma SelectIsAQuery(stmt: string, table: CharTable, s: string, rest: string)
    requires KnowsAscii(table) && Spells(s, "SELECT")
    ensures TrimStart(CodeView(stmt, Standard)) == s + rest ==>
              IsQuery(SQLITE_QUERY, stmt, table) && IsQuery(POSTGRES_QUERY, stmt, table)
    ensures TrimStart(CodeView(stmt, Backslash)) == s + rest ==> IsQuery(MYSQL_QUERY, stmt, table)
  {
    hide IsQuery, KnowsAscii, CodeView, TrimStart;
    SpelledUpper(s, "SELECT", rest, table);
    SqliteQueryIff(stmt, table);
    PostgresQueryIff(stmt, table);
    MysqlQueryIff(stmt, table);
  }
}
