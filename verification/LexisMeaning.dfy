/** What literals, comments and tags are. */
module LexisMeaning {
  import opened Lexis
  import opened Text

  // ----- Characters -----

  /** The classes in ASCII codes: `0`-`9` is 48-57, `A`-`Z` 65-90, `a`-`z` 97-122. */
  lemma CharacterClasses(c: char)
    ensures var n := c as int;
            && (IsDigit(c) <==> 48 <= n <= 57)
            && (IsAlpha(c) <==> 65 <= n <= 90 || 97 <= n <= 122)
            && (IsWord(c) <==> 48 <= n <= 57 || 65 <= n <= 90 || n == 95 || 97 <= n <= 122)
            && (IsQuote(c) <==> n == 34 || n == 39 || n == 96)
            && (n < 128 ==> (IsSpace(c) <==> 9 <= n <= 13 || n == 32))
  {
  }

  // ----- Comments -----

  predicate ClosesAt(s: string, k: nat) { k + 1 < |s| && s[k] == '*' && s[k + 1] == '/' }

  /** A line comment ends at the first newline, or at the end of the text. */
  lemma LineCommentMeans(s: string, i: nat)
    requires i <= |s|
    ensures var e := LineEnd(s, i); (e == |s| || s[e] == '\n') && forall k :: i <= k < e ==> s[k] != '\n'
  {
    LineIsFree(s, i);
  }

  /** A block comment ends behind the first closing mark, or at the end of the text. */
  lemma {:induction false} BlockCommentMeans(s: string, i: nat, k: nat)
    requires i <= k <= |s| && forall j :: i <= j < k ==> !ClosesAt(s, j)
    ensures ClosesAt(s, k) ==> BlockEnd(s, i) == k + 2
    ensures k == |s| ==> BlockEnd(s, i) == |s|
    decreases k - i
  {
    if i < k {
      assert !ClosesAt(s, i);
      BlockCommentMeans(s, i + 1, k);
    }
  }

  // ----- Dollar quotes -----

  /** A tag is `$$`, or word characters between two `$`, the first of them no digit. */
  lemma TagMeans(s: string, i: nat)
    requires i < |s|
    ensures OpensTag(s, i)
            <==> exists j :: i < j < |s| && s[j] == '$' && (forall k :: i < k < j ==> IsWord(s[k]))
                             && (j > i + 1 ==> !IsDigit(s[i + 1]))
    ensures OpensTag(s, i) ==> s[TagEnd(s, i) - 1] == '$' && forall k :: i < k < TagEnd(s, i) - 1 ==> IsWord(s[k])
  {
    if j :| i < j < |s| && s[j] == '$' && (forall k :: i < k < j ==> IsWord(s[k]))
            && (j > i + 1 ==> !IsDigit(s[i + 1]))
    {
      var w := WordEnd(s, i + 1);
      assert w < |s| && !IsWord(s[w]);
      assert j <= w;
    }
  }

  /** A dollar quote ends behind the first copy of its tag, or at the end of the text. */
  lemma {:induction false} DollarQuoteMeans(s: string, i: nat, tag: string, k: nat)
    requires i <= k <= |s| && tag != "" && forall j :: i <= j < k ==> !TagAt(s, j, tag)
    ensures TagAt(s, k, tag) ==> DollarEnd(s, i, tag) == k + |tag|
    ensures k == |s| ==> DollarEnd(s, i, tag) == |s|
    decreases k - i
  {
    hide TagAt;
    DollarTurn(s, i, tag);
    if i < k {
      assert !TagAt(s, i, tag);
      DollarQuoteMeans(s, i + 1, tag, k);
    } else if k == |s| && TagAt(s, k, tag) {
      NoTagAtTheEnd(s, tag);
    }
  }

  lemma NoTagAtTheEnd(s: string, tag: string)
    requires tag != ""
    ensures !TagAt(s, |s|, tag)
  {
  }

  // ----- Quoted literals -----

  /** What a literal is written with: a character, a doubled quote, or an escaped character. */
  datatype Unit = Char(c: char) | Doubled | Escaped(c: char)

  predicate Legal(u: Unit, q: char, esc: QuoteEscapes) {
    match u
    case Char(c) => c != q && (esc.Backslash? ==> c != '\\')
    case Doubled => true
    case Escaped(_) => esc.Backslash?
  }

  function UnitText(u: Unit, q: char): string {
    match u case Char(c) => [c] case Doubled => [q, q] case Escaped(c) => ['\\', c]
  }

  /** The rest of a literal behind its opening quote. */
  function Written(units: seq<Unit>, q: char): (t: string)
    ensures t != ""
  {
    if units == [] then [q] else UnitText(units[0], q) + Written(units[1..], q)
  }

  /** Does `t` stand at `i`? */
  predicate StandsAt(s: string, i: nat, t: string) { i + |t| <= |s| && s[i..i + |t|] == t }

  lemma StandsInTwo(s: string, i: nat, a: string, b: string)
    requires StandsAt(s, i, a + b)
    ensures StandsAt(s, i, a) && StandsAt(s, i + |a|, b)
  {
    var t := a + b;
    assert s[i..i + |a|] == s[i..i + |t|][..|a|] == t[..|a|];
    assert s[i + |a|..i + |t|] == s[i..i + |t|][|a|..] == t[|a|..];
  }

  lemma StandingText(s: string, i: nat, t: string)
    requires StandsAt(s, i, t)
    ensures forall k :: i <= k < i + |t| ==> s[k] == t[k - i]
  {
    assert forall k :: i <= k < i + |t| ==> s[k] == s[i..i + |t|][k - i];
  }

  predicate AllLegal(units: seq<Unit>, q: char, esc: QuoteEscapes) {
    units == [] || (Legal(units[0], q, esc) && AllLegal(units[1..], q, esc))
  }

  lemma WrittenIs(units: seq<Unit>, q: char)
    ensures Written(units, q) == if units == [] then [q] else UnitText(units[0], q) + Written(units[1..], q)
  {
  }

  lemma LegalRest(units: seq<Unit>, q: char, esc: QuoteEscapes)
    requires AllLegal(units, q, esc) && units != []
    ensures Legal(units[0], q, esc) && AllLegal(units[1..], q, esc)
  {
  }

  lemma ClosingQuote(s: string, i: nat, q: char, esc: QuoteEscapes)
    requires StandsAt(s, i, [q]) && q != '\\' && (i + 1 < |s| ==> s[i + 1] != q)
    ensures QuotedEnd(s, i, q, esc) == i + 1
  {
    StandingText(s, i, [q]);
  }

  /**
   A literal written with any legal characters, doubled quotes and escapes, and then its quote, ends
   there, unless the quote is doubled.
   */
  lemma {:induction false} LiteralReads(s: string, i: nat, units: seq<Unit>, q: char, esc: QuoteEscapes)
    requires AllLegal(units, q, esc) && q != '\\' && StandsAt(s, i, Written(units, q))
    requires var e := i + |Written(units, q)|; e < |s| ==> s[e] != q
    ensures i <= |s| && QuotedEnd(s, i, q, esc) == i + |Written(units, q)|
    decreases |units|
  {
    hide *;
    StandsInside(s, i, Written(units, q));
    WrittenIs(units, q);
    if units == [] {
      ClosingQuote(s, i, q, esc);
    } else {
      var head, rest := UnitText(units[0], q), Written(units[1..], q);
      LegalRest(units, q, esc);
      StandsInTwo(s, i, head, rest);
      LiteralReads(s, i + |head|, units[1..], q, esc);
      UnitIsOneStep(s, i, units[0], q, esc, rest);
    }
  }

  lemma StandsInside(s: string, i: nat, t: string)
    requires StandsAt(s, i, t)
    ensures i + |t| <= |s|
  {
  }

  lemma UnitIsOneStep(s: string, i: nat, u: Unit, q: char, esc: QuoteEscapes, rest: string)
    requires Legal(u, q, esc) && q != '\\' && rest != ""
    requires StandsAt(s, i, UnitText(u, q) + rest)
    ensures i + |UnitText(u, q)| <= |s|
    ensures QuotedEnd(s, i, q, esc) == QuotedEnd(s, i + |UnitText(u, q)|, q, esc)
  {
    var t := UnitText(u, q) + rest;
    StandingText(s, i, t);
    assert s[i] == t[0] && s[i + 1] == t[1];
    assert QuotedStep(s, i, q, esc) == |UnitText(u, q)|;
  }
}
