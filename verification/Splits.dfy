/**
 Splitting text at a character: the first, the last, and the first of several. The contracts say which
 position is found and how the parts make up the text; the lemmas find it again in a text that is put
 together around it.
 */
module Splits {
  import opened Options

  /** The first position of `c` at or after `i`, or the length. */
  function FindFrom(s: string, c: char, i: nat): (k: nat)
    requires i <= |s|
    ensures i <= k <= |s| && (k < |s| ==> s[k] == c)
    ensures forall j :: i <= j < k ==> s[j] != c
    decreases |s| - i
  {
    if i == |s| || s[i] == c then i else FindFrom(s, c, i + 1)
  }

  /** One past the last position of `c` before `n`, or 0. */
  function RFindBefore(s: string, c: char, n: nat): (k: nat)
    requires n <= |s|
    ensures k <= n && (k > 0 ==> s[k - 1] == c)
    ensures forall j :: k <= j < n ==> s[j] != c
  {
    if n == 0 || s[n - 1] == c then n else RFindBefore(s, c, n - 1)
  }

  /** The parts before and after the first `c`. */
  function SplitOnce(s: string, c: char): (r: Option<(string, string)>)
    ensures r.None? ==> c !in s
    ensures r.Some? ==> s == r.value.0 + [c] + r.value.1 && c !in r.value.0
  {
    var k := FindFrom(s, c, 0);
    if k == |s| then None else Some((s[..k], s[k + 1..]))
  }

  /** The parts before and after the last `c`. */
  function RSplitOnce(s: string, c: char): (r: Option<(string, string)>)
    ensures r.None? ==> c !in s
    ensures r.Some? ==> s == r.value.0 + [c] + r.value.1 && c !in r.value.1
  {
    var k := RFindBefore(s, c, |s|);
    if k == 0 then None else Some((s[..k - 1], s[k..]))
  }

  lemma SplitsHere(a: string, c: char, b: string)
    requires c !in a
    ensures SplitOnce(a + [c] + b, c) == Some((a, b))
  {
    var s := a + [c] + b;
    var r := SplitOnce(s, c);
    assert s[|a|] == c;
    var k := FindFrom(s, c, 0);
    assert forall j :: 0 <= j < |a| ==> s[j] == a[j];
    assert k == |a| && s[..|a|] == a && s[|a| + 1..] == b;
  }

  lemma RSplitsHere(a: string, c: char, b: string)
    requires c !in b
    ensures RSplitOnce(a + [c] + b, c) == Some((a, b))
  {
    var s := a + [c] + b;
    assert s[|a|] == c;
    var k := RFindBefore(s, c, |s|);
    assert forall j :: |a| < j < |s| ==> s[j] == b[j - |a| - 1];
    assert k == |a| + 1 && s[..|a|] == a && s[|a| + 1..] == b;
  }

  /** The first position of any of `cs`, or the length. */
  function FindAnyFrom(s: string, cs: set<char>, i: nat): (k: nat)
    requires i <= |s|
    ensures i <= k <= |s| && (k < |s| ==> s[k] in cs)
    ensures forall j :: i <= j < k ==> s[j] !in cs
    decreases |s| - i
  {
    if i == |s| || s[i] in cs then i else FindAnyFrom(s, cs, i + 1)
  }

  predicate Avoids(s: string, cs: set<char>) { forall j :: 0 <= j < |s| ==> s[j] !in cs }
}
