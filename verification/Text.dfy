/** Character classes and string helpers shared by the scanners of SQL text and the printers. */
module Text {

  /** The characters with the Unicode White_Space property. */
  predicate IsSpace(c: char) {
    var n := c as int;
    || 0x09 <= n <= 0x0D || n == 0x20 || n == 0x85 || n == 0xA0 || n == 0x1680
    || 0x2000 <= n <= 0x200A || n == 0x2028 || n == 0x2029 || n == 0x202F || n == 0x205F || n == 0x3000
  }

  predicate IsDigit(c: char) { '0' <= c <= '9' }

  predicate IsAlpha(c: char) { 'a' <= c <= 'z' || 'A' <= c <= 'Z' }

  /** ASCII letters, digits and the underscore. */
  predicate IsWord(c: char) { IsAlpha(c) || IsDigit(c) || c == '_' }

  function TrimStart(s: string): (r: string)
    ensures |r| <= |s|
    ensures r != "" ==> !IsSpace(r[0])
  {
    if s != "" && IsSpace(s[0]) then TrimStart(s[1..]) else s
  }

  function TrimEnd(s: string): (r: string)
    ensures |r| <= |s|
    ensures r != "" ==> !IsSpace(r[|r| - 1])
    ensures r <= s
  {
    if s != "" && IsSpace(s[|s| - 1]) then TrimEnd(s[..|s| - 1]) else s
  }

  function Trim(s: string): string { TrimEnd(TrimStart(s)) }

  function Join(parts: seq<string>, sep: string): string {
    if parts == [] then ""
    else if |parts| == 1 then parts[0]
    else parts[0] + sep + Join(parts[1..], sep)
  }

  /** Trimmed text has no space at either end, so trimming it again changes nothing. */
  lemma TrimIsStable(s: string)
    ensures Trim(Trim(s)) == Trim(s)
  {
    var t := Trim(s);
    if t != "" {
      assert t[0] == TrimStart(s)[0];
    }
  }

  predicate AllSpaces(s: string, i: nat, j: nat)
    requires j <= |s|
  {
    forall k :: i <= k < j ==> IsSpace(s[k])
  }

  lemma {:induction false} StartTrimmed(s: string) returns (i: nat)
    ensures i <= |s| && TrimStart(s) == s[i..] && AllSpaces(s, 0, i)
    decreases |s|
  {
    i := 0;
    if s != "" && IsSpace(s[0]) {
      var j := StartTrimmed(s[1..]);
      i := j + 1;
      assert s[1..][j..] == s[i..];
      assert forall k :: 1 <= k < i ==> s[k] == s[1..][k - 1];
    }
  }

  lemma {:induction false} EndTrimmed(s: string)
    ensures AllSpaces(s, |TrimEnd(s)|, |s|)
    decreases |s|
  {
    if s != "" && IsSpace(s[|s| - 1]) {
      var t := s[..|s| - 1];
      EndTrimmed(t);
      assert forall k :: 0 <= k < |t| ==> t[k] == s[k];
    }
  }

  /** Trimming takes spaces from both ends, all of them and nothing else. */
  lemma TrimMeans(s: string)
    ensures exists i, j :: 0 <= i <= j <= |s| && Trim(s) == s[i..j] && AllSpaces(s, 0, i) && AllSpaces(s, j, |s|)
    ensures Trim(s) != "" ==> !IsSpace(Trim(s)[0]) && !IsSpace(Trim(s)[|Trim(s)| - 1])
  {
    var i := StartTrimmed(s);
    var t := s[i..];
    EndTrimmed(t);
    TrimIsStable(s);
    var j := i + |Trim(s)|;
    assert Trim(s) == t[..|Trim(s)|] == s[i..j];
    assert forall k :: j <= k < |s| ==> s[k] == t[k - i];
    if Trim(s) != "" { assert Trim(s)[0] == t[0]; }
  }

  /** So what has no space at either end, and only spaces around it, is the trimmed text. */
  lemma TrimIsSlice(s: string, i: nat, j: nat)
    requires i <= j <= |s| && AllSpaces(s, 0, i) && AllSpaces(s, j, |s|)
    requires i < j ==> !IsSpace(s[i]) && !IsSpace(s[j - 1])
    ensures Trim(s) == s[i..j]
  {
    TrimMeans(s);
    hide TrimStart, TrimEnd, IsSpace, Trim;
    var a, b :| 0 <= a <= b <= |s| && Trim(s) == s[a..b] && AllSpaces(s, 0, a) && AllSpaces(s, b, |s|);
    if a < b {
      assert Trim(s)[0] == s[a] && Trim(s)[b - a - 1] == s[b - 1];
      assert a >= i && b <= j;
    }
    if i < j { assert a <= i && j <= b; }
  }

  lemma Regroup<T>(a: seq<T>, b: seq<T>, c: seq<T>)
    ensures (a + b) + c == a + (b + c)
  {}

  lemma SamePrefix<T>(p: seq<T>, a: seq<T>, b: seq<T>)
    ensures p + a == p + b <==> a == b
  {
    if p + a == p + b {
      assert a == (p + a)[|p|..] && b == (p + b)[|p|..];
    }
  }
}
