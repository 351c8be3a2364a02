/** Percent-encoding (RFC 3986, sections 2.1 and 2.3): bytes outside the unreserved set as hex. */
module PercentEncoding {
  import opened Text
  import opened Utf8

  function HexDigit(n: int): (c: char)
    requires 0 <= n < 16
    ensures IsHex(c) && HexValue(c) == n
  {
    "0123456789ABCDEF"[n]
  }

  predicate IsHex(c: char) { '0' <= c <= '9' || 'A' <= c <= 'F' || 'a' <= c <= 'f' }

  function HexValue(c: char): (n: int)
    requires IsHex(c)
    ensures 0 <= n < 16
  {
    if '0' <= c <= '9' then c as int - '0' as int
    else if 'A' <= c <= 'F' then c as int - 'A' as int + 10
    else c as int - 'a' as int + 10
  }

  /** The unreserved characters of section 2.3. */
  predicate Unreserved(b: int) {
    || '0' as int <= b <= '9' as int || 'A' as int <= b <= 'Z' as int || 'a' as int <= b <= 'z' as int
    || b == '-' as int || b == '.' as int || b == '_' as int || b == '~' as int
  }

  function PercentByte(b: Byte): string {
    if Unreserved(b) then [b as char] else ['%', HexDigit(b / 16), HexDigit(b % 16)]
  }

  function PercentBytes(bs: seq<Byte>): string {
    if bs == [] then "" else PercentByte(bs[0]) + PercentBytes(bs[1..])
  }

  function PercentEncode(s: string): string { PercentBytes(Encode(s)) }

  /** `%` and two hex digits are one byte; any other character stands for its own bytes. */
  function PercentDecode(s: string): seq<Byte> {
    if s == "" then []
    else if s[0] == '%' && |s| >= 3 && IsHex(s[1]) && IsHex(s[2]) then
      [HexValue(s[1]) * 16 + HexValue(s[2])] + PercentDecode(s[3..])
    else EncodeChar(s[0]) + PercentDecode(s[1..])
  }

  lemma DecodeFront(b: Byte, rest: string)
    ensures PercentDecode(PercentByte(b) + rest) == [b] + PercentDecode(rest)
  {
    var s := PercentByte(b) + rest;
    if Unreserved(b) {
      assert s[1..] == rest;
    } else {
      assert s[3..] == rest;
    }
  }

  lemma {:induction false} PercentRoundTrip(bs: seq<Byte>)
    ensures PercentDecode(PercentBytes(bs)) == bs
  {
    hide PercentByte;
    if bs != [] {
      DecodeFront(bs[0], PercentBytes(bs[1..]));
      PercentRoundTrip(bs[1..]);
    }
  }

  predicate UrlSafe(s: string) {
    forall k :: 0 <= k < |s| ==> Unreserved(s[k] as int) || s[k] == '%'
  }

  /** Encoded text has no character that a URL gives a meaning to. */
  lemma {:induction false} EncodedIsSafe(bs: seq<Byte>)
    ensures UrlSafe(PercentBytes(bs))
  {
    if bs != [] { EncodedIsSafe(bs[1..]); }
  }

  predicate AllUnreserved(s: string) {
    forall k :: 0 <= k < |s| ==> Unreserved(s[k] as int)
  }

  /** Encoding leaves exactly the unreserved texts as they are. */
  lemma {:induction false} EncodeIsIdentityIff(s: string)
    ensures PercentEncode(s) == s <==> AllUnreserved(s)
  {
    PercentLonger(s);
  }

  lemma PercentFront(b: Byte, rest: seq<Byte>)
    ensures PercentBytes([b] + rest) == PercentByte(b) + PercentBytes(rest)
  {
    hide PercentByte;
    assert ([b] + rest)[1..] == rest;
  }

  lemma {:induction false} PercentJoin(a: seq<Byte>, b: seq<Byte>)
    ensures PercentBytes(a + b) == PercentBytes(a) + PercentBytes(b)
  {
    if a == [] {
      assert a + b == b;
    } else {
      hide PercentBytes, PercentByte;
      var rest := a[1..];
      PercentJoin(rest, b);
      PercentFront(a[0], rest + b);
      PercentFront(a[0], rest);
      assert [a[0]] + rest == a;
      Regroup([a[0]], rest, b);
      Regroup(PercentByte(a[0]), PercentBytes(rest), PercentBytes(b));
    }
  }

  lemma {:induction false} PercentChar(c: char)
    ensures if Unreserved(c as int) then PercentBytes(EncodeChar(c)) == [c] else |PercentBytes(EncodeChar(c))| >= 3
  {
    var bs := EncodeChar(c);
    if Unreserved(c as int) {
      assert bs[1..] == [];
    } else {
      assert !Unreserved(bs[0]);
      assert PercentBytes(bs) == PercentByte(bs[0]) + PercentBytes(bs[1..]);
    }
  }

  lemma {:induction false} PercentLonger(s: string)
    ensures |PercentEncode(s)| >= |s|
    ensures AllUnreserved(s) ==> PercentEncode(s) == s
    ensures !AllUnreserved(s) ==> |PercentEncode(s)| > |s|
  {
    hide EncodeChar, PercentByte;
    if s != "" {
      PercentChar(s[0]);
      PercentJoin(EncodeChar(s[0]), Encode(s[1..]));
      PercentLonger(s[1..]);
      assert s == [s[0]] + s[1..];
      if !AllUnreserved(s) && Unreserved(s[0] as int) {
        var k :| 0 <= k < |s| && !Unreserved(s[k] as int);
        assert s[1..][k - 1] == s[k];
      }
    }
  }

  /** `c` is the digit of value `n` in base 16, written 0 to 9 and A to F. */
  predicate IsUpperHex(c: char, n: int) {
    if 0 <= n < 10 then c as int == 48 + n else 10 <= n < 16 && c as int == 55 + n
  }

  /** Letters, digits, `-` (45), `.` (46), `_` (95) and `~` (126) stand for themselves. */
  predicate StaysAsItIs(b: int) {
    48 <= b <= 57 || 65 <= b <= 90 || 97 <= b <= 122 || b == 45 || b == 46 || b == 95 || b == 126
  }

  /** Every other byte is `%` (37) and two upper-case hex digits. */
  lemma PercentForms(b: Byte)
    ensures var s := PercentBytes([b]);
            if StaysAsItIs(b) then s == [b as char]
            else |s| == 3 && s[0] as int == 37 && IsUpperHex(s[1], b / 16) && IsUpperHex(s[2], b % 16)
  {
    assert PercentBytes([b]) == PercentByte(b) + PercentBytes([b][1..]);
  }

  /** Two hex digits of either case behind `%` are one byte; any other `%` is itself. */
  lemma DecodeForms(s: string)
    requires s != "" && s[0] as int == 37
    ensures |s| >= 3 && IsHex(s[1]) && IsHex(s[2]) ==>
              PercentDecode(s) == [HexValue(s[1]) * 16 + HexValue(s[2])] + PercentDecode(s[3..])
    ensures |s| < 3 || !IsHex(s[1]) || !IsHex(s[2]) ==> PercentDecode(s) == [37] + PercentDecode(s[1..])
  {}
}
