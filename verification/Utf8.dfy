/** UTF-8 (RFC 3629, section 3). */
module Utf8 {
  import opened Options

  type Byte = b: int | 0 <= b < 256

  function EncodeChar(c: char): (bs: seq<Byte>)
    ensures 1 <= |bs| <= 4
  {
    var n := c as int;
    if n < 0x80 then [n]
    else if n < 0x800 then [0xC0 + n / 64, 0x80 + n % 64]
    else if n < 0x1_0000 then [0xE0 + n / 4096, 0x80 + n / 64 % 64, 0x80 + n % 64]
    else [0xF0 + n / 262144, 0x80 + n / 4096 % 64, 0x80 + n / 64 % 64, 0x80 + n % 64]
  }

  function Encode(s: string): seq<Byte> {
    if s == "" then [] else EncodeChar(s[0]) + Encode(s[1..])
  }

  predicate IsTail(b: Byte) { 0x80 <= b < 0xC0 }

  /** The character with code `n`, if `n` is one that needs at least `least`, and no surrogate. */
  function CharOf(n: int, least: nat): Option<char> {
    if least <= n && (n < 0xD800 || 0xE000 <= n < 0x11_0000) then Some(n as char) else None
  }

  function Two(a: int, b: int): int { (a - 0xC0) * 64 + (b - 0x80) }

  function Three(a: int, b: int, c: int): int { (a - 0xE0) * 4096 + (b - 0x80) * 64 + (c - 0x80) }

  function Four(a: int, b: int, c: int, d: int): int {
    (a - 0xF0) * 262144 + (b - 0x80) * 4096 + (c - 0x80) * 64 + (d - 0x80)
  }

  /** The character at the front of `bs`, if the bytes there are well formed. */
  function FrontChar(bs: seq<Byte>): (r: Option<char>)
    requires bs != []
    ensures r.Some? ==> FrontLength(bs) <= |bs|
  {
    if bs[0] < 0x80 then CharOf(bs[0], 0)
    else if bs[0] < 0xC0 then None
    else if bs[0] < 0xE0 then
      if |bs| < 2 || !IsTail(bs[1]) then None else CharOf(Two(bs[0], bs[1]), 0x80)
    else if bs[0] < 0xF0 then
      if |bs| < 3 || !IsTail(bs[1]) || !IsTail(bs[2]) then None
      else CharOf(Three(bs[0], bs[1], bs[2]), 0x800)
    else if |bs| < 4 || !IsTail(bs[1]) || !IsTail(bs[2]) || !IsTail(bs[3]) then None
    else CharOf(Four(bs[0], bs[1], bs[2], bs[3]), 0x1_0000)
  }

  function FrontLength(bs: seq<Byte>): (n: nat)
    requires bs != []
    ensures 1 <= n <= 4
  {
    if bs[0] < 0xC0 then 1 else if bs[0] < 0xE0 then 2 else if bs[0] < 0xF0 then 3 else 4
  }

  /** The text that `bs` encodes, if all of it is well formed. */
  function Decode(bs: seq<Byte>): Option<string> {
    if bs == [] then Some("")
    else
      var c := FrontChar(bs);
      if c.None? then None
      else
        var rest := Decode(bs[FrontLength(bs)..]);
        if rest.None? then None else Some([c.value] + rest.value)
  }

  lemma TwoParts(n: nat)
    requires 0x80 <= n < 0x800
    ensures Two(0xC0 + n / 64, 0x80 + n % 64) == n
  {
  }

  lemma ThreeParts(n: nat)
    requires 0x800 <= n < 0x1_0000
    ensures Three(0xE0 + n / 4096, 0x80 + n / 64 % 64, 0x80 + n % 64) == n
  {
    assert n / 4096 == n / 64 / 64;
  }

  lemma FourParts(n: nat)
    requires 0x1_0000 <= n < 0x11_0000
    ensures Four(0xF0 + n / 262144, 0x80 + n / 4096 % 64, 0x80 + n / 64 % 64, 0x80 + n % 64) == n
  {
    assert n / 4096 == n / 64 / 64;
    assert n / 262144 == n / 4096 / 64;
  }

  lemma {:induction false} FrontOfEncoded(c: char, rest: seq<Byte>)
    ensures FrontChar(EncodeChar(c) + rest) == Some(c)
    ensures FrontLength(EncodeChar(c) + rest) == |EncodeChar(c)|
  {
    hide Two, Three, Four;
    var n := c as int;
    if n < 0x80 {
    } else if n < 0x800 {
      TwoParts(n);
    } else if n < 0x1_0000 {
      ThreeParts(n);
    } else {
      FourParts(n);
    }
  }

  /** Decoding undoes encoding. */
  lemma {:induction false} DecodeEncode(s: string)
    ensures Decode(Encode(s)) == Some(s)
  {
    hide EncodeChar, FrontChar, FrontLength;
    if s != "" {
      FrontOfEncoded(s[0], Encode(s[1..]));
      var bs := Encode(s);
      assert bs[|EncodeChar(s[0])|..] == Encode(s[1..]);
      DecodeEncode(s[1..]);
      assert s == [s[0]] + s[1..];
    }
  }

  /** The bits a byte carries above its mark. */
  function Bits(b: int, mark: int): int { b - mark }

  predicate Between(lo: int, b: int, hi: int) { lo <= b <= hi }

  /** The byte forms of section 3, with the bits they carry: one byte for ASCII, then two, three and four. */
  lemma EncodedForms(c: char)
    ensures var n, bs := c as int, EncodeChar(c);
            && (n < 128 ==> bs == [n])
            && (128 <= n < 2048 ==>
                  && |bs| == 2 && Between(192, bs[0], 223) && Between(128, bs[1], 191)
                  && n == Bits(bs[0], 192) * 64 + Bits(bs[1], 128))
            && (2048 <= n < 65536 ==>
                  && |bs| == 3 && Between(224, bs[0], 239) && Between(128, bs[1], 191) && Between(128, bs[2], 191)
                  && n == Bits(bs[0], 224) * 4096 + Bits(bs[1], 128) * 64 + Bits(bs[2], 128))
            && (65536 <= n ==>
                  && |bs| == 4 && Between(240, bs[0], 247)
                  && Between(128, bs[1], 191) && Between(128, bs[2], 191) && Between(128, bs[3], 191)
                  && n == Bits(bs[0], 240) * 262144 + Bits(bs[1], 128) * 4096
                          + Bits(bs[2], 128) * 64 + Bits(bs[3], 128))
  {
    var n := c as int;
    if n < 128 {
    } else if n < 2048 {
      TwoParts(n);
    } else if n < 65536 {
      ThreeParts(n);
    } else {
      FourParts(n);
    }
  }

  // ----- Only encodings decode -----

  lemma TwoBack(a: int, b: int)
    requires 0xC0 <= a < 0xE0 && 0x80 <= b < 0xC0 && Two(a, b) >= 0x80
    ensures var n := Two(a, b); n < 0x800 && 0xC0 + n / 64 == a && 0x80 + n % 64 == b
  {}

  lemma ThreeBack(a: int, b: int, c: int)
    requires 0xE0 <= a < 0xF0 && 0x80 <= b < 0xC0 && 0x80 <= c < 0xC0 && Three(a, b, c) >= 0x800
    ensures var n := Three(a, b, c);
            n < 0x1_0000 && 0xE0 + n / 4096 == a && 0x80 + n / 64 % 64 == b && 0x80 + n % 64 == c
  {
    var n := Three(a, b, c);
    assert n / 64 == (a - 0xE0) * 64 + (b - 0x80);
  }

  lemma FourBack(a: int, b: int, c: int, d: int)
    requires 0xF0 <= a < 0x100 && 0x80 <= b < 0xC0 && 0x80 <= c < 0xC0 && 0x80 <= d < 0xC0
    ensures var n := Four(a, b, c, d);
            0xF0 + n / 262144 == a && 0x80 + n / 4096 % 64 == b && 0x80 + n / 64 % 64 == c && 0x80 + n % 64 == d
  {
    var n := Four(a, b, c, d);
    assert n / 64 == (a - 0xF0) * 4096 + (b - 0x80) * 64 + (c - 0x80);
    assert n / 4096 == (a - 0xF0) * 64 + (b - 0x80);
  }

  /** The bytes a character is read from are its encoding: no longer form is accepted. */
  lemma FrontIsEncoded(bs: seq<Byte>)
    requires bs != [] && FrontChar(bs).Some?
    ensures EncodeChar(FrontChar(bs).value) == bs[..FrontLength(bs)]
  {
    hide Two, Three, Four;
    if bs[0] < 0x80 {
    } else if bs[0] < 0xE0 {
      TwoBack(bs[0], bs[1]);
    } else if bs[0] < 0xF0 {
      ThreeBack(bs[0], bs[1], bs[2]);
    } else {
      FourBack(bs[0], bs[1], bs[2], bs[3]);
    }
  }

  /** Bytes decode exactly when they are the encoding of a text, and then to that text. */
  lemma DecodesIff(bs: seq<Byte>, s: string)
    ensures Decode(bs) == Some(s) <==> bs == Encode(s)
  {
    DecodeEncode(s);
    if Decode(bs) == Some(s) { DecodedIsEncoded(bs); }
  }

  lemma {:induction false} DecodedIsEncoded(bs: seq<Byte>)
    requires Decode(bs).Some?
    ensures Encode(Decode(bs).value) == bs
  {
    hide FrontChar, FrontLength, EncodeChar;
    if bs != [] {
      var n := FrontLength(bs);
      FrontIsEncoded(bs);
      DecodedIsEncoded(bs[n..]);
      var c, rest := FrontChar(bs).value, Decode(bs[n..]).value;
      assert ([c] + rest)[1..] == rest;
      assert bs == bs[..n] + bs[n..];
    }
  }
}
