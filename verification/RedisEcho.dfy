/** The echo of a redis command, and the reader that gets its tokens back. */
module RedisEcho {
  import opened PercentEncoding
  import opened Text
  import opened Utf8

  // ----- Writing -----

  /** The Unicode control characters. */
  predicate IsControl(c: char) {
    var n := c as int;
    n < 0x20 || 0x7F <= n < 0xA0
  }

  predicate NeedsQuote(t: string) {
    t == "" || exists k :: 0 <= k < |t| && (IsSpace(t[k]) || t[k] == '"' || t[k] == '\\' || IsControl(t[k]))
  }

  function LowerHexDigit(n: int): (c: char)
    requires 0 <= n < 16
    ensures IsHex(c) && HexValue(c) == n
  {
    "0123456789abcdef"[n]
  }

  function HexEscape(b: Byte): string { ['\\', 'x', LowerHexDigit(b / 16), LowerHexDigit(b % 16)] }

  function EscapeBytes(bs: seq<Byte>): string {
    if bs == [] then ""
    else HexEscape(bs[0]) + EscapeBytes(bs[1..])
  }

  function EscapeChar(c: char): string {
    if c == '"' then ['\\', '"']
    else if c == '\\' then ['\\', '\\']
    else if c == '\n' then ['\\', 'n']
    else if c == '\r' then ['\\', 'r']
    else if c == '\t' then ['\\', 't']
    else if IsControl(c) then EscapeBytes(EncodeChar(c))
    else [c]
  }

  function Escape(t: string): string {
    if t == "" then "" else EscapeChar(t[0]) + Escape(t[1..])
  }

  function DisplayToken(t: string): string {
    if NeedsQuote(t) then "\"" + Escape(t) + "\"" else t
  }

  function DisplayTokens(tokens: seq<string>): (r: seq<string>)
    ensures |r| == |tokens|
  {
    seq(|tokens|, k requires 0 <= k < |tokens| => DisplayToken(tokens[k]))
  }

  function DisplayCommand(tokens: seq<string>): string { Join(DisplayTokens(tokens), " ") }

  lemma {:induction false} EscapeOneMore(t: string, c: char)
    ensures Escape(t + [c]) == Escape(t) + EscapeChar(c)
  {
    hide EscapeChar;
    if t == "" {
      assert (t + [c])[1..] == "";
    } else {
      EscapeOneMore(t[1..], c);
      assert (t + [c])[1..] == t[1..] + [c];
    }
  }

  /** How the loop writes one character. */
  method WriteChar(out: string, c: char) returns (r: string)
    ensures r == out + EscapeChar(c)
  {
    if c == '"' {
      r := out + ['\\', '"'];
    } else if c == '\\' {
      r := out + ['\\', '\\'];
    } else if c == '\n' {
      r := out + ['\\', 'n'];
    } else if c == '\r' {
      r := out + ['\\', 'r'];
    } else if c == '\t' {
      r := out + ['\\', 't'];
    } else if IsControl(c) {
      r := out;
      var bytes := EncodeChar(c);
      for k := 0 to |bytes|
        invariant r + EscapeBytes(bytes[k..]) == out + EscapeBytes(bytes)
      {
        assert bytes[k..][0] == bytes[k] && bytes[k..][1..] == bytes[k + 1..];
        var hex := HexEscape(bytes[k]);
        assert r + (hex + EscapeBytes(bytes[k + 1..])) == r + hex + EscapeBytes(bytes[k + 1..]);
        r := r + hex;
      }
      assert bytes[|bytes|..] == [] && r + "" == r;
    } else {
      r := out + [c];
    }
  }

  /** The escaping loop. */
  method WriteToken(t: string) returns (out: string)
    ensures out == DisplayToken(t)
  {
    hide EscapeChar, Escape;
    if !NeedsQuote(t) { return t; }
    out := "\"";
    EmptyEscape();
    for i := 0 to |t|
      invariant out == "\"" + Escape(t[..i])
    {
      EscapeOneMore(t[..i], t[i]);
      assert t[..i] + [t[i]] == t[..i + 1];
      assert "\"" + Escape(t[..i + 1]) == "\"" + Escape(t[..i]) + EscapeChar(t[i]);
      out := WriteChar(out, t[i]);
    }
    assert t[..|t|] == t;
    out := out + "\"";
  }

  lemma EmptyEscape()
    ensures Escape("") == ""
  {
  }

  // ----- Reading -----

  /** The bytes of a quoted token up to its closing quote, and the text after it. */
  function ReadQuoted(s: string): (r: (seq<Byte>, string))
    ensures |r.1| <= |s|
  {
    if s == "" then ([], "")
    else if s[0] == '"' then ([], s[1..])
    else if s[0] != '\\' || |s| < 2 then
      var (bs, rest) := ReadQuoted(s[1..]);
      (EncodeChar(s[0]) + bs, rest)
    else if s[1] == 'x' && |s| >= 4 && IsHex(s[2]) && IsHex(s[3]) then
      var (bs, rest) := ReadQuoted(s[4..]);
      ([HexValue(s[2]) * 16 + HexValue(s[3])] + bs, rest)
    else
      var c := if s[1] == 'n' then '\n' else if s[1] == 'r' then '\r' else if s[1] == 't' then '\t' else s[1];
      var (bs, rest) := ReadQuoted(s[2..]);
      (EncodeChar(c) + bs, rest)
  }

  /** The bytes of a bare token, up to a space. */
  function ReadPlain(s: string): (r: (seq<Byte>, string))
    ensures |r.1| <= |s|
  {
    if s == "" || s[0] == ' ' then ([], s)
    else
      var (bs, rest) := ReadPlain(s[1..]);
      (EncodeChar(s[0]) + bs, rest)
  }

  function ReadToken(s: string): (r: (seq<Byte>, string))
    requires s != ""
    ensures |r.1| <= |s|
  {
    if s[0] == '"' then ReadQuoted(s[1..]) else ReadPlain(s)
  }

  /** The tokens of an echoed command, as bytes. */
  function ReadCommand(s: string): seq<seq<Byte>>
    decreases |s|
  {
    if s == "" then []
    else
      var (bs, rest) := ReadToken(s);
      if rest == "" then [bs] else [bs] + ReadCommand(rest[1..])
  }

  // ----- The reader undoes the writer -----

  lemma EscapedByteBack(b: Byte, more: string)
    ensures ReadQuoted(HexEscape(b) + more) == ([b] + ReadQuoted(more).0, ReadQuoted(more).1)
  {
    var s := HexEscape(b) + more;
    assert s[4..] == more;
    assert s[0] == '\\' && s[1] == 'x' && s[2] == HexEscape(b)[2] && s[3] == HexEscape(b)[3];
  }

  lemma {:induction false} EscapedBytesBack(bs: seq<Byte>, more: string)
    ensures ReadQuoted(EscapeBytes(bs) + more) == (bs + ReadQuoted(more).0, ReadQuoted(more).1)
  {
    hide ReadQuoted;
    if bs == [] {
      assert EscapeBytes(bs) + more == more;
      assert bs + ReadQuoted(more).0 == ReadQuoted(more).0;
    } else {
      EscapedBytesBack(bs[1..], more);
      EscapedByteBack(bs[0], EscapeBytes(bs[1..]) + more);
      Regroup(HexEscape(bs[0]), EscapeBytes(bs[1..]), more);
      Regroup([bs[0]], bs[1..], ReadQuoted(more).0);
      assert bs == [bs[0]] + bs[1..];
      assert EscapeBytes(bs) == HexEscape(bs[0]) + EscapeBytes(bs[1..]);
      hide EscapeBytes, HexEscape;
    }
  }

  lemma PairBack(e: char, more: string)
    requires e in ['"', '\\', 'n', 'r', 't']
    ensures var c := if e == 'n' then '\n' else if e == 'r' then '\r' else if e == 't' then '\t' else e;
            ReadQuoted(['\\', e] + more) == (EncodeChar(c) + ReadQuoted(more).0, ReadQuoted(more).1)
  {
    hide EncodeChar;
    var s := ['\\', e] + more;
    assert s[2..] == more && s[0] == '\\' && s[1] == e;
  }

  lemma BareBack(c: char, more: string)
    requires c != '"' && c != '\\'
    ensures ReadQuoted([c] + more) == (EncodeChar(c) + ReadQuoted(more).0, ReadQuoted(more).1)
  {
    hide EncodeChar;
    assert ([c] + more)[1..] == more;
  }

  lemma EscapedCharBack(c: char, more: string)
    ensures ReadQuoted(EscapeChar(c) + more) == (EncodeChar(c) + ReadQuoted(more).0, ReadQuoted(more).1)
  {
    hide EncodeChar, ReadQuoted, EscapeBytes;
    if c == '"' || c == '\\' {
      PairBack(c, more);
    } else if c == '\n' || c == '\r' || c == '\t' {
      PairBack(if c == '\n' then 'n' else if c == '\r' then 'r' else 't', more);
    } else if IsControl(c) {
      EscapedBytesBack(EncodeChar(c), more);
    } else {
      BareBack(c, more);
    }
  }

  lemma {:induction false} EscapedBack(t: string, more: string)
    ensures ReadQuoted(Escape(t) + "\"" + more) == (Encode(t), more)
  {
    hide EncodeChar, EscapeChar;
    if t == "" {
      assert Escape(t) + "\"" + more == "\"" + more;
    } else {
      EscapedBack(t[1..], more);
      EscapedCharBack(t[0], Escape(t[1..]) + "\"" + more);
      assert Escape(t) + "\"" + more == EscapeChar(t[0]) + (Escape(t[1..]) + "\"" + more);
    }
  }

  lemma {:induction false} PlainBack(t: string, more: string)
    requires forall k :: 0 <= k < |t| ==> t[k] != ' '
    requires more == "" || more[0] == ' '
    ensures ReadPlain(t + more) == (Encode(t), more)
  {
    hide EncodeChar;
    if t == "" {
      assert t + more == more;
    } else {
      assert (t + more)[1..] == t[1..] + more;
      PlainBack(t[1..], more);
    }
  }

  lemma TokenBack(t: string, more: string)
    requires more == "" || more[0] == ' '
    ensures DisplayToken(t) != "" && ReadToken(DisplayToken(t) + more) == (Encode(t), more)
  {
    hide Escape, Encode, ReadQuoted, ReadPlain;
    if NeedsQuote(t) {
      EscapedBack(t, more);
      assert (DisplayToken(t) + more)[1..] == Escape(t) + "\"" + more;
    } else {
      forall k | 0 <= k < |t| ensures t[k] != ' ' && t[k] != '"' {
        assert IsSpace(' ');
      }
      PlainBack(t, more);
    }
  }

  lemma JoinStep(parts: seq<string>)
    requires |parts| > 1
    ensures Join(parts, " ") == parts[0] + (" " + Join(parts[1..], " "))
  {
  }

  /** Reading an echo gives back the bytes of every token. */
  lemma {:induction false} CommandBack(tokens: seq<string>)
    ensures ReadCommand(DisplayCommand(tokens)) == seq(|tokens|, k requires 0 <= k < |tokens| => Encode(tokens[k]))
    decreases |tokens|
  {
    hide ReadToken, DisplayToken, Encode;
    if tokens == [] {
    } else {
      var parts := DisplayTokens(tokens);
      var rest := if |tokens| == 1 then "" else " " + Join(parts[1..], " ");
      assert parts[1..] == DisplayTokens(tokens[1..]);
      TokenBack(tokens[0], rest);
      if |tokens| == 1 {
        assert parts[0] + "" == parts[0];
      } else {
        JoinStep(parts);
        CommandBack(tokens[1..]);
        assert rest[1..] == DisplayCommand(tokens[1..]);
      }
    }
  }

  /** Different commands have different echoes. */
  lemma EchoIsInjective(a: seq<string>, b: seq<string>)
    requires DisplayCommand(a) == DisplayCommand(b)
    ensures a == b
  {
    hide DisplayCommand, ReadCommand, Encode, Decode;
    CommandBack(a);
    CommandBack(b);
    var x := seq(|a|, k requires 0 <= k < |a| => Encode(a[k]));
    var y := seq(|b|, k requires 0 <= k < |b| => Encode(b[k]));
    assert x == y;
    forall k | 0 <= k < |a| ensures a[k] == b[k] {
      assert x[k] == y[k];
      DecodeEncode(a[k]);
      DecodeEncode(b[k]);
    }
  }

  // ----- One line -----

  predicate OneLine(s: string) {
    forall k :: 0 <= k < |s| ==> !IsControl(s[k])
  }

  lemma {:induction false} EscapedBytesOneLine(bs: seq<Byte>)
    ensures OneLine(EscapeBytes(bs))
  {
    if bs != [] { EscapedBytesOneLine(bs[1..]); }
  }

  lemma {:induction false} EscapedOneLine(t: string)
    ensures OneLine(Escape(t))
  {
    if t != "" {
      EscapedBytesOneLine(EncodeChar(t[0]));
      assert OneLine(EscapeChar(t[0]));
      EscapedOneLine(t[1..]);
    }
  }

  lemma {:induction false} JoinOneLine(parts: seq<string>)
    requires forall k :: 0 <= k < |parts| ==> OneLine(parts[k])
    ensures OneLine(Join(parts, " "))
    decreases |parts|
  {
    if |parts| > 1 {
      JoinStep(parts);
      JoinOneLine(parts[1..]);
      assert OneLine(" ");
    }
  }

  /** An echo holds no newline, nor any other control character. */
  lemma EchoIsOneLine(tokens: seq<string>)
    ensures OneLine(DisplayCommand(tokens)) && '\n' !in DisplayCommand(tokens)
  {
    var parts := DisplayTokens(tokens);
    forall k | 0 <= k < |parts| ensures OneLine(parts[k]) {
      EscapedOneLine(tokens[k]);
    }
    JoinOneLine(parts);
  }

  // ----- Which tokens are quoted, and how -----

  /** A character with code above 32, no quote (34), no backslash (92), no control character and no space. */
  predicate IsPlain(c: char) {
    var n := c as int;
    && n > 32 && n != 34 && n != 92 && !(127 <= n <= 160)
    && n != 0x1680 && !(0x2000 <= n <= 0x200A) && n != 0x2028 && n != 0x2029 && n != 0x202F && n != 0x205F
    && n != 0x3000
  }

  lemma {:induction false} EscapeIsNoShorter(t: string)
    ensures |Escape(t)| >= |t|
  {
    if t != "" { EscapeIsNoShorter(t[1..]); }
  }

  /** A token echoes as itself exactly when it is not empty and all its characters are plain. */
  lemma PlainEchoIff(t: string)
    ensures DisplayToken(t) == t <==> t != "" && forall k :: 0 <= k < |t| ==> IsPlain(t[k])
  {
    EscapeIsNoShorter(t);
    assert forall c: char :: IsPlain(c) <==> !(IsSpace(c) || c == '"' || c == '\\' || IsControl(c));
    hide Escape;
  }

  /** `c` is the digit of value `n` in base 16, written 0 to 9 and a to f. */
  predicate IsLowerHex(c: char, n: int) {
    if 0 <= n < 10 then c as int == 48 + n else 10 <= n < 16 && c as int == 87 + n
  }

  lemma HexEscapeForm(b: Byte)
    ensures var e := HexEscape(b);
            |e| == 4 && e[..2] == "\\x" && IsLowerHex(e[2], b / 16) && IsLowerHex(e[3], b % 16)
  {}

  lemma ControlEscape(c: char)
    requires IsControl(c) && c as int < 128
    ensures EscapeBytes(EncodeChar(c)) == HexEscape(c as int)
  {
    hide HexEscape;
    var bs := EncodeChar(c);
    assert bs == [c as int] && bs[1..] == [];
    assert EscapeBytes(bs) == HexEscape(bs[0]) + EscapeBytes(bs[1..]);
    assert HexEscape(bs[0]) + "" == HexEscape(bs[0]);
  }

  /** The escapes: codes 34, 92, 10, 13 and 9 have a pair of their own, other ASCII controls `\x` and two digits. */
  lemma EscapeForms(c: char)
    ensures var n, e := c as int, Escape([c]);
            if n == 34 || n == 92 then e == ['\\', c]
            else if n == 10 then e == "\\n"
            else if n == 13 then e == "\\r"
            else if n == 9 then e == "\\t"
            else if n < 32 || n == 127 then
              |e| == 4 && e[..2] == "\\x" && IsLowerHex(e[2], n / 16) && IsLowerHex(e[3], n % 16)
            else n < 127 || n >= 160 ==> e == [c]
  {
    assert [c][1..] == "";
    assert Escape([c]) == EscapeChar(c) + "" == EscapeChar(c);
    hide Escape, HexEscape, EscapeBytes;
    var n := c as int;
    if n < 128 && IsControl(c) && n != 9 && n != 10 && n != 13 {
      ControlEscape(c);
      HexEscapeForm(n);
    }
  }
}
