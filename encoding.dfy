/** Byte-level encodings the client applies to strings: UTF-8
    (Encoding.UTF8.GetBytes), Base64 with padding as in section 4 of RFC 4648
    (Convert.ToBase64String), and the form-URL encoding of
    HttpUtility.UrlEncode. Each encoder is paired with a decoder and a
    round-trip lemma. */
module Encoding {
  import opened Common

  type byte = b: int | 0 <= b < 256

  // ---------------------------------------------------------------- UTF-8

  /** The UTF-8 bytes of one Unicode scalar value. */
  function Utf8Char(c: char): (r: seq<byte>)
    ensures 1 <= |r| <= 4
    ensures (c as int < 0x80) <==> |r| == 1
  {
    var n := c as int;
    if n < 0x80 then [n]
    else if n < 0x800 then [0xC0 + n / 64, 0x80 + n % 64]
    else if n < 0x10000 then [0xE0 + n / 4096, 0x80 + (n / 64) % 64, 0x80 + n % 64]
    else [0xF0 + n / 262144, 0x80 + (n / 4096) % 64, 0x80 + (n / 64) % 64, 0x80 + n % 64]
  }

  /** Encoding.UTF8.GetBytes. */
  function Utf8(s: string): (r: seq<byte>)
    ensures |s| <= |r| <= 4 * |s|
  {
    if s == [] then [] else Utf8Char(s[0]) + Utf8(s[1..])
  }

  lemma {:induction false} Utf8Append(a: string, b: string)
    ensures Utf8(a + b) == Utf8(a) + Utf8(b)
  {
    if a != [] {
      assert (a + b)[0] == a[0];
      assert (a + b)[1..] == a[1..] + b;
      Utf8Append(a[1..], b);
      calc {
        Utf8(a + b);
        Utf8Char(a[0]) + Utf8(a[1..] + b);
        Utf8Char(a[0]) + (Utf8(a[1..]) + Utf8(b));
        (Utf8Char(a[0]) + Utf8(a[1..])) + Utf8(b);
      }
    } else {
      assert a + b == b;
    }
  }

  predicate IsContinuation(b: byte) {
    0x80 <= b < 0xC0
  }

  predicate IsScalarValue(n: int) {
    (0 <= n < 0xD800) || (0xE000 <= n < 0x110000)
  }

  /** Reads one scalar value off the front of `bs`. */
  function DecodeChar(bs: seq<byte>): (r: Option<(char, nat)>)
    ensures r.Some? ==> 1 <= r.value.1 <= |bs|
  {
    if |bs| == 0 then None
    else
      var b0, b1, b2, b3 := bs[0] as int, if |bs| > 1 then bs[1] as int else 0,
                            if |bs| > 2 then bs[2] as int else 0, if |bs| > 3 then bs[3] as int else 0;
      if b0 < 0x80 then Some((b0 as char, 1))
      else if 0xC0 <= b0 < 0xE0 && |bs| >= 2 && IsContinuation(bs[1]) then
        var n := (b0 - 0xC0) * 64 + (b1 - 0x80);
        if IsScalarValue(n) then Some((n as char, 2)) else None
      else if 0xE0 <= b0 < 0xF0 && |bs| >= 3 && IsContinuation(bs[1]) && IsContinuation(bs[2]) then
        var n := (b0 - 0xE0) * 4096 + (b1 - 0x80) * 64 + (b2 - 0x80);
        if IsScalarValue(n) then Some((n as char, 3)) else None
      else if 0xF0 <= b0 < 0xF8 && |bs| >= 4 && IsContinuation(bs[1]) && IsContinuation(bs[2]) && IsContinuation(bs[3]) then
        var n := (b0 - 0xF0) * 262144 + (b1 - 0x80) * 4096 + (b2 - 0x80) * 64 + (b3 - 0x80);
        if IsScalarValue(n) then Some((n as char, 4)) else None
      else None
  }

  /** Encoding.UTF8.GetString, for well-formed input. */
  function Utf8Decode(bs: seq<byte>): Option<string>
    decreases |bs|
  {
    if bs == [] then Some([])
    else match DecodeChar(bs)
      case None => None
      case Some((c, k)) =>
        match Utf8Decode(bs[k..])
        case None => None
        case Some(rest) => Some([c] + rest)
  }

  lemma TwoByteForm(n: int)
    requires 0x80 <= n < 0x800
    ensures 0xC0 <= 0xC0 + n / 64 < 0xE0 && 0x80 <= 0x80 + n % 64 < 0xC0
    ensures (n / 64) * 64 + n % 64 == n
  {
  }

  lemma ThreeByteForm(n: int)
    requires 0x800 <= n < 0x10000
    ensures 0xE0 <= 0xE0 + n / 4096 < 0xF0
    ensures (n / 4096) * 4096 + ((n / 64) % 64) * 64 + n % 64 == n
  {
    assert n / 64 == (n / 4096) * 64 + (n / 64) % 64;
  }

  lemma FourByteForm(n: int)
    requires 0x10000 <= n < 0x110000
    ensures 0xF0 <= 0xF0 + n / 262144 < 0xF8
    ensures (n / 262144) * 262144 + ((n / 4096) % 64) * 4096 + ((n / 64) % 64) * 64 + n % 64 == n
  {
    assert n / 4096 == (n / 262144) * 64 + (n / 4096) % 64;
    assert n / 64 == (n / 4096) * 64 + (n / 64) % 64;
  }

  lemma DecodeEncodedChar(c: char, rest: seq<byte>)
    ensures DecodeChar(Utf8Char(c) + rest) == Some((c, |Utf8Char(c)|))
  {
    var n := c as int;
    var e := Utf8Char(c) + rest;
    if n < 0x80 {
    } else if n < 0x800 {
      TwoByteForm(n);
      assert e[0] as int == 0xC0 + n / 64 && e[1] as int == 0x80 + n % 64;
    } else if n < 0x10000 {
      ThreeByteForm(n);
      assert e[0] as int == 0xE0 + n / 4096 && e[1] as int == 0x80 + (n / 64) % 64 && e[2] as int == 0x80 + n % 64;
    } else {
      FourByteForm(n);
      assert e[0] as int == 0xF0 + n / 262144 && e[1] as int == 0x80 + (n / 4096) % 64;
      assert e[2] as int == 0x80 + (n / 64) % 64 && e[3] as int == 0x80 + n % 64;
    }
  }

  /** Decoding the UTF-8 bytes of a string gives the string back. */
  lemma {:induction false} Utf8RoundTrip(s: string)
    ensures Utf8Decode(Utf8(s)) == Some(s)
  {
    if s != [] {
      var head := Utf8Char(s[0]);
      DecodeEncodedChar(s[0], Utf8(s[1..]));
      assert (head + Utf8(s[1..]))[|head|..] == Utf8(s[1..]);
      Utf8RoundTrip(s[1..]);
      assert [s[0]] + s[1..] == s;
    }
  }

  // ---------------------------------------------------------------- Base64

  /** The value-to-character table of section 4 of RFC 4648. */
  function Base64Char(v: int): (c: char)
    requires 0 <= v < 64
    ensures c != '='
  {
    if v < 26 then ('A' as int + v) as char
    else if v < 52 then ('a' as int + v - 26) as char
    else if v < 62 then ('0' as int + v - 52) as char
    else if v == 62 then '+'
    else '/'
  }

  /** The inverse table: the value of an alphabet character. */
  function Base64Value(c: char): (r: Option<int>)
    ensures r.Some? ==> 0 <= r.value < 64 && Base64Char(r.value) == c
  {
    if 'A' <= c <= 'Z' then Some(c as int - 'A' as int)
    else if 'a' <= c <= 'z' then Some(c as int - 'a' as int + 26)
    else if '0' <= c <= '9' then Some(c as int - '0' as int + 52)
    else if c == '+' then Some(62)
    else if c == '/' then Some(63)
    else None
  }

  lemma Base64ValueOfChar(v: int)
    requires 0 <= v < 64
    ensures Base64Value(Base64Char(v)) == Some(v)
  {
  }

  /** Convert.ToBase64String: every three bytes become four characters and
      a final group of one or two bytes is padded with `=`. */
  function Base64Encode(bs: seq<byte>): (r: string)
    decreases |bs|
  {
    if |bs| == 0 then []
    else if |bs| == 1 then
      [Base64Char(bs[0] / 4), Base64Char((bs[0] % 4) * 16), '=', '=']
    else if |bs| == 2 then
      [Base64Char(bs[0] / 4), Base64Char((bs[0] % 4) * 16 + bs[1] / 16), Base64Char((bs[1] % 16) * 4), '=']
    else EncodeGroup(bs[0], bs[1], bs[2]) + Base64Encode(bs[3..])
  }

  /** The encoding is four characters for every started group of three
      bytes. */
  lemma {:induction false} Base64EncodeLength(bs: seq<byte>)
    ensures |Base64Encode(bs)| == 4 * ((|bs| + 2) / 3)
    decreases |bs|
  {
    if |bs| >= 3 {
      Base64EncodeLength(bs[3..]);
      Base64EncodeGroupFirst(bs);
      assert |bs[3..]| + 2 == |bs| - 1;
      assert (|bs| + 2) / 3 == (|bs| - 1) / 3 + 1;
    }
  }

  /** Three bytes as four alphabet characters, six bits each. */
  function EncodeGroup(b0: byte, b1: byte, b2: byte): (r: string)
    ensures |r| == 4 && r[3] != '='
  {
    [Base64Char(b0 / 4), Base64Char((b0 % 4) * 16 + b1 / 16),
     Base64Char((b1 % 16) * 4 + b2 / 64), Base64Char(b2 % 64)]
  }

  /** Decodes one four-character group without padding. */
  function DecodeQuad(q: string): Option<seq<byte>>
    requires |q| == 4
  {
    match (Base64Value(q[0]), Base64Value(q[1]), Base64Value(q[2]), Base64Value(q[3]))
    case (Some(v0), Some(v1), Some(v2), Some(v3)) =>
      Some([v0 * 4 + v1 / 16, (v1 % 16) * 16 + v2 / 4, (v2 % 4) * 64 + v3])
    case _ => None
  }

  /** Convert.FromBase64String for canonical input: groups of four, with
      padding allowed only in the last group. */
  function Base64Decode(s: string): Option<seq<byte>>
    decreases |s|
  {
    if |s| == 0 then Some([])
    else if |s| < 4 then None
    else if |s| == 4 && s[2] == '=' && s[3] == '=' then
      match (Base64Value(s[0]), Base64Value(s[1]))
      case (Some(v0), Some(v1)) => Some([v0 * 4 + v1 / 16])
      case _ => None
    else if |s| == 4 && s[3] == '=' then
      match (Base64Value(s[0]), Base64Value(s[1]), Base64Value(s[2]))
      case (Some(v0), Some(v1), Some(v2)) => Some([v0 * 4 + v1 / 16, (v1 % 16) * 16 + v2 / 4])
      case _ => None
    else
      match (DecodeQuad(s[..4]), Base64Decode(s[4..]))
      case (Some(group), Some(rest)) => Some(group + rest)
      case _ => None
  }

  lemma SplitByte(b: byte)
    ensures b == (b / 4) * 4 + b % 4
    ensures b == (b / 16) * 16 + b % 16
    ensures b == (b / 64) * 64 + b % 64
  {
  }

  lemma DecodeEncodedGroup(b0: byte, b1: byte, b2: byte)
    ensures DecodeQuad(EncodeGroup(b0, b1, b2)) == Some([b0, b1, b2])
  {
    var v0, v1, v2, v3 := b0 / 4, (b0 % 4) * 16 + b1 / 16, (b1 % 16) * 4 + b2 / 64, b2 % 64;
    Base64ValueOfChar(v0);
    Base64ValueOfChar(v1);
    Base64ValueOfChar(v2);
    Base64ValueOfChar(v3);
    SixBitsJoin(b0, b1, v1);
    LowBitsJoin(b1, b2, v2);
    var q := EncodeGroup(b0, b1, b2);
    assert q[0] == Base64Char(v0) && q[1] == Base64Char(v1) && q[2] == Base64Char(v2) && q[3] == Base64Char(v3);
    assert (v1 % 16) * 16 + v2 / 4 == b1;
    assert (v2 % 4) * 64 + v3 == b2 by { SplitByte(b2); }
  }

  /** A six-bit value made of the low bits of one byte and the high bits of
      the next gives both parts back. */
  lemma SixBitsJoin(x: byte, y: byte, v: int)
    requires v == (x % 4) * 16 + y / 16
    ensures v / 16 == x % 4 && v % 16 == y / 16
    ensures (x / 4) * 4 + v / 16 == x
  {
    SplitByte(x);
  }

  /** A six-bit value made of the low four bits of one byte and the high two
      bits of the next gives both parts back. */
  lemma LowBitsJoin(y: byte, z: byte, v: int)
    requires v == (y % 16) * 4 + z / 64
    ensures v / 4 == y % 16 && v % 4 == z / 64
    ensures (y / 16) * 16 + v / 4 == y
  {
    SplitByte(y);
  }

  lemma DecodeOneBytePadded(b0: byte)
    ensures Base64Decode([Base64Char(b0 / 4), Base64Char((b0 % 4) * 16), '=', '=']) == Some([b0])
  {
    Base64ValueOfChar(b0 / 4);
    Base64ValueOfChar((b0 % 4) * 16);
  }

  lemma DecodeTwoBytesPadded(b0: byte, b1: byte)
    ensures Base64Decode([Base64Char(b0 / 4), Base64Char((b0 % 4) * 16 + b1 / 16), Base64Char((b1 % 16) * 4), '='])
            == Some([b0, b1])
  {
    var v0, v1, v2 := b0 / 4, (b0 % 4) * 16 + b1 / 16, (b1 % 16) * 4;
    Base64ValueOfChar(v0);
    Base64ValueOfChar(v1);
    Base64ValueOfChar(v2);
    SplitByte(b0);
    SplitByte(b1);
    assert v1 / 16 == b0 % 4 && v1 % 16 == b1 / 16;
    assert v2 / 4 == b1 % 16;
  }

  /** Decoding a Base64 string produced by the encoder gives the bytes back. */
  lemma {:induction false} Base64RoundTrip(bs: seq<byte>)
    ensures Base64Decode(Base64Encode(bs)) == Some(bs)
    decreases |bs|
  {
    if 1 <= |bs| <= 2 {
      Base64RoundTripPadded(bs);
    } else if |bs| >= 3 {
      Base64RoundTrip(bs[3..]);
      Base64RoundTripGroup(bs);
    }
  }

  /** The last, padded group of one or two bytes decodes back. */
  lemma Base64RoundTripPadded(bs: seq<byte>)
    requires 1 <= |bs| <= 2
    ensures Base64Decode(Base64Encode(bs)) == Some(bs)
  {
    if |bs| == 1 {
      DecodeOneBytePadded(bs[0]);
      assert [bs[0]] == bs;
    } else {
      DecodeTwoBytesPadded(bs[0], bs[1]);
      assert [bs[0], bs[1]] == bs;
    }
  }

  /** A full group of three bytes followed by text that decodes back
      decodes back as a whole. */
  lemma Base64RoundTripGroup(bs: seq<byte>)
    requires |bs| >= 3
    requires Base64Decode(Base64Encode(bs[3..])) == Some(bs[3..])
    ensures Base64Decode(Base64Encode(bs)) == Some(bs)
  {
    Base64EncodeGroupFirst(bs);
    EncodedGroupThenRest(bs[0], bs[1], bs[2], Base64Encode(bs[3..]), bs[3..]);
    FirstThreeThenRest(bs);
  }

  lemma FirstThreeThenRest(bs: seq<byte>)
    requires |bs| >= 3
    ensures [bs[0], bs[1], bs[2]] + bs[3..] == bs
  {
  }

  /** An encoded group in front of text that decodes decodes to the
      group's bytes in front of the same bytes. */
  lemma EncodedGroupThenRest(b0: byte, b1: byte, b2: byte, r: string, rest: seq<byte>)
    requires Base64Decode(r) == Some(rest)
    ensures Base64Decode(EncodeGroup(b0, b1, b2) + r) == Some([b0, b1, b2] + rest)
  {
    DecodeEncodedGroup(b0, b1, b2);
    DecodeGroupThenRest(EncodeGroup(b0, b1, b2), r, [b0, b1, b2], rest);
  }

  /** Three or more bytes are encoded one full group first. */
  lemma Base64EncodeGroupFirst(bs: seq<byte>)
    requires |bs| >= 3
    ensures Base64Encode(bs) == EncodeGroup(bs[0], bs[1], bs[2]) + Base64Encode(bs[3..])
  {
  }

  lemma DecodeGroupThenRest(q: string, r: string, group: seq<byte>, rest: seq<byte>)
    requires |q| == 4 && q[3] != '='
    requires DecodeQuad(q) == Some(group) && Base64Decode(r) == Some(rest)
    ensures Base64Decode(q + r) == Some(group + rest)
  {
    assert (q + r)[..4] == q;
    assert (q + r)[4..] == r;
  }

  // ------------------------------------------------------- URL encoding

  /** The characters HttpUtility.UrlEncode leaves as they are. */
  predicate IsUrlSafe(b: byte) {
    ('a' as int <= b <= 'z' as int) || ('A' as int <= b <= 'Z' as int) || ('0' as int <= b <= '9' as int)
    || b == '-' as int || b == '_' as int || b == '.' as int || b == '!' as int
    || b == '*' as int || b == '(' as int || b == ')' as int
  }

  function HexDigit(v: int): (c: char)
    requires 0 <= v < 16
  {
    if v < 10 then ('0' as int + v) as char else ('a' as int + v - 10) as char
  }

  function HexValue(c: char): (r: Option<int>)
    ensures r.Some? ==> 0 <= r.value < 16
  {
    if '0' <= c <= '9' then Some(c as int - '0' as int)
    else if 'a' <= c <= 'f' then Some(c as int - 'a' as int + 10)
    else if 'A' <= c <= 'F' then Some(c as int - 'A' as int + 10)
    else None
  }

  /** One byte of the UTF-8 form: kept, a space as `+`, otherwise `%xx`
      with lower-case hexadecimal digits. */
  function UrlEncodeByte(b: byte): (r: string)
    ensures |r| == 1 || |r| == 3
  {
    if IsUrlSafe(b) then [b as char]
    else if b == ' ' as int then "+"
    else ['%', HexDigit(b / 16), HexDigit(b % 16)]
  }

  function UrlEncodeBytes(bs: seq<byte>): string {
    if bs == [] then "" else UrlEncodeByte(bs[0]) + UrlEncodeBytes(bs[1..])
  }

  /** HttpUtility.UrlEncode(string), which encodes the UTF-8 bytes. */
  function UrlEncode(s: string): string {
    UrlEncodeBytes(Utf8(s))
  }

  /** The decoding partner: `+` is a space and `%xx` a byte. */
  function UrlDecodeBytes(t: string): Option<seq<byte>>
    decreases |t|
  {
    if t == [] then Some([])
    else if t[0] == '%' then
      if |t| < 3 then None
      else match (HexValue(t[1]), HexValue(t[2]), UrlDecodeBytes(t[3..]))
        case (Some(h), Some(l), Some(rest)) => Some([h * 16 + l] + rest)
        case _ => None
    else if t[0] == '+' then
      match UrlDecodeBytes(t[1..])
      case Some(rest) => Some([' ' as int] + rest)
      case None => None
    else if t[0] as int < 256 then
      match UrlDecodeBytes(t[1..])
      case Some(rest) => Some([t[0] as int] + rest)
      case None => None
    else None
  }

  lemma {:induction false} UrlRoundTripBytes(bs: seq<byte>)
    ensures UrlDecodeBytes(UrlEncodeBytes(bs)) == Some(bs)
  {
    if bs != [] {
      UrlRoundTripBytes(bs[1..]);
      UrlDecodeByte(bs[0], UrlEncodeBytes(bs[1..]), bs[1..]);
      assert [bs[0]] + bs[1..] == bs;
    }
  }

  /** One encoded byte in front of text that decodes decodes to that byte
      in front of the same bytes. */
  lemma UrlDecodeByte(b: byte, rest: string, restBytes: seq<byte>)
    requires UrlDecodeBytes(rest) == Some(restBytes)
    ensures UrlDecodeBytes(UrlEncodeByte(b) + rest) == Some([b] + restBytes)
  {
    var t := UrlEncodeByte(b) + rest;
    if IsUrlSafe(b) {
      assert t[1..] == rest;
    } else if b == ' ' as int {
      assert t[1..] == rest;
    } else {
      assert t[3..] == rest;
      assert HexValue(t[1]) == Some(b / 16) && HexValue(t[2]) == Some(b % 16);
    }
  }

  /** Decoding the URL-encoded form of a string gives its UTF-8 bytes. */
  lemma UrlEncodeRoundTrip(s: string)
    ensures UrlDecodeBytes(UrlEncode(s)) == Some(Utf8(s))
  {
    UrlRoundTripBytes(Utf8(s));
  }

  /** Every character of the URL-encoded form is safe, `+`, `%` or a
      hexadecimal digit. */
  lemma {:induction false} UrlEncodedAlphabet(bs: seq<byte>)
    ensures forall i :: 0 <= i < |UrlEncodeBytes(bs)| ==>
      var c := UrlEncodeBytes(bs)[i];
      (c as int < 256 && IsUrlSafe(c as int)) || c == '+' || c == '%' || HexValue(c).Some?
  {
    if bs != [] {
      UrlEncodedAlphabet(bs[1..]);
      var head := UrlEncodeByte(bs[0]);
      var all := head + UrlEncodeBytes(bs[1..]);
      forall i | 0 <= i < |all|
        ensures (all[i] as int < 256 && IsUrlSafe(all[i] as int)) || all[i] == '+' || all[i] == '%' || HexValue(all[i]).Some?
      {
        if i >= |head| {
          assert all[i] == UrlEncodeBytes(bs[1..])[i - |head|];
        }
      }
    }
  }
}
