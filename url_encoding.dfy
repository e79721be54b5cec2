/**
 * Percent-encoding of user data for a URL query, as done by the `url` crate's
 * `form_urlencoded::byte_serialize`: the string is taken as its UTF-8 bytes
 * and each byte is written with the application/x-www-form-urlencoded byte
 * serializer of the WHATWG URL Standard (section 5.2, "application/
 * x-www-form-urlencoded serializing"): ASCII alphanumerics and `*-._` stand
 * for themselves, the space byte becomes `+`, and every other byte becomes
 * `%` followed by two upper-case hexadecimal digits.
 *
 * The partner is the standard's parser for one name or value (`+` becomes a
 * space, then percent-decoding); decoding an encoded string gives back its
 * UTF-8 bytes exactly.
 */
module UrlEncoding {

  newtype byte = x: int | 0 <= x < 256

  // ---------------------------------------------------------------------------
  // UTF-8 (RFC 3629, section 3)
  // ---------------------------------------------------------------------------

  predicate IsContinuation(b: byte)
  {
    0x80 <= b < 0xC0
  }

  /** The UTF-8 encoding of one Unicode scalar value. */
  function CharUtf8(c: char): (bs: seq<byte>)
    ensures 1 <= |bs| <= 4
    ensures c as int < 0x80 <==> |bs| == 1
    ensures |bs| == 1 ==> bs[0] as int == c as int
    ensures |bs| == 2 <==> 0xC0 <= bs[0] < 0xE0
    ensures |bs| == 3 <==> 0xE0 <= bs[0] < 0xF0
    ensures |bs| == 4 <==> 0xF0 <= bs[0] < 0xF5
    ensures forall i :: 1 <= i < |bs| ==> IsContinuation(bs[i])
  {
    var cp := c as int;
    if cp < 0x80 then
      [cp as byte]
    else if cp < 0x800 then
      [(0xC0 + cp / 0x40) as byte, (0x80 + cp % 0x40) as byte]
    else if cp < 0x1_0000 then
      [(0xE0 + cp / 0x1000) as byte, (0x80 + (cp / 0x40) % 0x40) as byte, (0x80 + cp % 0x40) as byte]
    else
      [(0xF0 + cp / 0x4_0000) as byte, (0x80 + (cp / 0x1000) % 0x40) as byte,
       (0x80 + (cp / 0x40) % 0x40) as byte, (0x80 + cp % 0x40) as byte]
  }

  predicate IsAscii(s: string)
  {
    forall i :: 0 <= i < |s| ==> s[i] as int < 0x80
  }

  /** The UTF-8 encoding of a string (`str::as_bytes`). */
  function Utf8(s: string): (bs: seq<byte>)
    ensures |s| <= |bs| <= 4 * |s|
    ensures IsAscii(s) ==> |bs| == |s| && forall i :: 0 <= i < |s| ==> bs[i] as int == s[i] as int
  {
    if s == [] then [] else CharUtf8(s[0]) + Utf8(s[1..])
  }

  lemma {:induction false} Utf8Append(a: string, b: string)
    ensures Utf8(a + b) == Utf8(a) + Utf8(b)
  {
    if a == [] {
      assert a + b == b;
    } else {
      assert (a + b)[1..] == a[1..] + b;
      Utf8Append(a[1..], b);
    }
  }

  // ---------------------------------------------------------------------------
  // The byte serializer
  // ---------------------------------------------------------------------------

  /** Bytes the serializer leaves as they are: ASCII alphanumerics and `*-._`. */
  predicate Unreserved(b: byte)
  {
    b == 0x2A || b == 0x2D || b == 0x2E || (0x30 <= b <= 0x39) ||
    (0x41 <= b <= 0x5A) || b == 0x5F || (0x61 <= b <= 0x7A)
  }

  /** Characters that can appear in serializer output. */
  predicate OutputChar(c: char)
  {
    (c as int < 0x80 && Unreserved(c as int as byte)) || c == '+' || c == '%'
  }

  /** An upper-case hexadecimal digit. */
  function HexDigit(d: int): (c: char)
    requires 0 <= d < 16
    ensures '0' <= c <= '9' || 'A' <= c <= 'F'
  {
    if d < 10 then '0' + d as char else 'A' + (d - 10) as char
  }

  function SerializeByte(b: byte): (s: string)
    ensures 1 <= |s| <= 3 && IsAscii(s)
    ensures forall i :: 0 <= i < |s| ==> OutputChar(s[i])
  {
    if Unreserved(b) then [b as int as char]
    else if b == 0x20 then "+"
    else ['%', HexDigit(b as int / 16), HexDigit(b as int % 16)]
  }

  /** `form_urlencoded::byte_serialize`, collected into a string. */
  function ByteSerialize(bs: seq<byte>): (s: string)
    ensures IsAscii(s) && |bs| <= |s| <= 3 * |bs|
    ensures forall i :: 0 <= i < |s| ==> OutputChar(s[i])
  {
    if bs == [] then "" else SerializeByte(bs[0]) + ByteSerialize(bs[1..])
  }

  /**
   * `url_encode` of the search client: serialize the UTF-8 bytes. The output
   * never contains the query-string delimiters `&` and `=`.
   */
  function UrlEncode(s: string): (r: string)
    ensures IsAscii(r) && |s| <= |r| <= 12 * |s|
    ensures forall i :: 0 <= i < |r| ==> OutputChar(r[i]) && r[i] != '&' && r[i] != '='
  {
    ByteSerialize(Utf8(s))
  }

  // ---------------------------------------------------------------------------
  // The parser for one name or value, and the round trip
  // ---------------------------------------------------------------------------

  predicate IsHexByte(b: byte)
  {
    (0x30 <= b <= 0x39) || (0x41 <= b <= 0x46) || (0x61 <= b <= 0x66)
  }

  function HexValue(b: byte): (d: int)
    requires IsHexByte(b)
    ensures 0 <= d < 16
  {
    if b <= 0x39 then b as int - 0x30 else if b <= 0x46 then b as int - 0x41 + 10 else b as int - 0x61 + 10
  }

  /**
   * Replaces `+` by a space and percent-decodes; a `%` not followed by two
   * hexadecimal digits stands for itself.
   */
  function PercentDecode(bs: seq<byte>): (r: seq<byte>)
    ensures |r| <= |bs|
    decreases |bs|
  {
    if bs == [] then []
    else if bs[0] == 0x2B then [0x20 as byte] + PercentDecode(bs[1..])
    else if bs[0] == 0x25 && |bs| >= 3 && IsHexByte(bs[1]) && IsHexByte(bs[2]) then
      [(16 * HexValue(bs[1]) + HexValue(bs[2])) as byte] + PercentDecode(bs[3..])
    else [bs[0]] + PercentDecode(bs[1..])
  }

  /** Decoding a name or value of a form-urlencoded string gives its bytes. */
  function FormDecode(s: string): seq<byte>
  {
    PercentDecode(Utf8(s))
  }

  lemma HexDigitValue(d: int)
    requires 0 <= d < 16
    ensures HexDigit(d) as int < 0x80
    ensures var b := HexDigit(d) as int as byte; IsHexByte(b) && HexValue(b) == d
  {
  }

  /** Decoding the serialization of one byte consumes exactly that serialization. */
  lemma {:induction false} DecodeSerializedByte(b: byte, rest: seq<byte>)
    ensures PercentDecode(Utf8(SerializeByte(b)) + rest) == [b] + PercentDecode(rest)
  {
    var s := SerializeByte(b);
    var u := Utf8(s);
    if Unreserved(b) {
      assert u == [b];
      assert (u + rest)[1..] == rest;
    } else if b == 0x20 {
      assert u == [0x2B];
      assert (u + rest)[1..] == rest;
    } else {
      var hi, lo := b as int / 16, b as int % 16;
      HexDigitValue(hi);
      HexDigitValue(lo);
      assert u == [0x25, HexDigit(hi) as int as byte, HexDigit(lo) as int as byte];
      assert (u + rest)[3..] == rest;
      assert 16 * hi + lo == b as int;
    }
  }

  lemma {:induction false} DecodeSerialize(bs: seq<byte>)
    ensures PercentDecode(Utf8(ByteSerialize(bs))) == bs
  {
    if bs != [] {
      var head, tail := SerializeByte(bs[0]), ByteSerialize(bs[1..]);
      Utf8Append(head, tail);
      DecodeSerializedByte(bs[0], Utf8(tail));
      DecodeSerialize(bs[1..]);
    }
  }

  /** The round trip: decoding `url_encode(s)` gives back the UTF-8 bytes of `s`. */
  lemma {:induction false} UrlEncodeRoundTrip(s: string)
    ensures FormDecode(UrlEncode(s)) == Utf8(s)
  {
    DecodeSerialize(Utf8(s));
  }

  /** Two strings with the same encoding are equal. */
  lemma {:induction false} UrlEncodeInjective(s: string, t: string)
    requires UrlEncode(s) == UrlEncode(t)
    ensures s == t
  {
    UrlEncodeRoundTrip(s);
    UrlEncodeRoundTrip(t);
    Utf8Injective(s, t);
  }

  /** The scalar value a complete one- to four-byte UTF-8 sequence stands for. */
  function ScalarOf(u: seq<byte>): int
    requires 1 <= |u| <= 4
  {
    if |u| == 1 then u[0] as int
    else if |u| == 2 then (u[0] as int - 0xC0) * 0x40 + (u[1] as int - 0x80)
    else if |u| == 3 then (u[0] as int - 0xE0) * 0x1000 + (u[1] as int - 0x80) * 0x40 + (u[2] as int - 0x80)
    else (u[0] as int - 0xF0) * 0x4_0000 + (u[1] as int - 0x80) * 0x1000 + (u[2] as int - 0x80) * 0x40 + (u[3] as int - 0x80)
  }

  lemma {:induction false} CharUtf8Scalar(c: char)
    ensures ScalarOf(CharUtf8(c)) == c as int
  {
    var cp := c as int;
    var q1, r1 := cp / 0x40, cp % 0x40;
    assert cp == 0x40 * q1 + r1;
    var u := CharUtf8(c);
    if 0x80 <= cp < 0x800 {
      assert u[0] as int == 0xC0 + q1 && u[1] as int == 0x80 + r1;
    } else if 0x800 <= cp < 0x1_0000 {
      var q2, r2 := q1 / 0x40, q1 % 0x40;
      assert q1 == 0x40 * q2 + r2;
      assert cp / 0x1000 == q2;
      assert u[0] as int == 0xE0 + q2 && u[1] as int == 0x80 + r2 && u[2] as int == 0x80 + r1;
    } else if 0x1_0000 <= cp {
      var q2, r2 := q1 / 0x40, q1 % 0x40;
      assert q1 == 0x40 * q2 + r2;
      var q3, r3 := q2 / 0x40, q2 % 0x40;
      assert q2 == 0x40 * q3 + r3;
      assert cp / 0x1000 == q2 && cp / 0x4_0000 == q3;
      assert u[0] as int == 0xF0 + q3 && u[1] as int == 0x80 + r3;
      assert u[2] as int == 0x80 + r2 && u[3] as int == 0x80 + r1;
    }
  }

  lemma {:induction false} CharUtf8Injective(c: char, d: char, rest: seq<byte>, rest': seq<byte>)
    requires CharUtf8(c) + rest == CharUtf8(d) + rest'
    ensures c == d && rest == rest'
  {
    var u, v := CharUtf8(c), CharUtf8(d);
    var w := u + rest;
    assert u[0] == w[0] == v[0];
    assert |u| == |v|;
    assert u == w[..|u|] == v;
    assert rest == w[|u|..] == rest';
    CharUtf8Scalar(c);
    CharUtf8Scalar(d);
  }

  lemma {:induction false} Utf8Injective(s: string, t: string)
    requires Utf8(s) == Utf8(t)
    ensures s == t
  {
    if s != [] && t != [] {
      CharUtf8Injective(s[0], t[0], Utf8(s[1..]), Utf8(t[1..]));
      Utf8Injective(s[1..], t[1..]);
    }
  }
}
