/** UTF-8 (RFC 3629): the encoding of a string and the strict decoder. */
module Utf8 {
  import opened Options

  type Byte = b: int | 0 <= b < 256

  function EncodeChar(c: char): (bytes: seq<Byte>)
    ensures 1 <= |bytes| <= 4
  {
    var n := c as int;
    if n < 0x80 then [n]
    else if n < 0x800 then [0xC0 + n / 64, 0x80 + n % 64]
    else if n < 0x1_0000 then [0xE0 + n / 4096, 0x80 + n / 64 % 64, 0x80 + n % 64]
    else [0xF0 + n / 262144, 0x80 + n / 4096 % 64, 0x80 + n / 64 % 64, 0x80 + n % 64]
  }

  function Encode(s: string): seq<Byte> {
    if s == [] then [] else EncodeChar(s[0]) + Encode(s[1..])
  }

  predicate Scalar(n: int) {
    0 <= n < 0xD800 || 0xE000 <= n < 0x11_0000
  }

  predicate Trail(b: Byte) {
    0x80 <= b < 0xC0
  }

  /** The payload of a byte that starts with the given marker bits. */
  function Bits(b: Byte, marker: int): int {
    b - marker
  }

  /** The first character and the number of bytes it takes; overlong forms and surrogates are refused. */
  function DecodeChar(bytes: seq<Byte>): (r: Option<(char, nat)>)
    requires bytes != []
    ensures r.Some? ==> 1 <= r.value.1 <= |bytes|
  {
    var b := bytes[0];
    if b < 0x80 then Some((b as char, 1))
    else if 0xC0 <= b < 0xE0 && |bytes| >= 2 && Trail(bytes[1]) then
      var n := Bits(b, 0xC0) * 64 + Bits(bytes[1], 0x80);
      if n >= 0x80 then Some((n as char, 2)) else None
    else if 0xE0 <= b < 0xF0 && |bytes| >= 3 && Trail(bytes[1]) && Trail(bytes[2]) then
      var n := Bits(b, 0xE0) * 4096 + Bits(bytes[1], 0x80) * 64 + Bits(bytes[2], 0x80);
      if n >= 0x800 && Scalar(n) then Some((n as char, 3)) else None
    else if 0xF0 <= b < 0xF8 && |bytes| >= 4 && Trail(bytes[1]) && Trail(bytes[2]) && Trail(bytes[3]) then
      var n := Bits(b, 0xF0) * 262144 + Bits(bytes[1], 0x80) * 4096 + Bits(bytes[2], 0x80) * 64 + Bits(bytes[3], 0x80);
      if n >= 0x1_0000 && Scalar(n) then Some((n as char, 4)) else None
    else None
  }

  function Decode(bytes: seq<Byte>): Option<string> {
    if bytes == [] then Some("") else
    match DecodeChar(bytes)
    case None => None
    case Some((c, n)) =>
      match Decode(bytes[n..])
      case None => None
      case Some(rest) => Some([c] + rest)
  }

  lemma DecodeEncodedChar(c: char, rest: seq<Byte>)
    ensures DecodeChar(EncodeChar(c) + rest) == Some((c, |EncodeChar(c)|))
  {
    var n := c as int;
    assert n == n / 64 * 64 + n % 64;
    assert n == n / 4096 * 4096 + n / 64 % 64 * 64 + n % 64;
    assert n == n / 262144 * 262144 + n / 4096 % 64 * 4096 + n / 64 % 64 * 64 + n % 64;
  }

  lemma {:induction false} RoundTrip(s: string)
    ensures Decode(Encode(s)) == Some(s)
  {
    if s != [] {
      DecodeEncodedChar(s[0], Encode(s[1..]));
      assert Encode(s)[|EncodeChar(s[0])|..] == Encode(s[1..]);
      RoundTrip(s[1..]);
      assert s == [s[0]] + s[1..];
    }
  }

  lemma {:induction false} EncodeConcat(a: string, b: string)
    ensures Encode(a + b) == Encode(a) + Encode(b)
  {
    if a == [] {
      assert a + b == b;
    } else {
      assert (a + b)[0] == a[0] && (a + b)[1..] == a[1..] + b;
      EncodeConcat(a[1..], b);
    }
  }

  predicate Ascii(s: string) {
    forall i :: 0 <= i < |s| ==> s[i] as int < 0x80
  }

  /** What is decoded as a character is its encoding, followed by the rest. */
  lemma DecodedIsEncoded(bytes: seq<Byte>)
    requires bytes != [] && DecodeChar(bytes).Some?
    ensures var (c, n) := DecodeChar(bytes).value; bytes[..n] == EncodeChar(c)
  {
    var (c, n) := DecodeChar(bytes).value;
    var m, b: int := c as int, bytes[0];
    if n == 2 {
      var b1: int := bytes[1];
      assert m == (b - 0xC0) * 64 + (b1 - 0x80);
      assert bytes[..2] == [bytes[0], bytes[1]];
    } else if n == 3 {
      var b1: int, b2: int := bytes[1], bytes[2];
      Base64(m, b - 0xE0, b1 - 0x80, b2 - 0x80);
      assert bytes[..3] == [bytes[0], bytes[1], bytes[2]];
    } else if n == 4 {
      var b1: int, b2: int, b3: int := bytes[1], bytes[2], bytes[3];
      Base64(m / 64, b - 0xF0, b1 - 0x80, b2 - 0x80);
      assert m / 64 / 4096 == m / 262144 && m / 64 / 64 == m / 4096;
      assert bytes[..4] == [bytes[0], bytes[1], bytes[2], bytes[3]];
    }
  }

  lemma Base64(m: int, x: int, y: int, z: int)
    requires 0 <= x && 0 <= y < 64 && 0 <= z < 64 && m == x * 4096 + y * 64 + z
    ensures m / 4096 == x && m / 64 % 64 == y && m % 64 == z
  {
    assert m / 64 == x * 64 + y;
  }

  /** Bytes are decoded as a text if and only if they are its encoding. */
  lemma {:induction false} DecodesIff(bytes: seq<Byte>, s: string)
    ensures Decode(bytes) == Some(s) <==> bytes == Encode(s)
  {
    hide EncodeChar, DecodeChar;
    RoundTrip(s);
    if bytes != [] && Decode(bytes).Some? {
      var (c, n) := DecodeChar(bytes).value;
      var rest := Decode(bytes[n..]).value;
      DecodedIsEncoded(bytes);
      DecodesIff(bytes[n..], rest);
      assert bytes == bytes[..n] + bytes[n..];
      assert ([c] + rest)[1..] == rest;
    }
  }
}
