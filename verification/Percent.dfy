/** Percent-encoding as `quote(text, safe="")` and `unquote` do it (section 2.1 of RFC 3986). */
module Percent {
  import opened Options
  import opened Utf8

  /** The unreserved characters of section 2.3 of RFC 3986, which `quote` leaves alone. */
  predicate Unreserved(n: int) {
    'A' as int <= n <= 'Z' as int || 'a' as int <= n <= 'z' as int || '0' as int <= n <= '9' as int
    || n == '_' as int || n == '.' as int || n == '-' as int || n == '~' as int
  }

  predicate AllUnreserved(s: string) {
    forall i :: 0 <= i < |s| ==> Unreserved(s[i] as int)
  }

  function HexDigit(n: int): char
    requires 0 <= n < 16
  {
    if n < 10 then ('0' as int + n) as char else ('A' as int + n - 10) as char
  }

  function HexValue(c: char): Option<int> {
    if '0' <= c <= '9' then Some(c as int - '0' as int)
    else if 'A' <= c <= 'F' then Some(c as int - 'A' as int + 10)
    else if 'a' <= c <= 'f' then Some(c as int - 'a' as int + 10)
    else None
  }

  function QuoteByte(b: Byte): string {
    if Unreserved(b) then [b as char] else ['%', HexDigit(b / 16), HexDigit(b % 16)]
  }

  function QuoteBytes(bytes: seq<Byte>): string {
    if bytes == [] then "" else QuoteByte(bytes[0]) + QuoteBytes(bytes[1..])
  }

  function Quote(s: string): string {
    QuoteBytes(Encode(s))
  }

  /** An escape counts only with two hexadecimal digits; anything else stands for itself. */
  predicate Escape(s: string) {
    |s| >= 3 && s[0] == '%' && HexValue(s[1]).Some? && HexValue(s[2]).Some?
  }

  function UnquoteBytes(s: string): seq<Byte> {
    if s == "" then []
    else if Escape(s) then [HexValue(s[1]).value * 16 + HexValue(s[2]).value] + UnquoteBytes(s[3..])
    else EncodeChar(s[0]) + UnquoteBytes(s[1..])
  }

  /** `None` when the bytes are not UTF-8. */
  function Unquote(s: string): Option<string> {
    Decode(UnquoteBytes(s))
  }

  // ---- quoting and unquoting ----

  lemma UnquoteQuotedByte(b: Byte, rest: string)
    ensures UnquoteBytes(QuoteByte(b) + rest) == [b] + UnquoteBytes(rest)
  {
    var s := QuoteByte(b) + rest;
    if Unreserved(b) {
      assert s[1..] == rest && EncodeChar(s[0]) == [b];
    } else {
      assert s[3..] == rest && b == b / 16 * 16 + b % 16;
    }
  }

  lemma {:induction false} UnquoteQuotedBytes(bytes: seq<Byte>, rest: string)
    ensures UnquoteBytes(QuoteBytes(bytes) + rest) == bytes + UnquoteBytes(rest)
  {
    hide QuoteByte, UnquoteBytes;
    if bytes == [] {
      assert QuoteBytes(bytes) + rest == rest;
    } else {
      assert QuoteBytes(bytes) + rest == QuoteByte(bytes[0]) + (QuoteBytes(bytes[1..]) + rest);
      UnquoteQuotedByte(bytes[0], QuoteBytes(bytes[1..]) + rest);
      UnquoteQuotedBytes(bytes[1..], rest);
      assert bytes + UnquoteBytes(rest) == [bytes[0]] + (bytes[1..] + UnquoteBytes(rest));
    }
  }

  /** A quoted piece decodes to itself, whatever follows. */
  lemma UnquoteQuoted(s: string, rest: string)
    ensures UnquoteBytes(Quote(s) + rest) == Encode(s) + UnquoteBytes(rest)
  {
    UnquoteQuotedBytes(Encode(s), rest);
  }

  lemma QuoteRoundTrip(s: string)
    ensures Unquote(Quote(s)) == Some(s)
  {
    UnquoteQuoted(s, "");
    assert Quote(s) + "" == Quote(s);
    assert Encode(s) + [] == Encode(s);
    RoundTrip(s);
  }

  /** Text without percent signs stands for itself, whatever follows. */
  lemma {:induction false} UnquotePlain(s: string, rest: string)
    requires '%' !in s
    ensures UnquoteBytes(s + rest) == Encode(s) + UnquoteBytes(rest)
  {
    if s == "" {
      assert s + rest == rest;
    } else {
      assert (s + rest)[0] == s[0] && (s + rest)[1..] == s[1..] + rest;
      UnquotePlain(s[1..], rest);
    }
  }

  // ---- what quoting does to a segment ----

  predicate Quoted(s: string) {
    forall i :: 0 <= i < |s| ==> Unreserved(s[i] as int) || s[i] == '%'
  }

  lemma {:induction false} QuoteBytesShape(bytes: seq<Byte>)
    ensures Quoted(QuoteBytes(bytes)) && |QuoteBytes(bytes)| >= |bytes|
    ensures (exists i :: 0 <= i < |bytes| && !Unreserved(bytes[i])) ==> |QuoteBytes(bytes)| > |bytes|
  {
    if bytes != [] {
      QuoteBytesShape(bytes[1..]);
      if i :| 0 <= i < |bytes| && !Unreserved(bytes[i]) {
        assert i > 0 ==> bytes[1..][i - 1] == bytes[i];
      }
    }
  }

  lemma {:induction false} EncodeLength(s: string)
    ensures |Encode(s)| >= |s|
    ensures forall i :: 0 <= i < |s| && !Unreserved(s[i] as int) ==> exists j :: 0 <= j < |Encode(s)| && !Unreserved(Encode(s)[j])
  {
    if s != "" {
      EncodeLength(s[1..]);
      var head, tail := EncodeChar(s[0]), Encode(s[1..]);
      assert !Unreserved(s[0] as int) ==> !Unreserved(head[0]);
      forall i | 0 <= i < |s| && !Unreserved(s[i] as int)
        ensures exists j :: 0 <= j < |Encode(s)| && !Unreserved(Encode(s)[j])
      {
        if i == 0 {
          assert Encode(s)[0] == head[0];
        } else {
          assert s[1..][i - 1] == s[i];
          var j :| 0 <= j < |tail| && !Unreserved(tail[j]);
          assert Encode(s)[|head| + j] == tail[j];
        }
      }
    }
  }

  /** Quoting keeps unreserved text and makes any other text longer. */
  lemma QuoteGrows(s: string)
    ensures Quoted(Quote(s))
    ensures !AllUnreserved(s) ==> |Quote(s)| > |s|
  {
    QuoteBytesShape(Encode(s));
    EncodeLength(s);
    if !AllUnreserved(s) {
      var i :| 0 <= i < |s| && !Unreserved(s[i] as int);
    }
  }

  lemma {:induction false} QuoteUnreserved(s: string)
    requires AllUnreserved(s)
    ensures Quote(s) == s
  {
    if s != "" {
      QuoteUnreserved(s[1..]);
      assert EncodeChar(s[0]) == [s[0] as int];
      assert Encode(s) == [s[0] as int] + Encode(s[1..]);
      assert Encode(s)[1..] == Encode(s[1..]);
      assert s == [s[0]] + s[1..];
    }
  }

  /** The value of a hexadecimal digit is its place among the sixteen, in either case. */
  lemma HexValueIs(c: char, v: int)
    ensures HexValue(c) == Some(v) <==> 0 <= v < 16 && (c == "0123456789ABCDEF"[v] || c == "0123456789abcdef"[v])
  {
  }

  /** An escape in either case stands for its byte, whatever follows. */
  lemma EscapeDecodes(v: int, w: int, hi: char, lo: char, rest: string)
    requires 0 <= v < 16 && (hi == "0123456789ABCDEF"[v] || hi == "0123456789abcdef"[v])
    requires 0 <= w < 16 && (lo == "0123456789ABCDEF"[w] || lo == "0123456789abcdef"[w])
    ensures UnquoteBytes(['%', hi, lo] + rest) == [v * 16 + w] + UnquoteBytes(rest)
  {
    HexValueIs(hi, v);
    HexValueIs(lo, w);
    assert (['%', hi, lo] + rest)[3..] == rest;
  }

  // ---- which texts need no escape ----

  /** The characters of section 2.3 of RFC 3986, one by one. */
  predicate Bare(c: char) {
    c in {'A', 'B', 'C', 'D', 'E', 'F', 'G', 'H', 'I', 'J', 'K', 'L', 'M',
          'N', 'O', 'P', 'Q', 'R', 'S', 'T', 'U', 'V', 'W', 'X', 'Y', 'Z',
          'a', 'b', 'c', 'd', 'e', 'f', 'g', 'h', 'i', 'j', 'k', 'l', 'm',
          'n', 'o', 'p', 'q', 'r', 's', 't', 'u', 'v', 'w', 'x', 'y', 'z',
          '0', '1', '2', '3', '4', '5', '6', '7', '8', '9', '-', '.', '_', '~'}
  }

  predicate AllBare(s: string) {
    forall i :: 0 <= i < |s| ==> Bare(s[i])
  }

  lemma BareIs(c: char)
    ensures Bare(c) <==> Unreserved(c as int)
  {
  }

  lemma AllBareIs(s: string)
    ensures AllBare(s) <==> AllUnreserved(s)
  {
    forall i | 0 <= i < |s| ensures Bare(s[i]) <==> Unreserved(s[i] as int) {
      BareIs(s[i]);
    }
  }

  /** Quoting leaves a text alone if and only if all its characters are among these. */
  lemma QuoteKeepsIff(s: string)
    ensures Quote(s) == s <==> AllBare(s)
  {
    AllBareIs(s);
    if AllUnreserved(s) {
      QuoteUnreserved(s);
    } else {
      QuoteGrows(s);
    }
  }
}
