/** `encodeURIComponent`, which the help URL applies to every query value, and
    a decoder that undoes it.

    The encoder leaves the characters A-Z, a-z, 0-9 and - _ . ! ~ * ' ( )
    unchanged and writes every other character as the UTF-8 bytes of its code
    point (section 3 of RFC 3629), each byte as `%` followed by two upper-case
    hexadecimal digits (section 2.1 of RFC 3986). A Dafny `char` is a Unicode
    scalar value, so the lone surrogates for which JavaScript throws a
    `URIError` cannot occur here. */
module UriComponent {
  import opened Wrappers

  type byte = x: int | 0 <= x < 256

  /** The characters `encodeURIComponent` does not escape. */
  predicate Unreserved(c: char)
  {
    ('A' <= c <= 'Z') || ('a' <= c <= 'z') || ('0' <= c <= '9') || c in "-_.!~*'()"
  }

  /** Characters that can appear in an encoded value. */
  predicate EncodedChar(c: char)
  {
    Unreserved(c) || c == '%'
  }

  /** The UTF-8 encoding of one Unicode scalar value: six payload bits per
      continuation byte, the remaining high bits in the lead byte. */
  function Utf8(c: char): (r: seq<byte>)
    ensures 1 <= |r| <= 4
  {
    var cp := c as int;
    var q1 := cp / 64;
    var q2 := q1 / 64;
    if cp < 0x80 then [cp]
    else if cp < 0x800 then [0xC0 + q1, 0x80 + cp % 64]
    else if cp < 0x1_0000 then [0xE0 + q2, 0x80 + q1 % 64, 0x80 + cp % 64]
    else [0xF0 + q2 / 64, 0x80 + q2 % 64, 0x80 + q1 % 64, 0x80 + cp % 64]
  }

  /** A hexadecimal digit in upper case. */
  function UpperHexDigit(d: nat): (r: char)
    requires d < 16
    ensures Unreserved(r)
  {
    if d < 10 then ('0' as int + d) as char else ('A' as int + d - 10) as char
  }

  /** One byte as a percent escape, `%` and two upper-case hexadecimal digits. */
  function PercentByte(b: byte): (r: string)
    ensures |r| == 3 && r[0] == '%'
    ensures Unreserved(r[1]) && Unreserved(r[2])
  {
    ['%', UpperHexDigit(b / 16), UpperHexDigit(b % 16)]
  }

  /** A run of bytes as consecutive percent escapes. */
  function PercentBytes(bs: seq<byte>): (r: string)
    ensures |r| == 3 * |bs|
    ensures forall i :: 0 <= i < |r| ==> EncodedChar(r[i])
  {
    if |bs| == 0 then "" else PercentByte(bs[0]) + PercentBytes(bs[1..])
  }

  /** The encoding of a single character. */
  function EncodeChar(c: char): (r: string)
    ensures |r| >= 1
    ensures forall i :: 0 <= i < |r| ==> EncodedChar(r[i])
  {
    if Unreserved(c) then [c] else PercentBytes(Utf8(c))
  }

  /** `encodeURIComponent(s)`. The result never contains the query-string
      delimiters `&`, `=`, `?` or `#`, so an encoded value cannot split a
      query parameter. */
  function Encode(s: string): (r: string)
    ensures forall i :: 0 <= i < |r| ==> EncodedChar(r[i])
    ensures |r| >= |s|
  {
    if |s| == 0 then "" else EncodeChar(s[0]) + Encode(s[1..])
  }

  // ---------------------------------------------------------------------
  // Decoding.

  /** The value of a hexadecimal digit of either case. */
  function HexValue(c: char): (r: Option<nat>)
    ensures r.Some? ==> r.value < 16
  {
    if '0' <= c <= '9' then Some(c as int - '0' as int)
    else if 'A' <= c <= 'F' then Some(c as int - 'A' as int + 10)
    else if 'a' <= c <= 'f' then Some(c as int - 'a' as int + 10)
    else None
  }

  /** The byte written as a percent escape at the start of `t`, if any. */
  function LeadingByte(t: string): Option<byte>
  {
    if |t| < 3 || t[0] != '%' then None
    else
      var hi, lo := HexValue(t[1]), HexValue(t[2]);
      if hi.Some? && lo.Some? then Some(hi.value * 16 + lo.value) else None
  }

  /** The `n` bytes written as consecutive percent escapes at the start of `t`. */
  function LeadingBytes(t: string, n: nat): (r: Option<seq<byte>>)
    ensures r.Some? ==> |r.value| == n && |t| >= 3 * n
  {
    if n == 0 then Some([])
    else
      match LeadingByte(t)
      case None => None
      case Some(b) =>
        match LeadingBytes(t[3..], n - 1)
        case None => None
        case Some(bs) => Some([b] + bs)
  }

  /** The length of the UTF-8 sequence that starts with `lead`. */
  function SequenceLength(lead: byte): Option<nat>
  {
    if lead < 0x80 then Some(1)
    else if 0xC0 <= lead < 0xE0 then Some(2)
    else if 0xE0 <= lead < 0xF0 then Some(3)
    else if 0xF0 <= lead < 0xF8 then Some(4)
    else None
  }

  /** The code point a UTF-8 sequence of one to four bytes spells, read
      six payload bits per continuation byte. */
  function CodePoint(bs: seq<byte>): int
    requires 1 <= |bs| <= 4
  {
    if |bs| == 1 then bs[0] as int
    else
      var high := if |bs| == 2 then bs[0] as int - 0xC0
                  else if |bs| == 3 then bs[0] as int - 0xE0
                  else bs[0] as int - 0xF0;
      Payload(high, bs[1..])
  }

  /** Appends the six low bits of each continuation byte to `high`. */
  function Payload(high: int, continuation: seq<byte>): int
    decreases |continuation|
  {
    if |continuation| == 0 then high
    else Payload(high * 64 + (continuation[0] as int - 0x80), continuation[1..])
  }

  /** The scalar value a complete UTF-8 sequence stands for, if it is one. */
  function DecodeScalar(bs: seq<byte>): Option<char>
  {
    if 1 <= |bs| <= 4 then
      var cp := CodePoint(bs);
      if 0 <= cp < 0xD800 || 0xE000 <= cp < 0x11_0000 then Some(cp as char) else None
    else None
  }

  /** A percent-decoder that inverts `Encode`. It is more lenient than
      `decodeURIComponent` on malformed UTF-8: it checks neither the
      continuation bytes nor for overlong forms, so it accepts some escapes
      that `decodeURIComponent` rejects. */
  function Decode(t: string): Option<string>
    decreases |t|
  {
    if |t| == 0 then Some("")
    else if t[0] != '%' then Decode(t[1..]).Map(rest => [t[0]] + rest)
    else
      match LeadingByte(t)
      case None => None
      case Some(lead) =>
        match SequenceLength(lead)
        case None => None
        case Some(n) =>
          match LeadingBytes(t, n)
          case None => None
          case Some(bs) =>
            match DecodeScalar(bs)
            case None => None
            case Some(c) => Decode(t[3 * n..]).Map(rest => [c] + rest)
  }

  // ---------------------------------------------------------------------
  // The round trip.

  lemma HexDigitRoundTrip(d: nat)
    requires d < 16
    ensures HexValue(UpperHexDigit(d)) == Some(d)
  {
  }

  lemma LeadingByteOfEscape(b: byte, rest: string)
    ensures LeadingByte(PercentByte(b) + rest) == Some(b)
  {
    var t := PercentByte(b) + rest;
    assert t[0] == '%';
    assert t[1] == UpperHexDigit(b / 16);
    assert t[2] == UpperHexDigit(b % 16);
    HexDigitRoundTrip(b / 16);
    HexDigitRoundTrip(b % 16);
    assert HexValue(t[1]) == Some(b / 16);
    assert HexValue(t[2]) == Some(b % 16);
    assert (b / 16) * 16 + b % 16 == b;
  }

  lemma {:induction false} LeadingBytesOfEscapes(bs: seq<byte>, rest: string)
    ensures LeadingBytes(PercentBytes(bs) + rest, |bs|) == Some(bs)
  {
    if |bs| > 0 {
      var head, tail := PercentByte(bs[0]), PercentBytes(bs[1..]);
      var t := PercentBytes(bs) + rest;
      assert PercentBytes(bs) == head + tail;
      Associate(head, tail, rest);
      LeadingByteOfEscape(bs[0], tail + rest);
      DropPrefix(head, tail + rest);
      LeadingBytesOfEscapes(bs[1..], rest);
      assert t[3..] == tail + rest;
      assert [bs[0]] + bs[1..] == bs;
    }
  }

  /** The UTF-8 sequence of a character starts with a lead byte announcing
      its length, and decodes back to the character. */
  lemma Utf8Decodes(c: char)
    ensures SequenceLength(Utf8(c)[0]) == Some(|Utf8(c)|)
    ensures DecodeScalar(Utf8(c)) == Some(c)
  {
    var cp := c as int;
    var q1 := cp / 64;
    var q2 := q1 / 64;
    var bs := Utf8(c);
    assert cp == q1 * 64 + cp % 64;
    assert q1 == q2 * 64 + q1 % 64;
    if cp < 0x80 {
    } else if cp < 0x800 {
      assert bs == [0xC0 + q1, 0x80 + cp % 64];
      assert Payload(q1, bs[2..]) == q1;
      assert CodePoint(bs) == Payload(q1 * 64 + cp % 64, []);
    } else if cp < 0x1_0000 {
      assert bs == [0xE0 + q2, 0x80 + q1 % 64, 0x80 + cp % 64];
      assert CodePoint(bs) == Payload(q2, bs[1..]);
      assert bs[1..] == [0x80 + q1 % 64, 0x80 + cp % 64];
      assert Payload(q2, [0x80 + q1 % 64, 0x80 + cp % 64]) == Payload(q1, [0x80 + cp % 64]);
      assert Payload(q1, [0x80 + cp % 64]) == Payload(cp, []);
    } else {
      var q3 := q2 / 64;
      assert q2 == q3 * 64 + q2 % 64;
      assert bs == [0xF0 + q3, 0x80 + q2 % 64, 0x80 + q1 % 64, 0x80 + cp % 64];
      assert CodePoint(bs) == Payload(q3, bs[1..]);
      assert bs[1..][1..] == [0x80 + q1 % 64, 0x80 + cp % 64];
      assert bs[1..][1..][1..] == [0x80 + cp % 64];
      assert Payload(q3, bs[1..]) == Payload(q2, [0x80 + q1 % 64, 0x80 + cp % 64]);
      assert Payload(q2, [0x80 + q1 % 64, 0x80 + cp % 64]) == Payload(q1, [0x80 + cp % 64]);
    }
  }

  /** Decoding the encoding of one character, followed by anything, yields the
      character followed by the decoding of the rest. */
  lemma DecodeEncodeChar(c: char, rest: string)
    ensures Decode(EncodeChar(c) + rest) == Decode(rest).Map(r => [c] + r)
  {
    if Unreserved(c) {
      var t := [c] + rest;
      assert t[0] == c && t[1..] == rest;
    } else {
      DecodeEscaped(c, rest);
    }
  }

  lemma DecodeEscaped(c: char, rest: string)
    requires !Unreserved(c)
    ensures Decode(PercentBytes(Utf8(c)) + rest) == Decode(rest).Map(r => [c] + r)
  {
    var bs := Utf8(c);
    var t := PercentBytes(bs) + rest;
    Utf8Decodes(c);
    EscapesLead(bs, rest);
    assert t[0] == '%';
  }

  /** The escapes of a byte sequence, followed by anything, start with the
      first byte and then all of the bytes, and end where `rest` begins. */
  lemma EscapesLead(bs: seq<byte>, rest: string)
    requires |bs| > 0
    ensures var t := PercentBytes(bs) + rest;
            t[0] == '%' && LeadingByte(t) == Some(bs[0])
            && LeadingBytes(t, |bs|) == Some(bs) && t[3 * |bs|..] == rest
  {
    var head, tail := PercentByte(bs[0]), PercentBytes(bs[1..]);
    assert PercentBytes(bs) == head + tail;
    Associate(head, tail, rest);
    LeadingByteOfEscape(bs[0], tail + rest);
    LeadingBytesOfEscapes(bs, rest);
    DropPrefix(PercentBytes(bs), rest);
  }

  lemma Associate(a: string, b: string, c: string)
    ensures a + b + c == a + (b + c)
  {
  }

  lemma DropPrefix(a: string, b: string)
    ensures (a + b)[|a|..] == b
  {
  }

  /** `decodeURIComponent(encodeURIComponent(s)) === s`. */
  lemma {:induction false} DecodeEncode(s: string)
    ensures Decode(Encode(s)) == Some(s)
  {
    if |s| > 0 {
      DecodeEncodeChar(s[0], Encode(s[1..]));
      DecodeEncode(s[1..]);
      assert [s[0]] + s[1..] == s;
    }
  }

  /** Encoding is injective: different values never share an encoding. */
  lemma EncodeInjective(s: string, s': string)
    requires Encode(s) == Encode(s')
    ensures s == s'
  {
    DecodeEncode(s);
    DecodeEncode(s');
  }
}
