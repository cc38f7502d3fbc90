/** `encodeURIComponent` of ECMAScript: every code point outside the unescaped set
    (ASCII letters, digits and `- _ . ! ~ * ' ( )`) is written as the percent-encoding
    (section 2.1 of RFC 3986, upper-case hex) of each octet of its UTF-8 form.
    `Decode` is `decodeURIComponent`, the partner that the round trip is proved against.
    Since `char` holds Unicode scalar values only, the lone surrogates on which
    `encodeURIComponent` throws cannot occur. */
module UriComponent {
  import opened Optional

  type Byte = b: int | 0 <= b < 256

  /** The characters `encodeURIComponent` leaves unescaped. */
  predicate IsUnreserved(c: char)
  {
    ('A' <= c <= 'Z') || ('a' <= c <= 'z') || ('0' <= c <= '9') ||
    c == '-' || c == '_' || c == '.' || c == '!' || c == '~' || c == '*' ||
    c == '\'' || c == '(' || c == ')'
  }

  predicate IsHexDigit(c: char)
  {
    ('0' <= c <= '9') || ('A' <= c <= 'F') || ('a' <= c <= 'f')
  }

  /** What an encoded component may consist of. */
  predicate IsUriChar(c: char)
  {
    IsUnreserved(c) || c == '%' || IsHexDigit(c)
  }

  function HexDigit(d: int): (c: char)
    requires 0 <= d < 16
    ensures '0' <= c <= '9' || 'A' <= c <= 'F'
  {
    if d < 10 then ('0' as int + d) as char else ('A' as int + d - 10) as char
  }

  function HexValue(c: char): (d: int)
    requires IsHexDigit(c)
    ensures 0 <= d < 16
  {
    if '0' <= c <= '9' then c as int - '0' as int
    else if 'A' <= c <= 'F' then c as int - 'A' as int + 10
    else c as int - 'a' as int + 10
  }

  lemma HexValueOfDigit(d: int)
    requires 0 <= d < 16
    ensures IsHexDigit(HexDigit(d)) && HexValue(HexDigit(d)) == d
  {
  }

  /** UTF-8 form of one scalar value (RFC 3629, section 3). */
  function Utf8(c: char): (r: seq<Byte>)
    ensures 1 <= |r| <= 4
    ensures |r| == 1 <==> c as int < 0x80
  {
    var n := c as int;
    if n < 0x80 then [n]
    else if n < 0x800 then [0xC0 + n / 64, 0x80 + n % 64]
    else if n < 0x10000 then [0xE0 + n / 4096, 0x80 + (n / 64) % 64, 0x80 + n % 64]
    else [0xF0 + n / 262144, 0x80 + (n / 4096) % 64, 0x80 + (n / 64) % 64, 0x80 + n % 64]
  }

  /** `%XY` for one octet. */
  function Escape(b: Byte): (r: string)
    ensures |r| == 3 && r[0] == '%' && IsHexDigit(r[1]) && IsHexDigit(r[2])
  {
    ['%', HexDigit(b / 16), HexDigit(b % 16)]
  }

  function EscapeAll(bs: seq<Byte>): (r: string)
    ensures |r| == 3 * |bs|
    ensures forall k :: 0 <= k < |r| ==> IsUriChar(r[k])
  {
    if bs == [] then [] else Escape(bs[0]) + EscapeAll(bs[1..])
  }

  function EncodeChar(c: char): (r: string)
    ensures IsUnreserved(c) ==> r == [c]
    ensures !IsUnreserved(c) ==> 3 <= |r| && r[0] == '%'
    ensures forall k :: 0 <= k < |r| ==> IsUriChar(r[k])
  {
    if IsUnreserved(c) then [c] else EscapeAll(Utf8(c))
  }

  /** `encodeURIComponent(s)`: only URI characters come out, and the output is
      never shorter than the input. */
  function Encode(s: string): (r: string)
    ensures forall k :: 0 <= k < |r| ==> IsUriChar(r[k])
    ensures |r| >= |s|
  {
    if s == [] then [] else EncodeChar(s[0]) + Encode(s[1..])
  }

  /** The octet written as `%XY` at position `i`, if there is one. */
  function ByteAt(s: string, i: nat): (r: Option<Byte>)
  {
    if i + 3 <= |s| && s[i] == '%' && IsHexDigit(s[i + 1]) && IsHexDigit(s[i + 2])
    then Some(HexValue(s[i + 1]) * 16 + HexValue(s[i + 2]))
    else None
  }

  /** The low six bits of the continuation octet at `i`, if it is one. */
  function ContinuationAt(s: string, i: nat): (r: Option<int>)
    ensures r.Some? ==> 0 <= r.value < 64
  {
    match ByteAt(s, i)
    case Some(b) => if 0x80 <= b < 0xC0 then Some(b - 0x80) else None
    case None => None
  }

  predicate IsScalar(n: int)
  {
    (0 <= n < 0xD800) || (0xE000 <= n <= 0x10FFFF)
  }

  /** The decoded code point and the number of characters consumed, provided the
      code point is a scalar value and not written with more octets than it needs. */
  function Scalar(n: int, least: int, len: nat): Option<(char, nat)>
  {
    if least <= n && IsScalar(n) then Some((n as char, len)) else None
  }

  /** Decodes the escaped UTF-8 sequence at the start of `s` (which starts with `%`).
      A decoded character is a scalar value written with exactly as many octets as its
      UTF-8 form has, so overlong forms, surrogates and values past U+10FFFF fail. */
  function DecodeEscape(s: string): (r: Option<(char, nat)>)
    ensures r.Some? ==> 3 <= r.value.1 <= |s| && s[0] == '%'
    ensures r.Some? ==> IsScalar(r.value.0 as int) && r.value.1 == 3 * |Utf8(r.value.0)|
  {
    match ByteAt(s, 0)
    case None => None
    case Some(b0) =>
      if b0 < 0x80 then Some((b0 as char, 3))
      else if 0xC0 <= b0 < 0xE0 then
        match ContinuationAt(s, 3)
        case None => None
        case Some(c1) => if |s| < 6 then None else Scalar((b0 - 0xC0) * 64 + c1, 0x80, 6)
      else if 0xE0 <= b0 < 0xF0 then
        match (ContinuationAt(s, 3), ContinuationAt(s, 6))
        case (Some(c1), Some(c2)) =>
          if |s| < 9 then None else Scalar((b0 - 0xE0) * 4096 + c1 * 64 + c2, 0x800, 9)
        case _ => None
      else if 0xF0 <= b0 < 0xF8 then
        match (ContinuationAt(s, 3), ContinuationAt(s, 6), ContinuationAt(s, 9))
        case (Some(c1), Some(c2), Some(c3)) =>
          if |s| < 12 then None
          else Scalar((b0 - 0xF0) * 262144 + c1 * 4096 + c2 * 64 + c3, 0x10000, 12)
        case _ => None
      else None
  }

  function Prepend(c: char, r: Option<string>): Option<string>
  {
    match r
    case None => None
    case Some(t) => Some([c] + t)
  }

  /** `decodeURIComponent(s)`: `None` where it would throw a URIError. */
  function Decode(s: string): Option<string>
    decreases |s|
  {
    if s == [] then Some([])
    else if s[0] != '%' then Prepend(s[0], Decode(s[1..]))
    else
      match DecodeEscape(s)
      case None => None
      case Some((c, k)) => Prepend(c, Decode(s[k..]))
  }

  /** Reading an octet is unaffected by what precedes it. */
  lemma ByteAtShift(p: string, t: string, i: nat)
    ensures ByteAt(p + t, |p| + i) == ByteAt(t, i)
  {
    assert i + 3 <= |t| ==> (p + t)[|p| + i..|p| + i + 3] == t[i..i + 3];
  }

  lemma {:induction false} ByteAtEscapeAll(bs: seq<Byte>, rest: string, j: nat)
    requires j < |bs|
    ensures ByteAt(EscapeAll(bs) + rest, 3 * j) == Some(bs[j])
  {
    var b := bs[0];
    assert EscapeAll(bs) + rest == Escape(b) + (EscapeAll(bs[1..]) + rest);
    if j == 0 {
      HexValueOfDigit(b / 16);
      HexValueOfDigit(b % 16);
    } else {
      ByteAtEscapeAll(bs[1..], rest, j - 1);
      ByteAtShift(Escape(b), EscapeAll(bs[1..]) + rest, 3 * (j - 1));
    }
  }

  /** The escaped UTF-8 form of a character decodes back to that character. */
  lemma DecodeEscapeOfUtf8(c: char, rest: string)
    requires !IsUnreserved(c)
    ensures DecodeEscape(EscapeAll(Utf8(c)) + rest) == Some((c, 3 * |Utf8(c)|))
  {
    var n := c as int;
    if n < 0x80 {
      ByteAtEscapeAll(Utf8(c), rest, 0);
    } else if n < 0x800 {
      DecodeUtf8Two(c, rest);
    } else if n < 0x10000 {
      DecodeUtf8Three(c, rest);
    } else {
      DecodeUtf8Four(c, rest);
    }
  }

  lemma DecodeUtf8Two(c: char, rest: string)
    requires 0x80 <= c as int < 0x800
    ensures DecodeEscape(EscapeAll(Utf8(c)) + rest) == Some((c, 6))
  {
    var bs := Utf8(c);
    var s := EscapeAll(bs) + rest;
    var n := c as int;
    ByteAtEscapeAll(bs, rest, 0);
    ByteAtEscapeAll(bs, rest, 1);
    var b0: int, b1: int := bs[0], bs[1];
    DecodeTwo(s, bs[0], bs[1]);
    assert (b0 - 0xC0) * 64 + (b1 - 0x80) == n;
    ScalarOfChar(c, 0x80, 6);
  }

  lemma DecodeUtf8Three(c: char, rest: string)
    requires 0x800 <= c as int < 0x10000
    ensures DecodeEscape(EscapeAll(Utf8(c)) + rest) == Some((c, 9))
  {
    var bs := Utf8(c);
    var s := EscapeAll(bs) + rest;
    var n := c as int;
    ByteAtEscapeAll(bs, rest, 0);
    ByteAtEscapeAll(bs, rest, 1);
    ByteAtEscapeAll(bs, rest, 2);
    var b0: int, b1: int, b2: int := bs[0], bs[1], bs[2];
    assert 0xE0 <= b0 < 0xF0 && 0x80 <= b1 < 0xC0 && 0x80 <= b2 < 0xC0;
    DecodeThree(s, bs[0], bs[1], bs[2]);
    assert (b0 - 0xE0) * 4096 + (b1 - 0x80) * 64 + (b2 - 0x80) == n by { Split3(n); }
    ScalarOfChar(c, 0x800, 9);
  }

  lemma DecodeUtf8Four(c: char, rest: string)
    requires 0x10000 <= c as int
    ensures DecodeEscape(EscapeAll(Utf8(c)) + rest) == Some((c, 12))
  {
    var bs := Utf8(c);
    var s := EscapeAll(bs) + rest;
    var n := c as int;
    ByteAtEscapeAll(bs, rest, 0);
    ByteAtEscapeAll(bs, rest, 1);
    ByteAtEscapeAll(bs, rest, 2);
    ByteAtEscapeAll(bs, rest, 3);
    var b0: int, b1: int, b2: int, b3: int := bs[0], bs[1], bs[2], bs[3];
    assert n / 262144 <= 4;
    assert 0xF0 <= b0 < 0xF8 && 0x80 <= b1 < 0xC0 && 0x80 <= b2 < 0xC0 && 0x80 <= b3 < 0xC0;
    DecodeFour(s, bs[0], bs[1], bs[2], bs[3]);
    assert (b0 - 0xF0) * 262144 + (b1 - 0x80) * 4096 + (b2 - 0x80) * 64 + (b3 - 0x80) == n by { Split4(n); }
    ScalarOfChar(c, 0x10000, 12);
  }

  lemma ScalarOfChar(c: char, least: int, len: nat)
    requires least <= c as int
    ensures Scalar(c as int, least, len) == Some((c, len))
  {
  }

  lemma DecodeTwo(s: string, b0: Byte, b1: Byte)
    requires ByteAt(s, 0) == Some(b0) && ByteAt(s, 3) == Some(b1)
    requires 0xC0 <= b0 < 0xE0 && 0x80 <= b1 < 0xC0
    ensures DecodeEscape(s) == Scalar((b0 - 0xC0) * 64 + (b1 - 0x80), 0x80, 6)
  {
  }

  lemma DecodeThree(s: string, b0: Byte, b1: Byte, b2: Byte)
    requires ByteAt(s, 0) == Some(b0) && ByteAt(s, 3) == Some(b1) && ByteAt(s, 6) == Some(b2)
    requires 0xE0 <= b0 < 0xF0 && 0x80 <= b1 < 0xC0 && 0x80 <= b2 < 0xC0
    ensures DecodeEscape(s) == Scalar((b0 - 0xE0) * 4096 + (b1 - 0x80) * 64 + (b2 - 0x80), 0x800, 9)
  {
  }

  lemma DecodeFour(s: string, b0: Byte, b1: Byte, b2: Byte, b3: Byte)
    requires ByteAt(s, 0) == Some(b0) && ByteAt(s, 3) == Some(b1)
    requires ByteAt(s, 6) == Some(b2) && ByteAt(s, 9) == Some(b3)
    requires 0xF0 <= b0 < 0xF8 && 0x80 <= b1 < 0xC0 && 0x80 <= b2 < 0xC0 && 0x80 <= b3 < 0xC0
    ensures DecodeEscape(s) ==
      Scalar((b0 - 0xF0) * 262144 + (b1 - 0x80) * 4096 + (b2 - 0x80) * 64 + (b3 - 0x80), 0x10000, 12)
  {
  }

  lemma Split3(n: int)
    requires 0 <= n
    ensures (n / 4096) * 4096 + ((n / 64) % 64) * 64 + n % 64 == n
  {
    assert n / 4096 == (n / 64) / 64;
  }

  lemma Split4(n: int)
    requires 0 <= n
    ensures (n / 262144) * 262144 + ((n / 4096) % 64) * 4096 + ((n / 64) % 64) * 64 + n % 64 == n
  {
    assert n / 262144 == (n / 4096) / 64;
    assert n / 4096 == (n / 64) / 64;
  }

  /** Decoding the encoding of one character yields that character, then
      whatever the rest decodes to. */
  lemma DecodeEncodeChar(c: char, rest: string)
    ensures Decode(EncodeChar(c) + rest) == Prepend(c, Decode(rest))
  {
    var s := EncodeChar(c) + rest;
    if IsUnreserved(c) {
      assert s[1..] == rest;
    } else {
      DecodeEscapeOfUtf8(c, rest);
      assert s[3 * |Utf8(c)|..] == rest;
    }
  }

  /** `decodeURIComponent(encodeURIComponent(s)) == s`. */
  lemma {:induction false} DecodeEncode(s: string)
    ensures Decode(Encode(s)) == Some(s)
  {
    if s != [] {
      DecodeEncode(s[1..]);
      DecodeEncodeChar(s[0], Encode(s[1..]));
      assert [s[0]] + s[1..] == s;
    }
  }

  /** The encoding is the identity exactly on strings made of unescaped
      characters; anything else makes it strictly longer. */
  lemma {:induction false} EncodeIdentityIff(s: string)
    ensures Encode(s) == s <==> forall k :: 0 <= k < |s| ==> IsUnreserved(s[k])
    ensures Encode(s) != s ==> |Encode(s)| > |s|
  {
    if s != [] {
      EncodeIdentityIff(s[1..]);
      if IsUnreserved(s[0]) {
        assert Encode(s) == [s[0]] + Encode(s[1..]);
        assert forall k :: 1 <= k < |s| ==> s[k] == s[1..][k - 1];
        assert Encode(s) == s ==> Encode(s[1..]) == s[1..];
        assert s == [s[0]] + s[1..];
      }
    }
  }

  /** The encoded text holds no whitespace (spaces become `%20`). */
  lemma EncodeHasNoWhitespace(s: string)
    ensures forall k :: 0 <= k < |Encode(s)| ==> Encode(s)[k] != ' ' && Encode(s)[k] as int > 0x20
  {
  }
}
