/**
 * ECMAScript's `encodeURIComponent` (ECMA-262 section 19.2.6, URI Handling
 * Functions) over Dafny strings, and `decodeURIComponent` as its inverse.
 *
 * A Dafny `char` is a Unicode scalar value, so every Dafny string is a
 * well-formed UTF-16 string in JavaScript terms: the lone-surrogate case in
 * which `encodeURIComponent` throws a `URIError` cannot arise here.
 */
module UriComponent {
  import opened Wrappers

  type Byte = x: int | 0 <= x < 256

  /** The characters `encodeURIComponent` leaves unescaped: uriAlpha, DecimalDigit and uriMark. */
  predicate IsUnreserved(c: char) {
    ('A' <= c <= 'Z') || ('a' <= c <= 'z') || ('0' <= c <= '9') || c in "-_.!~*'()"
  }

  /** An upper-case hexadecimal digit, the form `encodeURIComponent` writes. */
  predicate IsUpperHex(c: char) {
    ('0' <= c <= '9') || ('A' <= c <= 'F')
  }

  /**
   * The shape of every `encodeURIComponent` result: each character is unreserved,
   * or is a `%` that starts a triple `%XX` of upper-case hex digits.  Since the
   * hex digits are themselves unreserved and never `%`, this is exactly the
   * language of strings made of unreserved characters and `%XX` triples.
   */
  predicate WellEncoded(s: string) {
    forall i :: 0 <= i < |s| ==> EncodedAt(s, i)
  }

  /** Position `i` of `s` holds an unreserved character or starts a `%XX` triple. */
  predicate EncodedAt(s: string, i: nat)
    requires i < |s|
  {
    IsUnreserved(s[i]) ||
    (s[i] == '%' && i + 2 < |s| && IsUpperHex(s[i + 1]) && IsUpperHex(s[i + 2]))
  }

  function HexDigit(d: int): (c: char)
    requires 0 <= d < 16
    ensures IsUpperHex(c)
  {
    if d < 10 then (48 + d) as char else (55 + d) as char
  }

  /** The UTF-8 octets of one code point (RFC 3629 section 3). */
  function Utf8Encode(c: char): (bs: seq<Byte>)
    ensures 1 <= |bs| <= 4
    ensures (|bs| == 1) == (c as int < 0x80)
  {
    var cp := c as int;
    if cp < 0x80 then
      [cp]
    else if cp < 0x800 then
      [0xC0 + cp / 64, 0x80 + cp % 64]
    else if cp < 0x10000 then
      [0xE0 + cp / 4096, 0x80 + (cp / 64) % 64, 0x80 + cp % 64]
    else
      [0xF0 + cp / 262144, 0x80 + (cp / 4096) % 64, 0x80 + (cp / 64) % 64, 0x80 + cp % 64]
  }

  /** Each octet written as `%` followed by two upper-case hex digits. */
  function PercentEncode(bs: seq<Byte>): (r: string)
    ensures |r| == 3 * |bs|
    ensures WellEncoded(r)
  {
    if bs == [] then []
    else
      var head := ['%', HexDigit(bs[0] / 16), HexDigit(bs[0] % 16)];
      var tail := PercentEncode(bs[1..]);
      TripleWellEncoded(head);
      AppendWellEncoded(head, tail);
      head + tail
  }

  lemma TripleWellEncoded(t: string)
    requires |t| == 3 && t[0] == '%' && IsUpperHex(t[1]) && IsUpperHex(t[2])
    ensures WellEncoded(t)
  {
    assert EncodedAt(t, 0) && EncodedAt(t, 1) && EncodedAt(t, 2);
  }

  function EncodeChar(c: char): (r: string)
    ensures WellEncoded(r)
    ensures 1 <= |r|
  {
    if IsUnreserved(c) then [c] else PercentEncode(Utf8Encode(c))
  }

  /** `encodeURIComponent(s)`. */
  function EncodeURIComponent(s: string): (r: string)
    ensures WellEncoded(r)
    ensures |s| <= |r|
  {
    if s == [] then []
    else
      var head := EncodeChar(s[0]);
      var tail := EncodeURIComponent(s[1..]);
      AppendWellEncoded(head, tail);
      head + tail
  }

  lemma AppendWellEncoded(a: string, b: string)
    requires WellEncoded(a) && WellEncoded(b)
    ensures WellEncoded(a + b)
  {
    var ab := a + b;
    forall i | 0 <= i < |ab|
      ensures EncodedAt(ab, i)
    {
      if i < |a| {
        assert ab[i] == a[i];
        assert EncodedAt(a, i);
        if !IsUnreserved(a[i]) {
          assert ab[i + 1] == a[i + 1] && ab[i + 2] == a[i + 2];
        }
      } else {
        var j := i - |a|;
        assert ab[i] == b[j];
        assert EncodedAt(b, j);
        if !IsUnreserved(b[j]) {
          assert ab[i + 1] == b[j + 1] && ab[i + 2] == b[j + 2];
        }
      }
    }
  }

  /**
   * An encoded value carries none of the characters that would end its query
   * field (`&`), start another key's value (`=`), start a fragment (`#`),
   * look like a template placeholder (`{`, `}`) or a replacement pattern (`$`),
   * and no `+`, which some query readers take for a space.
   */
  lemma EncodedHasNoDelimiters(s: string)
    ensures var r := EncodeURIComponent(s);
      '&' !in r && '=' !in r && '#' !in r && '?' !in r &&
      '{' !in r && '}' !in r && '$' !in r && ' ' !in r && '+' !in r
  {
    var r := EncodeURIComponent(s);
    EscapedCharAbsent(r, '&');
    EscapedCharAbsent(r, '=');
    EscapedCharAbsent(r, '#');
    EscapedCharAbsent(r, '?');
    EscapedCharAbsent(r, '{');
    EscapedCharAbsent(r, '}');
    EscapedCharAbsent(r, '$');
    EscapedCharAbsent(r, ' ');
    EscapedCharAbsent(r, '+');
  }

  /** A well-encoded string holds no reserved character other than `%`. */
  lemma EscapedCharAbsent(r: string, ch: char)
    requires WellEncoded(r)
    requires !IsUnreserved(ch) && ch != '%'
    ensures ch !in r
  {
    forall i | 0 <= i < |r|
      ensures r[i] != ch
    {
      assert EncodedAt(r, i);
    }
  }

  /** Strings made only of unreserved characters pass through unchanged. */
  lemma {:induction false} EncodeUnreservedIsIdentity(s: string)
    requires forall i :: 0 <= i < |s| ==> IsUnreserved(s[i])
    ensures EncodeURIComponent(s) == s
  {
    if s != [] {
      EncodeUnreservedIsIdentity(s[1..]);
      assert s == [s[0]] + s[1..];
    }
  }

  lemma {:induction false} EncodeAppend(a: string, b: string)
    ensures EncodeURIComponent(a + b) == EncodeURIComponent(a) + EncodeURIComponent(b)
  {
    if a == [] {
      assert a + b == b;
    } else {
      assert (a + b)[0] == a[0];
      assert (a + b)[1..] == a[1..] + b;
      EncodeAppend(a[1..], b);
    }
  }

  /** A space is written `%20`: `Arial Sans` becomes `Arial%20Sans`. */
  lemma SpaceEncoded(a: string, b: string)
    requires forall i :: 0 <= i < |a| ==> IsUnreserved(a[i])
    requires forall i :: 0 <= i < |b| ==> IsUnreserved(b[i])
    ensures EncodeURIComponent(a + " " + b) == a + "%20" + b
  {
    EncodeAppend(a, " ");
    EncodeAppend(a + " ", b);
    EncodeUnreservedIsIdentity(a);
    EncodeUnreservedIsIdentity(b);
    EncodeSpace();
  }

  lemma EncodeSpace()
    ensures EncodeURIComponent(" ") == "%20"
  {
    assert Utf8Encode(' ') == [32];
    assert HexDigit(2) == '2' && HexDigit(0) == '0';
    assert PercentEncode([32]) == "%20";
  }

  // ---------------------------------------------------------------------------
  // decodeURIComponent: the inverse
  // ---------------------------------------------------------------------------

  /** Hex digits in either case, as `decodeURIComponent` accepts. */
  function HexValue(c: char): (v: Option<int>)
    ensures v.Some? ==> 0 <= v.value < 16
  {
    if '0' <= c <= '9' then Some(c as int - 48)
    else if 'A' <= c <= 'F' then Some(c as int - 55)
    else if 'a' <= c <= 'f' then Some(c as int - 87)
    else None
  }

  /** The octet written as `%XX` at position `k` of `s`, if there is one. */
  function OctetAt(s: string, k: nat): Option<Byte> {
    if k + 3 <= |s| && s[k] == '%' && HexValue(s[k + 1]).Some? && HexValue(s[k + 2]).Some? then
      Some(HexValue(s[k + 1]).value * 16 + HexValue(s[k + 2]).value)
    else
      None
  }

  /** The six payload bits of a UTF-8 continuation octet written at position `k`. */
  function ContinuationAt(s: string, k: nat): (v: Option<int>)
    ensures v.Some? ==> 0 <= v.value < 64
  {
    match OctetAt(s, k)
    case Some(b) => if 0x80 <= b < 0xC0 then Some(b - 0x80) else None
    case None => None
  }

  /**
   * Decodes the first unit of `s`: a literal character, or the `%XX` triples of
   * one UTF-8 sequence.  Truncated, overlong, surrogate and out-of-range
   * sequences are rejected, as `decodeURIComponent` rejects them with a `URIError`.
   */
  function DecodeUnit(s: string): (r: Option<(char, nat)>)
    requires |s| > 0
    ensures r.Some? ==> 1 <= r.value.1 <= |s|
  {
    if s[0] != '%' then Some((s[0], 1))
    else match OctetAt(s, 0)
      case None => None
      case Some(b0) =>
        if b0 < 0x80 then Some((b0 as char, 3))
        else if 0xC0 <= b0 < 0xE0 then
          match ContinuationAt(s, 3)
          case None => None
          case Some(c1) =>
            var cp := (b0 - 0xC0) * 64 + c1;
            if cp < 0x80 then None else Some((cp as char, 6))
        else if 0xE0 <= b0 < 0xF0 then
          match (ContinuationAt(s, 3), ContinuationAt(s, 6))
          case (Some(c1), Some(c2)) =>
            var cp := (b0 - 0xE0) * 4096 + c1 * 64 + c2;
            if cp < 0x800 || (0xD800 <= cp < 0xE000) then None else Some((cp as char, 9))
          case _ => None
        else if 0xF0 <= b0 < 0xF8 then
          match (ContinuationAt(s, 3), ContinuationAt(s, 6), ContinuationAt(s, 9))
          case (Some(c1), Some(c2), Some(c3)) =>
            var cp := (b0 - 0xF0) * 262144 + c1 * 4096 + c2 * 64 + c3;
            if cp < 0x10000 || cp > 0x10FFFF then None else Some((cp as char, 12))
          case _ => None
        else None
  }

  /** `decodeURIComponent(s)`; `None` where it would throw a `URIError`. */
  function DecodeURIComponent(s: string): Option<string>
    decreases |s|
  {
    if s == [] then Some([])
    else match DecodeUnit(s)
      case None => None
      case Some((c, n)) =>
        match DecodeURIComponent(s[n..])
        case None => None
        case Some(t) => Some([c] + t)
  }

  lemma HexDigitValue(d: int)
    requires 0 <= d < 16
    ensures HexValue(HexDigit(d)) == Some(d)
  {}

  lemma {:induction false} PercentEncodeAt(bs: seq<Byte>, rest: string, i: nat)
    requires i < |bs|
    ensures OctetAt(PercentEncode(bs) + rest, 3 * i) == Some(bs[i])
  {
    var head := ['%', HexDigit(bs[0] / 16), HexDigit(bs[0] % 16)];
    var tail := PercentEncode(bs[1..]);
    assert PercentEncode(bs) + rest == head + (tail + rest);
    if i == 0 {
      HexDigitValue(bs[0] / 16);
      HexDigitValue(bs[0] % 16);
    } else {
      PercentEncodeAt(bs[1..], rest, i - 1);
      var s := tail + rest;
      var k := 3 * (i - 1);
      assert (head + s)[3 * i] == s[k];
      assert (head + s)[3 * i + 1] == s[k + 1];
      assert (head + s)[3 * i + 2] == s[k + 2];
    }
  }

  /** Decoding the encoding of one character gives that character back and consumes exactly its encoding. */
  lemma DecodeUnitOfEncodeChar(c: char, rest: string)
    ensures DecodeUnit(EncodeChar(c) + rest) == Some((c, |EncodeChar(c)|))
  {
    if !IsUnreserved(c) {
      var cp := c as int;
      if cp < 0x80 {
        DecodeOneOctet(c, rest);
      } else if cp < 0x800 {
        DecodeTwoOctets(c, rest);
      } else if cp < 0x10000 {
        DecodeThreeOctets(c, rest);
      } else {
        DecodeFourOctets(c, rest);
      }
    }
  }

  lemma DecodeOneOctet(c: char, rest: string)
    requires !IsUnreserved(c) && c as int < 0x80
    ensures DecodeUnit(EncodeChar(c) + rest) == Some((c, |EncodeChar(c)|))
  {
    var bs := Utf8Encode(c);
    var s := EncodeChar(c) + rest;
    PercentEncodeAt(bs, rest, 0);
    assert s[0] == '%';
  }

  lemma DecodeTwoOctets(c: char, rest: string)
    requires !IsUnreserved(c) && 0x80 <= c as int < 0x800
    ensures DecodeUnit(EncodeChar(c) + rest) == Some((c, |EncodeChar(c)|))
  {
    var cp := c as int;
    var bs := Utf8Encode(c);
    var s := EncodeChar(c) + rest;
    PercentEncodeAt(bs, rest, 0);
    PercentEncodeAt(bs, rest, 1);
    assert OctetAt(s, 0) == Some(0xC0 + cp / 64);
    assert ContinuationAt(s, 3) == Some(cp % 64);
  }

  lemma DecodeThreeOctets(c: char, rest: string)
    requires !IsUnreserved(c) && 0x800 <= c as int < 0x10000
    ensures DecodeUnit(EncodeChar(c) + rest) == Some((c, |EncodeChar(c)|))
  {
    var cp := c as int;
    var bs := Utf8Encode(c);
    var s := EncodeChar(c) + rest;
    PercentEncodeAt(bs, rest, 0);
    PercentEncodeAt(bs, rest, 1);
    PercentEncodeAt(bs, rest, 2);
    var b0, c1, c2 := 0xE0 + cp / 4096, (cp / 64) % 64, cp % 64;
    assert OctetAt(s, 0) == Some(b0);
    assert ContinuationAt(s, 3) == Some(c1);
    assert ContinuationAt(s, 6) == Some(c2);
    ThreeOctetArithmetic(cp);
    DecodeThreeOctetUnit(s, b0, c1, c2, c);
  }

  /** Three octets that spell a code point outside the surrogates decode to it. */
  lemma DecodeThreeOctetUnit(s: string, b0: int, c1: int, c2: int, c: char)
    requires |s| > 0 && s[0] == '%' && OctetAt(s, 0) == Some(b0) && 0xE0 <= b0 < 0xF0
    requires ContinuationAt(s, 3) == Some(c1) && ContinuationAt(s, 6) == Some(c2)
    requires (b0 - 0xE0) * 4096 + c1 * 64 + c2 == c as int && 0x800 <= c as int
    ensures DecodeUnit(s) == Some((c, 9))
  {}

  lemma ThreeOctetArithmetic(cp: int)
    requires 0x800 <= cp < 0x10000
    ensures (cp / 4096) * 4096 + ((cp / 64) % 64) * 64 + cp % 64 == cp
  {}

  lemma FourOctetArithmetic(cp: int)
    requires 0x10000 <= cp < 0x110000
    ensures (cp / 262144) * 262144 + ((cp / 4096) % 64) * 4096 + ((cp / 64) % 64) * 64 + cp % 64 == cp
  {}

  lemma DecodeFourOctets(c: char, rest: string)
    requires !IsUnreserved(c) && 0x10000 <= c as int
    ensures DecodeUnit(EncodeChar(c) + rest) == Some((c, |EncodeChar(c)|))
  {
    var cp := c as int;
    var bs := Utf8Encode(c);
    var s := EncodeChar(c) + rest;
    PercentEncodeAt(bs, rest, 0);
    PercentEncodeAt(bs, rest, 1);
    PercentEncodeAt(bs, rest, 2);
    PercentEncodeAt(bs, rest, 3);
    var b0, c1, c2, c3 := 0xF0 + cp / 262144, (cp / 4096) % 64, (cp / 64) % 64, cp % 64;
    assert OctetAt(s, 0) == Some(b0);
    assert ContinuationAt(s, 3) == Some(c1);
    assert ContinuationAt(s, 6) == Some(c2);
    assert ContinuationAt(s, 9) == Some(c3);
    FourOctetArithmetic(cp);
    DecodeFourOctetUnit(s, b0, c1, c2, c3, c);
  }

  /** Four octets that spell a code point from U+10000 on decode to it. */
  lemma DecodeFourOctetUnit(s: string, b0: int, c1: int, c2: int, c3: int, c: char)
    requires |s| > 0 && s[0] == '%' && OctetAt(s, 0) == Some(b0) && 0xF0 <= b0 < 0xF8
    requires ContinuationAt(s, 3) == Some(c1) && ContinuationAt(s, 6) == Some(c2)
    requires ContinuationAt(s, 9) == Some(c3)
    requires (b0 - 0xF0) * 262144 + c1 * 4096 + c2 * 64 + c3 == c as int && 0x10000 <= c as int
    ensures DecodeUnit(s) == Some((c, 12))
  {}

  /** Round trip: `decodeURIComponent(encodeURIComponent(s)) == s`. */
  lemma {:induction false} DecodeEncode(s: string)
    ensures DecodeURIComponent(EncodeURIComponent(s)) == Some(s)
  {
    if s != [] {
      var head := EncodeChar(s[0]);
      var tail := EncodeURIComponent(s[1..]);
      var c, t := s[0], s[1..];
      assert s == [c] + t;
      assert EncodeURIComponent(s) == head + tail;
      DecodeUnitOfEncodeChar(c, tail);
      DecodeEncode(t);
      DecodeStep(head, tail, c, t);
    }
  }

  /** Decoding a unit that spans `head` and then the rest. */
  lemma DecodeStep(head: string, tail: string, c: char, t: string)
    requires |head| > 0 && DecodeUnit(head + tail) == Some((c, |head|))
    requires DecodeURIComponent(tail) == Some(t)
    ensures DecodeURIComponent(head + tail) == Some([c] + t)
  {
    assert (head + tail)[|head|..] == tail;
  }

  /** Distinct inputs give distinct encodings, so the encoded field identifies its value. */
  lemma EncodeInjective(a: string, b: string)
    requires EncodeURIComponent(a) == EncodeURIComponent(b)
    ensures a == b
  {
    DecodeEncode(a);
    DecodeEncode(b);
  }
}
