/**
 * JavaScript's `encodeURIComponent`: every character outside the unreserved
 * set `A-Z a-z 0-9 - _ . ! ~ * ' ( )` is written as the `%XX` escapes of its
 * UTF-8 bytes, with upper-case hexadecimal digits.
 */
module UriEncoding {

  newtype byte = b: int | 0 <= b < 256

  predicate IsUnreserved(c: char) {
    ('A' <= c <= 'Z') || ('a' <= c <= 'z') || ('0' <= c <= '9')
    || c == '-' || c == '_' || c == '.' || c == '!' || c == '~' || c == '*'
    || c == '\'' || c == '(' || c == ')'
  }

  /** The UTF-8 encoding of one character (a Unicode scalar value). */
  function Utf8(c: char): (bs: seq<byte>)
    ensures 1 <= |bs| <= 4
    ensures (c as int < 0x80) <==> |bs| == 1
    ensures |bs| == 1 ==> bs[0] as int == c as int
  {
    var cp := c as int;
    if cp < 0x80 then [cp as byte]
    else if cp < 0x800 then [(0xC0 + cp / 64) as byte, (0x80 + cp % 64) as byte]
    else if cp < 0x10000 then
      [(0xE0 + cp / 4096) as byte, (0x80 + (cp / 64) % 64) as byte, (0x80 + cp % 64) as byte]
    else
      [(0xF0 + cp / 262144) as byte, (0x80 + (cp / 4096) % 64) as byte,
       (0x80 + (cp / 64) % 64) as byte, (0x80 + cp % 64) as byte]
  }

  function Utf8String(s: string): seq<byte> {
    if s == [] then [] else Utf8(s[0]) + Utf8String(s[1..])
  }

  function HexDigit(d: int): (c: char)
    requires 0 <= d < 16
    ensures IsUnreserved(c) && HexValue(c) == d
  {
    if d < 10 then ('0' as int + d) as char else ('A' as int + d - 10) as char
  }

  /** The value of a hexadecimal digit, either case; 0 for anything else. */
  function HexValue(c: char): (d: int)
    ensures 0 <= d < 16
  {
    if '0' <= c <= '9' then c as int - '0' as int
    else if 'A' <= c <= 'F' then c as int - 'A' as int + 10
    else if 'a' <= c <= 'f' then c as int - 'a' as int + 10
    else 0
  }

  function Escape(b: byte): (s: string)
    ensures |s| == 3 && s[0] == '%' && IsUnreserved(s[1]) && IsUnreserved(s[2])
  {
    ['%', HexDigit(b as int / 16), HexDigit(b as int % 16)]
  }

  function EscapeAll(bs: seq<byte>): (s: string)
    ensures |s| == 3 * |bs|
    ensures forall k :: 0 <= k < |s| ==> s[k] == '%' || IsUnreserved(s[k])
  {
    if bs == [] then [] else Escape(bs[0]) + EscapeAll(bs[1..])
  }

  function EncodeChar(c: char): (s: string)
    ensures forall k :: 0 <= k < |s| ==> s[k] == '%' || IsUnreserved(s[k])
  {
    if IsUnreserved(c) then [c] else EscapeAll(Utf8(c))
  }

  /** `encodeURIComponent(s)`. */
  function EncodeUriComponent(s: string): (r: string)
    ensures |r| >= |s|
    ensures forall k :: 0 <= k < |r| ==> r[k] == '%' || IsUnreserved(r[k])
  {
    if s == [] then [] else EncodeChar(s[0]) + EncodeUriComponent(s[1..])
  }

  /** Percent-decoding to bytes: `%XY` is one byte, any other character is
      taken as its own (single-byte) code. */
  function DecodeToBytes(s: string): seq<int>
  {
    if s == [] then []
    else if s[0] == '%' && |s| >= 3 then [HexValue(s[1]) * 16 + HexValue(s[2])] + DecodeToBytes(s[3..])
    else [s[0] as int] + DecodeToBytes(s[1..])
  }

  function AsInts(bs: seq<byte>): (r: seq<int>)
    ensures |r| == |bs| && forall k :: 0 <= k < |bs| ==> r[k] == bs[k] as int
  {
    if bs == [] then [] else [bs[0] as int] + AsInts(bs[1..])
  }

  lemma {:induction false} DecodeEscapes(bs: seq<byte>, rest: string)
    ensures DecodeToBytes(EscapeAll(bs) + rest) == AsInts(bs) + DecodeToBytes(rest)
  {
    if bs != [] {
      var e := Escape(bs[0]);
      var t := EscapeAll(bs[1..]);
      assert EscapeAll(bs) + rest == e + (t + rest);
      assert (e + (t + rest))[3..] == t + rest;
      DecodeEscapes(bs[1..], rest);
      assert HexValue(e[1]) * 16 + HexValue(e[2]) == bs[0] as int;
      assert (e + (t + rest))[0] == '%' && (e + (t + rest))[1] == e[1] && (e + (t + rest))[2] == e[2];
      assert DecodeToBytes(e + (t + rest)) == [bs[0] as int] + DecodeToBytes(t + rest);
      assert AsInts(bs) == [bs[0] as int] + AsInts(bs[1..]);
      calc {
        DecodeToBytes(EscapeAll(bs) + rest);
        DecodeToBytes(e + (t + rest));
        [bs[0] as int] + (AsInts(bs[1..]) + DecodeToBytes(rest));
        AsInts(bs) + DecodeToBytes(rest);
      }
    } else {
      assert EscapeAll(bs) + rest == rest;
    }
  }

  lemma AsIntsAppend(a: seq<byte>, b: seq<byte>)
    ensures AsInts(a + b) == AsInts(a) + AsInts(b)
  {
  }

  lemma {:induction false} Utf8StringAppend(c: char, s: string)
    ensures Utf8String([c] + s) == Utf8(c) + Utf8String(s)
  {
    assert ([c] + s)[1..] == s;
  }

  /** Decoding the percent escapes of the encoded text gives back exactly the
      UTF-8 bytes of the original: the encoding loses nothing. */
  lemma {:induction false} DecodeEncode(s: string)
    ensures DecodeToBytes(EncodeUriComponent(s)) == AsInts(Utf8String(s))
  {
    if s != [] {
      var c := s[0];
      var rest := EncodeUriComponent(s[1..]);
      DecodeEncode(s[1..]);
      AsIntsAppend(Utf8(c), Utf8String(s[1..]));
      if IsUnreserved(c) {
        assert ([c] + rest)[1..] == rest;
        assert c != '%';
      } else {
        DecodeEscapes(Utf8(c), rest);
      }
    }
  }

  /** Text made only of unreserved characters is left as it is. */
  lemma {:induction false} UnreservedUnchanged(s: string)
    requires forall k :: 0 <= k < |s| ==> IsUnreserved(s[k])
    ensures EncodeUriComponent(s) == s
  {
    if s != [] {
      UnreservedUnchanged(s[1..]);
      assert [s[0]] + s[1..] == s;
    }
  }

  /** The encoded text cannot end the query parameter or start a fragment. */
  lemma NoQuerySeparators(s: string)
    ensures '&' !in EncodeUriComponent(s) && '#' !in EncodeUriComponent(s)
    ensures '=' !in EncodeUriComponent(s) && ' ' !in EncodeUriComponent(s)
  {
  }
}
