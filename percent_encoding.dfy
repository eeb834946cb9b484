/**
 * Uri.EscapeDataString: a string's UTF-8 bytes, each byte outside the
 * unreserved set of section 2.3 of RFC 3986 written as `%` and two upper-case
 * hexadecimal digits (section 2.1 of RFC 3986). The decoder beside it is the
 * reference inverse the round-trip lemma is stated against.
 */
module PercentEncoding {
  import opened Wrappers
  import opened Utf8

  /** ALPHA / DIGIT / "-" / "." / "_" / "~" (section 2.3 of RFC 3986). */
  predicate IsUnreserved(c: char) {
    'A' <= c <= 'Z' || 'a' <= c <= 'z' || '0' <= c <= '9' || c == '-' || c == '.' || c == '_' || c == '~'
  }

  /** A character an escaped string may hold: unreserved, or the `%` that opens an escape. */
  predicate IsEscapedChar(c: char) {
    IsUnreserved(c) || c == '%'
  }

  const HexDigits: string := "0123456789ABCDEF"

  /** The value of a hexadecimal digit of either case. */
  function HexValue(c: char): (r: Option<int>)
    ensures r.Some? ==> 0 <= r.value < 16
    ensures forall d | 0 <= d < 16 :: c == HexDigits[d] ==> r == Some(d)
  {
    if '0' <= c <= '9' then Some(c as int - '0' as int)
    else if 'A' <= c <= 'F' then Some(c as int - 'A' as int + 10)
    else if 'a' <= c <= 'f' then Some(c as int - 'a' as int + 10)
    else None
  }

  /** One byte: itself when it is an unreserved ASCII character, else `%XX`. */
  function EscapeByte(b: byte): (r: string)
    ensures forall i | 0 <= i < |r| :: IsEscapedChar(r[i])
    ensures |r| == 1 <==> b < 0x80 && IsUnreserved(b as char)
  {
    if b < 0x80 && IsUnreserved(b as char) then [b as char]
    else ['%', HexDigits[b as int / 16], HexDigits[b as int % 16]]
  }

  function EscapeBytes(bs: seq<byte>): (r: string)
    ensures forall i | 0 <= i < |r| :: IsEscapedChar(r[i])
  {
    if bs == [] then [] else EscapeByte(bs[0]) + EscapeBytes(bs[1..])
  }

  /** Uri.EscapeDataString. Its output holds none of the query delimiters `&`, `=`, `?`. */
  function EscapeDataString(s: string): (r: string)
    ensures forall i | 0 <= i < |r| :: IsEscapedChar(r[i])
    ensures '&' !in r && '=' !in r && '?' !in r
  {
    EscapeBytes(Encode(s))
  }

  function Prepend(b: byte, rest: Option<seq<byte>>): Option<seq<byte>> {
    match rest
    case None => None
    case Some(bs) => Some([b] + bs)
  }

  /** Percent-decoding to bytes: `%XX` is one byte, any other ASCII character its code; None otherwise. */
  function UnescapeBytes(s: string): Option<seq<byte>> {
    if s == [] then Some([])
    else if s[0] == '%' then
      if 3 <= |s| && HexValue(s[1]).Some? && HexValue(s[2]).Some? then
        Prepend((HexValue(s[1]).value * 16 + HexValue(s[2]).value) as byte, UnescapeBytes(s[3..]))
      else None
    else if s[0] as int < 0x80 then Prepend(s[0] as int as byte, UnescapeBytes(s[1..]))
    else None
  }

  /** Percent-decoding followed by UTF-8 decoding. */
  function UnescapeDataString(s: string): Option<string> {
    match UnescapeBytes(s)
    case None => None
    case Some(bs) => Decode(bs)
  }

  lemma UnescapeEscapeByte(b: byte, rest: string)
    ensures UnescapeBytes(EscapeByte(b) + rest) == Prepend(b, UnescapeBytes(rest))
  {
    if b < 0x80 && IsUnreserved(b as char) {
      UnescapePlainByte(b, rest);
    } else {
      UnescapePercentByte(b, rest);
    }
  }

  lemma UnescapePlainByte(b: byte, rest: string)
    requires b < 0x80 && IsUnreserved(b as char)
    ensures UnescapeBytes([b as char] + rest) == Prepend(b, UnescapeBytes(rest))
  {
    assert ([b as char] + rest)[1..] == rest;
  }

  lemma UnescapePercentByte(b: byte, rest: string)
    ensures UnescapeBytes(['%', HexDigits[b as int / 16], HexDigits[b as int % 16]] + rest)
      == Prepend(b, UnescapeBytes(rest))
  {
    var s := ['%', HexDigits[b as int / 16], HexDigits[b as int % 16]] + rest;
    assert HexValue(s[1]) == Some(b as int / 16);
    assert HexValue(s[2]) == Some(b as int % 16);
    assert s[3..] == rest;
  }

  lemma {:induction false} UnescapeEscapeBytes(bs: seq<byte>)
    ensures UnescapeBytes(EscapeBytes(bs)) == Some(bs)
  {
    if bs != [] {
      UnescapeEscapeByte(bs[0], EscapeBytes(bs[1..]));
      UnescapeEscapeBytes(bs[1..]);
      assert [bs[0]] + bs[1..] == bs;
    }
  }

  /** Decoding an escaped value gives back the value. */
  lemma UnescapeEscape(s: string)
    ensures UnescapeDataString(EscapeDataString(s)) == Some(s)
  {
    UnescapeEscapeBytes(Encode(s));
    DecodeEncode(s);
  }

  /** A string of unreserved characters escapes to itself. */
  lemma {:induction false} EscapeUnreserved(s: string)
    requires forall i | 0 <= i < |s| :: IsUnreserved(s[i])
    ensures EscapeDataString(s) == s
  {
    EncodeAscii(s);
    EscapeBytesAscii(s, Encode(s));
  }

  lemma {:induction false} EscapeBytesAscii(s: string, bs: seq<byte>)
    requires |bs| == |s|
    requires forall i | 0 <= i < |s| :: IsUnreserved(s[i]) && bs[i] as int == s[i] as int
    ensures EscapeBytes(bs) == s
  {
    if s != [] {
      assert (bs[0] as int) as char == s[0];
      EscapeBytesAscii(s[1..], bs[1..]);
      assert [s[0]] + s[1..] == s;
    }
  }
}
