/**
 * `encodeURIComponent`: every character outside the unreserved set is written as the `%XX`
 * escapes of its UTF-8 bytes, `XX` in upper-case hexadecimal.
 */
module UriEncoding {

  /** The characters `encodeURIComponent` leaves as they are. */
  predicate Unreserved(c: char) {
    || 'A' <= c <= 'Z' || 'a' <= c <= 'z' || '0' <= c <= '9'
    || c == '-' || c == '_' || c == '.' || c == '!' || c == '~' || c == '*' || c == '\'' || c == '(' || c == ')'
  }

  /** The UTF-8 encoding of one code point. */
  function Utf8(c: char): (bs: seq<nat>)
    ensures 1 <= |bs| <= 4
    ensures forall i :: 0 <= i < |bs| ==> bs[i] < 256
    ensures (c as int) < 128 ==> bs == [c as int]
  {
    var n := c as int;
    if n < 0x80 then [n]
    else if n < 0x800 then [0xC0 + n / 64, 0x80 + n % 64]
    else if n < 0x10000 then [0xE0 + n / 4096, 0x80 + (n / 64) % 64, 0x80 + n % 64]
    else [0xF0 + n / 262144, 0x80 + (n / 4096) % 64, 0x80 + (n / 64) % 64, 0x80 + n % 64]
  }

  /** The UTF-8 encoding of a string. */
  function Utf8Of(s: string): seq<nat>
    decreases |s|
  {
    if s == [] then [] else Utf8(s[0]) + Utf8Of(s[1..])
  }

  function HexDigit(d: nat): (c: char)
    requires d < 16
    ensures IsHex(c) && HexValue(c) == d
  {
    if d < 10 then ('0' as int + d) as char else ('A' as int + d - 10) as char
  }

  predicate IsHex(c: char) {
    '0' <= c <= '9' || 'A' <= c <= 'F' || 'a' <= c <= 'f'
  }

  function HexValue(c: char): nat {
    if '0' <= c <= '9' then c as int - '0' as int
    else if 'A' <= c <= 'F' then c as int - 'A' as int + 10
    else if 'a' <= c <= 'f' then c as int - 'a' as int + 10
    else 0
  }

  /** `%XX` for each byte. */
  function Escapes(bs: seq<nat>): (t: string)
    requires forall i :: 0 <= i < |bs| ==> bs[i] < 256
    ensures forall i :: 0 <= i < |t| ==> t[i] == '%' || IsHex(t[i])
    decreases |bs|
  {
    if bs == [] then ""
    else ['%', HexDigit(bs[0] / 16), HexDigit(bs[0] % 16)] + Escapes(bs[1..])
  }

  function EncodeChar(c: char): (t: string)
    ensures forall i :: 0 <= i < |t| ==> Unreserved(t[i]) || t[i] == '%'
  {
    if Unreserved(c) then [c] else Escapes(Utf8(c))
  }

  /** `encodeURIComponent(s)`. */
  function Encode(s: string): (t: string)
    ensures forall i :: 0 <= i < |t| ==> Unreserved(t[i]) || t[i] == '%'
    decreases |s|
  {
    if s == [] then "" else EncodeChar(s[0]) + Encode(s[1..])
  }

  /** Percent-decoding to bytes (`decodeURIComponent` before its UTF-8 step), for ASCII text. */
  function Decode(t: string): seq<nat>
    decreases |t|
  {
    if t == [] then []
    else if t[0] == '%' && |t| >= 3 && IsHex(t[1]) && IsHex(t[2]) then
      [HexValue(t[1]) * 16 + HexValue(t[2])] + Decode(t[3..])
    else [t[0] as int] + Decode(t[1..])
  }

  lemma {:induction false} DecodeEscapes(bs: seq<nat>, rest: string)
    requires forall i :: 0 <= i < |bs| ==> bs[i] < 256
    ensures Decode(Escapes(bs) + rest) == bs + Decode(rest)
    decreases |bs|
  {
    if bs != [] {
      var t := Escapes(bs[1..]) + rest;
      var e := ['%', HexDigit(bs[0] / 16), HexDigit(bs[0] % 16)];
      assert Escapes(bs) == e + Escapes(bs[1..]);
      Associative(e, Escapes(bs[1..]), rest);
      DecodeEscape(bs[0], t);
      DecodeEscapes(bs[1..], rest);
      Associative([bs[0]], bs[1..], Decode(rest));
      assert [bs[0]] + bs[1..] == bs;
    } else {
      assert Escapes(bs) + rest == rest;
    }
  }

  lemma Associative<T>(a: seq<T>, b: seq<T>, c: seq<T>)
    ensures (a + b) + c == a + (b + c)
  {
  }

  /** One `%XX` escape decodes to its byte. */
  lemma DecodeEscape(b: nat, t: string)
    requires b < 256
    ensures Decode(['%', HexDigit(b / 16), HexDigit(b % 16)] + t) == [b] + Decode(t)
  {
    var e := ['%', HexDigit(b / 16), HexDigit(b % 16)];
    assert (e + t)[3..] == t;
    assert (e + t)[0] == '%' && (e + t)[1] == e[1] && (e + t)[2] == e[2];
    assert HexValue(e[1]) * 16 + HexValue(e[2]) == b;
  }

  lemma DecodeChar(c: char, rest: string)
    ensures Decode(EncodeChar(c) + rest) == Utf8(c) + Decode(rest)
  {
    if Unreserved(c) {
      assert ([c] + rest)[1..] == rest;
    } else {
      DecodeEscapes(Utf8(c), rest);
    }
  }

  /** Percent-decoding the encoded text gives back the UTF-8 bytes of the original. */
  lemma {:induction false} DecodeEncode(s: string)
    ensures Decode(Encode(s)) == Utf8Of(s)
    decreases |s|
  {
    if s != [] {
      DecodeChar(s[0], Encode(s[1..]));
      DecodeEncode(s[1..]);
    }
  }

  /** A text of unreserved characters is its own encoding. */
  lemma {:induction false} EncodeUnreserved(s: string)
    requires forall i :: 0 <= i < |s| ==> Unreserved(s[i])
    ensures Encode(s) == s
    decreases |s|
  {
    if s != [] {
      EncodeUnreserved(s[1..]);
      assert s == [s[0]] + s[1..];
    }
  }

  /** The encoding never holds a character that ends or splits a query parameter. */
  lemma NoDelimiters(s: string)
    ensures '&' !in Encode(s) && '#' !in Encode(s) && '=' !in Encode(s) && '+' !in Encode(s) && ' ' !in Encode(s)
  {
  }
}
