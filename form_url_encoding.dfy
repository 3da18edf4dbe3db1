/**
 * The `application/x-www-form-urlencoded` serializer behind
 * `URLSearchParams.prototype.toString()` (WHATWG URL Standard, section 5.2):
 * ASCII letters, digits and `*-._` stay as they are, a space becomes `+`,
 * and every other character is UTF-8 encoded with each byte written as
 * `%XX` in upper-case hexadecimal.
 */
module FormUrlEncoding {

  /** Characters the serializer leaves as they are. */
  predicate Unreserved(c: char)
  {
    ('a' <= c <= 'z') || ('A' <= c <= 'Z') || ('0' <= c <= '9') ||
    c == '*' || c == '-' || c == '.' || c == '_'
  }

  /** Characters that may appear in serialized output. */
  predicate Serialized(c: char)
  {
    Unreserved(c) || c == '%' || c == '+'
  }

  /** The UTF-8 encoding of one Unicode scalar value. */
  function Utf8(c: char): (bytes: seq<nat>)
    ensures 1 <= |bytes| <= 4
    ensures forall i :: 0 <= i < |bytes| ==> bytes[i] < 256
    ensures |bytes| == 1 <==> c as int < 0x80
  {
    var n := c as int;
    if n < 0x80 then [n]
    else if n < 0x800 then [0xC0 + n / 0x40, 0x80 + n % 0x40]
    else if n < 0x10000 then [0xE0 + n / 0x1000, 0x80 + (n / 0x40) % 0x40, 0x80 + n % 0x40]
    else [0xF0 + n / 0x40000, 0x80 + (n / 0x1000) % 0x40, 0x80 + (n / 0x40) % 0x40, 0x80 + n % 0x40]
  }

  function HexDigit(d: nat): (h: char)
    requires d < 16
    ensures Unreserved(h)
  {
    "0123456789ABCDEF"[d]
  }

  /** `%XX` for every byte. */
  function PercentBytes(bytes: seq<nat>): (r: string)
    requires forall i :: 0 <= i < |bytes| ==> bytes[i] < 256
    ensures |r| == 3 * |bytes|
    ensures forall i :: 0 <= i < |r| ==> Serialized(r[i])
  {
    if bytes == [] then ""
    else ['%', HexDigit(bytes[0] / 16), HexDigit(bytes[0] % 16)] + PercentBytes(bytes[1..])
  }

  function EncodeChar(c: char): (r: string)
    ensures |r| >= 1
    ensures forall i :: 0 <= i < |r| ==> Serialized(r[i])
  {
    if Unreserved(c) then [c]
    else if c == ' ' then "+"
    else PercentBytes(Utf8(c))
  }

  /** The serialization of one name or value. */
  function Encode(s: string): (r: string)
    ensures r == "" <==> s == ""
    ensures forall i :: 0 <= i < |r| ==> Serialized(r[i])
  {
    if s == [] then "" else EncodeChar(s[0]) + Encode(s[1..])
  }

  /** Serialized output never contains the separators of a query string. */
  lemma EncodedHasNoSeparators(s: string)
    ensures '&' !in Encode(s) && '=' !in Encode(s) && '#' !in Encode(s)
  {
  }
}
