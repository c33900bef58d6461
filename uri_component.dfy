/**
 * JavaScript's encodeURIComponent, which the connection string applies to the
 * user name and the password: every character outside the unreserved set is
 * written as the percent-escaped bytes of its UTF-8 encoding.
 */
module UriComponent {

  /** The characters encodeURIComponent leaves as they are. */
  predicate Unreserved(c: char)
  {
    || 'A' <= c <= 'Z'
    || 'a' <= c <= 'z'
    || '0' <= c <= '9'
    || c == '-' || c == '_' || c == '.' || c == '!' || c == '~' || c == '*' || c == '\'' || c == '(' || c == ')'
  }

  /** The characters that can occur in an encoded component. */
  predicate Encoded(c: char)
  {
    Unreserved(c) || c == '%'
  }

  function HexDigit(d: nat): (c: char)
    requires d < 16
    ensures Unreserved(c)
  {
    "0123456789ABCDEF"[d]
  }

  /** The UTF-8 bytes of a Unicode scalar value. */
  function Utf8(cp: nat): (bytes: seq<nat>)
    requires cp < 0x11_0000
    ensures 1 <= |bytes| <= 4
    ensures forall i :: 0 <= i < |bytes| ==> bytes[i] < 256
  {
    if cp < 0x80 then [cp]
    else if cp < 0x800 then [0xC0 + cp / 0x40, 0x80 + cp % 0x40]
    else if cp < 0x1_0000 then [0xE0 + cp / 0x1000, 0x80 + (cp / 0x40) % 0x40, 0x80 + cp % 0x40]
    else [0xF0 + cp / 0x4_0000, 0x80 + (cp / 0x1000) % 0x40, 0x80 + (cp / 0x40) % 0x40, 0x80 + cp % 0x40]
  }

  /** "%XY" for each byte, with upper-case hexadecimal digits. */
  function PercentEscape(bytes: seq<nat>): (r: string)
    requires forall i :: 0 <= i < |bytes| ==> bytes[i] < 256
    ensures |r| == 3 * |bytes|
    ensures forall i :: 0 <= i < |r| ==> Encoded(r[i])
  {
    if bytes == [] then []
    else ['%', HexDigit(bytes[0] / 16), HexDigit(bytes[0] % 16)] + PercentEscape(bytes[1..])
  }

  function EncodeChar(c: char): (r: string)
    ensures |r| >= 1
    ensures forall i :: 0 <= i < |r| ==> Encoded(r[i])
  {
    if Unreserved(c) then [c] else PercentEscape(Utf8(c as int))
  }

  /**
   * encodeURIComponent. The result holds only unreserved characters and '%',
   * so in particular no ':' and no '@'; it is never shorter than the input,
   * and a string of unreserved characters comes back unchanged.
   */
  function EncodeUriComponent(s: string): (r: string)
    ensures |r| >= |s|
    ensures forall i :: 0 <= i < |r| ==> Encoded(r[i])
    ensures ':' !in r && '@' !in r
    ensures (forall i :: 0 <= i < |s| ==> Unreserved(s[i])) ==> r == s
  {
    if s == [] then [] else EncodeChar(s[0]) + EncodeUriComponent(s[1..])
  }

  /** The delimiter @ is escaped, its one UTF-8 byte written in hexadecimal: "a@b" becomes "a%40b". */
  lemma EncodeExample()
    ensures EncodeUriComponent("a@b") == "a%40b"
  {
    assert Utf8('@' as int) == [64];
    assert EncodeChar('@') == "%40";
    assert EncodeUriComponent("b") == "b";
    assert EncodeUriComponent("@b") == EncodeChar('@') + EncodeUriComponent("b");
  }
}
