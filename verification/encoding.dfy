/**
 * The placeholder ("anchor") that the groupchat sender derives from an HTML
 * body: `Buffer.from(html)` (UTF-8), `.toString("base64")` (the alphabet and
 * padding of section 4 of RFC 4648), then `.replace(/\W/g, "a")`.
 */
module Encoding {

  type byte = b: int | 0 <= b < 256

  /** The UTF-8 bytes of one Unicode scalar value. */
  function Utf8Char(c: char): (r: seq<byte>)
    ensures 1 <= |r| <= 4
    ensures (c as int < 0x80) <==> |r| == 1
  {
    var cp := c as int;
    if cp < 0x80 then [cp]
    else if cp < 0x800 then [0xC0 + cp / 64, 0x80 + cp % 64]
    else if cp < 0x10000 then [0xE0 + cp / 4096, 0x80 + (cp / 64) % 64, 0x80 + cp % 64]
    else [0xF0 + cp / 262144, 0x80 + (cp / 4096) % 64, 0x80 + (cp / 64) % 64, 0x80 + cp % 64]
  }

  /** `Buffer.from(s)`: the UTF-8 encoding of `s`. */
  function Utf8(s: string): (r: seq<byte>)
    decreases |s|
  {
    if s == [] then [] else Utf8Char(s[0]) + Utf8(s[1..])
  }

  /** Each character takes one to four bytes. */
  lemma {:induction false} Utf8Length(s: string)
    ensures |s| <= |Utf8(s)| <= 4 * |s|
    decreases |s|
  {
    if s != [] {
      Utf8Length(s[1..]);
    }
  }

  /** Characters below U+0080 are encoded as their own code, one byte each. */
  lemma {:induction false} Utf8Ascii(s: string)
    requires forall k :: 0 <= k < |s| ==> s[k] as int < 0x80
    ensures |Utf8(s)| == |s|
    ensures forall k :: 0 <= k < |s| ==> Utf8(s)[k] == s[k] as int
    decreases |s|
  {
    if s != [] {
      Utf8Ascii(s[1..]);
    }
  }

  /** A character of the base64 alphabet of section 4 of RFC 4648 (padding excluded). */
  predicate IsBase64Char(c: char) {
    ('A' <= c <= 'Z') || ('a' <= c <= 'z') || ('0' <= c <= '9') || c == '+' || c == '/'
  }

  /** The alphabet character for a six-bit value: `A`-`Z`, `a`-`z`, `0`-`9`, `+`, `/`. */
  function Sextet(v: int): (c: char)
    requires 0 <= v < 64
    ensures IsBase64Char(c)
  {
    if v < 26 then (('A' as int) + v) as char
    else if v < 52 then (('a' as int) + v - 26) as char
    else if v < 62 then (('0' as int) + v - 52) as char
    else if v == 62 then '+'
    else '/'
  }

  /** Four characters for three bytes. */
  function Group(b0: byte, b1: byte, b2: byte): (r: string)
    ensures |r| == 4 && forall k :: 0 <= k < 4 ==> IsBase64Char(r[k])
  {
    [Sextet(b0 / 4), Sextet((b0 % 4) * 16 + b1 / 16), Sextet((b1 % 16) * 4 + b2 / 64), Sextet(b2 % 64)]
  }

  /** `buf.toString("base64")`: three bytes to four characters, `=` padding at the end. */
  function Base64(bs: seq<byte>): (r: string)
    decreases |bs|
  {
    if |bs| == 0 then ""
    else if |bs| == 1 then
      [Sextet(bs[0] / 4), Sextet((bs[0] % 4) * 16), '=', '=']
    else if |bs| == 2 then
      [Sextet(bs[0] / 4), Sextet((bs[0] % 4) * 16 + bs[1] / 16), Sextet((bs[1] % 16) * 4), '=']
    else
      Group(bs[0], bs[1], bs[2]) + Base64(bs[3..])
  }

  /** Base64 output has four characters per started group of three bytes. */
  lemma {:induction false} Base64Length(bs: seq<byte>)
    ensures |Base64(bs)| == 4 * ((|bs| + 2) / 3)
    decreases |bs|
  {
    if |bs| > 2 {
      Base64Length(bs[3..]);
    }
  }

  /** Base64 output uses only the alphabet and `=`. */
  lemma {:induction false} Base64Alphabet(bs: seq<byte>)
    ensures forall k :: 0 <= k < |Base64(bs)| ==> IsBase64Char(Base64(bs)[k]) || Base64(bs)[k] == '='
    decreases |bs|
  {
    if |bs| > 2 {
      Base64Alphabet(bs[3..]);
      var g := Group(bs[0], bs[1], bs[2]);
      var rest := Base64(bs[3..]);
      assert Base64(bs) == g + rest;
      forall k | 0 <= k < |g + rest|
        ensures IsBase64Char((g + rest)[k]) || (g + rest)[k] == '='
      {
        if k >= 4 {
          assert (g + rest)[k] == rest[k - 4];
        }
      }
    }
  }

  /** A character matched by `\w` in a JavaScript regular expression without the `u` flag. */
  predicate IsWordChar(c: char) {
    ('A' <= c <= 'Z') || ('a' <= c <= 'z') || ('0' <= c <= '9') || c == '_'
  }

  /** `s.replace(/\W/g, "a")`. */
  function Anchor(s: string): (r: string)
    ensures |r| == |s|
    ensures forall k :: 0 <= k < |r| ==> IsWordChar(r[k])
    ensures forall k :: 0 <= k < |s| && IsWordChar(s[k]) ==> r[k] == s[k]
    ensures forall k :: 0 <= k < |s| && !IsWordChar(s[k]) ==> r[k] == 'a'
    decreases |s|
  {
    if s == [] then ""
    else [if IsWordChar(s[0]) then s[0] else 'a'] + Anchor(s[1..])
  }

  /** The placeholder the groupchat sender derives from an HTML body. */
  function HtmlAnchor(html: string): string {
    Anchor(Base64(Utf8(html)))
  }

  /**
   * The placeholder is made of word characters only, has the length of the
   * base64 text, and is empty exactly when the HTML body is.
   */
  lemma HtmlAnchorShape(html: string)
    ensures forall k :: 0 <= k < |HtmlAnchor(html)| ==> IsWordChar(HtmlAnchor(html)[k])
    ensures |HtmlAnchor(html)| == 4 * ((|Utf8(html)| + 2) / 3)
    ensures HtmlAnchor(html) == "" <==> html == ""
  {
    Base64Length(Utf8(html));
    Utf8Length(html);
  }
}
