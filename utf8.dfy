/**
 * UTF-8 lengths and encoding of text.  Text is a sequence of Unicode scalar
 * values (Dafny's `char`); rich-text facets index the UTF-8 encoding of a
 * post's text, so byte positions are computed here (RFC 3629, section 3).
 */
module Utf8 {

  newtype byte = b: int | 0 <= b < 256

  /** Number of bytes UTF-8 spends on one scalar value. */
  function CharLen(c: char): (n: nat)
    ensures 1 <= n <= 4
  {
    if c as int < 0x80 then 1
    else if c as int < 0x800 then 2
    else if c as int < 0x1_0000 then 3
    else 4
  }

  /** The UTF-8 encoding of one scalar value. */
  function EncodeChar(c: char): (bs: seq<byte>)
    ensures |bs| == CharLen(c)
    ensures |bs| == 1 <==> bs[0] < 0x80
    ensures |bs| > 1 ==> 0xC0 <= bs[0]
    ensures forall k :: 1 <= k < |bs| ==> 0x80 <= bs[k] < 0xC0
  {
    var n := c as int;
    if n < 0x80 then
      [n as byte]
    else if n < 0x800 then
      [(0xC0 + n / 0x40) as byte, (0x80 + n % 0x40) as byte]
    else if n < 0x1_0000 then
      [(0xE0 + n / 0x1000) as byte, (0x80 + n / 0x40 % 0x40) as byte, (0x80 + n % 0x40) as byte]
    else
      [(0xF0 + n / 0x4_0000) as byte, (0x80 + n / 0x1000 % 0x40) as byte,
       (0x80 + n / 0x40 % 0x40) as byte, (0x80 + n % 0x40) as byte]
  }

  /** Length in bytes of the UTF-8 encoding of `s` (Python's `len(s.encode('utf-8'))`). */
  function Utf8Len(s: string): nat
  {
    if s == [] then 0 else CharLen(s[0]) + Utf8Len(s[1..])
  }

  /** The UTF-8 encoding of `s` (Python's `s.encode('utf-8')`). */
  function Encode(s: string): seq<byte>
  {
    if s == [] then [] else EncodeChar(s[0]) + Encode(s[1..])
  }

  /** `Utf8Len` is the length of the encoding. */
  lemma {:induction false} EncodeLength(s: string)
    ensures |Encode(s)| == Utf8Len(s)
  {
    if s != [] {
      EncodeLength(s[1..]);
    }
  }

  /** Encoding a concatenation concatenates the encodings. */
  lemma {:induction false} EncodeAppend(a: string, b: string)
    ensures Encode(a + b) == Encode(a) + Encode(b)
  {
    if a == [] {
      assert a + b == b;
    } else {
      assert (a + b)[0] == a[0];
      assert (a + b)[1..] == a[1..] + b;
      EncodeAppend(a[1..], b);
    }
  }

  /** Byte lengths add up over concatenation. */
  lemma Utf8LenAppend(a: string, b: string)
    ensures Utf8Len(a + b) == Utf8Len(a) + Utf8Len(b)
  {
    EncodeAppend(a, b);
    EncodeLength(a + b);
    EncodeLength(a);
    EncodeLength(b);
  }

  /** Every scalar value takes between one and four bytes. */
  lemma {:induction false} Utf8LenBounds(s: string)
    ensures |s| <= Utf8Len(s) <= 4 * |s|
    ensures Utf8Len(s) == 0 <==> s == []
  {
    if s != [] {
      Utf8LenBounds(s[1..]);
    }
  }
}
