/**
 * The UTF-8 encoding of a string, as performed by Rust's `String::into_bytes`.
 * Dafny's `char` is a Unicode scalar value, so every string has exactly one encoding.
 */
module Utf8 {

  type byte = x: int | 0 <= x < 256

  /** Continuation bytes have the bit pattern 10xxxxxx. */
  predicate IsContinuation(b: byte) {
    0x80 <= b < 0xC0
  }

  /** The number of bytes of a sequence, as announced by its leading byte. */
  function SequenceLength(lead: byte): nat {
    if lead < 0x80 then 1
    else if lead < 0xE0 then 2
    else if lead < 0xF0 then 3
    else 4
  }

  /** The UTF-8 encoding of one scalar value (RFC 3629, section 3). */
  function EncodeChar(c: char): (r: seq<byte>)
    ensures 1 <= |r| <= 4
    ensures SequenceLength(r[0]) == |r|
    ensures |r| > 1 ==> 0xC2 <= r[0]
    ensures forall k :: 1 <= k < |r| ==> IsContinuation(r[k])
  {
    var cp := c as int;
    if cp < 0x80 then
      [cp]
    else if cp < 0x800 then
      [0xC0 + cp / 64, 0x80 + cp % 64]
    else if cp < 0x10000 then
      [0xE0 + cp / 4096, 0x80 + (cp / 64) % 64, 0x80 + cp % 64]
    else
      [0xF0 + cp / 262144, 0x80 + (cp / 4096) % 64, 0x80 + (cp / 64) % 64, 0x80 + cp % 64]
  }

  /** Recovers the scalar value from the bytes of one encoded character. */
  function DecodeChar(b: seq<byte>): int
    requires 1 <= |b| <= 4
  {
    if |b| == 1 then b[0] as int
    else if |b| == 2 then (b[0] as int - 0xC0) * 64 + (b[1] as int - 0x80)
    else if |b| == 3 then (b[0] as int - 0xE0) * 4096 + (b[1] as int - 0x80) * 64 + (b[2] as int - 0x80)
    else (b[0] as int - 0xF0) * 262144 + (b[1] as int - 0x80) * 4096 + (b[2] as int - 0x80) * 64 + (b[3] as int - 0x80)
  }

  lemma DecodeEncodeChar(c: char)
    ensures DecodeChar(EncodeChar(c)) == c as int
  {
    var cp := c as int;
    assert cp == 64 * (cp / 64) + cp % 64;
    assert cp / 64 == 64 * (cp / 4096) + (cp / 64) % 64;
    assert cp / 4096 == 64 * (cp / 262144) + (cp / 4096) % 64;
  }

  /** Distinct characters have distinct encodings. */
  lemma EncodeCharInjective(a: char, b: char)
    requires EncodeChar(a) == EncodeChar(b)
    ensures a == b
  {
    DecodeEncodeChar(a);
    DecodeEncodeChar(b);
  }

  /** The encoding of a whole string: the encodings of its characters, in order. */
  function Encode(s: string): (r: seq<byte>)
    ensures |r| >= |s|
    ensures s == [] <==> r == []
  {
    if s == [] then [] else EncodeChar(s[0]) + Encode(s[1..])
  }

  lemma {:induction false} EncodeConcat(a: string, b: string)
    ensures Encode(a + b) == Encode(a) + Encode(b)
  {
    if a == [] {
      assert a + b == b;
    } else {
      assert (a + b)[1..] == a[1..] + b;
      EncodeConcat(a[1..], b);
    }
  }

  /** A string of 7-bit characters encodes to one byte per character. */
  predicate IsAscii(s: string) {
    forall k :: 0 <= k < |s| ==> s[k] as int < 0x80
  }

  lemma {:induction false} EncodeAscii(s: string)
    requires IsAscii(s)
    ensures |Encode(s)| == |s|
    ensures forall k :: 0 <= k < |s| ==> Encode(s)[k] == s[k] as int
  {
    if s != [] {
      EncodeAscii(s[1..]);
    }
  }

  /** Distinct strings have distinct encodings: the encoding can be split back into characters. */
  lemma {:induction false} EncodeInjective(a: string, b: string)
    requires Encode(a) == Encode(b)
    ensures a == b
  {
    if a != [] && b != [] {
      var ea, eb := EncodeChar(a[0]), EncodeChar(b[0]);
      assert Encode(a)[0] == ea[0] && Encode(b)[0] == eb[0];
      assert |ea| == |eb|;
      assert ea == Encode(a)[..|ea|];
      assert eb == Encode(b)[..|eb|];
      EncodeCharInjective(a[0], b[0]);
      assert Encode(a[1..]) == Encode(a)[|ea|..];
      assert Encode(b[1..]) == Encode(b)[|eb|..];
      EncodeInjective(a[1..], b[1..]);
    }
  }
}
