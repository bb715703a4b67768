/**
 * Bytes, the fixed-width integers Go reads out of them, and the UTF-8 form of Go string literals.
 * A Go `[]byte` is a `Bytes`; a Go `string` that the card layer fills from card data is the same
 * bytes (Go's `string(b)` copies bytes unchanged).
 */
module Bytes {

  type byte = x: int | 0 <= x < 0x100
  type Bytes = seq<byte>

  /** Go's `uint` on the 64-bit platforms the program ships for. */
  const UINT_MOD: nat := 0x1_0000_0000_0000_0000

  type uint = x: int | 0 <= x < UINT_MOD

  /** `a - b` on Go's `uint`: wraps around below zero. */
  function UintSub(a: uint, b: nat): (r: uint)
    ensures b <= a ==> r == a - b
    ensures b > a && b - a <= UINT_MOD ==> r == UINT_MOD - (b - a)
  {
    (a - b) % UINT_MOD
  }

  /** `binary.LittleEndian.Uint16` on the two bytes `lo, hi`. */
  function Uint16LE(lo: byte, hi: byte): (v: nat)
    ensures v < 0x10000
    ensures v % 0x100 == lo && v / 0x100 == hi
  {
    lo + 0x100 * hi
  }

  /** The big-endian value of a byte string (`binary.BigEndian.Uint16/Uint32`, extended to any width). */
  function BigEndian(s: Bytes): nat
  {
    if s == [] then 0 else BigEndian(s[..|s| - 1]) * 0x100 + s[|s| - 1]
  }

  lemma {:induction false} BigEndianBound(s: Bytes, n: nat)
    requires |s| <= n
    ensures BigEndian(s) < Pow256(n)
  {
    if s != [] {
      BigEndianBound(s[..|s| - 1], n - 1);
    }
  }

  function Pow256(n: nat): (r: nat)
    ensures r > 0
  {
    if n == 0 then 1 else 0x100 * Pow256(n - 1)
  }

  /** The big-endian `n`-byte encoding of `v`: the inverse of `BigEndian`. */
  function ToBigEndian(v: nat, n: nat): (s: Bytes)
    ensures |s| == n
  {
    if n == 0 then [] else ToBigEndian(v / 0x100, n - 1) + [v % 0x100]
  }

  lemma {:induction false} BigEndianRoundTrip(v: nat, n: nat)
    requires v < Pow256(n)
    ensures BigEndian(ToBigEndian(v, n)) == v
  {
    if n > 0 {
      var s := ToBigEndian(v, n);
      assert s[..|s| - 1] == ToBigEndian(v / 0x100, n - 1);
      BigEndianRoundTrip(v / 0x100, n - 1);
    }
  }

  /** Number of bytes of the UTF-8 form of one code point. */
  function RuneLen(c: char): (n: nat)
    ensures 1 <= n <= 4
  {
    var v := c as int;
    if v < 0x80 then 1 else if v < 0x800 then 2 else if v < 0x10000 then 3 else 4
  }

  /** The UTF-8 form of one code point (RFC 3629, section 3). */
  function EncodeRune(c: char): (r: Bytes)
    ensures |r| == RuneLen(c)
    ensures c as int < 0x80 <==> r == [c as int]
  {
    var v := c as int;
    if v < 0x80 then [v]
    else if v < 0x800 then [0xC0 + v / 0x40, 0x80 + v % 0x40]
    else if v < 0x10000 then [0xE0 + v / 0x1000, 0x80 + (v / 0x40) % 0x40, 0x80 + v % 0x40]
    else [0xF0 + v / 0x40000, 0x80 + (v / 0x1000) % 0x40, 0x80 + (v / 0x40) % 0x40, 0x80 + v % 0x40]
  }

  /** The bytes Go stores for a string literal: its UTF-8 form. */
  function Utf8(s: string): (r: Bytes)
  {
    if s == [] then [] else EncodeRune(s[0]) + Utf8(s[1..])
  }

  /** Go's `len(s)` of a string: its byte length. */
  function ByteLen(s: string): nat
  {
    |Utf8(s)|
  }

  lemma {:induction false} Utf8Append(a: string, b: string)
    ensures Utf8(a + b) == Utf8(a) + Utf8(b)
  {
    if a == [] {
      assert a + b == b;
    } else {
      assert (a + b)[1..] == a[1..] + b;
      Utf8Append(a[1..], b);
    }
  }

  /** A string whose code points are all below 0x80. */
  predicate IsAscii(s: string)
  {
    forall i :: 0 <= i < |s| ==> s[i] as int < 0x80
  }

  /** An ASCII string is stored byte for byte. */
  lemma {:induction false} Utf8Ascii(s: string)
    requires IsAscii(s)
    ensures |Utf8(s)| == |s|
    ensures forall i :: 0 <= i < |s| ==> Utf8(s)[i] == s[i] as int
  {
    if s != [] {
      Utf8Ascii(s[1..]);
    }
  }

  /** The UTF-8 form never has fewer bytes than code points, nor more than four per code point. */
  lemma {:induction false} Utf8LengthBounds(s: string)
    ensures |s| <= |Utf8(s)| <= 4 * |s|
  {
    if s != [] {
      Utf8LengthBounds(s[1..]);
    }
  }
}
