/**
 * Answer-to-reset values (card/atr.go): compared byte for byte, printed as lower-case hex.
 */
module Atr {
  import opened Bytes

  type Atr = Bytes

  /** `atr.Is(other)`: `slices.Equal`, the same length and the same byte at every index. */
  predicate Is(a: Atr, b: Atr)
  {
    |a| == |b| && forall i :: 0 <= i < |a| ==> a[i] == b[i]
  }

  /** `Is` is equality of byte strings, so it is reflexive and symmetric. */
  lemma IsIsEquality(a: Atr, b: Atr)
    ensures Is(a, b) <==> a == b
    ensures Is(a, a) && (Is(a, b) ==> Is(b, a))
  {
    if Is(a, b) {
      assert a == b;
    }
  }

  /** The lower-case hex digit of a value below 16. */
  function HexDigit(n: nat): (c: char)
    requires n < 16
    ensures '0' <= c <= '9' || 'a' <= c <= 'f'
  {
    if n < 10 then '0' + n as char else 'a' + (n - 10) as char
  }

  /** `atr.String()`: `hex.EncodeToString`, two lower-case digits per byte, high nibble first. */
  function String(a: Atr): (s: string)
    ensures |s| == 2 * |a|
  {
    if a == [] then "" else [HexDigit(a[0] / 16), HexDigit(a[0] % 16)] + String(a[1..])
  }

  /** The value of a lower-case hex digit: the inverse of `HexDigit`. */
  function HexValue(c: char): (n: nat)
    ensures n < 16
  {
    if '0' <= c <= '9' then (c - '0') as nat
    else if 'a' <= c <= 'f' then (c - 'a') as nat + 10
    else 0
  }

  /** Reads a hex string back, two digits per byte. */
  function Decode(s: string): (a: Atr)
  {
    if |s| < 2 then [] else [HexValue(s[0]) * 16 + HexValue(s[1])] + Decode(s[2..])
  }

  /** The hex form can be read back: `String` loses nothing. */
  lemma {:induction false} DecodeString(a: Atr)
    ensures Decode(String(a)) == a
  {
    if a != [] {
      var s := String(a);
      assert s[2..] == String(a[1..]);
      DecodeString(a[1..]);
      assert HexValue(HexDigit(a[0] / 16)) == a[0] / 16;
      assert HexValue(HexDigit(a[0] % 16)) == a[0] % 16;
    }
  }

  /** Two ATRs print the same exactly when `Is` holds between them. */
  lemma StringIff(a: Atr, b: Atr)
    ensures String(a) == String(b) <==> Is(a, b)
  {
    IsIsEquality(a, b);
    if String(a) == String(b) {
      DecodeString(a);
      DecodeString(b);
    }
  }
}
