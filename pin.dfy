/**
 * PIN checks and the 8-byte PIN block the identity card expects in VERIFY and CHANGE REFERENCE DATA
 * (card/pin.go). A Go string is ranged over rune by rune, but `len` and the rune index count bytes.
 */
module Pin {
  import opened Bytes

  /** `unicode.IsDigit`, on the decimal digits 0 to 9. */
  predicate IsDigit(r: char)
  {
    '0' <= r <= '9'
  }

  predicate AllDigits(pin: string)
  {
    forall i :: 0 <= i < |pin| ==> IsDigit(pin[i])
  }

  /** What `ValidatePin` accepts: 4 to 8 bytes, every rune a digit. */
  predicate ValidPin(pin: string)
  {
    4 <= ByteLen(pin) <= 8 && AllDigits(pin)
  }

  /** `ValidatePin(pin)`: the length check, then the loop that returns at the first non-digit. */
  method ValidatePin(pin: string) returns (ok: bool)
    ensures ok <==> ValidPin(pin)
  {
    var pinLength := ByteLen(pin);
    if pinLength < 4 || pinLength > 8 {
      return false;
    }
    for k := 0 to |pin|
      invariant forall i :: 0 <= i < k ==> IsDigit(pin[i])
    {
      if !IsDigit(pin[k]) {
        return false;
      }
    }
    return true;
  }

  /** A valid PIN is four to eight ASCII digits, stored one byte per digit. */
  lemma ValidPinShape(pin: string)
    requires ValidPin(pin)
    ensures 4 <= |pin| <= 8 && IsAscii(pin) && |Utf8(pin)| == |pin|
    ensures forall i :: 0 <= i < |pin| ==> Utf8(pin)[i] == pin[i] as int
  {
    assert IsAscii(pin);
    Utf8Ascii(pin);
  }

  /** The four test PINs: too short, too long, and not digits are refused; "1234" is accepted. */
  lemma ValidatePinCases()
    ensures ValidPin("1234")
    ensures !ValidPin("123") && !ValidPin("123456789") && !ValidPin("123a") && !ValidPin("")
  {
    Utf8Ascii("1234");
    Utf8Ascii("123");
    Utf8Ascii("123456789");
    assert !IsDigit("123a"[3]);
  }

  const ZEROS: Bytes := [0, 0, 0, 0, 0, 0, 0, 0]

  /**
   * The PIN block from the rune at byte index `i` on: each rune whose byte index is below 8 writes its
   * low eight bits at that index; bytes no rune starts at keep their value.
   */
  function Place(s: string, i: nat, d: Bytes): (r: Bytes)
    requires |d| == 8
    ensures |r| == 8
  {
    if s == [] then d
    else Place(s[1..], i + RuneLen(s[0]), if i < 8 then d[i := (s[0] as int) % 0x100] else d)
  }

  /** `PadPin(pin)`. */
  function PadPinSpec(pin: string): (r: Bytes)
    ensures |r| == 8
  {
    Place(pin, 0, ZEROS)
  }

  /** `PadPin(pin)`: fills a fresh 8-byte buffer in place. */
  method PadPin(pin: string) returns (block: Bytes)
    ensures block == PadPinSpec(pin)
  {
    var data := new byte[8](_ => 0);
    assert data[..] == ZEROS;
    var i: nat := 0;
    for k := 0 to |pin|
      invariant Place(pin[k..], i, data[..]) == PadPinSpec(pin)
    {
      assert pin[k..][1..] == pin[k + 1..];
      if i < 8 {
        data[i] := (pin[k] as int) % 0x100;
      }
      i := i + RuneLen(pin[k]);
    }
    assert pin[|pin|..] == [];
    block := data[..];
  }

  /** For an ASCII PIN the block is the PIN's first eight characters, then zeros. */
  lemma PadPinAscii(pin: string)
    requires IsAscii(pin)
    ensures forall j :: 0 <= j < 8 ==> PadPinSpec(pin)[j] == if j < |pin| then pin[j] as int else 0
  {
    PlaceAscii(pin, 0, ZEROS);
  }

  lemma {:induction false} PlaceAscii(s: string, i: nat, d: Bytes)
    requires |d| == 8 && IsAscii(s)
    ensures forall j :: 0 <= j < 8 ==> Place(s, i, d)[j] == if i <= j < i + |s| then s[j - i] as int else d[j]
    decreases |s|
  {
    if s != [] {
      var d' := if i < 8 then d[i := (s[0] as int) % 0x100] else d;
      assert IsAscii(s[1..]);
      PlaceAscii(s[1..], i + 1, d');
    }
  }

  /** Only the runes that start below byte 8 matter: whatever follows them is ignored. */
  lemma PadPinTruncates(pin: string, rest: string)
    requires ByteLen(pin) >= 8
    ensures PadPinSpec(pin + rest) == PadPinSpec(pin)
  {
    PlaceTruncates(pin, rest, 0, ZEROS);
  }

  lemma {:induction false} PlaceTruncates(s: string, rest: string, i: nat, d: Bytes)
    requires |d| == 8 && i + ByteLen(s) >= 8
    ensures Place(s + rest, i, d) == Place(s, i, d)
    decreases |s|
  {
    if s == [] {
      assert s + rest == rest;
      PlacePast(rest, i, d);
    } else {
      assert (s + rest)[1..] == s[1..] + rest;
      assert Utf8(s) == EncodeRune(s[0]) + Utf8(s[1..]);
      var d' := if i < 8 then d[i := (s[0] as int) % 0x100] else d;
      PlaceTruncates(s[1..], rest, i + RuneLen(s[0]), d');
    }
  }

  /** Runes at byte index 8 or later change nothing. */
  lemma {:induction false} PlacePast(s: string, i: nat, d: Bytes)
    requires |d| == 8 && i >= 8
    ensures Place(s, i, d) == d
    decreases |s|
  {
    if s != [] {
      PlacePast(s[1..], i + RuneLen(s[0]), d);
    }
  }
}
