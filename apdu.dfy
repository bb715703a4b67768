/**
 * Command APDUs (card/apdu.go, repeated verbatim in card/card.go): the encoder the program uses, and an
 * independent decoder written from the command-body cases of ISO/IEC 7816-4:2005 section 5.1, against
 * which the encoder is checked. The encoder follows the standard except in the two places its own
 * tests fix: with no data and Ne > 256 it sends a bare two-byte Le, and in an extended case-4 command
 * with Ne = 65536 it sends no Le at all.
 */
module Apdu {
  import opened Bytes
  import opened Wrappers

  /** Above this many data bytes the encoder panics. */
  const MAX_DATA: nat := 0xFFFF

  /** The four header bytes CLA INS P1 P2. */
  function Header(cla: byte, ins: byte, p1: byte, p2: byte): Bytes
  {
    [cla, ins, p1, p2]
  }

  /** Go's `byte(x)`: the low eight bits. */
  function Low(x: nat): byte
  {
    x % 0x100
  }

  /** `buildAPDU(cla, ins, p1, p2, data, ne)`: the header, then the body the length cases choose. */
  function BuildApdu(cla: byte, ins: byte, p1: byte, p2: byte, data: Bytes, ne: uint): (apdu: Bytes)
    requires |data| <= MAX_DATA
    ensures |apdu| >= 4 && apdu[..4] == Header(cla, ins, p1, p2)
    ensures data == [] && ne == 0 ==> apdu == Header(cla, ins, p1, p2)
    ensures data != [] ==> |apdu| >= 5 + |data|
  {
    Header(cla, ins, p1, p2) + ApduBody(data, ne)
  }

  /** What `buildAPDU` appends to the header: Lc and the data, then Le. */
  function ApduBody(data: Bytes, ne: uint): Bytes
    requires |data| <= MAX_DATA
  {
    var n := |data|;
    if n == 0 then
      if ne == 0 then []
      else if ne <= 256 then [if ne == 256 then 0 else Low(ne)]
      else if ne == 65536 then [0, 0]
      else [Low(ne / 0x100), Low(ne)]
    else if ne == 0 then
      if n <= 255 then [n] + data
      else [0, n / 0x100, n % 0x100] + data
    else if n <= 255 && ne <= 256 then
      [n] + data + [if ne != 256 then Low(ne) else 0]
    else
      [0, n / 0x100, n % 0x100] + data + (if ne != 65536 then [Low(ne / 0x100), Low(ne)] else [])
  }

  /** A command as ISO/IEC 7816-4 describes it: header, command data, and Ne (0 when no response data is expected). */
  datatype Command = Command(cla: byte, ins: byte, p1: byte, p2: byte, data: Bytes, ne: nat)

  /** A short Le byte: 00 stands for 256. */
  function ShortLe(b: byte): nat
  {
    if b == 0 then 256 else b
  }

  /** An extended Le field: 00 00 stands for 65536. */
  function ExtendedLe(hi: byte, lo: byte): nat
  {
    if hi == 0 && lo == 0 then 65536 else 0x100 * hi + lo
  }

  /** Reads a command body (what follows the header) by the cases of ISO/IEC 7816-4:2005 section 5.1: the data field and Ne. */
  function DecodeBody(b: Bytes): Option<(Bytes, nat)>
  {
    if |b| == 0 then Some(([], 0))
    else if |b| == 1 then Some(([], ShortLe(b[0])))
    else if b[0] != 0 then
      var lc: int := b[0];
      if |b| == 1 + lc then Some((b[1..], 0))
      else if |b| == 2 + lc then Some((b[1..|b| - 1], ShortLe(b[|b| - 1])))
      else None
    else if |b| < 3 then None
    else if |b| == 3 then Some(([], ExtendedLe(b[1], b[2])))
    else
      var lc: int := 0x100 * b[1] as int + b[2] as int;
      if lc == 0 then None
      else if |b| == 3 + lc then Some((b[3..], 0))
      else if |b| == 5 + lc then Some((b[3..3 + lc], ExtendedLe(b[3 + lc], b[4 + lc])))
      else None
  }

  /** Reads a command APDU: the header, then the body as `DecodeBody` reads it. */
  function DecodeCommand(apdu: Bytes): (c: Option<Command>)
    ensures c.Some? ==> |apdu| >= 4 && apdu[..4] == Header(c.value.cla, c.value.ins, c.value.p1, c.value.p2)
  {
    if |apdu| < 4 then None
    else
      match DecodeBody(apdu[4..])
      case None => None
      case Some((data, ne)) => Some(Command(apdu[0], apdu[1], apdu[2], apdu[3], data, ne))
  }

  /** Whether the encoder takes one of the two deliberate departures from the standard. */
  predicate Departs(data: Bytes, ne: nat)
  {
    || (data == [] && ne > 256)
    || (data != [] && ne == 65536)
  }

  /** Everywhere else the encoder is exact: a standard decoder recovers the header, the data and Ne. */
  lemma BuildApduDecodes(cla: byte, ins: byte, p1: byte, p2: byte, data: Bytes, ne: nat)
    requires |data| <= MAX_DATA && ne <= 65536
    requires !Departs(data, ne)
    ensures DecodeCommand(BuildApdu(cla, ins, p1, p2, data, ne)) == Some(Command(cla, ins, p1, p2, data, ne))
  {
    var apdu := BuildApdu(cla, ins, p1, p2, data, ne);
    assert apdu[4..] == ApduBody(data, ne);
    ApduBodyDecodes(data, ne);
  }

  lemma ApduBodyDecodes(data: Bytes, ne: nat)
    requires |data| <= MAX_DATA && ne <= 65536
    requires !Departs(data, ne)
    ensures DecodeBody(ApduBody(data, ne)) == Some((data, ne))
  {
    var n := |data|;
    if n == 0 {
    } else if ne == 0 {
      if n <= 255 {
        ShortCase3Decodes(data);
      } else {
        ExtendedBodyDecodes(data, []);
      }
    } else if n <= 255 && ne <= 256 {
      ShortCase4Decodes(data, ne);
    } else {
      var le := [Low(ne / 0x100), Low(ne)];
      assert ExtendedLe(le[0], le[1]) == ne;
      ExtendedBodyDecodes(data, le);
    }
  }

  lemma ShortCase3Decodes(data: Bytes)
    requires 0 < |data| <= 255
    ensures DecodeBody([|data|] + data) == Some((data, 0))
  {
    var b: Bytes := [|data|] + data;
    assert b[1..] == data;
  }

  lemma ShortCase4Decodes(data: Bytes, ne: nat)
    requires 0 < |data| <= 255 && 0 < ne <= 256
    ensures DecodeBody([|data|] + data + [if ne != 256 then Low(ne) else 0]) == Some((data, ne))
  {
    var b: Bytes := [|data|] + data + [if ne != 256 then Low(ne) else 0];
    assert b[1..|b| - 1] == data;
  }

  lemma ExtendedBodyDecodes(data: Bytes, le: Bytes)
    requires 0 < |data| <= MAX_DATA && (le == [] || |le| == 2)
    ensures var n := |data|;
            DecodeBody([0, n / 0x100, n % 0x100] + data + le)
            == Some((data, if le == [] then 0 else ExtendedLe(le[0], le[1])))
  {
    var n := |data|;
    var b: Bytes := [0, n / 0x100, n % 0x100] + data + le;
    assert 0x100 * b[1] as int + b[2] as int == n;
    assert b[3..3 + n] == data;
    if le == [] {
      assert b[3..] == data;
    } else {
      assert b[3 + n] == le[0] && b[4 + n] == le[1];
    }
  }

  /**
   * First departure, as the encoder's test fixes it: no data and Ne = 0x1FF gives the body 01 FF, which
   * the standard reads as one data byte FF and no Le.
   */
  lemma TwoByteLeReadsAsData(cla: byte, ins: byte, p1: byte, p2: byte)
    ensures BuildApdu(cla, ins, p1, p2, [], 0x1FF) == Header(cla, ins, p1, p2) + [0x01, 0xFF]
    ensures DecodeCommand(BuildApdu(cla, ins, p1, p2, [], 0x1FF)) == Some(Command(cla, ins, p1, p2, [0xFF], 0))
  {
    var apdu := BuildApdu(cla, ins, p1, p2, [], 0x1FF);
    assert apdu[4..] == [0x01, 0xFF];
    ShortCase3Decodes([0xFF]);
  }

  /**
   * First departure in general: with no data and 256 < Ne <= 65536 the body is the bare two-byte Le
   * (00 00 for 65536). The standard reads it as one data byte and no Le when its first byte is 01, that
   * is for Ne below 512, and rejects it as malformed otherwise.
   */
  lemma TwoByteLeDeparture(cla: byte, ins: byte, p1: byte, p2: byte, ne: nat)
    requires 256 < ne <= 65536
    ensures BuildApdu(cla, ins, p1, p2, [], ne) == Header(cla, ins, p1, p2) + [Low(ne / 0x100), Low(ne)]
    ensures DecodeCommand(BuildApdu(cla, ins, p1, p2, [], ne))
            == if ne < 512 then Some(Command(cla, ins, p1, p2, [Low(ne)], 0)) else None
  {
    var apdu := BuildApdu(cla, ins, p1, p2, [], ne);
    assert apdu[4..] == [Low(ne / 0x100), Low(ne)];
    if ne < 512 {
      ShortCase3Decodes([Low(ne)]);
    }
  }

  /** Second departure: an extended command with data and Ne = 65536 loses its Le and reads as Ne = 0. */
  lemma ExtendedMaxLeDropped(cla: byte, ins: byte, p1: byte, p2: byte, data: Bytes)
    requires 0 < |data| <= MAX_DATA
    ensures DecodeCommand(BuildApdu(cla, ins, p1, p2, data, 65536)) == Some(Command(cla, ins, p1, p2, data, 0))
  {
    var n := |data|;
    var apdu := BuildApdu(cla, ins, p1, p2, data, 65536);
    assert apdu[4..] == ApduBody(data, 65536) == [0, n / 0x100, n % 0x100] + data + [];
    ExtendedBodyDecodes(data, []);
  }
}
