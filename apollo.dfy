/**
 * The Apollo identity card reader of card/apollo.go, the card generation before Gemalto: a file is
 * selected, a 6-byte header gives its length at bytes 4 and 5, and its content follows from offset 6,
 * optionally after 4 more bytes the caller asks to skip.
 */
module Apollo {
  import opened Bytes
  import opened Wrappers
  import opened Errors
  import opened Apdu
  import opened Transport
  import CardFile
  import Atr

  const APOLLO_ATR: Atr.Atr := [0x3B, 0xB9, 0x18, 0x00, 0x81, 0x31, 0xFE, 0x9E, 0x80, 0x73, 0xFF, 0x61, 0x40, 0x83,
                                0x00, 0x00, 0x00, 0xDF]

  /** `selectFile(name, 4)`: SELECT by path from the master file (P1 08), Le 4. */
  function SelectFile(name: Bytes): Bytes
    requires |name| <= MAX_DATA
  {
    BuildApdu(0x00, 0xA4, 0x08, 0x00, name, 4)
  }

  /** Where the content starts and how much of it is read: after the header, and 4 bytes later with `trim`. */
  function Extent(length: uint, trim: bool): (res: (uint, uint))
    ensures !trim ==> res == (6, length)
    ensures trim ==> res.0 == 10 && (length >= 4 ==> res.1 == length - 4)
    ensures trim && length < 4 ==> res.1 == UINT_MOD - 4 + length
  {
    if trim then (10, UintSub(length, 4)) else (6, length)
  }

  /**
   * `readFile(name, trim)` with a header check `guard`: the SELECT (only a transport error counts), a
   * 6-byte header read, the length at bytes 4 and 5, then the read loop with no cap of its own.
   */
  function ReadFileWith(w: Wire, name: Bytes, trim: bool, guard: nat): (res: (Result<Bytes, CardError>, Wire))
    requires |name| <= MAX_DATA
  {
    var (s, w0) := Exchange(w, SelectFile(name));
    if s.Failure? then (Err(TransportError), w0)
    else
      var (h, w1) := ReadSpec(w0, 0, 6);
      match h
      case Err(e) => (Err(e), w1)
      case Ok(header) =>
        match CardFile.HeaderLengthAsWritten(header, guard, 4, InvalidFileHeader)
        case Err(e) => (Err(e), w1)
        case Ok(length) =>
          var (offset, rest) := Extent(length, trim);
          ReadLoop(w1, offset, rest, NO_CAP, [])
  }

  /** `readFile` as written: `len(data) < 5` lets a 5-byte header through to `Uint16(data[4:])`. */
  function ReadFileAsWritten(w: Wire, name: Bytes, trim: bool): (res: (Result<Bytes, CardError>, Wire))
    requires |name| <= MAX_DATA
  {
    ReadFileWith(w, name, trim, 5)
  }

  /** `readFile` as intended: a header too short to hold the length is an invalid file header. */
  function ReadFileSpec(w: Wire, name: Bytes, trim: bool): (res: (Result<Bytes, CardError>, Wire))
    requires |name| <= MAX_DATA
  {
    ReadFileWith(w, name, trim, 6)
  }

  /** `Apollo`: only the card link; its methods take the card by value. */
  class ApolloCard {
    const smartCard: Card

    constructor (smartCard: Card)
      ensures this.smartCard == smartCard
    {
      this.smartCard := smartCard;
    }

    /** `readFile(name, trim)`. */
    method ReadFile(name: Bytes, trim: bool) returns (r: Result<Bytes, CardError>)
      requires |name| <= MAX_DATA
      modifies smartCard
      ensures (r, smartCard.State()) == ReadFileSpec(old(smartCard.State()), name, trim)
    {
      var rsp := smartCard.Transmit(SelectFile(name));
      if rsp.Failure? {
        return Err(TransportError);
      }
      var data := Read(smartCard, 0, 6);
      if data.Err? {
        return Err(data.error);
      }
      if |data.value| < 6 {
        return Err(InvalidFileHeader);
      }
      var length: uint := Uint16LE(data.value[4], data.value[5]);
      var offset: uint := 6;
      if trim {
        length := UintSub(length, 4);
        offset := offset + 4;
      }
      r := ReadChunks(smartCard, offset, length, NO_CAP);
    }
  }

  /**
   * A successful read: the SELECT and the header were answered, the header holds at least six bytes, and
   * the file is the payloads of the answers that follow, as long as bytes 4 and 5 announce, 4 fewer with
   * `trim`; the first chunk is asked for right after the header, 4 bytes further with `trim`.
   */
  lemma ReadFileMeaning(w: Wire, name: Bytes, trim: bool)
    requires |name| <= MAX_DATA
    ensures var (r, w1) := ReadFileSpec(w, name, trim);
            r.Ok? ==>
              && |w.script| >= 2
              && w.script[0].Response? && w.script[1].Response?
              && var h := Payload(w.script[1]);
                 var length := Uint16LE(h[4], h[5]);
                 && |h| >= 6
                 && Consumed(w.script[2..], w1.script, [], r.value)
                 && (|r.value| < UINT_MOD ==>
                       |r.value| == if trim then (length - 4) % UINT_MOD else length)
  {
    var (s, w0) := Exchange(w, SelectFile(name));
    if s.Response? {
      var (h, w1) := ReadSpec(w0, 0, 6);
      ReadSpecMeaning(w0, 0, 6);
      if h.Ok? && |h.value| >= 6 {
        assert w1 == Wire(w.script[2..], w.sent + [SelectFile(name), ReadBinary(0, 6)]);
        var (offset, rest) := Extent(Uint16LE(h.value[4], h.value[5]), trim);
        CardFile.LoopResult(w1, offset, rest, NO_CAP);
      }
    }
  }

  /**
   * Once the header is read, the first READ BINARY asks for the content right after the header, or 4 bytes
   * later with `trim`, and for all of it.
   */
  lemma FirstChunk(w: Wire, name: Bytes, trim: bool)
    requires |name| <= MAX_DATA
    requires |w.script| >= 2 && w.script[0].Response? && w.script[1].Response? && |Payload(w.script[1])| >= 6
    requires var h := Payload(w.script[1]); Uint16LE(h[4], h[5]) > (if trim then 4 else 0)
    ensures var h := Payload(w.script[1]);
            var length := Uint16LE(h[4], h[5]);
            var w1 := ReadFileSpec(w, name, trim).1;
            && |w1.sent| > |w.sent| + 2
            && w1.sent[|w.sent| + 2] == if trim then ReadBinary(10, length - 4) else ReadBinary(6, length)
  {
    var h := Payload(w.script[1]);
    var (offset, rest) := Extent(Uint16LE(h[4], h[5]), trim);
    var w1 := Wire(w.script[2..], w.sent + [SelectFile(name), ReadBinary(0, 6)]);
    AfterHeader(w, name, trim);
    LoopFirstRead(w1, offset, rest, NO_CAP, []);
  }

  /** Past a SELECT and a header answered with at least six bytes, what remains is the read loop. */
  lemma AfterHeader(w: Wire, name: Bytes, trim: bool)
    requires |name| <= MAX_DATA
    requires |w.script| >= 2 && w.script[0].Response? && w.script[1].Response? && |Payload(w.script[1])| >= 6
    ensures var h := Payload(w.script[1]);
            var (offset, rest) := Extent(Uint16LE(h[4], h[5]), trim);
            ReadFileSpec(w, name, trim)
            == ReadLoop(Wire(w.script[2..], w.sent + [SelectFile(name), ReadBinary(0, 6)]), offset, rest, NO_CAP, [])
  {
    var w0 := Wire(w.script[1..], w.sent + [SelectFile(name)]);
    assert Exchange(w, SelectFile(name)) == (w.script[0], w0);
    ReadSpecMeaning(w0, 0, 6);
    assert w.script[1..][1..] == w.script[2..];
    var h := Payload(w.script[1]);
    assert |w.script[1].bytes| >= 2;
    assert w0.sent + [ReadBinary(0, 6)] == w.sent + [SelectFile(name), ReadBinary(0, 6)];
    assert ReadSpec(w0, 0, 6) == (Ok(h), Wire(w.script[2..], w.sent + [SelectFile(name), ReadBinary(0, 6)]));
    assert CardFile.HeaderLengthAsWritten(h, 6, 4, InvalidFileHeader) == Ok(Uint16LE(h[4], h[5]));
  }

  /** The two header checks disagree only on a 5-byte header, where the check as written reaches the panic. */
  lemma HeaderGuards(w: Wire, name: Bytes, trim: bool)
    requires |name| <= MAX_DATA
    ensures ReadFileAsWritten(w, name, trim) != ReadFileSpec(w, name, trim) ==>
              && |w.script| >= 2 && w.script[1].Response? && |Payload(w.script[1])| == 5
              && ReadFileAsWritten(w, name, trim).0 == Err(HeaderOutOfRange)
              && ReadFileSpec(w, name, trim).0 == Err(InvalidFileHeader)
  {
    var (s, w0) := Exchange(w, SelectFile(name));
    if s.Response? {
      var (h, w1) := ReadSpec(w0, 0, 6);
      ReadSpecMeaning(w0, 0, 6);
      if h.Ok? {
        CardFile.GuardGap(h.value, 5, 4, InvalidFileHeader);
      }
    }
  }

  /**
   * With `trim`, a header announcing fewer than 4 bytes makes the remaining length wrap around: the loop
   * goes on asking for 0xFF bytes at a time until the card stops answering.
   */
  lemma TrimOfShortLengthWraps(length: uint)
    requires length < 4
    ensures Extent(length, true).1 >= UINT_MOD - 4
  {
  }
}
