/**
 * What the file readers of card/gemalto.go, card/medical.go and card/apollo.go share: a SELECT whose answer
 * is ignored, a header read, the file length the header announces, and the read loop of card/card.go.
 */
module CardFile {
  import opened Bytes
  import opened Wrappers
  import opened Errors
  import opened Transport

  /** Go's `uint(len(data))`. */
  function ToUint(n: nat): (r: uint)
    ensures n < UINT_MOD ==> r == n
  {
    n % UINT_MOD
  }

  /**
   * The length check of a file header as the readers write it: a header shorter than `guard` bytes is
   * rejected with `short`, and the little-endian `Uint16` at `at` is read next. `binary.LittleEndian.Uint16`
   * panics when fewer than two bytes start at `at`, which a header of `guard` to `at + 1` bytes reaches.
   */
  function HeaderLengthAsWritten(h: Bytes, guard: nat, at: nat, short: CardError): Result<uint, CardError>
  {
    if |h| < guard then Err(short)
    else if |h| < at + 2 then Err(HeaderOutOfRange)
    else Ok(Uint16LE(h[at], h[at + 1]))
  }

  /** The check the readers intend: any header too short to hold the length is rejected with `short`. */
  function HeaderLength(h: Bytes, at: nat, short: CardError): (r: Result<uint, CardError>)
    ensures r.Ok? <==> |h| >= at + 2
    ensures r.Ok? ==> r.value < 0x10000 && r.value % 0x100 == h[at] && r.value / 0x100 == h[at + 1]
    ensures r.Err? ==> r.error == short
  {
    HeaderLengthAsWritten(h, at + 2, at, short)
  }

  /**
   * A guard below `at + 2` lets exactly the headers of `guard` to `at + 1` bytes reach the panic; on every
   * other header the check as written and the intended one agree.
   */
  lemma GuardGap(h: Bytes, guard: nat, at: nat, short: CardError)
    requires guard <= at + 2 && short != HeaderOutOfRange
    ensures HeaderLengthAsWritten(h, guard, at, short) == Err(HeaderOutOfRange) <==> guard <= |h| < at + 2
    ensures HeaderLengthAsWritten(h, guard, at, short) != Err(HeaderOutOfRange)
            ==> HeaderLengthAsWritten(h, guard, at, short) == HeaderLength(h, at, short)
  {
  }

  /** card/gemalto.go and card/medical.go: a 3-byte header passes `offset < 3` and panics in `Uint16(data[2:])`. */
  lemma ThreeByteHeaderPanics()
    ensures HeaderLengthAsWritten([0x00, 0x00, 0x10], 3, 2, FileTooShort) == Err(HeaderOutOfRange)
    ensures HeaderLength([0x00, 0x00, 0x10], 2, FileTooShort) == Err(FileTooShort)
  {
  }

  /** card/apollo.go: a 5-byte header passes `len(data) < 5` and panics in `Uint16(data[4:])`. */
  lemma FiveByteHeaderPanics()
    ensures HeaderLengthAsWritten([0x00, 0x00, 0x00, 0x00, 0x10], 5, 4, InvalidFileHeader) == Err(HeaderOutOfRange)
    ensures HeaderLength([0x00, 0x00, 0x00, 0x00, 0x10], 4, InvalidFileHeader) == Err(InvalidFileHeader)
  {
  }

  /**
   * `ReadFile` of card/gemalto.go and `readFile` of card/medical.go, which differ only in their SELECT
   * command: the SELECT (only a transport error counts), a 4-byte header, the length at bytes 2 and 3,
   * then the read loop from `len(header)` with no cap of its own.
   */
  function ReadFileSpec(w: Wire, select: Bytes): (res: (Result<Bytes, CardError>, Wire))
  {
    var (s, w0) := Exchange(w, select);
    if s.Failure? then (Err(TransportError), w0)
    else
      var (h, w1) := ReadSpec(w0, 0, 4);
      match h
      case Err(e) => (Err(e), w1)
      case Ok(header) =>
        match HeaderLength(header, 2, FileTooShort)
        case Err(e) => (Err(e), w1)
        case Ok(length) => ReadLoop(w1, ToUint(|header|), length, NO_CAP, [])
  }

  method ReadFile(card: Card, select: Bytes) returns (r: Result<Bytes, CardError>)
    modifies card
    ensures (r, card.State()) == ReadFileSpec(old(card.State()), select)
  {
    var rsp := card.Transmit(select);
    if rsp.Failure? {
      return Err(TransportError);
    }
    var header := Read(card, 0, 4);
    if header.Err? {
      return Err(header.error);
    }
    var length := HeaderLength(header.value, 2, FileTooShort);
    if length.Err? {
      return Err(length.error);
    }
    r := ReadChunks(card, ToUint(|header.value|), length.value, NO_CAP);
  }

  /** A read loop from an empty start returns the payloads of the answers it consumed, `length` bytes of them. */
  lemma LoopResult(w: Wire, offset: uint, length: uint, cap: uint)
    ensures var (r, w1) := ReadLoop(w, offset, length, cap, []);
            r.Ok? ==> Consumed(w.script, w1.script, [], r.value) && (|r.value| < UINT_MOD ==> |r.value| == length)
  {
    ReadLoopPayloads(w, offset, length, cap, []);
    ReadLoopExactLength(w, offset, length, cap);
  }

  /**
   * A file read succeeds only after the SELECT was answered and the header came back with at least four
   * bytes; the file is then the payloads of the answers that follow, as long as bytes 2 and 3 announce.
   */
  lemma ReadFileMeaning(w: Wire, select: Bytes)
    ensures var (r, w1) := ReadFileSpec(w, select);
            r.Ok? ==>
              && |w.script| >= 2
              && w.script[0].Response? && w.script[1].Response?
              && var h := Payload(w.script[1]);
                 && |h| >= 4
                 && Consumed(w.script[2..], w1.script, [], r.value)
                 && (|r.value| < UINT_MOD ==> |r.value| == Uint16LE(h[2], h[3]))
  {
    var (s, w0) := Exchange(w, select);
    if s.Response? {
      var (h, w1) := ReadSpec(w0, 0, 4);
      ReadSpecMeaning(w0, 0, 4);
      if h.Ok? && |h.value| >= 4 {
        assert w1 == Wire(w.script[2..], w.sent + [select, ReadBinary(0, 4)]);
        LoopResult(w1, ToUint(|h.value|), Uint16LE(h.value[2], h.value[3]), NO_CAP);
      }
    }
  }

  /** The log `after` keeps the log `before` and has `cmd` right after it. */
  predicate SentNext(before: seq<Bytes>, after: seq<Bytes>, cmd: Bytes)
  {
    |before| < |after| && after[..|before| + 1] == before + [cmd]
  }

  /** A file read sends its SELECT first and only appends to what was sent before. */
  lemma ReadFileSends(w: Wire, select: Bytes)
    ensures SentNext(w.sent, ReadFileSpec(w, select).1.sent, select)
  {
    var (s, w0) := Exchange(w, select);
    if s.Response? {
      var (h, w1) := ReadSpec(w0, 0, 4);
      ReadSpecMeaning(w0, 0, 4);
      if h.Ok? && |h.value| >= 4 {
        var length := Uint16LE(h.value[2], h.value[3]);
        ReadLoopSends(w1, ToUint(|h.value|), length, NO_CAP, []);
        var w2 := ReadLoop(w1, ToUint(|h.value|), length, NO_CAP, []).1;
        assert w2.sent[..|w.sent| + 1] == w2.sent[..|w1.sent|][..|w.sent| + 1];
      }
    }
  }

  /** The early failures: no answer to the SELECT, and a header answer too short to hold the length. */
  lemma ReadFileFailures(w: Wire, select: Bytes)
    ensures w.script == [] ==> ReadFileSpec(w, select).0 == Err(TransportError)
    ensures |w.script| >= 2 && w.script[0].Response? && w.script[1].Response?
            && 2 <= |w.script[1].bytes| < 6
            ==> ReadFileSpec(w, select).0 == Err(FileTooShort)
  {
  }
}
