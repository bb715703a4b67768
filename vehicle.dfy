/**
 * The vehicle registration card reader of card/vehicle.go: the probing of three application triples,
 * the file reader whose header points at a BER length, the merge of the three BER files into one tree
 * and the mapping of fixed tag paths of that tree onto the fields of the `VehicleDocument`.
 */
module Vehicle {
  import opened Bytes
  import opened Wrappers
  import opened Errors
  import opened Apdu
  import opened Transport
  import opened BerCodec
  import opened BerTree
  import BerParse = Ber
  import CardFile
  import Atr

  /** Possibly no longer issued. */
  const VEHICLE_ATR_0: Atr.Atr := [0x3B, 0xDB, 0x96, 0x00, 0x80, 0xB1, 0xFE, 0x45, 0x1F, 0x83, 0x00, 0x31, 0xC0, 0x64,
                                   0x1A, 0x18, 0x01, 0x00, 0x0F, 0x90, 0x00, 0x52]
  const VEHICLE_ATR_1: Atr.Atr := [0x3B, 0xFF, 0x94, 0x00, 0x00, 0x81, 0x31, 0x80, 0x43, 0x80, 0x31, 0x80, 0x65, 0xB0,
                                   0x85, 0x02, 0x01, 0xF3, 0x12, 0x0F, 0xFF, 0x82, 0x90, 0x00, 0x79]
  const VEHICLE_ATR_2: Atr.Atr := [0x3B, 0x9D, 0x13, 0x81, 0x31, 0x60, 0x37, 0x80, 0x31, 0xC0, 0x69, 0x4D, 0x54, 0x43,
                                   0x4F, 0x53, 0x73, 0x02, 0x02, 0x04, 0x40]

  /** SELECT by application name (P1 04, P2 00), no Le. */
  function SelectAid(aid: Bytes): Bytes
    requires |aid| <= MAX_DATA
  {
    BuildApdu(0x00, 0xA4, 0x04, 0x00, aid, 0)
  }

  /** The same SELECT with P2 0C: no answer data wanted. */
  function SelectAidQuietly(aid: Bytes): Bytes
    requires |aid| <= MAX_DATA
  {
    BuildApdu(0x00, 0xA4, 0x04, 0x0C, aid, 0)
  }

  /** `selectFile(name)`: SELECT of an elementary file (P1 02) with P2 04, no Le. */
  function SelectFile(name: Bytes): Bytes
    requires |name| <= MAX_DATA
  {
    BuildApdu(0x00, 0xA4, 0x02, 0x04, name, 0)
  }

  /** `headerSize`: how much of a file `readFile` asks for first. */
  const HEADER_SIZE: uint := 0x20

  /** The largest chunk `readFile` asks for at a time. */
  const CHUNK: uint := 0x64

  // ---------------------------------------------------------------------------------------------
  // readFile
  // ---------------------------------------------------------------------------------------------

  /**
   * Where the content of a file starts and how long it is, from its header: the offset is byte 1, and
   * the BER length (card/ber.go `parseBerLength`) starts 3 bytes after the offset. A header too short
   * for either read, or a length whose bytes run past the header, is an index panic in Go.
   */
  function ContentExtent(header: Bytes): (r: Result<(uint, uint), CardError>)
    ensures r.Ok? ==> |header| >= 2 && r.value.0 == header[1] && header[1] + 3 <= |header|
    ensures r.Ok? ==> && LegacyParseLength(header[header[1] + 3..]).Ok?
                      && LegacyParseLength(header[header[1] + 3..]).value.value == r.value.1
    ensures r.Err? ==> r.error == HeaderOutOfRange || r.error == Parse(InvalidLength)
  {
    if |header| < 2 || header[1] + 3 > |header| then Err(HeaderOutOfRange)
    else
      var data := header[header[1] + 3..];
      match LegacyParseLength(data)
      case Err(IndexOutOfRange) => Err(HeaderOutOfRange)
      case Err(e) => Err(Parse(e))
      case Ok(len) =>
        LegacyLengthAgrees(data);
        Ok((header[1] as nat, len.value))
  }

  /**
   * `readFile(name)`: the SELECT (only a transport error counts), the 0x20-byte header read, then the
   * read loop from the header's offset in chunks of at most 0x64 bytes.
   */
  function ReadFileSpec(w: Wire, name: Bytes): (res: (Result<Bytes, CardError>, Wire))
    requires |name| <= MAX_DATA
  {
    var (s, w0) := Exchange(w, SelectFile(name));
    if s.Failure? then (Err(TransportError), w0)
    else
      var (h, w1) := ReadSpec(w0, 0, HEADER_SIZE);
      match h
      case Err(e) => (Err(e), w1)
      case Ok(header) =>
        match ContentExtent(header)
        case Err(e) => (Err(e), w1)
        case Ok(extent) => ReadLoop(w1, extent.0, extent.1, CHUNK, [])
  }

  /**
   * Round trip of the header: a header whose byte 1 is `offset` and that holds the BER encoding of `n`
   * from byte `offset + 3` gives back that offset and that length, whatever surrounds them.
   */
  lemma ContentExtentRoundTrip(first: byte, offset: byte, filler: Bytes, n: nat, rest: Bytes)
    requires |filler| == offset as nat + 1 && n < 0x1_0000_0000
    ensures ContentExtent([first, offset] + filler + EncodeLength(n) + rest) == Ok((offset as nat, n))
  {
    var h := [first, offset] + filler + EncodeLength(n) + rest;
    var tail := EncodeLength(n) + rest;
    assert h[offset as nat + 3..] == tail;
    LengthRoundTrip(n, rest);
    LegacyLengthAgrees(tail);
    ExtentOf(h, offset as nat, tail);
  }

  /** A header whose byte 1 is `offset` and whose bytes from `offset + 3` start with a length gives both. */
  lemma ExtentOf(h: Bytes, offset: nat, tail: Bytes)
    requires |h| >= 2 && h[1] == offset && offset + 3 <= |h| && h[offset + 3..] == tail
    requires LegacyParseLength(tail).Ok?
    ensures ContentExtent(h) == Ok((offset, LegacyParseLength(tail).value.value))
  {
  }

  /**
   * The header vectors of card/vehicle_test.go read by this `readFile`: that test is written against a
   * later parser that adds 2 to both the offset and the length and reports 0x80 as an invalid format;
   * here the offset is byte 1 itself, the length is the bare BER length, and 0x80 is an invalid length.
   */
  lemma ContentExtentCases()
    ensures ContentExtent([]) == Err(HeaderOutOfRange)
    ensures ContentExtent([0x01, 0x02, 0x03, 0x04]) == Err(HeaderOutOfRange)
    ensures ContentExtent([0x78, 0x0E, 0x4F, 0x0C, 0xA0, 0x00, 0x00, 0x00, 0x18, 0x65, 0x56, 0x4C, 0x2D, 0x30,
                           0x30, 0x31, 0x72]) == Err(HeaderOutOfRange)
    ensures ContentExtent([0x78, 0x0E, 0x4F, 0x0C, 0xA0, 0x00, 0x00, 0x00, 0x18, 0x65, 0x56, 0x4C, 0x2D, 0x30,
                           0x30, 0x31, 0x72, 0x27]) == Ok((14, 39))
    ensures ContentExtent([0x01, 0x01, 0x01, 0x00, 0x80]) == Err(Parse(InvalidLength))
  {
    var h3: Bytes := [0x78, 0x0E, 0x4F, 0x0C, 0xA0, 0x00, 0x00, 0x00, 0x18, 0x65, 0x56, 0x4C, 0x2D, 0x30, 0x30,
                      0x31, 0x72];
    assert h3[17..] == [];
    var h4: Bytes := h3 + [0x27];
    assert h4[17..] == [0x27];
    var h5: Bytes := [0x01, 0x01, 0x01, 0x00, 0x80];
    assert h5[4..] == [0x80];
  }

  /**
   * A successful read: the SELECT and the header were answered, the header locates a length, and the
   * file is the payloads of the answers that follow, exactly as long as the header announces.
   */
  lemma ReadFileMeaning(w: Wire, name: Bytes)
    requires |name| <= MAX_DATA
    ensures var (r, w1) := ReadFileSpec(w, name);
            r.Ok? ==>
              && |w.script| >= 2
              && w.script[0].Response? && w.script[1].Response?
              && ContentExtent(Payload(w.script[1])).Ok?
              && Consumed(w.script[2..], w1.script, [], r.value)
              && (|r.value| < UINT_MOD ==> |r.value| == ContentExtent(Payload(w.script[1])).value.1)
  {
    var (s, w0) := Exchange(w, SelectFile(name));
    if s.Response? {
      var (h, w1) := ReadSpec(w0, 0, HEADER_SIZE);
      ReadSpecMeaning(w0, 0, HEADER_SIZE);
      if h.Ok? && ContentExtent(h.value).Ok? {
        assert w1 == Wire(w.script[2..], w.sent + [SelectFile(name), ReadBinary(0, HEADER_SIZE)]);
        var extent := ContentExtent(h.value).value;
        CardFile.LoopResult(w1, extent.0, extent.1, CHUNK);
      }
    }
  }

  /** A file read sends its SELECT first and only appends to what was sent before. */
  lemma ReadFileSends(w: Wire, name: Bytes)
    requires |name| <= MAX_DATA
    ensures CardFile.SentNext(w.sent, ReadFileSpec(w, name).1.sent, SelectFile(name))
  {
    var (s, w0) := Exchange(w, SelectFile(name));
    if s.Response? {
      var (h, w1) := ReadSpec(w0, 0, HEADER_SIZE);
      ReadSpecMeaning(w0, 0, HEADER_SIZE);
      if h.Ok? && ContentExtent(h.value).Ok? {
        var extent := ContentExtent(h.value).value;
        ReadLoopSends(w1, extent.0, extent.1, CHUNK, []);
        var w2 := ReadLoop(w1, extent.0, extent.1, CHUNK, []).1;
        assert w2.sent[..|w.sent| + 1] == w2.sent[..|w1.sent|][..|w.sent| + 1];
      }
    }
  }

  /**
   * Once the header is read, every command of the read loop is a READ BINARY asking for at most 0x64
   * bytes, the first of them at the header's offset.
   */
  lemma ReadFileChunks(w: Wire, name: Bytes)
    requires |name| <= MAX_DATA
    requires |w.script| >= 2 && w.script[0].Response? && w.script[1].Response?
    requires ContentExtent(Payload(w.script[1])).Ok?
    ensures var w1 := ReadFileSpec(w, name).1;
            var extent := ContentExtent(Payload(w.script[1])).value;
            && |w1.sent| >= |w.sent| + 2
            && (forall i :: |w.sent| + 2 <= i < |w1.sent| ==> AsksAtMost(w1.sent[i], CHUNK))
            && (extent.1 > 0 ==> |w1.sent| > |w.sent| + 2 && w1.sent[|w.sent| + 2] == ReadBinary(extent.0, Min(extent.1, CHUNK)))
  {
    var w0 := Wire(w.script[1..], w.sent + [SelectFile(name)]);
    assert Exchange(w, SelectFile(name)) == (w.script[0], w0);
    ReadSpecMeaning(w0, 0, HEADER_SIZE);
    assert w.script[1..][1..] == w.script[2..];
    var h := Payload(w.script[1]);
    var w1 := Wire(w.script[2..], w.sent + [SelectFile(name), ReadBinary(0, HEADER_SIZE)]);
    assert w0.sent + [ReadBinary(0, HEADER_SIZE)] == w1.sent;
    assert ReadSpec(w0, 0, HEADER_SIZE) == (Ok(h), w1);
    var extent := ContentExtent(h).value;
    assert ReadFileSpec(w, name) == ReadLoop(w1, extent.0, extent.1, CHUNK, []);
    ReadLoopAsks(w1, extent.0, extent.1, CHUNK, []);
    if extent.1 > 0 {
      LoopFirstRead(w1, extent.0, extent.1, CHUNK, []);
    }
  }

  // ---------------------------------------------------------------------------------------------
  // initCard
  // ---------------------------------------------------------------------------------------------

  /** An application or file name short enough for a SELECT. */
  type Name = n: Bytes | |n| <= MAX_DATA witness []

  /** The three SELECTs of one `tryToSelect`: the application, then two more by name, the last with P2 0C. */
  datatype Triple = Triple(app: Name, second: Name, third: Name)

  /** The commands a triple sends when its first SELECT is accepted. */
  function Commands(t: Triple): seq<Bytes>
  {
    [SelectAid(t.app), SelectAid(t.second), SelectAidQuietly(t.third)]
  }

  /** The vehicle registration application A0 00 00 01 51 00 00. */
  const VEHICLE_AID: Name := [0xA0, 0x00, 0x00, 0x01, 0x51, 0x00, 0x00]

  /** The triples `initCard` tries, in order. */
  const TRIPLES: seq<Triple> := [
    Triple(VEHICLE_AID,
           [0xA0, 0x00, 0x00, 0x00, 0x77, 0x01, 0x08, 0x00, 0x07, 0x00, 0x00, 0xFE, 0x00, 0x00, 0x01, 0x00],
           [0xA0, 0x00, 0x00, 0x00, 0x77, 0x01, 0x08, 0x00, 0x07, 0x00, 0x00, 0xFE, 0x00, 0x00, 0xAD, 0xF2]),
    Triple([0xA0, 0x00, 0x00, 0x00, 0x03, 0x00, 0x00, 0x00],
           [0xF3, 0x81, 0x00, 0x00, 0x02, 0x53, 0x45, 0x52, 0x56, 0x4C, 0x04, 0x02, 0x01],
           [0xA0, 0x00, 0x00, 0x00, 0x77, 0x01, 0x08, 0x00, 0x07, 0x00, 0x00, 0xFE, 0x00, 0x00, 0xAD, 0xF2]),
    Triple([0xA0, 0x00, 0x00, 0x00, 0x18, 0x43, 0x4D, 0x00],
           [0xA0, 0x00, 0x00, 0x00, 0x18, 0x34, 0x14, 0x01, 0x00, 0x65, 0x56, 0x4C, 0x2D, 0x30, 0x30, 0x31],
           [0xA0, 0x00, 0x00, 0x00, 0x18, 0x65, 0x56, 0x4C, 0x2D, 0x30, 0x30, 0x31])
  ]

  /**
   * `tryToSelect(cmd1, cmd2, cmd3)`: a transport error or a first answer other than 90 00 fails; after
   * 90 00 the other two SELECTs fail only on a transport error, whatever they answer.
   */
  function TrySpec(w: Wire, t: Triple): (res: (bool, Wire))
  {
    var (r1, w1) := Exchange(w, SelectAid(t.app));
    if r1.Failure? || !ResponseOK(r1.bytes) then (false, w1)
    else
      var (r2, w2) := Exchange(w1, SelectAid(t.second));
      if r2.Failure? then (false, w2)
      else
        var (r3, w3) := Exchange(w2, SelectAidQuietly(t.third));
        (r3.Response?, w3)
  }

  /** `initCard`: the triples in order until one succeeds; the card is not responsive when none does. */
  function InitCardSpec(w: Wire, ts: seq<Triple>): (res: (Option<CardError>, Wire))
    ensures res.0 == None || res.0 == Some(CardNotResponsive)
    ensures |res.1.sent| >= |w.sent| && res.1.sent[..|w.sent|] == w.sent
    decreases |ts|
  {
    if ts == [] then (Some(CardNotResponsive), w)
    else
      var (ok, w1) := TrySpec(w, ts[0]);
      if ok then (None, w1)
      else
        var res := InitCardSpec(w1, ts[1..]);
        assert res.1.sent[..|w.sent|] == res.1.sent[..|w1.sent|][..|w.sent|];
        res
  }

  /** A triple succeeds exactly when its first SELECT is answered 90 00 and the next two are answered at all. */
  lemma TryOutcome(w: Wire, t: Triple)
    ensures TrySpec(w, t).0 <==> |w.script| >= 3 && ReplyOK(w.script[0]) && w.script[1].Response? && w.script[2].Response?
  {
    if |w.script| >= 2 {
      assert w.script[1..][1..] == w.script[2..];
    }
  }

  /** A successful triple has sent its three SELECTs and consumed their three answers. */
  lemma TryAccepted(w: Wire, t: Triple)
    requires |w.script| >= 3 && ReplyOK(w.script[0]) && w.script[1].Response? && w.script[2].Response?
    ensures TrySpec(w, t) == (true, Wire(w.script[3..], w.sent + Commands(t)))
  {
    var w1 := Wire(w.script[1..], w.sent + [SelectAid(t.app)]);
    var w2 := Wire(w.script[2..], w1.sent + [SelectAid(t.second)]);
    var w3 := Wire(w.script[3..], w2.sent + [SelectAidQuietly(t.third)]);
    assert Exchange(w, SelectAid(t.app)) == (w.script[0], w1);
    assert w.script[1..][1..] == w.script[2..];
    assert Exchange(w1, SelectAid(t.second)) == (w.script[1], w2);
    assert w.script[2..][1..] == w.script[3..];
    assert Exchange(w2, SelectAidQuietly(t.third)) == (w.script[2], w3);
    assert w3.sent == w.sent + Commands(t);
  }

  /** A triple whose first SELECT fails has sent only that SELECT. */
  lemma TryRefused(w: Wire, t: Triple)
    requires w.script == [] || !ReplyOK(w.script[0])
    ensures TrySpec(w, t) == (false, Exchange(w, SelectAid(t.app)).1)
  {
  }

  /** Whatever happens, a triple starts with its first SELECT and only appends to the log. */
  lemma TrySends(w: Wire, t: Triple)
    ensures CardFile.SentNext(w.sent, TrySpec(w, t).1.sent, SelectAid(t.app))
  {
    var (r1, w1) := Exchange(w, SelectAid(t.app));
    if r1.Response? && ResponseOK(r1.bytes) {
      var (r2, w2) := Exchange(w1, SelectAid(t.second));
      var (r3, w3) := Exchange(w2, SelectAidQuietly(t.third));
      assert w3.sent == w.sent + [SelectAid(t.app)] + [SelectAid(t.second)] + [SelectAidQuietly(t.third)];
      assert w3.sent[..|w.sent| + 1] == w.sent + [SelectAid(t.app)];
      assert w2.sent[..|w.sent| + 1] == w.sent + [SelectAid(t.app)];
    }
  }

  /** `initCard` succeeds only right after some triple's three SELECTs, the last commands it sent. */
  lemma {:induction false} InitCardSucceeds(w: Wire, ts: seq<Triple>)
    ensures var (err, w1) := InitCardSpec(w, ts);
            err == None ==> exists i :: 0 <= i < |ts| && EndsWith(w1.sent, Commands(ts[i]))
    decreases |ts|
  {
    if ts != [] {
      var (ok, w1) := TrySpec(w, ts[0]);
      TryOutcome(w, ts[0]);
      if ok {
        TryAccepted(w, ts[0]);
        assert w1.sent[|w1.sent| - 3..] == Commands(ts[0]);
        assert EndsWith(w1.sent, Commands(ts[0]));
      } else {
        InitCardSucceeds(w1, ts[1..]);
        var (err, w2) := InitCardSpec(w1, ts[1..]);
        if err == None {
          var i :| 0 <= i < |ts[1..]| && EndsWith(w2.sent, Commands(ts[1..][i]));
          assert ts[1..][i] == ts[i + 1];
        }
      }
    }
  }

  /** The log `log` ends with the commands `cmds`. */
  predicate EndsWith(log: seq<Bytes>, cmds: seq<Bytes>)
  {
    |log| >= |cmds| && log[|log| - |cmds|..] == cmds
  }

  /**
   * Unlike the Gemalto probing, a transport error does not stop `initCard`: before it reports the card
   * not responsive, every triple's first SELECT has been sent, in order.
   */
  lemma {:induction false} InitCardTriesAll(w: Wire, ts: seq<Triple>)
    ensures var (err, w1) := InitCardSpec(w, ts);
            err == Some(CardNotResponsive) ==> IsSubsequence(FirstSelects(ts), w1.sent[|w.sent|..])
    decreases |ts|
  {
    if ts != [] {
      var (ok, w1) := TrySpec(w, ts[0]);
      TrySends(w, ts[0]);
      if !ok {
        InitCardTriesAll(w1, ts[1..]);
        var (err, w2) := InitCardSpec(w1, ts[1..]);
        if err == Some(CardNotResponsive) {
          SubsequenceAfter(w.sent, w1.sent, w2.sent, SelectAid(ts[0].app), FirstSelects(ts[1..]));
          assert FirstSelects(ts) == [SelectAid(ts[0].app)] + FirstSelects(ts[1..]);
        }
      }
    }
  }

  /** The first SELECT of each triple. */
  function FirstSelects(ts: seq<Triple>): (r: seq<Bytes>)
    ensures |r| == |ts|
  {
    if ts == [] then [] else [SelectAid(ts[0].app)] + FirstSelects(ts[1..])
  }

  /** `xs` appears in `log` in order, possibly with other commands between. */
  predicate IsSubsequence(xs: seq<Bytes>, log: seq<Bytes>)
    decreases |log|
  {
    if xs == [] then true
    else if log == [] then false
    else if log[0] == xs[0] then IsSubsequence(xs[1..], log[1..])
    else IsSubsequence(xs, log[1..])
  }

  /**
   * A step that sent `cmd` first, followed by a run whose log holds `xs` in order, holds `cmd` then
   * `xs` in order.
   */
  lemma SubsequenceAfter(s0: seq<Bytes>, s1: seq<Bytes>, s2: seq<Bytes>, cmd: Bytes, xs: seq<Bytes>)
    requires CardFile.SentNext(s0, s1, cmd)
    requires |s1| <= |s2| && s2[..|s1|] == s1 && IsSubsequence(xs, s2[|s1|..])
    ensures IsSubsequence([cmd] + xs, s2[|s0|..])
  {
    var mid := s1[|s0| + 1..];
    var tail := s2[|s1|..];
    assert s1 == s1[..|s0| + 1] + mid;
    assert s2 == s1 + tail;
    assert s2[|s0|..] == [cmd] + (mid + tail);
    SubsequenceSkip(xs, mid, tail);
    assert ([cmd] + (mid + tail))[1..] == mid + tail;
    assert ([cmd] + xs)[1..] == xs;
  }

  /** Commands in front of a log do not hide a subsequence of it. */
  lemma {:induction false} SubsequenceSkip(xs: seq<Bytes>, front: seq<Bytes>, log: seq<Bytes>)
    requires IsSubsequence(xs, log)
    ensures IsSubsequence(xs, front + log)
    decreases |front|
  {
    if front != [] {
      SubsequenceSkip(xs, front[1..], log);
      assert front + log == [front[0]] + (front[1..] + log);
      SubsequenceCons(xs, front[0], front[1..] + log);
    } else {
      assert front + log == log;
    }
  }

  /** One command in front of a log keeps its subsequences. */
  lemma {:induction false} SubsequenceCons(xs: seq<Bytes>, a: Bytes, log: seq<Bytes>)
    requires IsSubsequence(xs, log)
    ensures IsSubsequence(xs, [a] + log)
    decreases |log|, 1
  {
    assert ([a] + log)[1..] == log;
    if xs != [] && a == xs[0] {
      SubsequenceDrop(xs, log);
    }
  }

  /** A subsequence without its first command is still a subsequence. */
  lemma {:induction false} SubsequenceDrop(xs: seq<Bytes>, log: seq<Bytes>)
    requires xs != [] && IsSubsequence(xs, log)
    ensures IsSubsequence(xs[1..], log)
    decreases |log|, 0
  {
    assert log == [log[0]] + log[1..];
    if log[0] == xs[0] {
      SubsequenceCons(xs[1..], log[0], log[1..]);
    } else {
      SubsequenceDrop(xs, log[1..]);
      SubsequenceCons(xs[1..], log[0], log[1..]);
    }
  }

  /** A card that never answers gets the first SELECT of each triple and is reported not responsive. */
  lemma {:induction false} SilentCard(sent: seq<Bytes>, ts: seq<Triple>)
    ensures InitCardSpec(Wire([], sent), ts) == (Some(CardNotResponsive), Wire([], sent + FirstSelects(ts)))
    decreases |ts|
  {
    if ts == [] {
      assert sent + [] == sent;
    } else {
      SilentStep(sent, ts);
      FirstSelectsCons(sent, ts);
      SilentCard(sent + [SelectAid(ts[0].app)], ts[1..]);
    }
  }

  /** A card that never answers refuses the first triple after its first SELECT, and `initCard` goes on. */
  lemma SilentStep(sent: seq<Bytes>, ts: seq<Triple>)
    requires ts != []
    ensures InitCardSpec(Wire([], sent), ts) == InitCardSpec(Wire([], sent + [SelectAid(ts[0].app)]), ts[1..])
  {
    TryRefused(Wire([], sent), ts[0]);
  }

  /** The first SELECTs of the triples after a log: the first triple's, then the rest's. */
  lemma FirstSelectsCons(sent: seq<Bytes>, ts: seq<Triple>)
    requires ts != []
    ensures sent + FirstSelects(ts) == (sent + [SelectAid(ts[0].app)]) + FirstSelects(ts[1..])
  {
    assert FirstSelects(ts) == [SelectAid(ts[0].app)] + FirstSelects(ts[1..]);
  }

  // ---------------------------------------------------------------------------------------------
  // readVehicleCard
  // ---------------------------------------------------------------------------------------------

  /** The three files of the registration data, in the order they are read. */
  const FILES: seq<Name> := [[0xD0, 0x11], [0xD0, 0x21], [0xD0, 0x31]]

  /**
   * One turn of the loop of `readVehicleCard`: read the file, parse it as BER (card/ber.go, which
   * returns a tag-0 root) and merge it into the tree built so far.
   */
  function FileStep(w: Wire, tree: Ber, name: Bytes): (res: (Result<Ber, CardError>, Wire))
    requires |name| <= MAX_DATA
    ensures res.1 == ReadFileSpec(w, name).1
  {
    var (r, w1) := ReadFileSpec(w, name);
    match r
    case Err(e) => (Err(e), w1)
    case Ok(data) =>
      match BerParse.ParseBerSpec(data, true)
      case Err(e) => (Err(Parse(e)), w1)
      case Ok(parsed) =>
        match Merge(tree, parsed)
        case Err(e) => (Err(Parse(e)), w1)
        case Ok(t) => (Ok(t), w1)
  }

  /** The loop of `readVehicleCard` over `names`, stopping at the first failure. */
  function ReadFilesSpec(w: Wire, tree: Ber, names: seq<Name>): (res: (Result<Ber, CardError>, Wire))
    decreases |names|
  {
    if names == [] then (Ok(tree), w)
    else
      var (r, w1) := FileStep(w, tree, names[0]);
      match r
      case Err(e) => (Err(e), w1)
      case Ok(t) => ReadFilesSpec(w1, t, names[1..])
  }

  /**
   * After a successful merge of a file into the tree, each leaf of that file is found in the tree at
   * the same path: the last file to hold a path decides what the path reads.
   */
  lemma FileStepReadsBack(w: Wire, tree: Ber, name: Bytes, path: seq<nat>)
    requires |name| <= MAX_DATA
    requires FileStep(w, tree, name).0.Ok? && path != []
    ensures var data := ReadFileSpec(w, name).0.value;
            var parsed := BerParse.ParseBerSpec(data, true).value;
            LeafAt(parsed, path) ==> Access(FileStep(w, tree, name).0.value, path) == Ok(Lookup(parsed, path).value.data)
  {
    var data := ReadFileSpec(w, name).0.value;
    var parsed := BerParse.ParseBerSpec(data, true).value;
    if LeafAt(parsed, path) {
      BerParse.ParseBerUnique(data, true);
      MergeReadsBack(tree, parsed, path);
    }
  }

  /**
   * One file merged into a constructed tag-0 tree keeps it so, and the merge never fails on the root
   * tags it compares, since every parsed file has a tag-0 root.
   */
  lemma FileStepKeepsRoot(w: Wire, tree: Ber, name: Bytes)
    requires |name| <= MAX_DATA
    requires tree.tag == 0 && !tree.primitive
    ensures var r := FileStep(w, tree, name).0;
            r.Ok? ==> r.value.tag == 0 && !r.value.primitive
    ensures var f := ReadFileSpec(w, name).0;
            f.Ok? && BerParse.ParseBerSpec(f.value, true).Ok? ==>
              Merge(tree, BerParse.ParseBerSpec(f.value, true).value) != Err(TagsDontMatch)
  {
  }

  /** A successful run of reads keeps a constructed tag-0 root, whatever the files hold. */
  lemma {:induction false} ReadFilesKeepsRoot(w: Wire, tree: Ber, names: seq<Name>)
    requires tree.tag == 0 && !tree.primitive
    ensures var r := ReadFilesSpec(w, tree, names).0;
            r.Ok? ==> r.value.tag == 0 && !r.value.primitive
    decreases |names|
  {
    if names != [] {
      var (r, w1) := FileStep(w, tree, names[0]);
      FileStepKeepsRoot(w, tree, names[0]);
      if r.Ok? {
        ReadFilesKeepsRoot(w1, r.value, names[1..]);
      }
    }
  }

  /** A successful run of reads sends the SELECT of every file, in order. */
  lemma {:induction false} ReadFilesSends(w: Wire, tree: Ber, names: seq<Name>)
    ensures var (r, w1) := ReadFilesSpec(w, tree, names);
            && |w1.sent| >= |w.sent| && w1.sent[..|w.sent|] == w.sent
            && (r.Ok? ==> IsSubsequence(FileSelects(names), w1.sent[|w.sent|..]))
    decreases |names|
  {
    if names != [] {
      var (r, w1) := FileStep(w, tree, names[0]);
      ReadFileSends(w, names[0]);
      NextExtends(w.sent, w1.sent, SelectFile(names[0]));
      if r.Ok? {
        ReadFilesSends(w1, r.value, names[1..]);
        var (r2, w2) := ReadFilesSpec(w1, r.value, names[1..]);
        assert ReadFilesSpec(w, tree, names) == (r2, w2);
        PrefixTransitive(w.sent, w1.sent, w2.sent);
        if r2.Ok? {
          SubsequenceAfter(w.sent, w1.sent, w2.sent, SelectFile(names[0]), FileSelects(names[1..]));
          assert FileSelects(names) == [SelectFile(names[0])] + FileSelects(names[1..]);
        }
      }
    }
  }

  /** What was sent before a command is still the start of the log after it. */
  lemma NextExtends(before: seq<Bytes>, after: seq<Bytes>, cmd: Bytes)
    requires CardFile.SentNext(before, after, cmd)
    ensures |before| <= |after| && after[..|before|] == before
  {
    assert after[..|before|] == after[..|before| + 1][..|before|];
  }

  /** A prefix of a prefix is a prefix. */
  lemma PrefixTransitive(a: seq<Bytes>, b: seq<Bytes>, c: seq<Bytes>)
    requires |a| <= |b| && b[..|a|] == a
    requires |b| <= |c| && c[..|b|] == b
    ensures |a| <= |c| && c[..|a|] == a
  {
    assert c[..|a|] == c[..|b|][..|a|];
  }

  /** The SELECT of each file. */
  function FileSelects(names: seq<Name>): (r: seq<Bytes>)
    ensures |r| == |names|
  {
    if names == [] then [] else [SelectFile(names[0])] + FileSelects(names[1..])
  }

  // ---------------------------------------------------------------------------------------------
  // The document
  // ---------------------------------------------------------------------------------------------

  /** The fields of `VehicleDocument` (document/vehicle.go), in its order. */
  datatype VehicleField =
    | AuthorityIssuing | ColourOfVehicle | CommercialDescription | CompetentAuthority
    | DateOfFirstRegistration | EngineCapacity | EngineIdNumber | EngineNumber | EnginePower
    | EngineRatedSpeed | ExpiryDate | HomologationMark | IssuingDate | MaximumNetPower
    | MaximumPermissibleLadenMass | NumberOfAxles | NumberOfSeats | NumberOfStandingPlaces
    | OwnerAddress | OwnerName | OwnersPersonalNo | OwnersSurnameOrBusinessName | PowerWeightRatio
    | RegistrationNumberOfVehicle | RestrictionToChangeOwner | SerialNumber | StateIssuing
    | TypeApprovalNumber | TypeOfFuel | UnambiguousNumber | UsersAddress | UsersName | UsersPersonalNo
    | UsersSurnameOrBusinessName | VehicleCategory | VehicleIdNumber | VehicleLoad | VehicleMake
    | VehicleMass | VehicleType | YearOfProduction

  /** A `VehicleDocument`: the string of each field; a field not in the map is Go's zero value "". */
  type VehicleDocument = map<VehicleField, Bytes>

  function Value(doc: VehicleDocument, f: VehicleField): Bytes
  {
    if f in doc then doc[f] else []
  }

  /** The BER path each field is taken from; seven fields are not read from the card. */
  function PathOf(f: VehicleField): Option<seq<nat>>
  {
    match f
    case RegistrationNumberOfVehicle => Some([0x71, 0x81])
    case DateOfFirstRegistration => Some([0x71, 0x82])
    case VehicleIdNumber => Some([0x71, 0x8A])
    case VehicleMass => Some([0x71, 0x8C])
    case ExpiryDate => Some([0x71, 0x8D])
    case IssuingDate => Some([0x71, 0x8E])
    case TypeApprovalNumber => Some([0x71, 0x8F])
    case PowerWeightRatio => Some([0x71, 0x93])
    case VehicleMake => Some([0x71, 0xA3, 0x87])
    case VehicleType => Some([0x71, 0xA3, 0x88])
    case CommercialDescription => Some([0x71, 0xA3, 0x89])
    case MaximumPermissibleLadenMass => Some([0x71, 0xA4, 0x8B])
    case EngineCapacity => Some([0x71, 0xA5, 0x90])
    case MaximumNetPower => Some([0x71, 0xA5, 0x91])
    case TypeOfFuel => Some([0x71, 0xA5, 0x92])
    case NumberOfSeats => Some([0x71, 0xA6, 0x94])
    case NumberOfStandingPlaces => Some([0x71, 0xA6, 0x95])
    case SerialNumber => Some([0x71, 0xC9])
    case StateIssuing => Some([0x71, 0x9F33])
    case CompetentAuthority => Some([0x71, 0x9F35])
    case AuthorityIssuing => Some([0x71, 0x9F36])
    case UnambiguousNumber => Some([0x71, 0x9F38])
    case VehicleCategory => Some([0x72, 0x98])
    case NumberOfAxles => Some([0x72, 0x99])
    case VehicleLoad => Some([0x72, 0xC4])
    case YearOfProduction => Some([0x72, 0xC5])
    case EngineIdNumber => Some([0x72, 0xA5, 0x9E])
    case OwnersSurnameOrBusinessName => Some([0x72, 0xA1, 0xA2, 0x83])
    case OwnerName => Some([0x72, 0xA1, 0xA2, 0x84])
    case OwnerAddress => Some([0x72, 0xA1, 0xA2, 0x85])
    case UsersSurnameOrBusinessName => Some([0x72, 0xA1, 0xA9, 0x83])
    case UsersName => Some([0x72, 0xA1, 0xA9, 0x84])
    case UsersAddress => Some([0x72, 0xA1, 0xA9, 0x85])
    case ColourOfVehicle => Some([0x72, 0x9F24])
    case EngineNumber => None
    case EnginePower => None
    case EngineRatedSpeed => None
    case HomologationMark => None
    case OwnersPersonalNo => None
    case RestrictionToChangeOwner => None
    case UsersPersonalNo => None
  }

  /** The fields `readVehicleCard` assigns, in the order it assigns them. */
  const ASSIGNED: seq<VehicleField> := [
    RegistrationNumberOfVehicle, DateOfFirstRegistration, VehicleIdNumber, VehicleMass, ExpiryDate, IssuingDate,
    TypeApprovalNumber, PowerWeightRatio, VehicleMake, VehicleType, CommercialDescription,
    MaximumPermissibleLadenMass, EngineCapacity, MaximumNetPower, TypeOfFuel, NumberOfSeats,
    NumberOfStandingPlaces, SerialNumber, StateIssuing, CompetentAuthority, AuthorityIssuing, UnambiguousNumber,
    VehicleCategory, NumberOfAxles, VehicleLoad, YearOfProduction, EngineIdNumber, OwnersSurnameOrBusinessName,
    OwnerName, OwnerAddress, UsersSurnameOrBusinessName, UsersName, UsersAddress, ColourOfVehicle
  ]

  /** `tree.assignToFrom(&doc.f, path...)` for the field's own path. */
  function Assign(tree: Ber, doc: VehicleDocument, f: VehicleField): VehicleDocument
  {
    match PathOf(f)
    case None => doc
    case Some(p) => doc[f := AssignFrom(tree, Value(doc, f), p)]
  }

  /** The assignments of `fs`, one after another. */
  function Fill(tree: Ber, doc: VehicleDocument, fs: seq<VehicleField>): VehicleDocument
    decreases |fs|
  {
    if fs == [] then doc else Fill(tree, Assign(tree, doc, fs[0]), fs[1..])
  }

  /** What `readVehicleCard` makes of the merged tree. */
  function Document(tree: Ber): VehicleDocument
  {
    Fill(tree, map[], ASSIGNED)
  }

  /** Assigning a field touches no other field. */
  lemma AssignFrame(tree: Ber, doc: VehicleDocument, f: VehicleField, g: VehicleField)
    ensures Value(Assign(tree, doc, f), g)
            == if g == f && PathOf(f).Some? then AssignFrom(tree, Value(doc, f), PathOf(f).value) else Value(doc, g)
  {
  }

  /** Assigning from the same path twice is assigning once. */
  lemma AssignFromTwice(tree: Ber, target: Bytes, path: seq<nat>)
    ensures AssignFrom(tree, AssignFrom(tree, target, path), path) == AssignFrom(tree, target, path)
  {
  }

  /**
   * After the assignments of `fs`, a field that is among them reads what its path holds, or what it
   * held before when the path is missing; any other field is untouched.
   */
  lemma {:induction false} FillValue(tree: Ber, doc: VehicleDocument, fs: seq<VehicleField>, f: VehicleField)
    ensures Value(Fill(tree, doc, fs), f)
            == if f in fs && PathOf(f).Some? then AssignFrom(tree, Value(doc, f), PathOf(f).value) else Value(doc, f)
    decreases |fs|
  {
    if fs != [] {
      var doc1 := Assign(tree, doc, fs[0]);
      FillValue(tree, doc1, fs[1..], f);
      AssignFrame(tree, doc, fs[0], f);
      assert f in fs <==> f == fs[0] || f in fs[1..];
      if PathOf(f).Some? && f == fs[0] && f in fs[1..] {
        AssignFromTwice(tree, Value(doc, f), PathOf(f).value);
      }
    }
  }

  /** Every field with a path is among the assigned ones. */
  lemma PathsAreAssigned(f: VehicleField)
    requires PathOf(f).Some?
    ensures f in ASSIGNED
  {
    match f
    case RegistrationNumberOfVehicle => assert ASSIGNED[0] == RegistrationNumberOfVehicle;
    case DateOfFirstRegistration => assert ASSIGNED[1] == DateOfFirstRegistration;
    case VehicleIdNumber => assert ASSIGNED[2] == VehicleIdNumber;
    case VehicleMass => assert ASSIGNED[3] == VehicleMass;
    case ExpiryDate => assert ASSIGNED[4] == ExpiryDate;
    case IssuingDate => assert ASSIGNED[5] == IssuingDate;
    case TypeApprovalNumber => assert ASSIGNED[6] == TypeApprovalNumber;
    case PowerWeightRatio => assert ASSIGNED[7] == PowerWeightRatio;
    case VehicleMake => assert ASSIGNED[8] == VehicleMake;
    case VehicleType => assert ASSIGNED[9] == VehicleType;
    case CommercialDescription => assert ASSIGNED[10] == CommercialDescription;
    case MaximumPermissibleLadenMass => assert ASSIGNED[11] == MaximumPermissibleLadenMass;
    case EngineCapacity => assert ASSIGNED[12] == EngineCapacity;
    case MaximumNetPower => assert ASSIGNED[13] == MaximumNetPower;
    case TypeOfFuel => assert ASSIGNED[14] == TypeOfFuel;
    case NumberOfSeats => assert ASSIGNED[15] == NumberOfSeats;
    case NumberOfStandingPlaces => assert ASSIGNED[16] == NumberOfStandingPlaces;
    case SerialNumber => assert ASSIGNED[17] == SerialNumber;
    case StateIssuing => assert ASSIGNED[18] == StateIssuing;
    case CompetentAuthority => assert ASSIGNED[19] == CompetentAuthority;
    case AuthorityIssuing => assert ASSIGNED[20] == AuthorityIssuing;
    case UnambiguousNumber => assert ASSIGNED[21] == UnambiguousNumber;
    case VehicleCategory => assert ASSIGNED[22] == VehicleCategory;
    case NumberOfAxles => assert ASSIGNED[23] == NumberOfAxles;
    case VehicleLoad => assert ASSIGNED[24] == VehicleLoad;
    case YearOfProduction => assert ASSIGNED[25] == YearOfProduction;
    case EngineIdNumber => assert ASSIGNED[26] == EngineIdNumber;
    case OwnersSurnameOrBusinessName => assert ASSIGNED[27] == OwnersSurnameOrBusinessName;
    case OwnerName => assert ASSIGNED[28] == OwnerName;
    case OwnerAddress => assert ASSIGNED[29] == OwnerAddress;
    case UsersSurnameOrBusinessName => assert ASSIGNED[30] == UsersSurnameOrBusinessName;
    case UsersName => assert ASSIGNED[31] == UsersName;
    case UsersAddress => assert ASSIGNED[32] == UsersAddress;
    case ColourOfVehicle => assert ASSIGNED[33] == ColourOfVehicle;
    case EngineNumber =>
    case EnginePower =>
    case EngineRatedSpeed =>
    case HomologationMark =>
    case OwnersPersonalNo =>
    case RestrictionToChangeOwner =>
    case UsersPersonalNo =>
  }

  /**
   * The document: every field with a path holds the data the merged tree has at that path, or "" when
   * the tree lacks it; the seven fields without a path stay "".
   */
  lemma DocumentFields(tree: Ber, f: VehicleField)
    ensures PathOf(f).None? ==> Value(Document(tree), f) == []
    ensures PathOf(f).Some? && Access(tree, PathOf(f).value).Ok? ==> Value(Document(tree), f) == Access(tree, PathOf(f).value).value
    ensures PathOf(f).Some? && Access(tree, PathOf(f).value).Err? ==> Value(Document(tree), f) == []
  {
    FillValue(tree, map[], ASSIGNED, f);
    if PathOf(f).Some? {
      PathsAreAssigned(f);
    }
  }

  /** `readVehicleCard`: the SELECT of the application, the three files merged, then the document. */
  function ReadVehicleCardSpec(w: Wire): (res: (Result<VehicleDocument, CardError>, Wire))
  {
    var (s, w0) := Exchange(w, SelectAid(VEHICLE_AID));
    if s.Failure? then (Err(TransportError), w0)
    else
      var (t, w1) := ReadFilesSpec(w0, BerParse.EmptyRoot, FILES);
      match t
      case Err(e) => (Err(e), w1)
      case Ok(tree) => (Ok(Document(tree)), w1)
  }

  /**
   * A successful read: the application SELECT was answered (its status is not checked), it came first,
   * and the SELECTs of D0 11, D0 21 and D0 31 followed in that order.
   */
  lemma ReadVehicleCardSends(w: Wire)
    ensures var (r, w1) := ReadVehicleCardSpec(w);
            r.Ok? ==>
              && w.script != [] && w.script[0].Response?
              && |w1.sent| > |w.sent| && w1.sent[|w.sent|] == SelectAid(VEHICLE_AID)
              && IsSubsequence(FileSelects(FILES), w1.sent[|w.sent| + 1..])
  {
    var (s, w0) := Exchange(w, SelectAid(VEHICLE_AID));
    if s.Response? {
      ReadFilesSends(w0, BerParse.EmptyRoot, FILES);
      var w1 := ReadFilesSpec(w0, BerParse.EmptyRoot, FILES).1;
      assert w1.sent[|w.sent|] == w1.sent[..|w0.sent|][|w.sent|];
      assert w1.sent[|w.sent| + 1..] == w1.sent[|w0.sent|..];
    }
  }

  /**
   * As line 56 calls it, `add` of a parsed tree (a tag-0 root) into an empty tag-0 root puts the parsed
   * tree under the root as a child instead of merging it, and then no path under 0x71 or 0x72 is found.
   */
  lemma LiteralAddNests(parsed: Ber, path: seq<nat>)
    requires parsed.tag == 0 && !parsed.primitive
    requires path != [] && path[0] != 0
    ensures Add(BerParse.EmptyRoot, parsed) == Ok(Ber(0, false, [], [parsed]))
    ensures Access(Add(BerParse.EmptyRoot, parsed).value, path) == Err(TagNotFound)
  {
    var t := Ber(0, false, [], [parsed]);
    assert FindChild(BerParse.EmptyRoot.children, 0) == None;
    assert BerParse.EmptyRoot.children + [parsed] == [parsed];
    assert FindChild([parsed][1..], path[0]) == None;
    assert FindChild(t.children, path[0]) == None;
  }

  // ---------------------------------------------------------------------------------------------
  // The card
  // ---------------------------------------------------------------------------------------------

  /** `VehicleCard`: only the card link; its methods take the card by value. */
  class VehicleCard {
    const smartCard: Card

    constructor (smartCard: Card)
      ensures this.smartCard == smartCard
    {
      this.smartCard := smartCard;
    }

    /** `readFile(name)`. */
    method ReadFile(name: Bytes) returns (r: Result<Bytes, CardError>)
      requires |name| <= MAX_DATA
      modifies smartCard
      ensures (r, smartCard.State()) == ReadFileSpec(old(smartCard.State()), name)
    {
      var rsp := smartCard.Transmit(SelectFile(name));
      if rsp.Failure? {
        return Err(TransportError);
      }
      var header := Read(smartCard, 0, HEADER_SIZE);
      if header.Err? {
        return Err(header.error);
      }
      var extent := ContentExtent(header.value);
      if extent.Err? {
        return Err(extent.error);
      }
      r := ReadChunks(smartCard, extent.value.0, extent.value.1, CHUNK);
    }

    /** `tryToSelect(cmd1, cmd2, cmd3)`. */
    method TryToSelect(t: Triple) returns (ok: bool)
      modifies smartCard
      ensures (ok, smartCard.State()) == TrySpec(old(smartCard.State()), t)
    {
      var rsp := smartCard.Transmit(SelectAid(t.app));
      if rsp.Failure? || !ResponseOK(rsp.bytes) {
        return false;
      }
      rsp := smartCard.Transmit(SelectAid(t.second));
      if rsp.Failure? {
        return false;
      }
      rsp := smartCard.Transmit(SelectAidQuietly(t.third));
      return rsp.Response?;
    }

    /** `initCard`: the three triples in order. */
    method InitCard() returns (err: Option<CardError>)
      modifies smartCard
      ensures (err, smartCard.State()) == InitCardSpec(old(smartCard.State()), TRIPLES)
    {
      for i := 0 to |TRIPLES|
        invariant InitCardSpec(smartCard.State(), TRIPLES[i..]) == InitCardSpec(old(smartCard.State()), TRIPLES)
      {
        assert TRIPLES[i..][1..] == TRIPLES[i + 1..];
        var ok := TryToSelect(TRIPLES[i]);
        if ok {
          return None;
        }
      }
      return Some(CardNotResponsive);
    }

    /** `readVehicleCard`. */
    method ReadVehicleCard() returns (r: Result<VehicleDocument, CardError>)
      modifies smartCard
      ensures (r, smartCard.State()) == ReadVehicleCardSpec(old(smartCard.State()))
    {
      var rsp := smartCard.Transmit(SelectAid(VEHICLE_AID));
      if rsp.Failure? {
        return Err(TransportError);
      }
      ghost var w0 := smartCard.State();
      var data := BerParse.EmptyRoot;
      for i := 0 to |FILES|
        invariant ReadFilesSpec(smartCard.State(), data, FILES[i..]) == ReadFilesSpec(w0, BerParse.EmptyRoot, FILES)
      {
        assert FILES[i..][1..] == FILES[i + 1..];
        var file := ReadFile(FILES[i]);
        if file.Err? {
          return Err(file.error);
        }
        var parsed := BerParse.ParseBer(file.value, true);
        if parsed.Err? {
          return Err(Parse(parsed.error));
        }
        var merged := Merge(data, parsed.value);
        if merged.Err? {
          return Err(Parse(merged.error));
        }
        data := merged.value;
      }
      var doc := FillFields(data, map[], ASSIGNED);
      return Ok(doc);
    }
  }

  /** The assignments at the end of `readVehicleCard`, one field of `fields` after the other. */
  method FillFields(data: Ber, start: VehicleDocument, fields: seq<VehicleField>) returns (doc: VehicleDocument)
    ensures doc == Fill(data, start, fields)
  {
    doc := start;
    for i := 0 to |fields|
      invariant Fill(data, doc, fields[i..]) == Fill(data, start, fields)
    {
      assert fields[i..][1..] == fields[i + 1..];
      doc := Assign(data, doc, fields[i]);
    }
    assert fields[|fields|..] == [];
  }
}
