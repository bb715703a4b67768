/**
 * The card link (the `Card` interface of card/card.go) and the two commands every reader is built
 * from: the 90 00 status check and READ BINARY. The reader's `Transmit` is an oracle: a card holds the
 * answers it will give, in order, and records every command it is sent. When the answers run out,
 * `Transmit` fails as a broken link would.
 */
module Transport {
  import opened Bytes
  import opened Wrappers
  import opened Apdu
  import opened Errors

  /** What one `Transmit` gives back: response bytes, or a transport error. */
  datatype Reply = Response(bytes: Bytes) | Failure

  /** The observable state of the link: the answers still to come and the commands sent so far. */
  datatype Wire = Wire(script: seq<Reply>, sent: seq<Bytes>)

  /** One `Transmit` on the link `w`. */
  function Exchange(w: Wire, cmd: Bytes): (res: (Reply, Wire))
    ensures res.1.sent == w.sent + [cmd]
    ensures w.script == [] ==> res.0 == Failure && res.1.script == []
    ensures w.script != [] ==> w.script == [res.0] + res.1.script
  {
    if w.script == [] then (Failure, Wire([], w.sent + [cmd]))
    else (w.script[0], Wire(w.script[1..], w.sent + [cmd]))
  }

  /** A reader with a card in it. */
  class Card {
    /** What `Status` reports: the card's ATR, or nothing when the call fails. */
    const status: Option<Bytes>
    var script: seq<Reply>
    var sent: seq<Bytes>

    function State(): Wire
      reads this
    {
      Wire(script, sent)
    }

    constructor (status: Option<Bytes>, answers: seq<Reply>)
      ensures this.status == status && State() == Wire(answers, [])
    {
      this.status := status;
      script := answers;
      sent := [];
    }

    method Transmit(cmd: Bytes) returns (r: Reply)
      modifies this
      ensures (r, State()) == Exchange(old(State()), cmd)
    {
      sent := sent + [cmd];
      if script == [] {
        r := Failure;
      } else {
        r := script[0];
        script := script[1..];
      }
    }
  }

  /** `responseOK`: the answer ends in the status word 90 00. */
  predicate ResponseOK(rsp: Bytes)
  {
    |rsp| >= 2 && rsp[|rsp| - 2] == 0x90 && rsp[|rsp| - 1] == 0x00
  }

  /** The answer is OK exactly when it is some payload followed by 90 00. */
  lemma ResponseOKIff(rsp: Bytes)
    ensures ResponseOK(rsp) <==> exists p: Bytes {:trigger p + [0x90, 0x00]} :: rsp == p + [0x90, 0x00]
  {
    if ResponseOK(rsp) {
      var p := rsp[..|rsp| - 2];
      assert rsp == p + [0x90, 0x00];
    }
  }

  /** Whether a `Transmit` answer counts as a 90 00 success; a transport error does not. */
  predicate ReplyOK(r: Reply)
  {
    r.Response? && ResponseOK(r.bytes)
  }

  function Min(a: nat, b: nat): nat
  {
    if a <= b then a else b
  }

  /** `offset += n` on Go's `uint`. */
  function UintAdd(a: uint, b: nat): (r: uint)
    ensures a + b < UINT_MOD ==> r == a + b
  {
    (a + b) % UINT_MOD
  }

  /** The READ BINARY command `read` sends: P1 P2 are bits 15..8 and 7..0 of the offset, Le = min(length, 0xFF). */
  function ReadBinary(offset: uint, length: uint): Bytes
  {
    BuildApdu(0x00, 0xB0, Low(offset / 0x100), Low(offset), [], Min(length, 0xFF))
  }

  /** READ BINARY as an ISO/IEC 7816-4 reader sees it: INS B0, offset bits in P1 P2, Ne = min(length, 0xFF). */
  lemma ReadBinaryDecodes(offset: uint, length: uint)
    ensures DecodeCommand(ReadBinary(offset, length))
            == Some(Command(0x00, 0xB0, (offset / 0x100) % 0x100, offset % 0x100, [], Min(length, 0xFF)))
  {
    BuildApduDecodes(0x00, 0xB0, Low(offset / 0x100), Low(offset), [], Min(length, 0xFF));
  }

  /** The status word stripped from an answer, as `read` returns it. */
  function Payload(r: Reply): Bytes
  {
    if r.Response? && |r.bytes| >= 2 then r.bytes[..|r.bytes| - 2] else []
  }

  /** `read(card, offset, length)` on the link `w`. */
  function ReadSpec(w: Wire, offset: uint, length: uint): (res: (Result<Bytes, CardError>, Wire))
    ensures res.0.Ok? ==> |res.1.script| == |w.script| - 1
  {
    var (r, w1) := Exchange(w, ReadBinary(offset, length));
    match r
    case Failure => (Err(TransportError), w1)
    case Response(rsp) =>
      if |rsp| < 2 then (Err(BadStatusCode), w1)
      else (Ok(rsp[..|rsp| - 2]), w1)
  }

  /**
   * `read` sends exactly one READ BINARY and consumes one answer; it succeeds exactly when that answer
   * carries at least a status word, and returns the answer without it. The status word is not checked.
   */
  lemma ReadSpecMeaning(w: Wire, offset: uint, length: uint)
    ensures var (r, w1) := ReadSpec(w, offset, length);
            && w1.sent == w.sent + [ReadBinary(offset, length)]
            && (r.Ok? <==> w.script != [] && w.script[0].Response? && |w.script[0].bytes| >= 2)
            && (r.Ok? ==> w.script == [w.script[0]] + w1.script && r.value == Payload(w.script[0]))
            && (w.script == [] ==> r == Err(TransportError))
  {
  }

  /** `read(card, offset, length)`. */
  method Read(card: Card, offset: uint, length: uint) returns (r: Result<Bytes, CardError>)
    modifies card
    ensures (r, card.State()) == ReadSpec(old(card.State()), offset, length)
  {
    var reply := card.Transmit(ReadBinary(offset, length));
    match reply
    case Failure =>
      r := Err(TransportError);
    case Response(rsp) =>
      if |rsp| < 2 {
        r := Err(BadStatusCode);
      } else {
        r := Ok(rsp[..|rsp| - 2]);
      }
  }

  /** No cap on the chunk size: `read` itself asks for at most 0xFF bytes. */
  const NO_CAP: uint := UINT_MOD - 1

  /**
   * The loop every file reader ends with: while `length > 0`, read `min(length, cap)` bytes at `offset`,
   * append them, advance `offset` and take their count off `length`, both on Go's `uint`.
   */
  function ReadLoop(w: Wire, offset: uint, length: uint, cap: uint, acc: Bytes): (res: (Result<Bytes, CardError>, Wire))
    decreases |w.script|
  {
    if length == 0 then (Ok(acc), w)
    else
      var (r, w1) := ReadSpec(w, offset, Min(length, cap));
      match r
      case Err(e) => (Err(e), w1)
      case Ok(data) => ReadLoop(w1, UintAdd(offset, |data|), UintSub(length, |data|), cap, acc + data)
  }

  /** The read loop only appends to what was sent: the commands before it stay in place. */
  lemma {:induction false} ReadLoopSends(w: Wire, offset: uint, length: uint, cap: uint, acc: Bytes)
    ensures var w1 := ReadLoop(w, offset, length, cap, acc).1;
            |w.sent| <= |w1.sent| && w1.sent[..|w.sent|] == w.sent
    decreases |w.script|
  {
    if length > 0 {
      var (r, w1) := ReadSpec(w, offset, Min(length, cap));
      ReadSpecMeaning(w, offset, Min(length, cap));
      if r.Ok? {
        var data := r.value;
        ReadLoopSends(w1, UintAdd(offset, |data|), UintSub(length, |data|), cap, acc + data);
        var w2 := ReadLoop(w1, UintAdd(offset, |data|), UintSub(length, |data|), cap, acc + data).1;
        assert w2.sent[..|w.sent|] == w2.sent[..|w1.sent|][..|w.sent|];
      }
    }
  }

  /** While bytes remain, the loop's next command is READ BINARY at `offset` for at most `cap` of them. */
  lemma LoopFirstRead(w: Wire, offset: uint, length: uint, cap: uint, acc: Bytes)
    requires length > 0
    ensures var w1 := ReadLoop(w, offset, length, cap, acc).1;
            |w1.sent| > |w.sent| && w1.sent[|w.sent|] == ReadBinary(offset, Min(length, cap))
  {
    var (r, w1) := ReadSpec(w, offset, Min(length, cap));
    ReadSpecMeaning(w, offset, Min(length, cap));
    if r.Ok? {
      var data := r.value;
      ReadLoopSends(w1, UintAdd(offset, |data|), UintSub(length, |data|), cap, acc + data);
      var w2 := ReadLoop(w1, UintAdd(offset, |data|), UintSub(length, |data|), cap, acc + data).1;
      assert w2.sent[|w.sent|] == w2.sent[..|w1.sent|][|w.sent|];
    }
  }

  /** A READ BINARY command that asks for at most `cap` bytes. */
  predicate AsksAtMost(cmd: Bytes, cap: uint)
  {
    var c := DecodeCommand(cmd);
    c.Some? && c.value.ins == 0xB0 && c.value.ne <= cap
  }

  /** Every command the read loop sends is a READ BINARY asking for at most `cap` bytes. */
  lemma {:induction false} ReadLoopAsks(w: Wire, offset: uint, length: uint, cap: uint, acc: Bytes)
    ensures var w1 := ReadLoop(w, offset, length, cap, acc).1;
            |w.sent| <= |w1.sent| && forall i :: |w.sent| <= i < |w1.sent| ==> AsksAtMost(w1.sent[i], cap)
    decreases |w.script|
  {
    if length > 0 {
      var (r, w1) := ReadSpec(w, offset, Min(length, cap));
      ReadSpecMeaning(w, offset, Min(length, cap));
      ReadBinaryDecodes(offset, Min(length, cap));
      assert AsksAtMost(ReadBinary(offset, Min(length, cap)), cap);
      if r.Ok? {
        var data := r.value;
        ReadLoopAsks(w1, UintAdd(offset, |data|), UintSub(length, |data|), cap, acc + data);
        ReadLoopSends(w1, UintAdd(offset, |data|), UintSub(length, |data|), cap, acc + data);
        var w2 := ReadLoop(w1, UintAdd(offset, |data|), UintSub(length, |data|), cap, acc + data).1;
        assert w2.sent[|w.sent|] == w2.sent[..|w1.sent|][|w.sent|];
      }
    }
  }

  /** The concatenated payloads of a run of answers. */
  function Payloads(rs: seq<Reply>): Bytes
  {
    if rs == [] then [] else Payload(rs[0]) + Payloads(rs[1..])
  }

  lemma {:induction false} PayloadsAppend(a: seq<Reply>, b: seq<Reply>)
    ensures Payloads(a + b) == Payloads(a) + Payloads(b)
  {
    if a == [] {
      assert a + b == b;
    } else {
      assert (a + b)[1..] == a[1..] + b;
      PayloadsAppend(a[1..], b);
    }
  }

  /**
   * `rest` is what is left of the answers `s` after a read loop, and `out` is `acc` followed by the
   * payloads of the answers it consumed, in order, each of them a response carrying at least its
   * status word.
   */
  ghost predicate Consumed(s: seq<Reply>, rest: seq<Reply>, acc: Bytes, out: Bytes)
  {
    && |rest| <= |s|
    && s == s[..|s| - |rest|] + rest
    && out == acc + Payloads(s[..|s| - |rest|])
    && forall i :: 0 <= i < |s| - |rest| ==> s[i].Response? && |s[i].bytes| >= 2
  }

  /** What a successful read loop returns is exactly the payloads of the answers it consumed. */
  lemma {:induction false} ReadLoopPayloads(w: Wire, offset: uint, length: uint, cap: uint, acc: Bytes)
    ensures var (r, w1) := ReadLoop(w, offset, length, cap, acc);
            r.Ok? ==> Consumed(w.script, w1.script, acc, r.value)
    decreases |w.script|
  {
    if length > 0 {
      var (r, w1) := ReadSpec(w, offset, Min(length, cap));
      ReadSpecMeaning(w, offset, Min(length, cap));
      if r.Ok? {
        var data := r.value;
        ReadLoopPayloads(w1, UintAdd(offset, |data|), UintSub(length, |data|), cap, acc + data);
        var (r2, w2) := ReadLoop(w1, UintAdd(offset, |data|), UintSub(length, |data|), cap, acc + data);
        if r2.Ok? {
          ConsumedStep(w.script, w2.script, acc, data, r2.value);
        }
      }
    } else {
      assert w.script[..0] == [];
    }
  }

  /** One more answer consumed in front of a read loop adds its payload in front. */
  lemma ConsumedStep(s: seq<Reply>, rest: seq<Reply>, acc: Bytes, data: Bytes, out: Bytes)
    requires s != [] && s[0].Response? && |s[0].bytes| >= 2 && data == Payload(s[0])
    requires Consumed(s[1..], rest, acc + data, out)
    ensures Consumed(s, rest, acc, out)
  {
    var consumed := s[1..][..|s| - 1 - |rest|];
    assert s[..|s| - |rest|] == [s[0]] + consumed;
    PayloadsAppend([s[0]], consumed);
    assert Payloads([s[0]]) == Payload(s[0]) + Payloads([]);
    forall i | 0 <= i < |s| - |rest|
      ensures s[i].Response? && |s[i].bytes| >= 2
    {
      if i > 0 {
        assert s[i] == s[1..][i - 1];
      }
    }
  }

  /**
   * A successful read loop returns the announced length, up to the wrap-around of Go's `uint`: the
   * bytes it added number `length` plus a multiple of 2^64. An answer longer than what remains does not
   * stop the loop: the remaining length wraps and reading goes on.
   */
  lemma {:induction false} ReadLoopLength(w: Wire, offset: uint, length: uint, cap: uint, acc: Bytes)
    ensures var (r, _) := ReadLoop(w, offset, length, cap, acc);
            r.Ok? ==> |r.value| >= |acc| + length && (|r.value| - |acc| - length) % UINT_MOD == 0
    decreases |w.script|
  {
    if length > 0 {
      var (r, w1) := ReadSpec(w, offset, Min(length, cap));
      if r.Ok? {
        var data := r.value;
        var rest := UintSub(length, |data|);
        ReadLoopLength(w1, UintAdd(offset, |data|), rest, cap, acc + data);
        var (r2, _) := ReadLoop(w1, UintAdd(offset, |data|), rest, cap, acc + data);
        if r2.Ok? {
          WrapStep(|r2.value| - |acc| - |data| - rest, length, |data|, rest);
        }
      }
    }
  }

  /** One loop step keeps "added bytes = remaining length + a multiple of 2^64". */
  lemma WrapStep(x: int, length: int, d: int, rest: int)
    requires x % 0x1_0000_0000_0000_0000 == 0
    requires rest == (length - d) % 0x1_0000_0000_0000_0000
    ensures (x + rest + d - length) % 0x1_0000_0000_0000_0000 == 0
  {
  }

  /** So a file shorter than 2^64 bytes comes back with exactly the announced length. */
  lemma ReadLoopExactLength(w: Wire, offset: uint, length: uint, cap: uint)
    ensures var (r, _) := ReadLoop(w, offset, length, cap, []);
            r.Ok? && |r.value| < UINT_MOD ==> |r.value| == length
  {
    ReadLoopLength(w, offset, length, cap, []);
  }

  /** An answer that is a bare status word: `read` returns it as an empty payload. */
  predicate BareStatus(r: Reply)
  {
    r.Response? && |r.bytes| == 2
  }

  /**
   * A bare status word moves neither the offset nor the remaining length: the loop sends the same
   * READ BINARY again, with nothing added to what it has read.
   */
  lemma EmptyAnswerStalls(w: Wire, offset: uint, length: uint, cap: uint, acc: Bytes)
    requires length > 0 && w.script != [] && BareStatus(w.script[0])
    ensures ReadLoop(w, offset, length, cap, acc)
            == ReadLoop(Wire(w.script[1..], w.sent + [ReadBinary(offset, Min(length, cap))]), offset, length, cap, acc)
  {
    assert acc + [] == acc;
  }

  /**
   * A card that only ever answers with bare status words never lets the loop finish: it keeps asking
   * until the answers run out, and then fails as a broken link.
   */
  lemma {:induction false} EmptyAnswersRunOut(w: Wire, offset: uint, length: uint, cap: uint, acc: Bytes)
    requires length > 0
    requires forall i :: 0 <= i < |w.script| ==> BareStatus(w.script[i])
    ensures ReadLoop(w, offset, length, cap, acc).0 == Err(TransportError)
    decreases |w.script|
  {
    if w.script != [] {
      EmptyAnswerStalls(w, offset, length, cap, acc);
      var w1 := Wire(w.script[1..], w.sent + [ReadBinary(offset, Min(length, cap))]);
      assert forall i :: 0 <= i < |w1.script| ==> w1.script[i] == w.script[i + 1];
      EmptyAnswersRunOut(w1, offset, length, cap, acc);
    }
  }

  /** The read loop over the card: the body every reader's `for length > 0` loop runs. */
  method ReadChunks(card: Card, offset: uint, length: uint, cap: uint) returns (r: Result<Bytes, CardError>)
    modifies card
    ensures (r, card.State()) == ReadLoop(old(card.State()), offset, length, cap, [])
  {
    var output: Bytes := [];
    var off := offset;
    var len := length;
    while len > 0
      invariant ReadLoop(card.State(), off, len, cap, output) == ReadLoop(old(card.State()), offset, length, cap, [])
      decreases |card.script|
    {
      var data := Read(card, off, Min(len, cap));
      if data.Err? {
        return Err(data.error);
      }
      output := output + data.value;
      off := UintAdd(off, |data.value|);
      len := UintSub(len, |data.value|);
    }
    r := Ok(output);
  }
}
