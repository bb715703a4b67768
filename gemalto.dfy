/**
 * The Gemalto identity card reader of card/gemalto.go: the probing of the three identity applications,
 * the reading of the four identity files, the selection of the PKCS#15 application and the PIN change.
 * `trim4b`, which strips the photo file's prefix, is not part of this model and is a parameter.
 */
module Gemalto {
  import opened Bytes
  import opened Wrappers
  import opened Errors
  import opened Apdu
  import opened Transport
  import opened CardFile
  import opened Pin
  import opened IdCard
  import Atr

  /** The four card generations a Gemalto identity card answers reset with. */
  const GEMALTO_ATR_1: Atr.Atr := [0x3B, 0xFF, 0x94, 0x00, 0x00, 0x81, 0x31, 0x80, 0x43, 0x80, 0x31, 0x80, 0x65, 0xB0,
                                   0x85, 0x02, 0x01, 0xF3, 0x12, 0x0F, 0xFF, 0x82, 0x90, 0x00, 0x79]
  const GEMALTO_ATR_2: Atr.Atr := [0x3B, 0xF9, 0x96, 0x00, 0x00, 0x80, 0x31, 0xFE, 0x45, 0x53, 0x43, 0x45, 0x37, 0x20,
                                   0x47, 0x43, 0x4E, 0x33, 0x5E]
  const GEMALTO_ATR_3: Atr.Atr := [0x3B, 0x9E, 0x96, 0x80, 0x31, 0xFE, 0x45, 0x53, 0x43, 0x45, 0x20, 0x38, 0x2E, 0x30,
                                   0x2D, 0x43, 0x31, 0x56, 0x30, 0x0D, 0x0A, 0x6F]
  const GEMALTO_ATR_4: Atr.Atr := [0x3B, 0x9E, 0x96, 0x80, 0x31, 0xFE, 0x45, 0x53, 0x43, 0x45, 0x20, 0x38, 0x2E, 0x30,
                                   0x2D, 0x43, 0x32, 0x56, 0x30, 0x0D, 0x0A, 0x6C]

  /** F3 81 00 00 02 'SERID' 01, 'SERIF' and 'SERRP': the identity card, the foreigner's card, the residence permit. */
  const SERID_AID: Bytes := [0xF3, 0x81, 0x00, 0x00, 0x02, 0x53, 0x45, 0x52, 0x49, 0x44, 0x01]
  const SERIF_AID: Bytes := [0xF3, 0x81, 0x00, 0x00, 0x02, 0x53, 0x45, 0x52, 0x49, 0x46, 0x01]
  const SERRP_AID: Bytes := [0xF3, 0x81, 0x00, 0x00, 0x02, 0x53, 0x45, 0x52, 0x52, 0x50, 0x01]

  /** The PKCS#15 application, A0 00 00 00 63 'PKCS-15'. */
  const PKCS15_AID: Bytes := [0xA0, 0x00, 0x00, 0x00, 0x63, 0x50, 0x4B, 0x43, 0x53, 0x2D, 0x31, 0x35]

  /** SELECT by application name: P1 04, no Le. */
  function SelectAid(aid: Bytes): Bytes
    requires |aid| <= MAX_DATA
  {
    BuildApdu(0x00, 0xA4, 0x04, 0x00, aid, 0)
  }

  /** The SELECTs `InitCard` tries, in order. */
  const PROBES: seq<Bytes> := [SelectAid(SERID_AID), SelectAid(SERIF_AID), SelectAid(SERRP_AID)]

  const SELECT_PKCS15: Bytes := SelectAid(PKCS15_AID)

  /** `selectFile(name, 4)`: SELECT by path from the master file (P1 08), Le 4. */
  function SelectFile(name: Bytes): Bytes
    requires |name| <= MAX_DATA
  {
    BuildApdu(0x00, 0xA4, 0x08, 0x00, name, 4)
  }

  /** VERIFY (INS 20) of the PIN with reference 80, carrying the padded old PIN. */
  function VerifyCommand(oldPin: string): Bytes
  {
    BuildApdu(0x00, 0x20, 0x00, 0x80, PadPinSpec(oldPin), 0)
  }

  /** CHANGE REFERENCE DATA (INS 24) of the PIN with reference 80, carrying both padded PINs. */
  function ChangeCommand(oldPin: string, newPin: string): Bytes
  {
    BuildApdu(0x00, 0x24, 0x00, 0x80, PadPinSpec(oldPin) + PadPinSpec(newPin), 0)
  }

  /** An answer that arrived but is not 90 00. */
  predicate Rejected(r: Reply)
  {
    r.Response? && !ResponseOK(r.bytes)
  }

  /**
   * The probe SELECTs `cmds` sent one after another: a transport error stops at once, the first 90 00
   * initialises the card, and a card that rejects them all is of an unknown type.
   */
  function ProbeSpec(w: Wire, cmds: seq<Bytes>): (res: (Option<CardError>, Wire))
    decreases |cmds|
  {
    if cmds == [] then (Some(UnknownCardType), w)
    else
      var (rsp, w1) := Exchange(w, cmds[0]);
      if rsp.Failure? then (Some(TransportError), w1)
      else if ResponseOK(rsp.bytes) then (None, w1)
      else ProbeSpec(w1, cmds[1..])
  }

  /** How many of the first `n` answers are rejections in a row, from the first one. */
  function RejectedRun(rs: seq<Reply>, n: nat): (k: nat)
    ensures k <= n && k <= |rs|
  {
    if n == 0 || rs == [] || !Rejected(rs[0]) then 0 else 1 + RejectedRun(rs[1..], n - 1)
  }

  /** The run is the longest one: every answer in it is a rejection, and the one after it, if any, is not. */
  lemma {:induction false} RejectedRunMeaning(rs: seq<Reply>, n: nat)
    ensures var k := RejectedRun(rs, n);
            && (forall j :: 0 <= j < k ==> Rejected(rs[j]))
            && (k < n ==> k == |rs| || !Rejected(rs[k]))
  {
    if n > 0 && rs != [] && Rejected(rs[0]) {
      RejectedRunMeaning(rs[1..], n - 1);
      var k := RejectedRun(rs, n);
      forall j | 0 <= j < k
        ensures Rejected(rs[j])
      {
        if j > 0 {
          assert rs[j] == rs[1..][j - 1];
        }
      }
    }
  }

  /**
   * The probing in terms of the answers: after a run of `k` rejections, the next answer decides. It
   * initialises the card when it is 90 00, is a transport error when it is missing or failed, and when
   * every probe was rejected the card type is unknown.
   */
  lemma ProbeOutcome(w: Wire, cmds: seq<Bytes>)
    ensures var err := ProbeSpec(w, cmds).0;
            var k := RejectedRun(w.script, |cmds|);
            && (err == None <==> k < |cmds| && k < |w.script| && ReplyOK(w.script[k]))
            && (err == Some(TransportError) <==> k < |cmds| && (k == |w.script| || w.script[k].Failure?))
            && (err == Some(UnknownCardType) <==> k == |cmds|)
  {
    ProbeVerdict(w, cmds);
    RejectedRunMeaning(w.script, |cmds|);
  }

  /** The decision the answers `rs` give to `n` probes: the one after the run of rejections decides. */
  function Verdict(rs: seq<Reply>, n: nat): Option<CardError>
  {
    var k := RejectedRun(rs, n);
    if k == n then Some(UnknownCardType) else if k < |rs| && ReplyOK(rs[k]) then None else Some(TransportError)
  }

  /** The probing decides what the answers decide. */
  lemma {:induction false} ProbeVerdict(w: Wire, cmds: seq<Bytes>)
    ensures ProbeSpec(w, cmds).0 == Verdict(w.script, |cmds|)
    decreases |cmds|
  {
    if cmds != [] && w.script != [] && Rejected(w.script[0]) {
      var w1 := Wire(w.script[1..], w.sent + [cmds[0]]);
      calc {
        ProbeSpec(w, cmds).0;
        { ProbeStep(w, cmds); }
        ProbeSpec(w1, cmds[1..]).0;
        { ProbeVerdict(w1, cmds[1..]); }
        Verdict(w.script[1..], |cmds| - 1);
        { VerdictStep(w.script, |cmds|); }
        Verdict(w.script, |cmds|);
      }
    } else {
      ProbeDecided(w, cmds);
    }
  }

  /** A first answer that is not a rejection, or no probe at all, decides at once. */
  lemma ProbeDecided(w: Wire, cmds: seq<Bytes>)
    requires !(cmds != [] && w.script != [] && Rejected(w.script[0]))
    ensures ProbeSpec(w, cmds).0 == Verdict(w.script, |cmds|)
  {
    assert RejectedRun(w.script, |cmds|) == 0;
  }

  /** A rejection in front of the answers leaves the decision to the answers after it. */
  lemma VerdictStep(rs: seq<Reply>, n: nat)
    requires n > 0 && rs != [] && Rejected(rs[0])
    ensures Verdict(rs, n) == Verdict(rs[1..], n - 1)
  {
    var k1 := RejectedRun(rs[1..], n - 1);
    RunStep(rs, n);
    if k1 < |rs[1..]| {
      assert rs[k1 + 1] == rs[1..][k1];
    }
  }

  /** A rejected probe: the probing goes on with the next command. */
  lemma ProbeStep(w: Wire, cmds: seq<Bytes>)
    requires cmds != [] && w.script != [] && Rejected(w.script[0])
    ensures ProbeSpec(w, cmds) == ProbeSpec(Wire(w.script[1..], w.sent + [cmds[0]]), cmds[1..])
  {
  }

  /** A rejection in front of the answers makes the run of rejections one longer. */
  lemma RunStep(rs: seq<Reply>, n: nat)
    requires n > 0 && rs != [] && Rejected(rs[0])
    ensures RejectedRun(rs, n) == RejectedRun(rs[1..], n - 1) + 1
  {
  }

  /** How many of the `n` probes are sent: the run of rejections and the one answer that decides. */
  function Tried(rs: seq<Reply>, n: nat): (t: nat)
    ensures t <= n
  {
    var k := RejectedRun(rs, n);
    if k < n then k + 1 else k
  }

  /** A rejection in front of the answers sends one more probe. */
  lemma TriedStep(rs: seq<Reply>, n: nat)
    requires n > 0 && rs != [] && Rejected(rs[0])
    ensures Tried(rs, n) == Tried(rs[1..], n - 1) + 1
  {
    RunStep(rs, n);
  }

  /** Exactly the probes up to the deciding one are sent. */
  lemma {:induction false} ProbeSends(w: Wire, cmds: seq<Bytes>)
    ensures ProbeSpec(w, cmds).1.sent == w.sent + cmds[..Tried(w.script, |cmds|)]
    decreases |cmds|
  {
    if cmds != [] && w.script != [] && Rejected(w.script[0]) {
      var w1 := Wire(w.script[1..], w.sent + [cmds[0]]);
      var t1 := Tried(w.script[1..], |cmds| - 1);
      calc {
        ProbeSpec(w, cmds).1.sent;
        { ProbeStep(w, cmds); }
        ProbeSpec(w1, cmds[1..]).1.sent;
        { ProbeSends(w1, cmds[1..]); }
        w.sent + [cmds[0]] + cmds[1..][..t1];
        { assert cmds[..t1 + 1] == [cmds[0]] + cmds[1..][..t1]; }
        w.sent + cmds[..t1 + 1];
        { TriedStep(w.script, |cmds|); }
        w.sent + cmds[..Tried(w.script, |cmds|)];
      }
    } else if cmds != [] {
      assert RejectedRun(w.script, |cmds|) == 0;
      assert cmds[..1] == [cmds[0]];
    }
  }

  /** Each probe sent consumes one answer. */
  lemma {:induction false} ProbeConsumes(w: Wire, cmds: seq<Bytes>)
    ensures ProbeSpec(w, cmds).1.script == w.script[Min(Tried(w.script, |cmds|), |w.script|)..]
    decreases |cmds|
  {
    if cmds == [] {
      assert w.script[0..] == w.script;
    } else if w.script != [] && Rejected(w.script[0]) {
      var w1 := Wire(w.script[1..], w.sent + [cmds[0]]);
      var j := Min(Tried(w.script[1..], |cmds| - 1), |w1.script|);
      calc {
        ProbeSpec(w, cmds).1.script;
        { ProbeStep(w, cmds); }
        ProbeSpec(w1, cmds[1..]).1.script;
        { ProbeConsumes(w1, cmds[1..]); }
        w.script[1..][j..];
        { DropAfterFirst(w.script, j); }
        w.script[j + 1..];
        { TriedStep(w.script, |cmds|); }
        w.script[Min(Tried(w.script, |cmds|), |w.script|)..];
      }
    } else {
      assert RejectedRun(w.script, |cmds|) == 0;
    }
  }

  /** Dropping `j` answers after the first one drops `j + 1` answers. */
  lemma DropAfterFirst(s: seq<Reply>, j: nat)
    requires j < |s|
    ensures s[j + 1..] == s[1..][j..]
  {
  }

  /** `InitCrypto`: the PKCS#15 application must answer its SELECT with 90 00. */
  function InitCryptoSpec(w: Wire): (res: (Option<CardError>, Wire))
  {
    var (rsp, w1) := Exchange(w, SELECT_PKCS15);
    if rsp.Failure? then (Some(TransportError), w1)
    else if ResponseOK(rsp.bytes) then (None, w1)
    else (Some(NotSelected), w1)
  }

  /**
   * `ChangePin(newPin, oldPin)`: the PKCS#15 application, both PINs checked, VERIFY of the old PIN, then
   * CHANGE REFERENCE DATA with old and new; each command must be answered with 90 00.
   */
  function ChangePinSpec(w: Wire, newPin: string, oldPin: string): (res: (Option<CardError>, Wire))
  {
    var (c, w1) := InitCryptoSpec(w);
    if c.Some? then (c, w1)
    else if !ValidPin(oldPin) then (Some(OldPinNotValid), w1)
    else if !ValidPin(newPin) then (Some(NewPinNotValid), w1)
    else
      var (v, w2) := Exchange(w1, VerifyCommand(oldPin));
      if v.Failure? then (Some(TransportError), w2)
      else if !ResponseOK(v.bytes) then (Some(VerifyFailed), w2)
      else
        var (r, w3) := Exchange(w2, ChangeCommand(oldPin, newPin));
        if r.Failure? then (Some(TransportError), w3)
        else if !ResponseOK(r.bytes) then (Some(ChangeFailed), w3)
        else (None, w3)
  }

  /** The four files of an identity card as `ReadCard` keeps them. */
  datatype IdFiles = IdFiles(document: Bytes, personal: Bytes, residence: Bytes, photo: Bytes)

  /**
   * `ReadCard` from the files `files` it held before: each file read is stored as it comes, a failed read
   * storing no bytes, and the photo is stored trimmed, only when it was read.
   */
  function ReadCardSpec(w: Wire, files: IdFiles, trim4b: Bytes -> Bytes): (res: (Option<CardError>, IdFiles, Wire))
  {
    var (a, w1) := ReadFileSpec(w, SelectFile(ID_DOCUMENT_FILE_LOC));
    if a.Err? then (Some(a.error), files.(document := []), w1) else
    var (b, w2) := ReadFileSpec(w1, SelectFile(ID_PERSONAL_FILE_LOC));
    if b.Err? then (Some(b.error), files.(document := a.value, personal := []), w2) else
    var (c, w3) := ReadFileSpec(w2, SelectFile(ID_RESIDENCE_FILE_LOC));
    if c.Err? then (Some(c.error), files.(document := a.value, personal := b.value, residence := []), w3) else
    var (d, w4) := ReadFileSpec(w3, SelectFile(ID_PHOTO_FILE_LOC));
    if d.Err? then (Some(d.error), files.(document := a.value, personal := b.value, residence := c.value), w4)
    else (None, IdFiles(a.value, b.value, c.value, trim4b(d.value)), w4)
  }

  /** `Test`: the card initialises and its document file can be read. */
  function TestSpec(w: Wire): (res: (bool, Wire))
  {
    var (err, w1) := ProbeSpec(w, PROBES);
    if err.Some? then (false, w1)
    else
      var (file, w2) := ReadFileSpec(w1, SelectFile(ID_DOCUMENT_FILE_LOC));
      (file.Ok?, w2)
  }

  /** `Gemalto`: the card link and the four files `ReadCard` stores. */
  class GemaltoCard {
    const atr: Atr.Atr
    const smartCard: Card
    var documentFile: Bytes
    var personalFile: Bytes
    var residenceFile: Bytes
    var photoFile: Bytes

    function Files(): IdFiles
      reads this`documentFile, this`personalFile, this`residenceFile, this`photoFile
    {
      IdFiles(documentFile, personalFile, residenceFile, photoFile)
    }

    constructor (atr: Atr.Atr, smartCard: Card)
      ensures this.atr == atr && this.smartCard == smartCard && Files() == IdFiles([], [], [], [])
    {
      this.atr := atr;
      this.smartCard := smartCard;
      documentFile, personalFile, residenceFile, photoFile := [], [], [], [];
    }

    /** `InitCard`: the three SELECTs, one after another. */
    method InitCard() returns (err: Option<CardError>)
      modifies smartCard
      ensures (err, smartCard.State()) == ProbeSpec(old(smartCard.State()), PROBES)
    {
      ghost var w0 := smartCard.State();
      var rsp := smartCard.Transmit(SelectAid(SERID_AID));
      if rsp.Failure? {
        return Some(TransportError);
      }
      if ResponseOK(rsp.bytes) {
        return None;
      }
      ghost var rest := [SelectAid(SERIF_AID), SelectAid(SERRP_AID)];
      assert PROBES[1..] == rest;
      assert ProbeSpec(w0, PROBES) == ProbeSpec(smartCard.State(), rest);
      ghost var w1 := smartCard.State();
      rsp := smartCard.Transmit(SelectAid(SERIF_AID));
      if rsp.Failure? {
        return Some(TransportError);
      }
      if ResponseOK(rsp.bytes) {
        return None;
      }
      assert rest[1..] == [SelectAid(SERRP_AID)];
      assert ProbeSpec(w1, rest) == ProbeSpec(smartCard.State(), [SelectAid(SERRP_AID)]);
      ghost var w2 := smartCard.State();
      rsp := smartCard.Transmit(SelectAid(SERRP_AID));
      if rsp.Failure? {
        return Some(TransportError);
      }
      if ResponseOK(rsp.bytes) {
        return None;
      }
      assert [SelectAid(SERRP_AID)][1..] == [];
      assert ProbeSpec(w2, [SelectAid(SERRP_AID)]) == ProbeSpec(smartCard.State(), []);
      return Some(UnknownCardType);
    }

    /** `ReadFile(name)`. */
    method ReadFile(name: Bytes) returns (r: Result<Bytes, CardError>)
      requires |name| <= MAX_DATA
      modifies smartCard
      ensures (r, smartCard.State()) == ReadFileSpec(old(smartCard.State()), SelectFile(name))
    {
      r := CardFile.ReadFile(smartCard, SelectFile(name));
    }

    /** `ReadCard`: the four files in order, each stored as soon as it is read. */
    method ReadCard(trim4b: Bytes -> Bytes) returns (err: Option<CardError>)
      modifies smartCard, this`documentFile, this`personalFile, this`residenceFile, this`photoFile
      ensures (err, Files(), smartCard.State()) == ReadCardSpec(old(smartCard.State()), old(Files()), trim4b)
    {
      var r := ReadFile(ID_DOCUMENT_FILE_LOC);
      documentFile := if r.Ok? then r.value else [];
      if r.Err? {
        return Some(r.error);
      }
      r := ReadFile(ID_PERSONAL_FILE_LOC);
      personalFile := if r.Ok? then r.value else [];
      if r.Err? {
        return Some(r.error);
      }
      r := ReadFile(ID_RESIDENCE_FILE_LOC);
      residenceFile := if r.Ok? then r.value else [];
      if r.Err? {
        return Some(r.error);
      }
      r := ReadFile(ID_PHOTO_FILE_LOC);
      if r.Err? {
        return Some(r.error);
      }
      photoFile := trim4b(r.value);
      return None;
    }

    /** `Test`. */
    method Test() returns (b: bool)
      modifies smartCard
      ensures (b, smartCard.State()) == TestSpec(old(smartCard.State()))
    {
      var err := InitCard();
      if err.Some? {
        return false;
      }
      var file := ReadFile(ID_DOCUMENT_FILE_LOC);
      return file.Ok?;
    }

    /** `InitCrypto`. */
    method InitCrypto() returns (err: Option<CardError>)
      modifies smartCard
      ensures (err, smartCard.State()) == InitCryptoSpec(old(smartCard.State()))
    {
      var rsp := smartCard.Transmit(SELECT_PKCS15);
      if rsp.Failure? {
        return Some(TransportError);
      }
      if !ResponseOK(rsp.bytes) {
        return Some(NotSelected);
      }
      return None;
    }

    /** `ChangePin(newPin, oldPin)`. */
    method ChangePin(newPin: string, oldPin: string) returns (err: Option<CardError>)
      modifies smartCard
      ensures (err, smartCard.State()) == ChangePinSpec(old(smartCard.State()), newPin, oldPin)
    {
      err := InitCrypto();
      if err.Some? {
        return;
      }
      var oldPinValid := ValidatePin(oldPin);
      if !oldPinValid {
        return Some(OldPinNotValid);
      }
      var newPinValid := ValidatePin(newPin);
      if !newPinValid {
        return Some(NewPinNotValid);
      }
      var oldBlock := PadPin(oldPin);
      var rsp := smartCard.Transmit(BuildApdu(0x00, 0x20, 0x00, 0x80, oldBlock, 0));
      if rsp.Failure? {
        return Some(TransportError);
      }
      if !ResponseOK(rsp.bytes) {
        return Some(VerifyFailed);
      }
      var data := PadPin(oldPin);
      var newBlock := PadPin(newPin);
      data := data + newBlock;
      rsp := smartCard.Transmit(BuildApdu(0x00, 0x24, 0x00, 0x80, data, 0));
      if rsp.Failure? {
        return Some(TransportError);
      }
      if !ResponseOK(rsp.bytes) {
        return Some(ChangeFailed);
      }
      return None;
    }
  }

  /** The three probes of `InitCard`, in terms of the card's first three answers. */
  lemma InitCardMeaning(w: Wire)
    ensures var (err, w1) := ProbeSpec(w, PROBES);
            var k := RejectedRun(w.script, 3);
            && (err == None <==> k < 3 && k < |w.script| && ReplyOK(w.script[k]))
            && (err == Some(TransportError) <==> k < 3 && (k == |w.script| || w.script[k].Failure?))
            && (err == Some(UnknownCardType) <==> k == 3)
            && w1.sent == w.sent + PROBES[..if k < 3 then k + 1 else 3]
  {
    ProbeOutcome(w, PROBES);
    ProbeSends(w, PROBES);
    ProbeConsumes(w, PROBES);
  }

  /** A card that accepts the identity card application is initialised by the first SELECT alone. */
  lemma FirstProbeAccepted(w: Wire)
    requires w.script != [] && ReplyOK(w.script[0])
    ensures ProbeSpec(w, PROBES) == (None, Wire(w.script[1..], w.sent + [SelectAid(SERID_AID)]))
  {
    ProbeOutcome(w, PROBES);
    ProbeSends(w, PROBES);
    ProbeConsumes(w, PROBES);
    assert PROBES[..1] == [SelectAid(SERID_AID)];
  }

  /**
   * The PIN change succeeds exactly when both PINs are valid and the card answers the SELECT, the VERIFY
   * and the CHANGE REFERENCE DATA with 90 00; those three commands are then all that was sent.
   */
  lemma ChangePinSucceeds(w: Wire, newPin: string, oldPin: string)
    ensures var (err, w1) := ChangePinSpec(w, newPin, oldPin);
            && (err == None <==>
                  && ValidPin(oldPin) && ValidPin(newPin)
                  && |w.script| >= 3 && ReplyOK(w.script[0]) && ReplyOK(w.script[1]) && ReplyOK(w.script[2]))
            && (err == None ==>
                  w1 == Wire(w.script[3..], w.sent + [SELECT_PKCS15, VerifyCommand(oldPin), ChangeCommand(oldPin, newPin)]))
  {
    var (c, w1) := InitCryptoSpec(w);
    if c.None? && ValidPin(oldPin) && ValidPin(newPin) {
      assert w1 == Wire(w.script[1..], w.sent + [SELECT_PKCS15]);
      if w1.script != [] && ReplyOK(w1.script[0]) {
        var w2 := Wire(w.script[2..], w.sent + [SELECT_PKCS15, VerifyCommand(oldPin)]);
        assert w.script[1..][1..] == w.script[2..];
        assert w.sent + [SELECT_PKCS15] + [VerifyCommand(oldPin)] == w.sent + [SELECT_PKCS15, VerifyCommand(oldPin)];
        assert Exchange(w1, VerifyCommand(oldPin)) == (w.script[1], w2);
        if w2.script != [] {
          var w3 := Wire(w.script[3..], w.sent + [SELECT_PKCS15, VerifyCommand(oldPin), ChangeCommand(oldPin, newPin)]);
          assert w.script[2..][1..] == w.script[3..];
          assert w2.sent + [ChangeCommand(oldPin, newPin)]
                 == w.sent + [SELECT_PKCS15, VerifyCommand(oldPin), ChangeCommand(oldPin, newPin)];
          assert Exchange(w2, ChangeCommand(oldPin, newPin)) == (w.script[2], w3);
        }
      }
    }
  }

  /** Invalid PINs are rejected, old PIN first, after the SELECT and before any VERIFY is sent. */
  lemma PinsCheckedBeforeVerify(w: Wire, newPin: string, oldPin: string)
    requires w.script != [] && ReplyOK(w.script[0])
    requires !ValidPin(oldPin) || !ValidPin(newPin)
    ensures var (err, w1) := ChangePinSpec(w, newPin, oldPin);
            && err == Some(if !ValidPin(oldPin) then OldPinNotValid else NewPinNotValid)
            && w1 == Wire(w.script[1..], w.sent + [SELECT_PKCS15])
  {
  }

  /** A PIN change on a card whose PKCS#15 application is not selected sends nothing after that SELECT. */
  lemma ChangePinNeedsCrypto(w: Wire, newPin: string, oldPin: string)
    requires w.script == [] || !ReplyOK(w.script[0])
    ensures var (err, w1) := ChangePinSpec(w, newPin, oldPin);
            && err == Some(if w.script == [] || w.script[0].Failure? then TransportError else NotSelected)
            && w1.sent == w.sent + [SELECT_PKCS15]
  {
  }

  /** A VERIFY answered with anything but 90 00 ends the change: CHANGE REFERENCE DATA is never sent. */
  lemma RejectedVerifyStops(w: Wire, newPin: string, oldPin: string)
    requires ValidPin(oldPin) && ValidPin(newPin)
    requires |w.script| >= 2 && ReplyOK(w.script[0]) && Rejected(w.script[1])
    ensures ChangePinSpec(w, newPin, oldPin)
            == (Some(VerifyFailed), Wire(w.script[2..], w.sent + [SELECT_PKCS15, VerifyCommand(oldPin)]))
  {
    var w1 := Wire(w.script[1..], w.sent + [SELECT_PKCS15]);
    assert InitCryptoSpec(w) == (None, w1);
    assert w.script[1..][1..] == w.script[2..];
    assert w1.sent + [VerifyCommand(oldPin)] == w.sent + [SELECT_PKCS15, VerifyCommand(oldPin)];
    assert Exchange(w1, VerifyCommand(oldPin))
           == (w.script[1], Wire(w.script[2..], w.sent + [SELECT_PKCS15, VerifyCommand(oldPin)]));
  }

  /**
   * The two PIN commands as an ISO/IEC 7816-4 reader decodes them: VERIFY carries the 8-byte block of the
   * old PIN, CHANGE REFERENCE DATA the 16 bytes of the old block followed by the new one.
   */
  lemma PinCommandsDecode(oldPin: string, newPin: string)
    ensures DecodeCommand(VerifyCommand(oldPin)) == Some(Command(0x00, 0x20, 0x00, 0x80, PadPinSpec(oldPin), 0))
    ensures DecodeCommand(ChangeCommand(oldPin, newPin))
            == Some(Command(0x00, 0x24, 0x00, 0x80, PadPinSpec(oldPin) + PadPinSpec(newPin), 0))
    ensures |PadPinSpec(oldPin) + PadPinSpec(newPin)| == 16
  {
    BuildApduDecodes(0x00, 0x20, 0x00, 0x80, PadPinSpec(oldPin), 0);
    BuildApduDecodes(0x00, 0x24, 0x00, 0x80, PadPinSpec(oldPin) + PadPinSpec(newPin), 0);
  }

  /**
   * `ReadCard` reads the document, personal, residence and photo files in that order: when it succeeds,
   * the four SELECTs were sent at increasing positions, the first of them right after what was sent before.
   */
  lemma ReadCardOrder(w: Wire, files: IdFiles, trim4b: Bytes -> Bytes)
    ensures var (err, _, w4) := ReadCardSpec(w, files, trim4b);
            err == None ==> SentInOrder(w.sent, w4.sent)
  {
    var (a, w1) := ReadFileSpec(w, SelectFile(ID_DOCUMENT_FILE_LOC));
    var (b, w2) := ReadFileSpec(w1, SelectFile(ID_PERSONAL_FILE_LOC));
    var (c, w3) := ReadFileSpec(w2, SelectFile(ID_RESIDENCE_FILE_LOC));
    var (d, w4) := ReadFileSpec(w3, SelectFile(ID_PHOTO_FILE_LOC));
    ReadFileSends(w, SelectFile(ID_DOCUMENT_FILE_LOC));
    ReadFileSends(w1, SelectFile(ID_PERSONAL_FILE_LOC));
    ReadFileSends(w2, SelectFile(ID_RESIDENCE_FILE_LOC));
    ReadFileSends(w3, SelectFile(ID_PHOTO_FILE_LOC));
    FourSelectsInOrder(w.sent, w1.sent, w2.sent, w3.sent, w4.sent);
  }

  /**
   * The four SELECTs of `ReadCard` appear in the log `s4` at increasing positions, the first of them
   * right after the log `s0` it started from.
   */
  predicate SentInOrder(s0: seq<Bytes>, s4: seq<Bytes>)
  {
    exists i2: nat, i3: nat, i4: nat {:trigger s4[i2], s4[i3], s4[i4]} ::
      && |s0| < i2 < i3 < i4 < |s4|
      && s4[|s0|] == SelectFile(ID_DOCUMENT_FILE_LOC)
      && s4[i2] == SelectFile(ID_PERSONAL_FILE_LOC)
      && s4[i3] == SelectFile(ID_RESIDENCE_FILE_LOC)
      && s4[i4] == SelectFile(ID_PHOTO_FILE_LOC)
  }

  lemma FourSelectsInOrder(s0: seq<Bytes>, s1: seq<Bytes>, s2: seq<Bytes>, s3: seq<Bytes>, s4: seq<Bytes>)
    requires SentNext(s0, s1, SelectFile(ID_DOCUMENT_FILE_LOC)) && SentNext(s1, s2, SelectFile(ID_PERSONAL_FILE_LOC))
    requires SentNext(s2, s3, SelectFile(ID_RESIDENCE_FILE_LOC)) && SentNext(s3, s4, SelectFile(ID_PHOTO_FILE_LOC))
    ensures SentInOrder(s0, s4)
  {
    assert s4[|s3|] == (s3 + [SelectFile(ID_PHOTO_FILE_LOC)])[|s3|];
    SentBefore(s0, s1, s4, s2, s3);
    SentBefore(s1, s2, s4, s3, s3);
    SentBefore(s2, s3, s4, s3, s3);
    assert s4[|s1|] == SelectFile(ID_PERSONAL_FILE_LOC);
    assert s4[|s2|] == SelectFile(ID_RESIDENCE_FILE_LOC);
  }

  /**
   * A command at index `|a|` of the log `b`, which extends `a`, stays at that index through the later
   * logs `c` and `d` and the last one `e`.
   */
  lemma SentBefore(a: seq<Bytes>, b: seq<Bytes>, e: seq<Bytes>, c: seq<Bytes>, d: seq<Bytes>)
    requires |a| < |b| <= |c| <= |d| < |e|
    requires c[..|b|] == b && d[..|c|] == c && e[..|d|] == d
    ensures e[|a|] == b[|a|]
  {
    assert e[|a|] == e[..|d|][|a|] == d[|a|] == d[..|c|][|a|] == c[|a|] == c[..|b|][|a|];
  }

  /**
   * Whatever happens, the document file ends up as what its read returned, no bytes when it failed; the
   * photo changes only when all four reads succeed.
   */
  lemma ReadCardStoresAsRead(w: Wire, files: IdFiles, trim4b: Bytes -> Bytes)
    ensures var (err, stored, _) := ReadCardSpec(w, files, trim4b);
            var a := ReadFileSpec(w, SelectFile(ID_DOCUMENT_FILE_LOC)).0;
            && stored.document == (if a.Ok? then a.value else [])
            && (a.Err? ==> err == Some(a.error) && stored == files.(document := []))
            && (err.Some? ==> stored.photo == files.photo)
  {
    var (a, w1) := ReadFileSpec(w, SelectFile(ID_DOCUMENT_FILE_LOC));
    if a.Ok? {
      var (b, w2) := ReadFileSpec(w1, SelectFile(ID_PERSONAL_FILE_LOC));
      if b.Ok? {
        var (c, w3) := ReadFileSpec(w2, SelectFile(ID_RESIDENCE_FILE_LOC));
        if c.Ok? {
          var (d, w4) := ReadFileSpec(w3, SelectFile(ID_PHOTO_FILE_LOC));
          assert ReadCardSpec(w, files, trim4b).1.document == a.value;
        }
      }
    }
  }

  /** `Test` holds only on a card that accepted one of the probes and whose document file could be read. */
  lemma TestMeaning(w: Wire)
    ensures var (ok, _) := TestSpec(w);
            var k := RejectedRun(w.script, 3);
            ok ==> k < 3 && k < |w.script| && ReplyOK(w.script[k])
  {
    InitCardMeaning(w);
  }
}
