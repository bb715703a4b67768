/**
 * `ReadCard` of card/card.go: the card family is chosen by comparing the ATR the reader reports with the
 * known ATRs, two shared ATRs are told apart by a trial read, only Gemalto and vehicle cards are
 * initialised, and an initialisation error stops everything before a document file is read.
 *
 * The comparisons are `reflect.DeepEqual` of the reported `[]byte` with constants some of which have the
 * named type `Atr`; those never compare equal. `ClassifyAsWritten` is the chain as written, and
 * `Classify`, which compares the bytes, is the evidently intended chain the rest of the model uses.
 */
module Dispatch {
  import opened Wrappers
  import opened Errors
  import opened Transport
  import Atr
  import CardFile
  import Gemalto
  import Apollo
  import Medical
  import Vehicle

  /** The card implementations `ReadCard` can choose. */
  datatype Family = GemaltoFamily | ApolloFamily | MedicalFamily | VehicleFamily

  /**
   * What `ReadCard` ends with: the vehicle document, read by `readVehicleCard`, or a chosen and
   * initialised card whose document reader (`readIdCard`, `readMedicalCard`) takes over.
   */
  datatype Outcome = VehicleRead(doc: Vehicle.VehicleDocument) | Handover(family: Family)

  /** The ATRs `ReadCard` recognises, in the order it compares them. */
  const KNOWN_ATRS: seq<Atr.Atr> := [Gemalto.GEMALTO_ATR_1, Gemalto.GEMALTO_ATR_2, Gemalto.GEMALTO_ATR_3,
                                     Apollo.APOLLO_ATR, Medical.MEDICAL_ATR_1, Vehicle.VEHICLE_ATR_0,
                                     Vehicle.VEHICLE_ATR_2]

  /** The Go type a compared constant is declared with: a plain `[]byte` or the named `Atr`. */
  datatype GoType = ByteSlice | NamedAtr

  /** A constant ATR with its declared Go type. */
  datatype TypedAtr = TypedAtr(typ: GoType, bytes: Atr.Atr)

  /**
   * `reflect.DeepEqual(status.Atr, c)` with `status.Atr` a `[]byte`: values of different types are never
   * deeply equal, and two `[]byte` values are when their bytes are.
   */
  predicate DeepEqual(atr: Atr.Atr, c: TypedAtr)
  {
    c.typ == ByteSlice && atr == c.bytes
  }

  /**
   * The operands of `ReadCard`'s comparisons, in order, as declared: the Gemalto and medical ATRs are
   * `Atr` values, the Apollo and vehicle ATRs plain `[]byte`.
   */
  const COMPARED: seq<TypedAtr> := [TypedAtr(NamedAtr, Gemalto.GEMALTO_ATR_1), TypedAtr(NamedAtr, Gemalto.GEMALTO_ATR_2),
                                    TypedAtr(NamedAtr, Gemalto.GEMALTO_ATR_3), TypedAtr(ByteSlice, Apollo.APOLLO_ATR),
                                    TypedAtr(NamedAtr, Medical.MEDICAL_ATR_1), TypedAtr(ByteSlice, Vehicle.VEHICLE_ATR_0),
                                    TypedAtr(ByteSlice, Vehicle.VEHICLE_ATR_2)]

  /** The ATRs the chain as written can match: those compared with a plain `[]byte`. */
  const MATCHABLE_ATRS: seq<Atr.Atr> := [Apollo.APOLLO_ATR, Vehicle.VEHICLE_ATR_0, Vehicle.VEHICLE_ATR_2]

  /** The chain of comparisons as card/card.go writes it, with `reflect.DeepEqual`. */
  function ClassifyAsWritten(atr: Atr.Atr, w: Wire, decode: Medical.Decoder): (res: (Option<Family>, Wire))
  {
    if DeepEqual(atr, COMPARED[0]) then
      var (ok, w1) := Gemalto.TestSpec(w);
      (Some(if ok then GemaltoFamily else VehicleFamily), w1)
    else if DeepEqual(atr, COMPARED[1]) then
      var (ok, w1) := Medical.TestSpec(w, decode);
      (Some(if ok then MedicalFamily else GemaltoFamily), w1)
    else if DeepEqual(atr, COMPARED[2]) then (Some(GemaltoFamily), w)
    else if DeepEqual(atr, COMPARED[3]) then (Some(ApolloFamily), w)
    else if DeepEqual(atr, COMPARED[4]) then (Some(MedicalFamily), w)
    else if DeepEqual(atr, COMPARED[5]) then (Some(VehicleFamily), w)
    else if DeepEqual(atr, COMPARED[6]) then (Some(VehicleFamily), w)
    else (None, w)
  }

  /**
   * As written, only the Apollo and vehicle ATRs choose a family, and they choose the one the intended
   * chain chooses; every other ATR, the Gemalto and medical ones included, is refused with nothing sent.
   */
  lemma ClassifyAsWrittenMeaning(atr: Atr.Atr, w: Wire, decode: Medical.Decoder)
    ensures ClassifyAsWritten(atr, w, decode)
            == if atr in MATCHABLE_ATRS then Classify(atr, w, decode) else (None, w)
  {
    DistinctFromMatchable();
  }

  /** No Gemalto or medical ATR has the bytes of an Apollo or vehicle ATR. */
  lemma DistinctFromMatchable()
    ensures forall a :: a in MATCHABLE_ATRS ==>
              a != Gemalto.GEMALTO_ATR_1 && a != Gemalto.GEMALTO_ATR_2 && a != Gemalto.GEMALTO_ATR_3
              && a != Medical.MEDICAL_ATR_1
  {
  }

  /**
   * The discrepancy: an identity card with the first Gemalto ATR is refused by the chain as written
   * before anything is sent, where the intended chain tests it and chooses a family.
   */
  lemma GemaltoAtrRefused(w: Wire, decode: Medical.Decoder)
    ensures ClassifyAsWritten(Gemalto.GEMALTO_ATR_1, w, decode) == (None, w)
    ensures Classify(Gemalto.GEMALTO_ATR_1, w, decode).0.Some?
  {
  }

  /**
   * The intended chain of ATR comparisons, by bytes. The first Gemalto ATR is also worn by vehicle cards: a card that fails
   * the Gemalto test is read as a vehicle card. The second is also worn by medical cards: a card that
   * passes the medical test is read as one.
   */
  function Classify(atr: Atr.Atr, w: Wire, decode: Medical.Decoder): (res: (Option<Family>, Wire))
  {
    if atr == Gemalto.GEMALTO_ATR_1 then
      var (ok, w1) := Gemalto.TestSpec(w);
      (Some(if ok then GemaltoFamily else VehicleFamily), w1)
    else if atr == Gemalto.GEMALTO_ATR_2 then
      var (ok, w1) := Medical.TestSpec(w, decode);
      (Some(if ok then MedicalFamily else GemaltoFamily), w1)
    else if atr == Gemalto.GEMALTO_ATR_3 then (Some(GemaltoFamily), w)
    else if atr == Apollo.APOLLO_ATR then (Some(ApolloFamily), w)
    else if atr == Medical.MEDICAL_ATR_1 then (Some(MedicalFamily), w)
    else if atr == Vehicle.VEHICLE_ATR_0 then (Some(VehicleFamily), w)
    else if atr == Vehicle.VEHICLE_ATR_2 then (Some(VehicleFamily), w)
    else (None, w)
  }

  /** The type switch on the chosen card: only Gemalto and vehicle cards have an `initCard` to run. */
  function InitSpec(f: Family, w: Wire): (res: (Option<CardError>, Wire))
  {
    match f
    case GemaltoFamily => Gemalto.ProbeSpec(w, Gemalto.PROBES)
    case VehicleFamily => Vehicle.InitCardSpec(w, Vehicle.TRIPLES)
    case _ => (None, w)
  }

  /** `ReadCard(sc)`, with `status` what `sc.Status()` reports. */
  function ReadCardSpec(status: Option<Atr.Atr>, w: Wire, decode: Medical.Decoder): (res: (Result<Outcome, CardError>, Wire))
  {
    if status.None? then (Err(StatusFailed), w)
    else
      var (f, w1) := Classify(status.value, w, decode);
      if f.None? then (Err(UnknownCardType), w1)
      else
        var (err, w2) := InitSpec(f.value, w1);
        if err.Some? then (Err(err.value), w2)
        else if f.value == VehicleFamily then
          var (r, w3) := Vehicle.ReadVehicleCardSpec(w2);
          (if r.Ok? then Ok(VehicleRead(r.value)) else Err(r.error), w3)
        else (Ok(Handover(f.value)), w2)
  }

  /** An ATR chooses a family exactly when it is one of the recognised ATRs. */
  lemma ClassifyKnown(atr: Atr.Atr, w: Wire, decode: Medical.Decoder)
    ensures Classify(atr, w, decode).0.Some? <==> atr in KNOWN_ATRS
  {
    if atr in KNOWN_ATRS {
      var i :| 0 <= i < |KNOWN_ATRS| && KNOWN_ATRS[i] == atr;
    }
  }

  /** Without an ATR, or with an ATR nobody recognises, nothing at all is sent to the card. */
  lemma RefusedBeforeSending(status: Option<Atr.Atr>, w: Wire, decode: Medical.Decoder)
    ensures status.None? ==> ReadCardSpec(status, w, decode) == (Err(StatusFailed), w)
    ensures status.Some? && status.value !in KNOWN_ATRS ==> ReadCardSpec(status, w, decode) == (Err(UnknownCardType), w)
  {
    if status.Some? {
      ClassifyKnown(status.value, w, decode);
    }
  }

  /** The ATRs with a family of their own choose it without sending anything. */
  lemma FixedFamilies(w: Wire, decode: Medical.Decoder)
    ensures Classify(Gemalto.GEMALTO_ATR_3, w, decode) == (Some(GemaltoFamily), w)
    ensures Classify(Apollo.APOLLO_ATR, w, decode) == (Some(ApolloFamily), w)
    ensures Classify(Medical.MEDICAL_ATR_1, w, decode) == (Some(MedicalFamily), w)
    ensures Classify(Vehicle.VEHICLE_ATR_0, w, decode) == (Some(VehicleFamily), w)
    ensures Classify(Vehicle.VEHICLE_ATR_2, w, decode) == (Some(VehicleFamily), w)
  {
  }

  /**
   * The vehicle ATR of card/vehicle.go that `ReadCard` never compares with is the first Gemalto ATR: such
   * a card is read as a vehicle card exactly when the Gemalto test fails on it.
   */
  lemma SharedAtr(w: Wire, decode: Medical.Decoder)
    ensures Vehicle.VEHICLE_ATR_1 == Gemalto.GEMALTO_ATR_1
    ensures Classify(Vehicle.VEHICLE_ATR_1, w, decode).0 == Some(VehicleFamily) <==> !Gemalto.TestSpec(w).0
  {
  }

  /**
   * Apollo and medical cards are not initialised: the type switch sends nothing for them. A Gemalto card
   * is first asked for its identity application, a vehicle card for the vehicle registration application.
   */
  lemma InitOnlyGemaltoAndVehicle(f: Family, w: Wire)
    ensures f == ApolloFamily || f == MedicalFamily ==> InitSpec(f, w) == (None, w)
    ensures f == GemaltoFamily ==> CardFile.SentNext(w.sent, InitSpec(f, w).1.sent, Gemalto.SelectAid(Gemalto.SERID_AID))
    ensures f == VehicleFamily ==> CardFile.SentNext(w.sent, InitSpec(f, w).1.sent, Vehicle.SelectAid(Vehicle.VEHICLE_AID))
  {
    if f == GemaltoFamily {
      Gemalto.InitCardMeaning(w);
      var w1 := InitSpec(f, w).1;
      assert w1.sent[..|w.sent| + 1] == w.sent + [Gemalto.PROBES[0]];
    } else if f == VehicleFamily {
      var t := Vehicle.TRIPLES[0];
      Vehicle.TrySends(w, t);
      var (ok, w1) := Vehicle.TrySpec(w, t);
      var w2 := InitSpec(f, w).1;
      if !ok {
        assert w2 == Vehicle.InitCardSpec(w1, Vehicle.TRIPLES[1..]).1;
        assert w2.sent[..|w.sent| + 1] == w2.sent[..|w1.sent|][..|w.sent| + 1];
      }
    }
  }

  /**
   * Which ATRs each outcome can come from: a vehicle document only from the first Gemalto ATR or one of
   * the two vehicle ATRs, an Apollo card only from its own ATR, a medical card from the second Gemalto
   * ATR or the medical one, a Gemalto card from one of the three Gemalto ATRs.
   */
  lemma OutcomeAtrs(atr: Atr.Atr, w: Wire, decode: Medical.Decoder)
    ensures var r := ReadCardSpec(Some(atr), w, decode).0;
            && (r.Ok? && r.value.VehicleRead? ==>
                  atr == Gemalto.GEMALTO_ATR_1 || atr == Vehicle.VEHICLE_ATR_0 || atr == Vehicle.VEHICLE_ATR_2)
            && (r == Ok(Handover(ApolloFamily)) ==> atr == Apollo.APOLLO_ATR)
            && (r == Ok(Handover(MedicalFamily)) ==> atr == Gemalto.GEMALTO_ATR_2 || atr == Medical.MEDICAL_ATR_1)
            && (r == Ok(Handover(GemaltoFamily)) ==>
                  atr == Gemalto.GEMALTO_ATR_1 || atr == Gemalto.GEMALTO_ATR_2 || atr == Gemalto.GEMALTO_ATR_3)
            && r != Ok(Handover(VehicleFamily))
  {
    OutcomeFamily(atr, w, decode);
    FamilyAtrs(atr, w, decode);
  }

  /** A successful `ReadCard` ends with the vehicle document exactly for the vehicle family, and hands over any other. */
  lemma OutcomeFamily(atr: Atr.Atr, w: Wire, decode: Medical.Decoder)
    ensures var r := ReadCardSpec(Some(atr), w, decode).0;
            var f := Classify(atr, w, decode).0;
            r.Ok? ==> && f.Some?
                      && (r.value.VehicleRead? <==> f.value == VehicleFamily)
                      && (r.value.Handover? ==> r.value.family == f.value)
  {
    var (f, w1) := Classify(atr, w, decode);
    if f.Some? {
      var (err, w2) := InitSpec(f.value, w1);
    }
  }

  /** The ATRs each family can be chosen for. */
  lemma FamilyAtrs(atr: Atr.Atr, w: Wire, decode: Medical.Decoder)
    ensures var f := Classify(atr, w, decode).0;
            && (f == Some(VehicleFamily) ==>
                  atr == Gemalto.GEMALTO_ATR_1 || atr == Vehicle.VEHICLE_ATR_0 || atr == Vehicle.VEHICLE_ATR_2)
            && (f == Some(ApolloFamily) ==> atr == Apollo.APOLLO_ATR)
            && (f == Some(MedicalFamily) ==> atr == Gemalto.GEMALTO_ATR_2 || atr == Medical.MEDICAL_ATR_1)
            && (f == Some(GemaltoFamily) ==>
                  atr == Gemalto.GEMALTO_ATR_1 || atr == Gemalto.GEMALTO_ATR_2 || atr == Gemalto.GEMALTO_ATR_3)
  {
  }

  /**
   * An initialisation error ends `ReadCard` with that error, and no document file is read: the card is
   * left as the initialisation left it.
   */
  lemma InitErrorAborts(atr: Atr.Atr, w: Wire, decode: Medical.Decoder)
    requires Classify(atr, w, decode).0.Some?
    ensures var (f, w1) := Classify(atr, w, decode);
            var (err, w2) := InitSpec(f.value, w1);
            err.Some? ==> ReadCardSpec(Some(atr), w, decode) == (Err(err.value), w2)
  {
  }

  /** The chain of ATR comparisons of `ReadCard`, with the trial reads it makes. */
  method Choose(sc: Card, atr: Atr.Atr, decode: Medical.Decoder) returns (family: Option<Family>)
    modifies sc
    ensures (family, sc.State()) == Classify(atr, old(sc.State()), decode)
  {
    if atr == Gemalto.GEMALTO_ATR_1 {
      var temp := new Gemalto.GemaltoCard(atr, sc);
      var ok := temp.Test();
      family := Some(if ok then GemaltoFamily else VehicleFamily);
    } else if atr == Gemalto.GEMALTO_ATR_2 {
      var temp := new Medical.MedicalCard(atr, sc);
      var ok := temp.TestMedicalCard(decode);
      family := Some(if ok then MedicalFamily else GemaltoFamily);
    } else if atr == Gemalto.GEMALTO_ATR_3 {
      family := Some(GemaltoFamily);
    } else if atr == Apollo.APOLLO_ATR {
      family := Some(ApolloFamily);
    } else if atr == Medical.MEDICAL_ATR_1 {
      family := Some(MedicalFamily);
    } else if atr == Vehicle.VEHICLE_ATR_0 {
      family := Some(VehicleFamily);
    } else if atr == Vehicle.VEHICLE_ATR_2 {
      family := Some(VehicleFamily);
    } else {
      family := None;
    }
  }

  /** The type switch that runs `initCard` on Gemalto and vehicle cards. */
  method Init(sc: Card, atr: Atr.Atr, family: Family) returns (err: Option<CardError>)
    modifies sc
    ensures (err, sc.State()) == InitSpec(family, old(sc.State()))
  {
    err := None;
    if family == GemaltoFamily {
      var card := new Gemalto.GemaltoCard(atr, sc);
      err := card.InitCard();
    } else if family == VehicleFamily {
      var card := new Vehicle.VehicleCard(sc);
      err := card.InitCard();
    }
  }

  /** `ReadCard(sc)`. */
  method ReadCard(sc: Card, decode: Medical.Decoder) returns (r: Result<Outcome, CardError>)
    modifies sc
    ensures (r, sc.State()) == ReadCardSpec(sc.status, old(sc.State()), decode)
  {
    if sc.status.None? {
      return Err(StatusFailed);
    }
    var atr := sc.status.value;
    var family := Choose(sc, atr, decode);
    if family.None? {
      return Err(UnknownCardType);
    }
    var err := Init(sc, atr, family.value);
    if err.Some? {
      return Err(err.value);
    }
    if family.value == VehicleFamily {
      var card := new Vehicle.VehicleCard(sc);
      var d := card.ReadVehicleCard();
      return if d.Ok? then Ok(VehicleRead(d.value)) else Err(d.error);
    }
    return Ok(Handover(family.value));
  }
}
