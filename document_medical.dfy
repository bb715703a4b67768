/**
 * The medical insurance document of document/medical.go: the fields the medical card reader fills, as Go
 * strings (their bytes), the getters that compose a name and an address from them, and the update of
 * `ValidUntil` from the RFZO web service. The HTTP exchange is a parameter; the PDF and JSON exports
 * are not part of this model.
 */
module DocumentMedical {
  import opened Bytes
  import opened Wrappers
  import opened Localization

  /** The fields each card file supplies, grouped as the readers write them. */
  datatype DocumentFilePart = DocumentFilePart(
    insurerName: Bytes, insurerID: Bytes, cardId: Bytes, dateOfIssue: Bytes, dateOfExpiry: Bytes,
    printLanguage: Bytes)

  datatype FixedPersonalPart = FixedPersonalPart(
    familyName: Bytes, familyNameLatin: Bytes, givenName: Bytes, givenNameLatin: Bytes, dateOfBirth: Bytes,
    insurantNumber: Bytes)

  datatype VariablePersonalPart = VariablePersonalPart(validUntil: Bytes, permanentlyValid: bool)

  /** The variable administrative file, in three runs: the holder, the insurance and carrier, the taxpayer. */
  datatype HolderPart = HolderPart(
    parentName: Bytes, parentNameLatin: Bytes, gender: Bytes, personalNumber: Bytes, street: Bytes,
    municipality: Bytes, place: Bytes, number: Bytes, apartment: Bytes)

  datatype InsurancePart = InsurancePart(
    insuranceBasisRZZO: Bytes, insuranceDescription: Bytes, carrierRelationship: Bytes,
    carrierFamilyMember: bool, carrierIdNumber: Bytes, carrierInsurantNumber: Bytes, carrierFamilyName: Bytes,
    carrierFamilyNameLatin: Bytes, carrierGivenName: Bytes, carrierGivenNameLatin: Bytes,
    insuranceStartDate: Bytes)

  datatype TaxpayerPart = TaxpayerPart(
    country: Bytes, taxpayerName: Bytes, taxpayerResidence: Bytes, taxpayerIdNumber: Bytes,
    taxpayerActivityCode: Bytes)

  /** Everything the medical card reader fills, part by part. */
  datatype MedicalParts = MedicalParts(
    documentFile: DocumentFilePart, fixedPersonal: FixedPersonalPart, variablePersonal: VariablePersonalPart,
    holder: HolderPart, insurance: InsurancePart, taxpayer: TaxpayerPart)

  /**
   * `MedicalDocument`. Its fields are grouped into one record per file (and per run of the administrative
   * file) that writes them; `ChipSerialNumber` and `TaxpayerNumber`, which no reader writes, stand alone.
   */
  class MedicalDocument {
    var documentFile: DocumentFilePart
    var fixedPersonal: FixedPersonalPart
    var variablePersonal: VariablePersonalPart
    var holder: HolderPart
    var insurance: InsurancePart
    var taxpayer: TaxpayerPart
    var chipSerialNumber: Bytes
    var taxpayerNumber: Bytes

    /** The fields the reader fills. */
    function Parts(): MedicalParts
      reads this`documentFile, this`fixedPersonal, this`variablePersonal, this`holder, this`insurance,
            this`taxpayer
    {
      MedicalParts(documentFile, fixedPersonal, variablePersonal, holder, insurance, taxpayer)
    }

    /** Every field is the zero value, as in a fresh `MedicalDocument{}`. */
    predicate Empty()
      reads this
    {
      && Parts() == EMPTY_PARTS
      && chipSerialNumber == [] && taxpayerNumber == []
    }

    /** `document.MedicalDocument{}`. */
    constructor ()
      ensures Empty()
    {
      documentFile, fixedPersonal, variablePersonal := EMPTY_PARTS.documentFile, EMPTY_PARTS.fixedPersonal,
                                                       EMPTY_PARTS.variablePersonal;
      holder, insurance, taxpayer := EMPTY_PARTS.holder, EMPTY_PARTS.insurance, EMPTY_PARTS.taxpayer;
      chipSerialNumber, taxpayerNumber := [], [];
    }

    /** `GetFullName`: the Latin given, parent's and family names, the empty ones dropped. */
    function GetFullName(): Bytes
      reads this`fixedPersonal, this`holder
    {
      JoinWithComma([fixedPersonal.givenNameLatin, holder.parentNameLatin, fixedPersonal.familyNameLatin])
    }

    /** `GetFullStreetAddress`: the street, then the labelled number and apartment, each only when present. */
    method GetFullStreetAddress() returns (address: Bytes)
      ensures address == StreetAddress(holder.street, holder.number, holder.apartment)
    {
      address := holder.street;
      if |holder.number| > 0 {
        address := address + NUMBER_LABEL;
        address := address + holder.number;
      }
      if |holder.apartment| > 0 {
        address := address + APARTMENT_LABEL;
        address := address + holder.apartment;
      }
    }

    /** `GetFullPlaceAddress`: place, municipality and country, the empty ones dropped. */
    function GetFullPlaceAddress(): Bytes
      reads this`holder, this`taxpayer
    {
      JoinWithComma([holder.place, holder.municipality, taxpayer.country])
    }

    /**
     * `UpdateValidUntilDateFromRfzo`, with the POST to the RFZO service and the reading of its answer as
     * `rfzo(cardId, insurantNumber)`: `None` when either fails. `ValidUntil` is written only on success.
     */
    method UpdateValidUntilDateFromRfzo(rfzo: (Bytes, Bytes) -> Option<Bytes>) returns (err: Option<RfzoError>)
      modifies this`variablePersonal
      ensures var r := RfzoValidUntil(documentFile.cardId, fixedPersonal.insurantNumber, rfzo);
              && (r.Ok? ==> err == None && variablePersonal == old(variablePersonal).(validUntil := r.value))
              && (r.Err? ==> err == Some(r.error) && variablePersonal == old(variablePersonal))
    {
      if RuneCount(documentFile.cardId) != 11 {
        return Some(InvalidCardNo);
      }
      if RuneCount(fixedPersonal.insurantNumber) != 11 {
        return Some(InvalidInsuranceNo);
      }
      var body := rfzo(documentFile.cardId, fixedPersonal.insurantNumber);
      if body.None? {
        return Some(ServiceUnreachable);
      }
      var date := ParseValidUntilDateFromRfzoResponse(body.value);
      if date.Err? {
        return Some(date.error);
      }
      variablePersonal := variablePersonal.(validUntil := date.value);
      return None;
    }
  }

  /** The zero value of every field the reader fills. */
  const EMPTY_PARTS: MedicalParts := MedicalParts(
    DocumentFilePart([], [], [], [], [], []), FixedPersonalPart([], [], [], [], [], []), VariablePersonalPart([], false),
    HolderPart([], [], [], [], [], [], [], [], []), InsurancePart([], [], [], false, [], [], [], [], [], [], []),
    TaxpayerPart([], [], [], [], []))

  const NUMBER_LABEL: Bytes := [0x2C, 0x20, 0xD0, 0x91, 0xD1, 0x80, 0xD0, 0xBE, 0xD1, 0x98, 0x3A, 0x20]  // ", Број: "
  const APARTMENT_LABEL: Bytes := [0x20, 0xD0, 0xA1, 0xD1, 0x82, 0xD0, 0xB0, 0xD0, 0xBD, 0x3A, 0x20]     // " Стан: "

  /** The street address the builder produces. */
  function StreetAddress(street: Bytes, number: Bytes, apartment: Bytes): Bytes
  {
    street
    + (if |number| > 0 then NUMBER_LABEL + number else [])
    + (if |apartment| > 0 then APARTMENT_LABEL + apartment else [])
  }

  /** The street always leads, and the address is the bare street exactly when number and apartment are empty. */
  lemma StreetAddressShape(street: Bytes, number: Bytes, apartment: Bytes)
    ensures var a := StreetAddress(street, number, apartment);
            && |a| == |street| + (if number != [] then |NUMBER_LABEL| + |number| else 0)
                               + (if apartment != [] then |APARTMENT_LABEL| + |apartment| else 0)
            && a[..|street|] == street
            && (a == street <==> number == [] && apartment == [])
  {
  }

  /** The three shapes of the tests: "Његошева, Број: 9 Стан: 5", a bare street, and the empty document. */
  lemma StreetAddressCases(street: Bytes, number: Bytes, apartment: Bytes)
    requires number != [] && apartment != []
    ensures StreetAddress(street, number, apartment) == street + NUMBER_LABEL + number + APARTMENT_LABEL + apartment
    ensures StreetAddress(street, [], []) == street
    ensures StreetAddress([], [], []) == []
  {
  }

  /** The full name is empty exactly when the three Latin name parts are. */
  lemma FullNameEmpty(doc: MedicalDocument)
    ensures doc.GetFullName() == [] <==> doc.fixedPersonal.givenNameLatin == [] && doc.holder.parentNameLatin == [] && doc.fixedPersonal.familyNameLatin == []
  {
    var parts := [doc.fixedPersonal.givenNameLatin, doc.holder.parentNameLatin, doc.fixedPersonal.familyNameLatin];
    JoinEmpty(parts);
    assert parts[0] == doc.fixedPersonal.givenNameLatin && parts[1] == doc.holder.parentNameLatin && parts[2] == doc.fixedPersonal.familyNameLatin;
  }

  /** The Cyrillic names never enter the full name: "Pablo Diego, Ruiz Picasso" whatever `GivenName` holds. */
  lemma FullNameIsLatin(doc: MedicalDocument)
    requires doc.fixedPersonal.givenNameLatin != [] && doc.holder.parentNameLatin == [] && doc.fixedPersonal.familyNameLatin != []
    ensures doc.GetFullName() == doc.fixedPersonal.givenNameLatin + COMMA_SPACE + doc.fixedPersonal.familyNameLatin
  {
    JoinSkipsEmpty([doc.fixedPersonal.givenNameLatin], [doc.fixedPersonal.familyNameLatin]);
    assert [doc.fixedPersonal.givenNameLatin] + [[]] + [doc.fixedPersonal.familyNameLatin] == [doc.fixedPersonal.givenNameLatin, doc.holder.parentNameLatin, doc.fixedPersonal.familyNameLatin];
    assert [doc.fixedPersonal.givenNameLatin] + [doc.fixedPersonal.familyNameLatin] == [doc.fixedPersonal.givenNameLatin, doc.fixedPersonal.familyNameLatin];
    JoinTwo(doc.fixedPersonal.givenNameLatin, doc.fixedPersonal.familyNameLatin);
  }

  /** "Подгорица, Црна Гора": with no municipality, place and country are joined directly. */
  lemma PlaceAddressWithoutMunicipality(doc: MedicalDocument)
    requires doc.holder.place != [] && doc.holder.municipality == [] && doc.taxpayer.country != []
    ensures doc.GetFullPlaceAddress() == doc.holder.place + COMMA_SPACE + doc.taxpayer.country
  {
    JoinSkipsEmpty([doc.holder.place], [doc.taxpayer.country]);
    assert [doc.holder.place] + [[]] + [doc.taxpayer.country] == [doc.holder.place, doc.holder.municipality, doc.taxpayer.country];
    assert [doc.holder.place] + [doc.taxpayer.country] == [doc.holder.place, doc.taxpayer.country];
    JoinTwo(doc.holder.place, doc.taxpayer.country);
  }

  /** A fresh document gives the empty string from every getter. */
  lemma EmptyGetters(doc: MedicalDocument)
    requires doc.Empty()
    ensures doc.GetFullName() == [] && doc.GetFullPlaceAddress() == []
    ensures StreetAddress(doc.holder.street, doc.holder.number, doc.holder.apartment) == []
  {
    FullNameEmpty(doc);
    assert doc.holder.place == [] && doc.holder.municipality == [] && doc.taxpayer.country == [];
    JoinEmpty([[], [], []]);
  }

  /** The errors of `UpdateValidUntilDateFromRfzo`: the two input checks, a failed exchange, no date in the answer. */
  datatype RfzoError = InvalidCardNo | InvalidInsuranceNo | ServiceUnreachable | NoSubmatchFound

  /** Go's `len([]rune(s))` for valid UTF-8: the bytes that are not continuation bytes 10xxxxxx. */
  function RuneCount(s: Bytes): nat
  {
    if s == [] then 0 else (if 0x80 <= s[0] < 0xC0 then 0 else 1) + RuneCount(s[1..])
  }

  lemma {:induction false} RuneCountAppend(a: Bytes, b: Bytes)
    ensures RuneCount(a + b) == RuneCount(a) + RuneCount(b)
  {
    if a == [] {
      assert a + b == b;
    } else {
      assert (a + b)[1..] == a[1..] + b;
      RuneCountAppend(a[1..], b);
    }
  }

  /** A lead byte and its continuation bytes count as one rune. */
  lemma {:induction false} OneRune(lead: byte, tail: Bytes)
    requires !(0x80 <= lead < 0xC0) && forall i :: 0 <= i < |tail| ==> 0x80 <= tail[i] < 0xC0
    ensures RuneCount([lead] + tail) == 1
  {
    assert ([lead] + tail)[1..] == tail;
    NoRunes(tail);
  }

  lemma {:induction false} NoRunes(tail: Bytes)
    requires forall i :: 0 <= i < |tail| ==> 0x80 <= tail[i] < 0xC0
    ensures RuneCount(tail) == 0
  {
    if tail != [] {
      NoRunes(tail[1..]);
    }
  }

  /** Counting runes of the UTF-8 form of a string gives back its number of code points. */
  lemma {:induction false} RuneCountUtf8(s: string)
    ensures RuneCount(Utf8(s)) == |s|
  {
    if s != [] {
      var e := EncodeRune(s[0]);
      RuneCountAppend(e, Utf8(s[1..]));
      RuneCountUtf8(s[1..]);
      OneRune(e[0], e[1..]);
      assert e == [e[0]] + e[1..];
    }
  }

  /** What `UpdateValidUntilDateFromRfzo` ends with: the new `ValidUntil`, or the error it returns. */
  function RfzoValidUntil(cardId: Bytes, insurantNumber: Bytes, rfzo: (Bytes, Bytes) -> Option<Bytes>): Result<Bytes, RfzoError>
  {
    if RuneCount(cardId) != 11 then Err(InvalidCardNo)
    else if RuneCount(insurantNumber) != 11 then Err(InvalidInsuranceNo)
    else match rfzo(cardId, insurantNumber)
      case None => Err(ServiceUnreachable)
      case Some(body) => ParseValidUntilDateFromRfzoResponse(body)
  }

  /**
   * The inputs are checked before any request: a card number that is not 11 characters gives
   * `ErrInvalidCardNo`, then an insurance number that is not gives `ErrInvalidInsuranceNo`, whatever the
   * service would answer; only with both valid does the answer matter.
   */
  lemma RfzoGuards(cardId: string, insurantNumber: string, rfzo: (Bytes, Bytes) -> Option<Bytes>, other: (Bytes, Bytes) -> Option<Bytes>)
    ensures |cardId| != 11 ==> RfzoValidUntil(Utf8(cardId), Utf8(insurantNumber), rfzo) == Err(InvalidCardNo)
    ensures |cardId| == 11 && |insurantNumber| != 11 ==>
              RfzoValidUntil(Utf8(cardId), Utf8(insurantNumber), rfzo) == Err(InvalidInsuranceNo)
    ensures (|cardId| != 11 || |insurantNumber| != 11) ==>
              RfzoValidUntil(Utf8(cardId), Utf8(insurantNumber), rfzo) == RfzoValidUntil(Utf8(cardId), Utf8(insurantNumber), other)
  {
    RuneCountUtf8(cardId);
    RuneCountUtf8(insurantNumber);
  }

  const DOT: byte := 0x2E

  /** "оверена до: <strong>" and "</strong>", the text around the date in the service's answer. */
  const RFZO_PREFIX: Bytes := [0xD0, 0xBE, 0xD0, 0xB2, 0xD0, 0xB5, 0xD1, 0x80, 0xD0, 0xB5, 0xD0, 0xBD, 0xD0, 0xB0, 0x20,
                               0xD0, 0xB4, 0xD0, 0xBE, 0x3A, 0x20, 0x3C, 0x73, 0x74, 0x72, 0x6F, 0x6E, 0x67, 0x3E]
  const RFZO_SUFFIX: Bytes := [0x3C, 0x2F, 0x73, 0x74, 0x72, 0x6F, 0x6E, 0x67, 0x3E]

  /** `\d` of Go's regexp: an ASCII digit. */
  predicate IsDigit(b: byte)
  {
    0x30 <= b <= 0x39
  }

  /** The end of the run of digits starting at `k`. */
  function DigitRun(s: Bytes, k: nat): (j: nat)
    requires k <= |s|
    ensures k <= j <= |s|
    decreases |s| - k
  {
    if k < |s| && IsDigit(s[k]) then DigitRun(s, k + 1) else k
  }

  /**
   * Where `\d+\.` starting at `k` ends. A dot is not a digit, so the digits matched are exactly the run
   * at `k`: the greedy match never backtracks into it.
   */
  function GroupEnd(s: Bytes, k: nat): (r: Option<nat>)
    requires k <= |s|
    ensures r.Some? ==> k + 2 <= r.value <= |s|
  {
    var j := DigitRun(s, k);
    if j > k && j < |s| && s[j] == DOT then Some(j + 1) else None
  }

  /** Where `\d+\.\d+\.\d+\.` starting at `k` ends. */
  function DateEnd(s: Bytes, k: nat): (r: Option<nat>)
    requires k <= |s|
    ensures r.Some? ==> k + 6 <= r.value <= |s|
  {
    match GroupEnd(s, k)
    case None => None
    case Some(a) =>
      match GroupEnd(s, a)
      case None => None
      case Some(b) => GroupEnd(s, b)
  }

  /** The whole pattern, `pre`, the date and `suf`, matches at `i`. */
  predicate MatchAt(s: Bytes, i: nat, pre: Bytes, suf: Bytes)
  {
    && i + |pre| <= |s|
    && s[i..i + |pre|] == pre
    && DateEnd(s, i + |pre|).Some?
    && var e := DateEnd(s, i + |pre|).value;
       e + |suf| <= |s| && s[e..e + |suf|] == suf
  }

  /** The date a match at `i` captures. */
  function Captured(s: Bytes, i: nat, pre: Bytes, suf: Bytes): Bytes
    requires MatchAt(s, i, pre, suf)
  {
    s[i + |pre|..DateEnd(s, i + |pre|).value]
  }

  /** The leftmost position at or after `i` where the pattern matches. */
  function FirstMatch(s: Bytes, pre: Bytes, suf: Bytes, i: nat): (r: Option<nat>)
    ensures r.Some? ==> i <= r.value <= |s| && MatchAt(s, r.value, pre, suf)
    decreases |s| + 1 - i
  {
    if i > |s| then None
    else if MatchAt(s, i, pre, suf) then Some(i)
    else FirstMatch(s, pre, suf, i + 1)
  }

  /** No position between `i` and the one found (or the end, when none is found) matches. */
  lemma {:induction false} NoMatchBefore(s: Bytes, pre: Bytes, suf: Bytes, i: nat, k: nat)
    requires i <= k <= |s|
    requires FirstMatch(s, pre, suf, i).None? || k < FirstMatch(s, pre, suf, i).value
    ensures !MatchAt(s, k, pre, suf)
    decreases k - i
  {
    if k > i {
      if MatchAt(s, i, pre, suf) {
        assert FirstMatch(s, pre, suf, i) == Some(i);
      } else {
        assert FirstMatch(s, pre, suf, i) == FirstMatch(s, pre, suf, i + 1);
        NoMatchBefore(s, pre, suf, i + 1, k);
      }
    }
  }

  /** Nothing is found only when no position from `i` on matches, and what is found is the leftmost match. */
  lemma FirstMatchLeftmost(s: Bytes, pre: Bytes, suf: Bytes, i: nat)
    ensures FirstMatch(s, pre, suf, i).None? <==> forall k: nat :: i <= k <= |s| ==> !MatchAt(s, k, pre, suf)
    ensures FirstMatch(s, pre, suf, i).Some? ==> forall k: nat :: i <= k < FirstMatch(s, pre, suf, i).value ==> !MatchAt(s, k, pre, suf)
  {
    forall k: nat | i <= k <= |s| && (FirstMatch(s, pre, suf, i).None? || k < FirstMatch(s, pre, suf, i).value)
      ensures !MatchAt(s, k, pre, suf)
    {
      NoMatchBefore(s, pre, suf, i, k);
    }
  }

  /** `FindStringSubmatch` of the pattern `pre`, a date, `suf`: the date captured at the leftmost match. */
  function FindDate(s: Bytes, pre: Bytes, suf: Bytes): Option<Bytes>
  {
    match FirstMatch(s, pre, suf, 0)
    case None => None
    case Some(k) => Some(Captured(s, k, pre, suf))
  }

  /** `ParseValidUntilDateFromRfzoResponse`: the date after "оверена до: <strong>", or `ErrNoSubmatchFound`. */
  function ParseValidUntilDateFromRfzoResponse(response: Bytes): Result<Bytes, RfzoError>
  {
    match FindDate(response, RFZO_PREFIX, RFZO_SUFFIX)
    case None => Err(NoSubmatchFound)
    case Some(date) => Ok(date)
  }

  /** Nothing is found exactly when the pattern occurs nowhere. */
  lemma FindDateNone(s: Bytes, pre: Bytes, suf: Bytes)
    ensures FindDate(s, pre, suf).None? <==> forall k: nat :: k <= |s| ==> !MatchAt(s, k, pre, suf)
  {
    FirstMatchLeftmost(s, pre, suf, 0);
  }

  /** What is found is captured at the leftmost occurrence. */
  lemma FindDateLeftmost(s: Bytes, pre: Bytes, suf: Bytes) returns (k: nat)
    requires FindDate(s, pre, suf).Some?
    ensures k <= |s| && MatchAt(s, k, pre, suf) && FindDate(s, pre, suf).value == Captured(s, k, pre, suf)
    ensures forall m: nat :: m < k ==> !MatchAt(s, m, pre, suf)
  {
    FirstMatchLeftmost(s, pre, suf, 0);
    k := FirstMatch(s, pre, suf, 0).value;
  }

  /** The error contract: `ErrNoSubmatchFound` exactly when the pattern occurs nowhere in the answer. */
  lemma ParseValidUntilNoMatch(response: Bytes)
    ensures ParseValidUntilDateFromRfzoResponse(response) == Err(NoSubmatchFound)
            <==> forall k: nat :: k <= |response| ==> !MatchAt(response, k, RFZO_PREFIX, RFZO_SUFFIX)
  {
    FindDateNone(response, RFZO_PREFIX, RFZO_SUFFIX);
  }

  /** Otherwise the date is the one captured at the leftmost occurrence of the pattern. */
  lemma ParseValidUntilLeftmost(response: Bytes) returns (k: nat)
    requires ParseValidUntilDateFromRfzoResponse(response).Ok?
    ensures k <= |response| && MatchAt(response, k, RFZO_PREFIX, RFZO_SUFFIX)
    ensures ParseValidUntilDateFromRfzoResponse(response).value == Captured(response, k, RFZO_PREFIX, RFZO_SUFFIX)
    ensures forall m: nat :: m < k ==> !MatchAt(response, m, RFZO_PREFIX, RFZO_SUFFIX)
  {
    k := FindDateLeftmost(response, RFZO_PREFIX, RFZO_SUFFIX);
  }

  /** A date as the service writes it: three digit groups, each followed by a dot ("01.02.2025."). */
  function Date(day: Bytes, month: Bytes, year: Bytes): Bytes
  {
    day + [DOT] + month + [DOT] + year + [DOT]
  }

  predicate Digits(d: Bytes)
  {
    d != [] && forall i :: 0 <= i < |d| ==> IsDigit(d[i])
  }

  /** A digit group followed by a dot, inside a longer string, ends right after that dot. */
  lemma GroupEndOver(s: Bytes, k: nat, d: Bytes)
    requires Digits(d) && k + |d| < |s| && s[k..k + |d|] == d && s[k + |d|] == DOT
    ensures GroupEnd(s, k) == Some(k + |d| + 1)
  {
    DigitRunOver(s, k, |d|);
  }

  lemma {:induction false} DigitRunOver(s: Bytes, k: nat, n: nat)
    requires k + n < |s| && (forall i :: k <= i < k + n ==> IsDigit(s[i])) && !IsDigit(s[k + n])
    ensures DigitRun(s, k) == k + n
    decreases n
  {
    if n > 0 {
      DigitRunOver(s, k + 1, n - 1);
    }
  }

  /** Round trip: a text that opens with `pre`, a date and `suf` gives back that date. */
  lemma FindDateRoundTrip(pre: Bytes, day: Bytes, month: Bytes, year: Bytes, suf: Bytes, rest: Bytes)
    requires Digits(day) && Digits(month) && Digits(year)
    ensures FindDate(pre + Date(day, month, year) + suf + rest, pre, suf) == Some(Date(day, month, year))
  {
    var date := Date(day, month, year);
    var s := pre + date + suf + rest;
    var p := |pre|;
    var e := p + |date|;
    assert s[..p] == pre;
    assert s[p..e] == date;
    assert s[e..e + |suf|] == suf;
    DateEndAt(s, p, day, month, year);
    assert MatchAt(s, 0, pre, suf);
    assert Captured(s, 0, pre, suf) == date;
  }

  /** A date written at `p` of a longer text is matched by the date pattern, which ends right after it. */
  lemma DateEndAt(s: Bytes, p: nat, day: Bytes, month: Bytes, year: Bytes)
    requires Digits(day) && Digits(month) && Digits(year)
    requires p + |Date(day, month, year)| <= |s| && s[p..p + |Date(day, month, year)|] == Date(day, month, year)
    ensures DateEnd(s, p) == Some(p + |Date(day, month, year)|)
  {
    var d := Date(day, month, year);
    var a := |day| + 1;
    var b := a + |month| + 1;
    DateLayout(day, month, year);
    GroupInWindow(s, p, d, 0, day);
    GroupInWindow(s, p, d, a, month);
    GroupInWindow(s, p, d, b, year);
    DateEndOf(s, p, p + a, p + b, p + |d|);
  }

  /** A digit group and its dot at `x` of a window holding `d` end, in `s`, right after that dot. */
  lemma GroupInWindow(s: Bytes, p: nat, d: Bytes, x: nat, g: Bytes)
    requires p + |d| <= |s| && s[p..p + |d|] == d
    requires Digits(g) && x + |g| < |d| && d[x..x + |g|] == g && d[x + |g|] == DOT
    ensures GroupEnd(s, p + x) == Some(p + x + |g| + 1)
  {
    Window(s, p, d, x, x + |g|);
    GroupEndOver(s, p + x, g);
  }

  /** Three groups ending one after the other make a date ending where the third ends. */
  lemma DateEndOf(s: Bytes, p: nat, a: nat, b: nat, e: nat)
    requires p <= a <= b <= |s|
    requires GroupEnd(s, p) == Some(a) && GroupEnd(s, a) == Some(b) && GroupEnd(s, b) == Some(e)
    ensures DateEnd(s, p) == Some(e)
  {
  }

  /** Inside a window of `s` that holds `d`, a slice of `d` and the byte after it are those of `s`. */
  lemma Window(s: Bytes, p: nat, d: Bytes, x: nat, y: nat)
    requires p + |d| <= |s| && s[p..p + |d|] == d && x <= y < |d|
    ensures s[p + x..p + y] == d[x..y] && s[p + y] == d[y]
  {
    var w := s[p..p + |d|];
    assert forall k :: 0 <= k < y - x ==> s[p + x..p + y][k] == s[p + x + k] == w[x + k] == w[x..y][k];
    assert s[p + y] == w[y];
  }

  /** Where the three groups and their dots sit in a date. */
  lemma DateLayout(day: Bytes, month: Bytes, year: Bytes)
    ensures var d := Date(day, month, year);
            var a := |day| + 1;
            var b := a + |month| + 1;
            && |d| == b + |year| + 1
            && d[..|day|] == day && d[|day|] == DOT
            && d[a..a + |month|] == month && d[a + |month|] == DOT
            && d[b..b + |year|] == year && d[b + |year|] == DOT
  {
    var d := Date(day, month, year);
    var a := |day| + 1;
    var b := a + |month| + 1;
    assert d == day + [DOT] + month + [DOT] + year + [DOT];
    assert d[a..a + |month|] == month;
    assert d[b..b + |year|] == year;
  }

  /** So an answer that opens with the date in its markup gives back that date. */
  lemma ParseValidUntilRoundTrip(day: Bytes, month: Bytes, year: Bytes, rest: Bytes)
    requires Digits(day) && Digits(month) && Digits(year)
    ensures ParseValidUntilDateFromRfzoResponse(RFZO_PREFIX + Date(day, month, year) + RFZO_SUFFIX + rest)
            == Ok(Date(day, month, year))
  {
    FindDateRoundTrip(RFZO_PREFIX, day, month, year, RFZO_SUFFIX, rest);
  }
}
