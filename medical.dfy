/**
 * The medical insurance card reader of card/medical.go: its SELECTs and file reads over the card link,
 * the UTF-16 fields it re-encodes (`descramble`), and the mapping of the four TLV files onto the
 * `MedicalDocument`. The UTF-16 decoder is a parameter.
 */
module Medical {
  import opened Bytes
  import opened Wrappers
  import opened Errors
  import opened Apdu
  import opened Transport
  import opened Tlv
  import opened Localization
  import opened DocumentMedical
  import opened CardFile
  import Atr

  /** Possibly the first version of the card; newer ones answer with `GEMALTO_ATR_2`. */
  const MEDICAL_ATR_1: Atr.Atr := [0x3B, 0xF4, 0x13, 0x00, 0x00, 0x81, 0x31, 0xFE, 0x45, 0x52, 0x46, 0x5A, 0x4F, 0xED]
  const MEDICAL_ATR_2: Atr.Atr := [0x3B, 0x9E, 0x97, 0x80, 0x31, 0xFE, 0x45, 0x53, 0x43, 0x45, 0x20, 0x38, 0x2E, 0x30,
                                   0x2D, 0x43, 0x31, 0x56, 0x30, 0x0D, 0x0A, 0x6E]

  const MED_DOCUMENT_FILE_LOC: Bytes := [0x0D, 0x01]
  const MED_FIXED_PERSONAL_FILE_LOC: Bytes := [0x0D, 0x02]
  const MED_VARIABLE_PERSONAL_FILE_LOC: Bytes := [0x0D, 0x03]
  const MED_VARIABLE_ADMIN_FILE_LOC: Bytes := [0x0D, 0x04]

  /** The application identifier F3 81 00 00 02 'SERVSZK' 01. */
  const SERVSZK_AID: Bytes := [0xF3, 0x81, 0x00, 0x00, 0x02, 0x53, 0x45, 0x52, 0x56, 0x53, 0x5A, 0x4B, 0x01]

  /** The SELECT by name of the medical application (P1 04), with no Le. */
  const SELECT_SERVSZK: Bytes := BuildApdu(0x00, 0xA4, 0x04, 0x00, SERVSZK_AID, 0)

  /** `selectFile(name)`: SELECT with P1 P2 = 00 00 and no Le. */
  function SelectFile(name: Bytes): Bytes
    requires |name| <= MAX_DATA
  {
    BuildApdu(0x00, 0xA4, 0x00, 0x00, name, 0)
  }

  /** The insurer every medical card names in tag 1553 of its document file. */
  const INSURER_NAME: Bytes := Utf8("Републички фонд за здравствено осигурање")

  /**
   * The UTF-16 little-endian decoder (with byte-order-mark detection) of golang.org/x/text, as a
   * function to UTF-8: `None` where it reports an error.
   */
  type Decoder = Bytes -> Option<Bytes>

  /** The text a descrambled tag leaves in its field. */
  function Text(f: Fields, tag: nat, decode: Decoder): Bytes
  {
    if tag in f && decode(f[tag]).Some? then decode(f[tag]).value else []
  }

  /**
   * `descramble(fields, tag)`, which rewrites the map in place: the tag's value re-encoded, or the empty
   * string when it is absent or does not decode.
   */
  function Descramble(fields: Fields, tag: nat, decode: Decoder): (r: Fields)
  {
    if tag in fields && decode(fields[tag]).Some? then fields[tag := decode(fields[tag]).value] else fields[tag := []]
  }

  /** Two maps that hold the same entries for every tag from `lo` on. */
  ghost predicate AgreeFrom(f: Fields, g: Fields, lo: nat)
  {
    forall t: nat :: lo <= t ==> (t in g <==> t in f) && (t in g ==> g[t] == f[t])
  }

  // The gender labels. The male label as written starts with a Latin M (0x4D) before Cyrillic "ушко".
  const MALE_AS_WRITTEN: Bytes := [0x4D, 0xD1, 0x83, 0xD1, 0x88, 0xD0, 0xBA, 0xD0, 0xBE]
  const MALE: Bytes := [0xD0, 0x9C, 0xD1, 0x83, 0xD1, 0x88, 0xD0, 0xBA, 0xD0, 0xBE]              // "Мушко"
  const FEMALE: Bytes := [0xD0, 0x96, 0xD0, 0xB5, 0xD0, 0xBD, 0xD1, 0x81, 0xD0, 0xBA, 0xD0, 0xBE]  // "Женско"
  const MALE_CODE: Bytes := [0x30, 0x31]                                                          // "01"

  /** Gender as written: "01" in tag 1603 gives the label with the Latin M. */
  function GenderAsWritten(f: Fields): Bytes
  {
    if AssignField(f, 1603) == MALE_CODE then MALE_AS_WRITTEN else FEMALE
  }

  /** Gender as intended: the Cyrillic label "Мушко" for "01", "Женско" for anything else. */
  function Gender(f: Fields): (g: Bytes)
    ensures g == MALE <==> 1603 in f && f[1603] == MALE_CODE
    ensures g != MALE ==> g == FEMALE
  {
    if AssignField(f, 1603) == MALE_CODE then MALE else FEMALE
  }

  /** The male label as written is "Mушко" with a Latin M, where the intended one is the Cyrillic "Мушко". */
  lemma MaleLabelMixesScripts()
    ensures MALE_AS_WRITTEN == Utf8("Mушко") && MALE_AS_WRITTEN[0] < 0x80 && MALE_AS_WRITTEN != MALE
    ensures 'M' !in CYRILLIC && 'М' in CYRILLIC
  {
    CodePoints();
    assert CAPITALS[14] == 'М' && CYRILLIC[14] == CAPITALS[14];
  }

  /** The labels as intended are the Cyrillic words "Мушко" and "Женско". */
  lemma GenderLabels()
    ensures MALE == Utf8("Мушко") && FEMALE == Utf8("Женско")
  {
    MaleUtf8();
    FemaleUtf8();
  }

  lemma MaleUtf8()
    ensures Utf8("Мушко") == MALE
  {
    assert Utf8("о") == [0xD0, 0xBE];
    assert Utf8("ко") == [0xD0, 0xBA, 0xD0, 0xBE];
    assert Utf8("шко") == [0xD1, 0x88, 0xD0, 0xBA, 0xD0, 0xBE];
    assert Utf8("ушко") == [0xD1, 0x83, 0xD1, 0x88, 0xD0, 0xBA, 0xD0, 0xBE];
  }

  lemma FemaleUtf8()
    ensures Utf8("Женско") == FEMALE
  {
    assert Utf8("о") == [0xD0, 0xBE];
    assert Utf8("ко") == [0xD0, 0xBA, 0xD0, 0xBE];
    assert Utf8("ско") == [0xD1, 0x81, 0xD0, 0xBA, 0xD0, 0xBE];
    assert Utf8("нско") == [0xD0, 0xBD, 0xD1, 0x81, 0xD0, 0xBA, 0xD0, 0xBE];
    assert Utf8("енско") == [0xD0, 0xB5, 0xD0, 0xBD, 0xD1, 0x81, 0xD0, 0xBA, 0xD0, 0xBE];
  }

  /** `TaxpayerIdNumber`: tag 1632, and tag 1633 only when the first is empty. */
  function TaxpayerId(f: Fields): (s: Bytes)
    ensures AssignField(f, 1632) != [] ==> s == f[1632]
    ensures AssignField(f, 1632) == [] ==> s == AssignField(f, 1633)
  {
    var first := AssignField(f, 1632);
    if |first| == 0 then AssignField(f, 1633) else first
  }

  /** What the document file writes: the descrambled insurer, the identifiers, both dates reformatted. */
  function DocumentFileFields(f: Fields, decode: Decoder): DocumentFilePart
  {
    DocumentFilePart(Text(f, 1553, decode), AssignField(f, 1554), AssignField(f, 1555),
                     FormatDate(AssignField(f, 1557)), FormatDate(AssignField(f, 1558)), AssignField(f, 1560))
  }

  /** What the fixed personal file writes: four descrambled names, the birth date reformatted, the insurant number. */
  function FixedPersonalFields(f: Fields, decode: Decoder): FixedPersonalPart
  {
    FixedPersonalPart(Text(f, 1570, decode), Text(f, 1571, decode), Text(f, 1572, decode), Text(f, 1573, decode),
                      FormatDate(AssignField(f, 1574)), AssignField(f, 1569))
  }

  /** What the variable personal file writes: the validity date reformatted and the permanent-validity flag. */
  function VariablePersonalFields(f: Fields): VariablePersonalPart
  {
    VariablePersonalPart(FormatDate(AssignField(f, 1586)), AssignBoolField(f, 1587))
  }

  /** What the administrative file writes about the holder. */
  function HolderFields(f: Fields, decode: Decoder): HolderPart
  {
    HolderPart(Text(f, 1601, decode), Text(f, 1602, decode), Gender(f), AssignField(f, 1604), Text(f, 1605, decode),
               Text(f, 1607, decode), Text(f, 1608, decode), Text(f, 1610, decode), Text(f, 1612, decode))
  }

  /** What the administrative file writes about the insurance and its carrier. */
  function InsuranceFields(f: Fields, decode: Decoder): InsurancePart
  {
    InsurancePart(AssignField(f, 1614), Text(f, 1615, decode), Text(f, 1616, decode), AssignBoolField(f, 1617),
                  AssignField(f, 1618), AssignField(f, 1619), Text(f, 1620, decode), Text(f, 1621, decode),
                  Text(f, 1622, decode), Text(f, 1623, decode), FormatDate(AssignField(f, 1624)))
  }

  /** What the administrative file writes about the taxpayer. */
  function TaxpayerFields(f: Fields, decode: Decoder): TaxpayerPart
  {
    TaxpayerPart(Text(f, 1626, decode), Text(f, 1630, decode), Text(f, 1631, decode), TaxpayerId(f), AssignField(f, 1634))
  }

  /** Descrambling sets the tag to its text and leaves every other tag as it was. */
  lemma DescrambleMeaning(fields: Fields, tag: nat, decode: Decoder)
    ensures Descramble(fields, tag, decode) == fields[tag := Text(fields, tag, decode)]
    ensures AssignField(Descramble(fields, tag, decode), tag) == Text(fields, tag, decode)
  {
  }

  /** The document file as the reader goes through it: descramble tag 1553, then read the six fields. */
  function DocumentFileRun(f: Fields, decode: Decoder): DocumentFilePart
  {
    var g := Descramble(f, 1553, decode);
    DocumentFilePart(AssignField(g, 1553), AssignField(g, 1554), AssignField(g, 1555),
                     FormatDate(AssignField(g, 1557)), FormatDate(AssignField(g, 1558)), AssignField(g, 1560))
  }

  lemma DocumentFileRunMeaning(f: Fields, decode: Decoder)
    ensures DocumentFileRun(f, decode) == DocumentFileFields(f, decode)
  {
    DescrambleMeaning(f, 1553, decode);
  }

  /** The fixed personal file as the reader goes through it: each name descrambled just before it is read. */
  function FixedPersonalRun(f: Fields, decode: Decoder): FixedPersonalPart
  {
    var g1 := Descramble(f, 1570, decode);
    var g2 := Descramble(g1, 1571, decode);
    var g3 := Descramble(g2, 1572, decode);
    var g4 := Descramble(g3, 1573, decode);
    FixedPersonalPart(AssignField(g1, 1570), AssignField(g2, 1571), AssignField(g3, 1572), AssignField(g4, 1573),
                      FormatDate(AssignField(g4, 1574)), AssignField(g4, 1569))
  }

  lemma FixedPersonalRunMeaning(f: Fields, decode: Decoder)
    ensures FixedPersonalRun(f, decode) == FixedPersonalFields(f, decode)
  {
    var g1 := Descramble(f, 1570, decode);
    var g2 := Descramble(g1, 1571, decode);
    var g3 := Descramble(g2, 1572, decode);
    DescrambleMeaning(f, 1570, decode);
    DescrambleMeaning(g1, 1571, decode);
    DescrambleMeaning(g2, 1572, decode);
    DescrambleMeaning(g3, 1573, decode);
  }

  /** The holder run of the administrative file, and the map it leaves for the next run. */
  function HolderRun(f: Fields, decode: Decoder): (HolderPart, Fields)
  {
    var g1 := Descramble(f, 1601, decode);
    var g2 := Descramble(g1, 1602, decode);
    var g3 := Descramble(g2, 1605, decode);
    var g4 := Descramble(g3, 1607, decode);
    var g5 := Descramble(g4, 1608, decode);
    var g6 := Descramble(g5, 1610, decode);
    var g7 := Descramble(g6, 1612, decode);
    (HolderPart(AssignField(g1, 1601), AssignField(g2, 1602), Gender(g2), AssignField(g2, 1604),
                AssignField(g3, 1605), AssignField(g4, 1607), AssignField(g5, 1608), AssignField(g6, 1610),
                AssignField(g7, 1612)),
     g7)
  }

  /** The insurance and carrier run. */
  function InsuranceRun(f: Fields, decode: Decoder): (InsurancePart, Fields)
  {
    var g1 := Descramble(f, 1615, decode);
    var g2 := Descramble(g1, 1616, decode);
    var g3 := Descramble(g2, 1620, decode);
    var g4 := Descramble(g3, 1621, decode);
    var g5 := Descramble(g4, 1622, decode);
    var g6 := Descramble(g5, 1623, decode);
    (InsurancePart(AssignField(f, 1614), AssignField(g1, 1615), AssignField(g2, 1616), AssignBoolField(g2, 1617),
                   AssignField(g2, 1618), AssignField(g2, 1619), AssignField(g3, 1620), AssignField(g4, 1621),
                   AssignField(g5, 1622), AssignField(g6, 1623), FormatDate(AssignField(g6, 1624))),
     g6)
  }

  /** The taxpayer run, with the fallback from tag 1632 to tag 1633. */
  function TaxpayerRun(f: Fields, decode: Decoder): TaxpayerPart
  {
    var g1 := Descramble(f, 1626, decode);
    var g2 := Descramble(g1, 1630, decode);
    var g3 := Descramble(g2, 1631, decode);
    TaxpayerPart(AssignField(g1, 1626), AssignField(g2, 1630), AssignField(g3, 1631), TaxpayerId(g3),
                 AssignField(g3, 1634))
  }

  /** The holder run reads each tag before any later descramble, and leaves the tags from 1614 on alone. */
  lemma HolderRunMeaning(f: Fields, decode: Decoder)
    ensures HolderRun(f, decode).0 == HolderFields(f, decode)
    ensures AgreeFrom(f, HolderRun(f, decode).1, 1614)
  {
    HolderRunFields(f, decode);
    HolderRunKeeps(f, decode);
  }

  lemma HolderRunFields(f: Fields, decode: Decoder)
    ensures HolderRun(f, decode).0 == HolderFields(f, decode)
  {
    var g1 := Descramble(f, 1601, decode);
    var g2 := Descramble(g1, 1602, decode);
    var g3 := Descramble(g2, 1605, decode);
    var g4 := Descramble(g3, 1607, decode);
    var g5 := Descramble(g4, 1608, decode);
    var g6 := Descramble(g5, 1610, decode);
    DescrambleMeaning(f, 1601, decode);
    DescrambleMeaning(g1, 1602, decode);
    DescrambleMeaning(g2, 1605, decode);
    DescrambleMeaning(g3, 1607, decode);
    DescrambleMeaning(g4, 1608, decode);
    DescrambleMeaning(g5, 1610, decode);
    DescrambleMeaning(g6, 1612, decode);
    assert AssignField(g2, 1603) == AssignField(f, 1603);
  }

  lemma HolderRunKeeps(f: Fields, decode: Decoder)
    ensures AgreeFrom(f, HolderRun(f, decode).1, 1614)
  {
    var g1 := Descramble(f, 1601, decode);
    var g2 := Descramble(g1, 1602, decode);
    var g3 := Descramble(g2, 1605, decode);
    var g4 := Descramble(g3, 1607, decode);
    var g5 := Descramble(g4, 1608, decode);
    var g6 := Descramble(g5, 1610, decode);
    DescrambleMeaning(f, 1601, decode);
    DescrambleMeaning(g1, 1602, decode);
    DescrambleMeaning(g2, 1605, decode);
    DescrambleMeaning(g3, 1607, decode);
    DescrambleMeaning(g4, 1608, decode);
    DescrambleMeaning(g5, 1610, decode);
    DescrambleMeaning(g6, 1612, decode);
  }

  /** The insurance run reads each tag before any later descramble, and leaves the tags from 1626 on alone. */
  lemma InsuranceRunMeaning(f: Fields, decode: Decoder)
    ensures InsuranceRun(f, decode).0 == InsuranceFields(f, decode)
    ensures AgreeFrom(f, InsuranceRun(f, decode).1, 1626)
  {
    var g1 := Descramble(f, 1615, decode);
    var g2 := Descramble(g1, 1616, decode);
    var g3 := Descramble(g2, 1620, decode);
    var g4 := Descramble(g3, 1621, decode);
    var g5 := Descramble(g4, 1622, decode);
    DescrambleMeaning(f, 1615, decode);
    DescrambleMeaning(g1, 1616, decode);
    DescrambleMeaning(g2, 1620, decode);
    DescrambleMeaning(g3, 1621, decode);
    DescrambleMeaning(g4, 1622, decode);
    DescrambleMeaning(g5, 1623, decode);
  }

  lemma TaxpayerRunMeaning(f: Fields, decode: Decoder)
    ensures TaxpayerRun(f, decode) == TaxpayerFields(f, decode)
  {
    var g1 := Descramble(f, 1626, decode);
    var g2 := Descramble(g1, 1630, decode);
    DescrambleMeaning(f, 1626, decode);
    DescrambleMeaning(g1, 1630, decode);
    DescrambleMeaning(g2, 1631, decode);
    var g3 := Descramble(g2, 1631, decode);
    assert AssignField(g3, 1632) == AssignField(f, 1632) && AssignField(g3, 1633) == AssignField(f, 1633);
  }

  /** The insurance run reads only tags from 1614 on, the taxpayer run only tags from 1626 on. */
  lemma LaterRunsReadLaterTags(f: Fields, g: Fields, decode: Decoder)
    ensures AgreeFrom(f, g, 1614) ==> InsuranceFields(f, decode) == InsuranceFields(g, decode)
    ensures AgreeFrom(f, g, 1626) ==> TaxpayerFields(f, decode) == TaxpayerFields(g, decode)
  {
    if AgreeFrom(f, g, 1626) {
      assert AssignField(f, 1632) == AssignField(g, 1632) && AssignField(f, 1633) == AssignField(g, 1633);
    }
  }

  /**
   * The three runs of the administrative file, chained through the one map: each field is the text or the
   * value of its own tag in the parsed file.
   */
  lemma AdminRunMeaning(f: Fields, decode: Decoder)
    ensures HolderRun(f, decode).0 == HolderFields(f, decode)
    ensures InsuranceRun(HolderRun(f, decode).1, decode).0 == InsuranceFields(f, decode)
    ensures TaxpayerRun(InsuranceRun(HolderRun(f, decode).1, decode).1, decode) == TaxpayerFields(f, decode)
  {
    var g := HolderRun(f, decode).1;
    var h := InsuranceRun(g, decode).1;
    HolderRunMeaning(f, decode);
    InsuranceRunMeaning(g, decode);
    TaxpayerRunMeaning(h, decode);
    LaterRunsReadLaterTags(f, g, decode);
    assert AgreeFrom(f, h, 1626);
    LaterRunsReadLaterTags(f, h, decode);
  }

  /** `parseMedicalDocumentFile(data, doc)`: a parse failure returns before any field is written. */
  method ParseMedicalDocumentFile(data: Bytes, doc: MedicalDocument, decode: Decoder) returns (err: Option<ParseError>)
    modifies doc`documentFile
    ensures ParseTlvSpec(data).Err? ==> err == Some(ParseTlvSpec(data).error) && unchanged(doc)
    ensures ParseTlvSpec(data).Ok? ==> err == None && doc.documentFile == DocumentFileFields(ParseTlvSpec(data).value, decode)
  {
    var fields := ParseTlv(data);
    if fields.Err? {
      return Some(fields.error);
    }
    doc.documentFile := DocumentFileRun(fields.value, decode);
    DocumentFileRunMeaning(fields.value, decode);
    return None;
  }

  /** `parseMedicalFixedPersonalFile(data, doc)`. */
  method ParseMedicalFixedPersonalFile(data: Bytes, doc: MedicalDocument, decode: Decoder) returns (err: Option<ParseError>)
    modifies doc`fixedPersonal
    ensures ParseTlvSpec(data).Err? ==> err == Some(ParseTlvSpec(data).error) && unchanged(doc)
    ensures ParseTlvSpec(data).Ok? ==> err == None && doc.fixedPersonal == FixedPersonalFields(ParseTlvSpec(data).value, decode)
  {
    var fields := ParseTlv(data);
    if fields.Err? {
      return Some(fields.error);
    }
    doc.fixedPersonal := FixedPersonalRun(fields.value, decode);
    FixedPersonalRunMeaning(fields.value, decode);
    return None;
  }

  /** `parseMedicalVariablePersonalFile(data, doc)`. */
  method ParseMedicalVariablePersonalFile(data: Bytes, doc: MedicalDocument) returns (err: Option<ParseError>)
    modifies doc`variablePersonal
    ensures ParseTlvSpec(data).Err? ==> err == Some(ParseTlvSpec(data).error) && unchanged(doc)
    ensures ParseTlvSpec(data).Ok? ==> err == None && doc.variablePersonal == VariablePersonalFields(ParseTlvSpec(data).value)
  {
    var fields := ParseTlv(data);
    if fields.Err? {
      return Some(fields.error);
    }
    doc.variablePersonal := doc.variablePersonal.(validUntil := AssignField(fields.value, 1586));
    doc.variablePersonal := doc.variablePersonal.(validUntil := FormatDate(doc.variablePersonal.validUntil));
    doc.variablePersonal := doc.variablePersonal.(permanentlyValid := AssignBoolField(fields.value, 1587));
    return None;
  }

  /** `parseMedicalVariableAdminFile(data, doc)`: the holder, then the insurance, then the taxpayer runs. */
  method ParseMedicalVariableAdminFile(data: Bytes, doc: MedicalDocument, decode: Decoder) returns (err: Option<ParseError>)
    modifies doc`holder, doc`insurance, doc`taxpayer
    ensures ParseTlvSpec(data).Err? ==> err == Some(ParseTlvSpec(data).error) && unchanged(doc)
    ensures ParseTlvSpec(data).Ok? ==>
              && err == None
              && doc.holder == HolderFields(ParseTlvSpec(data).value, decode)
              && doc.insurance == InsuranceFields(ParseTlvSpec(data).value, decode)
              && doc.taxpayer == TaxpayerFields(ParseTlvSpec(data).value, decode)
  {
    var fields := ParseTlv(data);
    if fields.Err? {
      return Some(fields.error);
    }
    doc.holder, doc.insurance, doc.taxpayer := ReadAdminRuns(fields.value, decode);
    return None;
  }

  /** The three runs over the one map, each descramble changing it for the runs after it. */
  method ReadAdminRuns(f: Fields, decode: Decoder) returns (holder: HolderPart, insurance: InsurancePart, taxpayer: TaxpayerPart)
    ensures holder == HolderFields(f, decode)
    ensures insurance == InsuranceFields(f, decode)
    ensures taxpayer == TaxpayerFields(f, decode)
  {
    var (h, g) := HolderRun(f, decode);
    var (i, g') := InsuranceRun(g, decode);
    holder, insurance, taxpayer := h, i, TaxpayerRun(g', decode);
    AdminRunMeaning(f, decode);
  }

  /** The four files a medical card holds, as `ReadCard` reads them. */
  datatype MedicalFiles = MedicalFiles(document: Bytes, fixedPersonal: Bytes, variablePersonal: Bytes, variableAdmin: Bytes)

  /** The four files read in order, the first failure ending the run. */
  function ReadFilesSpec(w: Wire): (res: (Result<MedicalFiles, CardError>, Wire))
  {
    var (a, w1) := ReadFileSpec(w, SelectFile(MED_DOCUMENT_FILE_LOC));
    if a.Err? then (Err(a.error), w1) else
    var (b, w2) := ReadFileSpec(w1, SelectFile(MED_FIXED_PERSONAL_FILE_LOC));
    if b.Err? then (Err(b.error), w2) else
    var (c, w3) := ReadFileSpec(w2, SelectFile(MED_VARIABLE_PERSONAL_FILE_LOC));
    if c.Err? then (Err(c.error), w3) else
    var (d, w4) := ReadFileSpec(w3, SelectFile(MED_VARIABLE_ADMIN_FILE_LOC));
    if d.Err? then (Err(d.error), w4) else
    (Ok(MedicalFiles(a.value, b.value, c.value, d.value)), w4)
  }

  /** The four files parsed in order; the first that does not parse is the error. */
  function GetDocumentSpec(files: MedicalFiles, decode: Decoder): Result<MedicalParts, ParseError>
  {
    match ParseTlvSpec(files.document)
    case Err(e) => Err(e)
    case Ok(a) =>
      match ParseTlvSpec(files.fixedPersonal)
      case Err(e) => Err(e)
      case Ok(b) =>
        match ParseTlvSpec(files.variablePersonal)
        case Err(e) => Err(e)
        case Ok(c) =>
          match ParseTlvSpec(files.variableAdmin)
          case Err(e) => Err(e)
          case Ok(d) =>
            Ok(MedicalParts(DocumentFileFields(a, decode), FixedPersonalFields(b, decode), VariablePersonalFields(c),
                            HolderFields(d, decode), InsuranceFields(d, decode), TaxpayerFields(d, decode)))
  }

  /** `InitCard`: the SELECT of the medical application must be answered with 90 00. */
  function InitCardSpec(w: Wire): (res: (Option<CardError>, Wire))
  {
    var (rsp, w1) := Exchange(w, SELECT_SERVSZK);
    if rsp.Failure? then (Some(TransportError), w1)
    else if ResponseOK(rsp.bytes) then (None, w1)
    else (Some(NotSelected), w1)
  }

  /**
   * `testMedicalCard`: after the SELECT of the medical application (whose answer only has to arrive), the
   * document file is read, and it must name the insurer.
   */
  function TestSpec(w: Wire, decode: Decoder): (res: (bool, Wire))
  {
    var (rsp, w1) := Exchange(w, SELECT_SERVSZK);
    if rsp.Failure? then (false, w1)
    else
      var (file, w2) := ReadFileSpec(w1, SelectFile(MED_DOCUMENT_FILE_LOC));
      (NamesInsurer(file, decode), w2)
  }

  /** The document file was read, parses, and its descrambled tag 1553 is the insurer's name. */
  predicate NamesInsurer(file: Result<Bytes, CardError>, decode: Decoder)
  {
    if file.Err? then false
    else
      var fields := ParseTlvSpec(file.value);
      fields.Ok? && Text(fields.value, 1553, decode) == INSURER_NAME
  }

  /** `MedicalCard`: the card link and the four files `ReadCard` is meant to keep. */
  class MedicalCard {
    const atr: Atr.Atr
    const smartCard: Card
    var medicalDocumentFile: Bytes
    var fixedPersonalFile: Bytes
    var variablePersonalFile: Bytes
    var variableAdminFile: Bytes

    function Files(): MedicalFiles
      reads this`medicalDocumentFile, this`fixedPersonalFile, this`variablePersonalFile, this`variableAdminFile
    {
      MedicalFiles(medicalDocumentFile, fixedPersonalFile, variablePersonalFile, variableAdminFile)
    }

    /** `MedicalCard{atr: atr, smartCard: card}`: no file read yet. */
    constructor (atr: Atr.Atr, smartCard: Card)
      ensures this.atr == atr && this.smartCard == smartCard && Files() == MedicalFiles([], [], [], [])
    {
      this.atr := atr;
      this.smartCard := smartCard;
      medicalDocumentFile, fixedPersonalFile, variablePersonalFile, variableAdminFile := [], [], [], [];
    }

    /**
     * `ReadCard` as written: its receiver is a copy of the card, so the four files it reads are dropped
     * when it returns. Only the link changes.
     */
    method ReadCard() returns (err: Option<CardError>)
      modifies smartCard
      ensures var (r, w) := ReadFilesSpec(old(smartCard.State()));
              smartCard.State() == w && err == (if r.Err? then Some(r.error) else None)
      ensures Files() == old(Files())
    {
      var copy := ReadFiles();
      err := if copy.Err? then Some(copy.error) else None;
    }

    /** `ReadCard` as evidently intended: the files it reads are kept in the card. */
    method ReadCardStoring() returns (err: Option<CardError>)
      modifies smartCard, this`medicalDocumentFile, this`fixedPersonalFile, this`variablePersonalFile,
               this`variableAdminFile
      ensures var (r, w) := ReadFilesSpec(old(smartCard.State()));
              && smartCard.State() == w
              && err == (if r.Err? then Some(r.error) else None)
              && Files() == (if r.Ok? then r.value else old(Files()))
    {
      var files := ReadFiles();
      if files.Err? {
        return Some(files.error);
      }
      medicalDocumentFile, fixedPersonalFile := files.value.document, files.value.fixedPersonal;
      variablePersonalFile, variableAdminFile := files.value.variablePersonal, files.value.variableAdmin;
      return None;
    }

    /** The four `readFile` calls of `ReadCard`, the first error returned. */
    method ReadFiles() returns (r: Result<MedicalFiles, CardError>)
      modifies smartCard
      ensures (r, smartCard.State()) == ReadFilesSpec(old(smartCard.State()))
    {
      var a := ReadFile(smartCard, SelectFile(MED_DOCUMENT_FILE_LOC));
      if a.Err? {
        return Err(a.error);
      }
      var b := ReadFile(smartCard, SelectFile(MED_FIXED_PERSONAL_FILE_LOC));
      if b.Err? {
        return Err(b.error);
      }
      var c := ReadFile(smartCard, SelectFile(MED_VARIABLE_PERSONAL_FILE_LOC));
      if c.Err? {
        return Err(c.error);
      }
      var d := ReadFile(smartCard, SelectFile(MED_VARIABLE_ADMIN_FILE_LOC));
      if d.Err? {
        return Err(d.error);
      }
      return Ok(MedicalFiles(a.value, b.value, c.value, d.value));
    }

    /** `GetDocument`: a new document filled from the four files, or the first parse error and no document. */
    method GetDocument(decode: Decoder) returns (r: Result<MedicalDocument, ParseError>)
      ensures GetDocumentSpec(Files(), decode).Err? ==> r == Err(GetDocumentSpec(Files(), decode).error)
      ensures GetDocumentSpec(Files(), decode).Ok? ==>
                && r.Ok? && fresh(r.value)
                && r.value.Parts() == GetDocumentSpec(Files(), decode).value
    {
      var doc := new MedicalDocument();
      var e := ParseMedicalDocumentFile(medicalDocumentFile, doc, decode);
      if e.Some? {
        return Err(e.value);
      }
      e := ParseMedicalFixedPersonalFile(fixedPersonalFile, doc, decode);
      if e.Some? {
        return Err(e.value);
      }
      e := ParseMedicalVariablePersonalFile(variablePersonalFile, doc);
      if e.Some? {
        return Err(e.value);
      }
      e := ParseMedicalVariableAdminFile(variableAdminFile, doc, decode);
      if e.Some? {
        return Err(e.value);
      }
      return Ok(doc);
    }

    /** `InitCard`. */
    method InitCard() returns (err: Option<CardError>)
      modifies smartCard
      ensures (err, smartCard.State()) == InitCardSpec(old(smartCard.State()))
    {
      var rsp := smartCard.Transmit(SELECT_SERVSZK);
      if rsp.Failure? {
        return Some(TransportError);
      }
      if !ResponseOK(rsp.bytes) {
        return Some(NotSelected);
      }
      return None;
    }

    /** `testMedicalCard`. */
    method TestMedicalCard(decode: Decoder) returns (b: bool)
      modifies smartCard
      ensures (b, smartCard.State()) == TestSpec(old(smartCard.State()), decode)
    {
      var rsp := smartCard.Transmit(SELECT_SERVSZK);
      if rsp.Failure? {
        return false;
      }
      var file := ReadFile(smartCard, SelectFile(MED_DOCUMENT_FILE_LOC));
      if file.Err? {
        return false;
      }
      var fields := ParseTlv(file.value);
      if fields.Err? {
        return false;
      }
      var name := Text(fields.value, 1553, decode);
      return name == INSURER_NAME;
    }
  }

  /** The SELECT is sent whatever happens; the card is initialised exactly when it answers 90 00. */
  lemma InitCardMeaning(w: Wire)
    ensures InitCardSpec(w).1.sent == w.sent + [SELECT_SERVSZK]
    ensures InitCardSpec(w).0 == None <==> w.script != [] && ReplyOK(w.script[0])
    ensures InitCardSpec(w).0 == Some(TransportError) <==> w.script == [] || w.script[0].Failure?
  {
  }

  /** The probe accepts exactly the document files whose parse fills the insurer's name with RFZO's. */
  lemma NamesInsurerMeaning(file: Result<Bytes, CardError>, decode: Decoder)
    ensures NamesInsurer(file, decode) <==>
              && file.Ok? && ParseTlvSpec(file.value).Ok?
              && DocumentFileFields(ParseTlvSpec(file.value).value, decode).insurerName == INSURER_NAME
  {
  }

  /** Once the SELECT is answered, whatever its status word, the probe goes on to read the document file. */
  lemma TestIgnoresSelectStatus(w: Wire, decode: Decoder)
    requires w.script != [] && w.script[0].Response?
    ensures var (file, w1) := ReadFileSpec(Wire(w.script[1..], w.sent + [SELECT_SERVSZK]), SelectFile(MED_DOCUMENT_FILE_LOC));
            TestSpec(w, decode) == (NamesInsurer(file, decode), w1)
  {
    assert Exchange(w, SELECT_SERVSZK) == (w.script[0], Wire(w.script[1..], w.sent + [SELECT_SERVSZK]));
  }

  /** A link that gives no answer fails the probe after the one SELECT. */
  lemma TestWithoutAnswer(w: Wire, decode: Decoder)
    requires w.script == []
    ensures TestSpec(w, decode) == (false, Wire([], w.sent + [SELECT_SERVSZK]))
  {
  }

  /**
   * The files of a card as the constructor makes it, which `ReadCard` as written leaves in place, are
   * empty, and the first of them fails to parse.
   */
  lemma UnreadFilesDoNotParse(decode: Decoder)
    ensures GetDocumentSpec(MedicalFiles([], [], [], []), decode) == Err(InvalidLength)
  {
  }

  predicate Short(v: Bytes)
  {
    |v| < 0x10000
  }

  /** The document file a card would hold: the insurer name as UTF-16 (`scrambled`), the rest as they are. */
  function DocumentFileElements(p: DocumentFilePart, scrambled: Bytes): seq<Element>
  {
    [Element(1553, scrambled), Element(1554, p.insurerID), Element(1555, p.cardId), Element(1557, p.dateOfIssue),
     Element(1558, p.dateOfExpiry), Element(1560, p.printLanguage)]
  }

  /** Round trip: the document file is parsed back to its values, the name decoded and the dates formatted. */
  lemma DocumentFileRoundTrip(p: DocumentFilePart, scrambled: Bytes, decode: Decoder)
    requires decode(scrambled) == Some(p.insurerName)
    requires Short(scrambled) && Short(p.insurerID) && Short(p.cardId) && Short(p.dateOfIssue)
    requires Short(p.dateOfExpiry) && Short(p.printLanguage)
    ensures ParseTlvSpec(Encode(DocumentFileElements(p, scrambled))).Ok?
    ensures DocumentFileFields(ParseTlvSpec(Encode(DocumentFileElements(p, scrambled))).value, decode)
            == p.(dateOfIssue := FormatDate(p.dateOfIssue), dateOfExpiry := FormatDate(p.dateOfExpiry))
  {
    var es := DocumentFileElements(p, scrambled);
    ParseTlvEncoded(es);
    var f := Collect(map[], es);
    CollectDistinct(map[], es);
    assert es[0] == Element(1553, scrambled);
    Stored(es, 0); Stored(es, 1); Stored(es, 2); Stored(es, 3); Stored(es, 4); Stored(es, 5);
    assert Text(f, 1553, decode) == p.insurerName;
    assert DocumentFileFields(f, decode) == DocumentFilePart(p.insurerName, p.insurerID, p.cardId,
      FormatDate(p.dateOfIssue), FormatDate(p.dateOfExpiry), p.printLanguage);
  }

  /** The variable personal file a card would hold: the date, and "1" or "0" for permanent validity. */
  function VariablePersonalElements(validUntil: Bytes, permanentlyValid: bool): seq<Element>
  {
    [Element(1586, validUntil), Element(1587, if permanentlyValid then [0x31] else [0x30])]
  }

  /** Round trip for the variable personal file. */
  lemma VariablePersonalRoundTrip(validUntil: Bytes, permanentlyValid: bool)
    requires Short(validUntil)
    ensures ParseTlvSpec(Encode(VariablePersonalElements(validUntil, permanentlyValid))).Ok?
    ensures VariablePersonalFields(ParseTlvSpec(Encode(VariablePersonalElements(validUntil, permanentlyValid))).value)
            == VariablePersonalPart(FormatDate(validUntil), permanentlyValid)
  {
    var es := VariablePersonalElements(validUntil, permanentlyValid);
    ParseTlvEncoded(es);
    Stored(es, 0); Stored(es, 1);
  }
}
