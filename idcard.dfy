/**
 * The identity card files of card/idCard.go: each of the three TLV files is parsed and its tags are
 * copied into the document's fields, the dates then reformatted in place. The photo file is decoded as
 * an image and is not part of this model.
 */
module IdCard {
  import opened Bytes
  import opened Wrappers
  import opened Errors
  import opened Tlv
  import opened Localization
  import opened DocumentId

  /** The file identifiers of the identity card. */
  const ID_DOCUMENT_FILE_LOC: Bytes := [0x0F, 0x02]
  const ID_PERSONAL_FILE_LOC: Bytes := [0x0F, 0x03]
  const ID_RESIDENCE_FILE_LOC: Bytes := [0x0F, 0x04]
  const ID_PHOTO_FILE_LOC: Bytes := [0x0F, 0x06]

  /** What the document file writes: tags 1546 to 1551, both dates reformatted. */
  function DocumentFields(f: Fields): DocumentPart
  {
    DocumentPart(AssignField(f, 1546), AssignField(f, 1547), AssignField(f, 1548),
                 FormatDate(AssignField(f, 1549)), FormatDate(AssignField(f, 1550)), AssignField(f, 1551))
  }

  /** What the personal file writes: tags 1558 to 1566, the date of birth reformatted. */
  function PersonalFields(f: Fields): PersonalPart
  {
    PersonalPart(AssignField(f, 1558), AssignField(f, 1559), AssignField(f, 1560), AssignField(f, 1561),
                 AssignField(f, 1562), AssignField(f, 1563), AssignField(f, 1564), AssignField(f, 1565),
                 FormatDate(AssignField(f, 1566)))
  }

  /** What the residence file writes: tags 1568 to 1575, 1578 and 1580, the address date reformatted. */
  function ResidenceFields(f: Fields): ResidencePart
  {
    ResidencePart(AssignField(f, 1568), AssignField(f, 1569), AssignField(f, 1570), AssignField(f, 1571),
                  AssignField(f, 1572), AssignField(f, 1573), AssignField(f, 1574), AssignField(f, 1575),
                  AssignField(f, 1578), FormatDate(AssignField(f, 1580)))
  }

  /** `parseIdDocumentFile(data, doc)`: a parse failure returns before any field is written. */
  method ParseIdDocumentFile(data: Bytes, doc: IdDocument) returns (err: Option<ParseError>)
    modifies doc`docRegNo, doc`documentType, doc`documentSerialNumber, doc`issuingDate, doc`expiryDate, doc`issuingAuthority
    ensures ParseTlvSpec(data).Err? ==> err == Some(ParseTlvSpec(data).error) && unchanged(doc)
    ensures ParseTlvSpec(data).Ok? ==> err == None && doc.Document() == DocumentFields(ParseTlvSpec(data).value)
  {
    var fields := ParseTlv(data);
    if fields.Err? {
      return Some(fields.error);
    }
    AssignDocumentFields(fields.value, doc);
    return None;
  }

  /** The assignments of `parseIdDocumentFile` once its file is parsed: the document fields and no other. */
  method AssignDocumentFields(f: Fields, doc: IdDocument)
    modifies doc`docRegNo, doc`documentType, doc`documentSerialNumber, doc`issuingDate, doc`expiryDate, doc`issuingAuthority
    ensures doc.Document() == DocumentFields(f)
  {
    doc.docRegNo := AssignField(f, 1546);
    doc.documentType := AssignField(f, 1547);
    doc.documentSerialNumber := AssignField(f, 1548);
    doc.issuingDate := AssignField(f, 1549);
    doc.expiryDate := AssignField(f, 1550);
    doc.issuingAuthority := AssignField(f, 1551);
    doc.issuingDate := FormatDate(doc.issuingDate);
    doc.expiryDate := FormatDate(doc.expiryDate);
  }

  /** `parseIdPersonalFile(data, doc)`. */
  method ParseIdPersonalFile(data: Bytes, doc: IdDocument) returns (err: Option<ParseError>)
    modifies doc`personalNumber, doc`surname, doc`givenName, doc`parentGivenName, doc`sex, doc`placeOfBirth, doc`communityOfBirth, doc`stateOfBirth, doc`dateOfBirth
    ensures ParseTlvSpec(data).Err? ==> err == Some(ParseTlvSpec(data).error) && unchanged(doc)
    ensures ParseTlvSpec(data).Ok? ==> err == None && doc.Personal() == PersonalFields(ParseTlvSpec(data).value)
  {
    var fields := ParseTlv(data);
    if fields.Err? {
      return Some(fields.error);
    }
    AssignPersonalFields(fields.value, doc);
    return None;
  }

  /** The assignments of `parseIdPersonalFile` once its file is parsed: the personal fields and no other. */
  method AssignPersonalFields(f: Fields, doc: IdDocument)
    modifies doc`personalNumber, doc`surname, doc`givenName, doc`parentGivenName, doc`sex, doc`placeOfBirth, doc`communityOfBirth, doc`stateOfBirth, doc`dateOfBirth
    ensures doc.Personal() == PersonalFields(f)
  {
    doc.personalNumber := AssignField(f, 1558);
    doc.surname := AssignField(f, 1559);
    doc.givenName := AssignField(f, 1560);
    doc.parentGivenName := AssignField(f, 1561);
    doc.sex := AssignField(f, 1562);
    doc.placeOfBirth := AssignField(f, 1563);
    doc.communityOfBirth := AssignField(f, 1564);
    doc.stateOfBirth := AssignField(f, 1565);
    doc.dateOfBirth := AssignField(f, 1566);
    doc.dateOfBirth := FormatDate(doc.dateOfBirth);
  }

  /** `parseIdResidenceFile(data, doc)`. */
  method ParseIdResidenceFile(data: Bytes, doc: IdDocument) returns (err: Option<ParseError>)
    modifies doc`state, doc`community, doc`place, doc`street, doc`houseNumber, doc`houseLetter, doc`entrance, doc`floor, doc`apartmentNumber, doc`addressDate
    ensures ParseTlvSpec(data).Err? ==> err == Some(ParseTlvSpec(data).error) && unchanged(doc)
    ensures ParseTlvSpec(data).Ok? ==> err == None && doc.Residence() == ResidenceFields(ParseTlvSpec(data).value)
  {
    var fields := ParseTlv(data);
    if fields.Err? {
      return Some(fields.error);
    }
    AssignResidenceFields(fields.value, doc);
    return None;
  }

  /** The assignments of `parseIdResidenceFile` once its file is parsed: the residence fields and no other. */
  method AssignResidenceFields(f: Fields, doc: IdDocument)
    modifies doc`state, doc`community, doc`place, doc`street, doc`houseNumber, doc`houseLetter, doc`entrance, doc`floor, doc`apartmentNumber, doc`addressDate
    ensures doc.Residence() == ResidenceFields(f)
  {
    doc.state := AssignField(f, 1568);
    doc.community := AssignField(f, 1569);
    doc.place := AssignField(f, 1570);
    doc.street := AssignField(f, 1571);
    doc.houseNumber := AssignField(f, 1572);
    doc.houseLetter := AssignField(f, 1573);
    doc.entrance := AssignField(f, 1574);
    doc.floor := AssignField(f, 1575);
    doc.apartmentNumber := AssignField(f, 1578);
    doc.addressDate := AssignField(f, 1580);
    doc.addressDate := FormatDate(doc.addressDate);
  }

  /** Each file's fields depend only on that file's own tags: any other tag, 1576, 1577 and 1579 among them, is ignored. */
  lemma FieldsFrame(f: Fields, t: nat, v: Bytes)
    ensures !(1546 <= t <= 1551) ==> DocumentFields(f[t := v]) == DocumentFields(f)
    ensures !(1558 <= t <= 1566) ==> PersonalFields(f[t := v]) == PersonalFields(f)
    ensures !(1568 <= t <= 1575 || t == 1578 || t == 1580) ==> ResidenceFields(f[t := v]) == ResidenceFields(f)
  {
  }

  /** Absent tags leave their fields empty. */
  lemma AbsentFieldsEmpty()
    ensures DocumentFields(map[]) == DocumentPart([], [], [], [], [], [])
    ensures PersonalFields(map[]) == PersonalPart([], [], [], [], [], [], [], [], [])
    ensures ResidenceFields(map[]) == ResidencePart([], [], [], [], [], [], [], [], [], [])
  {
  }

  predicate Short(v: Bytes)
  {
    |v| < 0x10000
  }

  /** The document file the card would hold for some field values. */
  function DocumentElements(p: DocumentPart): seq<Element>
  {
    [Element(1546, p.docRegNo), Element(1547, p.documentType), Element(1548, p.documentSerialNumber),
     Element(1549, p.issuingDate), Element(1550, p.expiryDate), Element(1551, p.issuingAuthority)]
  }

  /** Round trip: the document file encoding some values is parsed back to those values, the dates formatted. */
  lemma DocumentFileRoundTrip(p: DocumentPart)
    requires Short(p.docRegNo) && Short(p.documentType) && Short(p.documentSerialNumber)
    requires Short(p.issuingDate) && Short(p.expiryDate) && Short(p.issuingAuthority)
    ensures ParseTlvSpec(Encode(DocumentElements(p))).Ok?
    ensures DocumentFields(ParseTlvSpec(Encode(DocumentElements(p))).value)
            == p.(issuingDate := FormatDate(p.issuingDate), expiryDate := FormatDate(p.expiryDate))
  {
    var es := DocumentElements(p);
    ParseTlvEncoded(es);
    AscendingDistinct(es);
    Stored(es, 0); Stored(es, 1); Stored(es, 2); Stored(es, 3); Stored(es, 4); Stored(es, 5);
  }

  /** The personal file the card would hold for some field values. */
  function PersonalElements(p: PersonalPart): seq<Element>
  {
    [Element(1558, p.personalNumber), Element(1559, p.surname), Element(1560, p.givenName),
     Element(1561, p.parentGivenName), Element(1562, p.sex), Element(1563, p.placeOfBirth),
     Element(1564, p.communityOfBirth), Element(1565, p.stateOfBirth), Element(1566, p.dateOfBirth)]
  }

  /** Round trip for the personal file. */
  lemma PersonalFileRoundTrip(p: PersonalPart)
    requires Short(p.personalNumber) && Short(p.surname) && Short(p.givenName) && Short(p.parentGivenName)
    requires Short(p.sex) && Short(p.placeOfBirth) && Short(p.communityOfBirth) && Short(p.stateOfBirth)
    requires Short(p.dateOfBirth)
    ensures ParseTlvSpec(Encode(PersonalElements(p))).Ok?
    ensures PersonalFields(ParseTlvSpec(Encode(PersonalElements(p))).value) == p.(dateOfBirth := FormatDate(p.dateOfBirth))
  {
    var es := PersonalElements(p);
    ParseTlvEncoded(es);
    AscendingDistinct(es);
    Stored(es, 0); Stored(es, 1); Stored(es, 2); Stored(es, 3); Stored(es, 4);
    Stored(es, 5); Stored(es, 6); Stored(es, 7); Stored(es, 8);
  }

  /** The residence file the card would hold for some field values. */
  function ResidenceElements(p: ResidencePart): seq<Element>
  {
    [Element(1568, p.state), Element(1569, p.community), Element(1570, p.place), Element(1571, p.street),
     Element(1572, p.houseNumber), Element(1573, p.houseLetter), Element(1574, p.entrance),
     Element(1575, p.floor), Element(1578, p.apartmentNumber), Element(1580, p.addressDate)]
  }

  /** Round trip for the residence file. */
  lemma ResidenceFileRoundTrip(p: ResidencePart)
    requires Short(p.state) && Short(p.community) && Short(p.place) && Short(p.street) && Short(p.houseNumber)
    requires Short(p.houseLetter) && Short(p.entrance) && Short(p.floor) && Short(p.apartmentNumber)
    requires Short(p.addressDate)
    ensures ParseTlvSpec(Encode(ResidenceElements(p))).Ok?
    ensures ResidenceFields(ParseTlvSpec(Encode(ResidenceElements(p))).value) == p.(addressDate := FormatDate(p.addressDate))
  {
    var es := ResidenceElements(p);
    ParseTlvEncoded(es);
    AscendingDistinct(es);
    Stored(es, 0); Stored(es, 1); Stored(es, 2); Stored(es, 3); Stored(es, 4);
    Stored(es, 5); Stored(es, 6); Stored(es, 7); Stored(es, 8); Stored(es, 9);
  }
}
