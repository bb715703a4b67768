/**
 * The identity document of document/id.go: the fields the card readers fill, as Go strings (their bytes),
 * and the getters that compose a name, an address and a place of birth from them. The photo (an
 * `image.Image`) is not part of this model.
 */
module DocumentId {
  import opened Bytes
  import opened Localization

  /** The document types, as stored in `DocumentType`: Apollo cards carry none. */
  const ID_TYPE_APOLLO: Bytes := []
  const ID_TYPE_ID: Bytes := [0x49, 0x44]                  // "ID"
  const ID_TYPE_IDENTITY_FOREIGNER: Bytes := [0x49, 0x46]  // "IF"
  const ID_TYPE_RESIDENCE_PERMIT: Bytes := [0x52, 0x50]    // "RP"

  /** The fields of the document file, of the personal file and of the residence file, and the rest. */
  datatype DocumentPart = DocumentPart(
    docRegNo: Bytes, documentType: Bytes, documentSerialNumber: Bytes,
    issuingDate: Bytes, expiryDate: Bytes, issuingAuthority: Bytes)

  datatype PersonalPart = PersonalPart(
    personalNumber: Bytes, surname: Bytes, givenName: Bytes, parentGivenName: Bytes, sex: Bytes,
    placeOfBirth: Bytes, communityOfBirth: Bytes, stateOfBirth: Bytes, dateOfBirth: Bytes)

  datatype ResidencePart = ResidencePart(
    state: Bytes, community: Bytes, place: Bytes, street: Bytes, houseNumber: Bytes,
    houseLetter: Bytes, entrance: Bytes, floor: Bytes, apartmentNumber: Bytes, addressDate: Bytes)

  datatype OtherPart = OtherPart(
    chipSerialNumber: Bytes, documentName: Bytes, stateOfBirthCode: Bytes, statusOfForeigner: Bytes,
    nationalityFull: Bytes, purposeOfStay: Bytes, eNote: Bytes, addressLabel: Bytes)

  /** `IdDocument`: the readers write its fields one by one through a pointer. */
  class IdDocument {
    var docRegNo: Bytes
    var documentType: Bytes
    var issuingDate: Bytes
    var expiryDate: Bytes
    var issuingAuthority: Bytes
    var documentSerialNumber: Bytes
    var chipSerialNumber: Bytes
    var documentName: Bytes
    var personalNumber: Bytes
    var surname: Bytes
    var givenName: Bytes
    var parentGivenName: Bytes
    var sex: Bytes
    var placeOfBirth: Bytes
    var communityOfBirth: Bytes
    var stateOfBirth: Bytes
    var stateOfBirthCode: Bytes
    var dateOfBirth: Bytes
    var statusOfForeigner: Bytes
    var nationalityFull: Bytes
    var purposeOfStay: Bytes
    var eNote: Bytes
    var state: Bytes
    var community: Bytes
    var place: Bytes
    var street: Bytes
    var houseNumber: Bytes
    var houseLetter: Bytes
    var entrance: Bytes
    var floor: Bytes
    var apartmentNumber: Bytes
    var addressDate: Bytes
    var addressLabel: Bytes

    function Document(): DocumentPart
      reads this
    {
      DocumentPart(docRegNo, documentType, documentSerialNumber, issuingDate, expiryDate, issuingAuthority)
    }

    function Personal(): PersonalPart
      reads this
    {
      PersonalPart(personalNumber, surname, givenName, parentGivenName, sex, placeOfBirth, communityOfBirth,
                   stateOfBirth, dateOfBirth)
    }

    function Residence(): ResidencePart
      reads this
    {
      ResidencePart(state, community, place, street, houseNumber, houseLetter, entrance, floor,
                    apartmentNumber, addressDate)
    }

    function Other(): OtherPart
      reads this
    {
      OtherPart(chipSerialNumber, documentName, stateOfBirthCode, statusOfForeigner, nationalityFull,
                purposeOfStay, eNote, addressLabel)
    }

    /** Every field is the empty string, as in a fresh `IdDocument{}`. */
    predicate Empty()
      reads this
    {
      && Document() == DocumentPart([], [], [], [], [], [])
      && Personal() == PersonalPart([], [], [], [], [], [], [], [], [])
      && Residence() == ResidencePart([], [], [], [], [], [], [], [], [], [])
      && Other() == OtherPart([], [], [], [], [], [], [], [])
    }

    /** `document.IdDocument{}`. */
    constructor ()
      ensures Empty()
    {
      docRegNo, documentType, issuingDate, expiryDate, issuingAuthority, documentSerialNumber := [], [], [], [], [], [];
      chipSerialNumber, documentName, personalNumber, surname, givenName, parentGivenName := [], [], [], [], [], [];
      sex, placeOfBirth, communityOfBirth, stateOfBirth, stateOfBirthCode, dateOfBirth := [], [], [], [], [], [];
      statusOfForeigner, nationalityFull, purposeOfStay, eNote, state, community := [], [], [], [], [], [];
      place, street, houseNumber, houseLetter, entrance, floor := [], [], [], [], [], [];
      apartmentNumber, addressDate, addressLabel := [], [], [];
    }

    /** `GetFullName`: given name, parent's given name and surname, the empty ones dropped. */
    function GetFullName(): Bytes
      reads this
    {
      JoinWithComma([givenName, parentGivenName, surname])
    }

    /** `GetFullAddress(reverse)`: place, community and street line, in one order or the other. */
    function GetFullAddress(reverse: bool): Bytes
      reads this
    {
      var line := StreetLine(street, houseNumber, houseLetter, entrance, floor, apartmentNumber);
      if reverse then JoinWithComma([place, community, line]) else JoinWithComma([line, community, place])
    }

    /** `GetFullPlaceOfBirth`: place, community and state of birth, the empty ones dropped. */
    function GetFullPlaceOfBirth(): Bytes
      reads this
    {
      JoinWithComma([placeOfBirth, communityOfBirth, stateOfBirth])
    }
  }

  const SPACE: Bytes := [0x20]
  const SLASH: Bytes := [0x2F]

  /**
   * The street line of `GetFullAddress`: when a house number, a house letter or an entrance is given,
   * a space, the number and the letter follow the street, then "/floor" and "/apartment" when given.
   * The entrance decides whether the suffix is written but is itself never written.
   */
  function StreetLine(street: Bytes, number: Bytes, letter: Bytes, entrance: Bytes, floor: Bytes, apartment: Bytes): Bytes
  {
    if number != [] || letter != [] || entrance != [] then
      street + SPACE + number + letter
      + (if floor != [] then SLASH + floor else [])
      + (if apartment != [] then SLASH + apartment else [])
    else street
  }

  /** The street line is the bare street exactly when number, letter and entrance are all empty; floor and apartment then do not show. */
  lemma StreetLineBare(street: Bytes, number: Bytes, letter: Bytes, entrance: Bytes, floor: Bytes, apartment: Bytes)
    ensures StreetLine(street, number, letter, entrance, floor, apartment) == street
            <==> number == [] && letter == [] && entrance == []
  {
    var line := StreetLine(street, number, letter, entrance, floor, apartment);
    if number != [] || letter != [] || entrance != [] {
      assert |line| > |street|;
    }
  }

  /** Which entrance is given makes no difference: only whether one is. */
  lemma EntranceNotPrinted(street: Bytes, number: Bytes, letter: Bytes, e1: Bytes, e2: Bytes, floor: Bytes, apartment: Bytes)
    requires e1 != [] && e2 != []
    ensures StreetLine(street, number, letter, e1, floor, apartment) == StreetLine(street, number, letter, e2, floor, apartment)
  {
  }

  /** With an entrance but no number or letter, the line is the street and a trailing space. */
  lemma EntranceOnly(street: Bytes, entrance: Bytes)
    requires entrance != []
    ensures StreetLine(street, [], [], entrance, [], []) == street + SPACE
  {
  }

  /** The shapes of the test addresses: "Његошева 9Б" (number and letter) and "Rue des Grands-Augustins 7/21" (number and apartment). */
  lemma StreetLineShapes(street: Bytes, number: Bytes, letter: Bytes, apartment: Bytes)
    requires number != [] && apartment != []
    ensures StreetLine(street, number, letter, [], [], []) == street + SPACE + number + letter
    ensures StreetLine(street, number, [], [], [], apartment) == street + SPACE + number + SLASH + apartment
  {
  }

  /** The full name is empty exactly when all three name parts are. */
  lemma FullNameEmpty(doc: IdDocument)
    ensures doc.GetFullName() == [] <==> doc.givenName == [] && doc.parentGivenName == [] && doc.surname == []
  {
    var parts := [doc.givenName, doc.parentGivenName, doc.surname];
    JoinEmpty(parts);
    assert parts[0] == doc.givenName && parts[1] == doc.parentGivenName && parts[2] == doc.surname;
  }

  /** An empty parent's name leaves no gap: "Pablo Diego, Ruiz Picasso". */
  lemma FullNameWithoutParent(doc: IdDocument)
    requires doc.givenName != [] && doc.parentGivenName == [] && doc.surname != []
    ensures doc.GetFullName() == doc.givenName + COMMA_SPACE + doc.surname
  {
    JoinSkipsEmpty([doc.givenName], [doc.surname]);
    assert [doc.givenName] + [[]] + [doc.surname] == [doc.givenName, doc.parentGivenName, doc.surname];
    assert [doc.givenName] + [doc.surname] == [doc.givenName, doc.surname];
    JoinTwo(doc.givenName, doc.surname);
  }

  /** With a place, the reversed address begins with it and the normal one ends with it. */
  lemma AddressOrder(doc: IdDocument)
    requires doc.place != []
    ensures |doc.GetFullAddress(true)| >= |doc.place| && doc.GetFullAddress(true)[..|doc.place|] == doc.place
    ensures var a := doc.GetFullAddress(false); |a| >= |doc.place| && a[|a| - |doc.place|..] == doc.place
  {
    var line := StreetLine(doc.street, doc.houseNumber, doc.houseLetter, doc.entrance, doc.floor, doc.apartmentNumber);
    JoinStarts([doc.place, doc.community, line]);
    JoinEnds([line, doc.community, doc.place]);
  }

  /** Street line and place with no community: "Његошева 9Б, Подгорица". */
  lemma AddressWithoutCommunity(doc: IdDocument)
    requires doc.community == [] && doc.street != [] && doc.place != []
    ensures doc.GetFullAddress(false)
            == StreetLine(doc.street, doc.houseNumber, doc.houseLetter, doc.entrance, doc.floor, doc.apartmentNumber)
               + COMMA_SPACE + doc.place
  {
    var line := StreetLine(doc.street, doc.houseNumber, doc.houseLetter, doc.entrance, doc.floor, doc.apartmentNumber);
    assert line != [];
    JoinSkipsEmpty([line], [doc.place]);
    assert [line] + [[]] + [doc.place] == [line, doc.community, doc.place];
    assert [line] + [doc.place] == [line, doc.place];
    JoinTwo(line, doc.place);
  }

  /** The place of birth is empty exactly when its three parts are. */
  lemma PlaceOfBirthEmpty(doc: IdDocument)
    ensures doc.GetFullPlaceOfBirth() == [] <==> doc.placeOfBirth == [] && doc.communityOfBirth == [] && doc.stateOfBirth == []
  {
    var parts := [doc.placeOfBirth, doc.communityOfBirth, doc.stateOfBirth];
    JoinEmpty(parts);
    assert parts[0] == doc.placeOfBirth && parts[1] == doc.communityOfBirth && parts[2] == doc.stateOfBirth;
  }

  /** A fresh document gives the empty string from every getter. */
  lemma EmptyGetters(doc: IdDocument)
    requires doc.Empty()
    ensures doc.GetFullName() == [] && doc.GetFullPlaceOfBirth() == []
    ensures doc.GetFullAddress(true) == [] && doc.GetFullAddress(false) == []
  {
    FullNameEmpty(doc);
    PlaceOfBirthEmpty(doc);
    assert doc.street == [] && doc.place == [] && doc.community == [];
    JoinEmpty([[], [], []]);
  }
}
