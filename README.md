# bas-celik card core in Dafny

This project models the smart-card core of bas-celik, a reader for Serbian
identity cards, vehicle registration cards and medical insurance cards. It
covers the bytes that pass between the program and the card, and how the
replies turn into document fields. It proves properties of that model.

Modules, one per source concern:

- `Wrappers`, `Bytes`, `Errors`: Option/Result, byte sequences, little- and
  big-endian integers, the UTF-8 view of strings and the error kinds.
- `Apdu`: building ISO/IEC 7816-4 command APDUs (`card/apdu.go`, and the
  copy in `card/card.go`), with an independent decoder as its partner.
- `Transport`: the card link as a class. It keeps a script of replies and a
  log of the commands sent, and its value twin `Wire` specifies every
  exchange.
- `CardFile`: selecting a file and reading it through its header and chunked
  READ BINARY loop. The Gemalto, medical and Apollo readers share this.
- `Atr`: the `Atr` byte-string type, its `Is` comparison and its hex
  `String` form. The ATR constants live in the family modules.
- `Pin`: PIN validation and padding into the eight-byte block. The VERIFY
  and CHANGE REFERENCE DATA commands are in `Gemalto`.
- `Tlv`: the cards' proprietary tag, length, value format, and the field
  assignment from a parsed map.
- `BerCodec`, `Ber`, `BerTree`: BER-TLV tag and length headers, one layer of
  parsing, the recursive parser and the tree it builds (access, add, merge,
  assign). Both copies of the code are covered. A `legacy` flag selects the
  older `card/ber.go` behaviour, and lemmas show where the two copies agree.
- `Localization`: Cyrillic/Latin transliteration, date formatting and
  joining with commas.
- `DocumentId`, `IdCard`: the identity document getters and the ID card
  readers (Gemalto family).
- `DocumentMedical`, `Medical`: the medical document getters and the medical
  card reader, including the descrambling of its text fields.
- `Gemalto`, `Apollo`, `Vehicle`: the per-family readers.
- `Dispatch`: the ATR dispatch of `ReadCard` in `card/card.go`, as written
  (`reflect.DeepEqual` across Go types) and as intended (by bytes).

Parts of the code that change state in place are classes with `modifies`
frames, proved against value-level specification functions. These are the
card link, the readers and the documents they fill. Parsing and formatting
are functions with lemmas.

## Model

| member | source | states |
|---|---|---|
| Apdu.BuildApdu | card/apdu.go:7-72 | every command starts with CLA INS P1 P2; without data and with Ne 0 it is the bare header; with data it carries at least Lc and the data after the header |
| Apdu.DecodeCommand | card/apdu.go:5-7 | an independent ISO/IEC 7816-4 reader of a command: when it decodes, the first four bytes are the header it reports |
| Apdu.BuildApduDecodes | card/card.go:174-239 | outside the two departures, decoding the built command gives back exactly the header, the data and Ne (the copy in card/card.go has the same case analysis, so one model serves both) |
| Apdu.ApduBodyDecodes | card/apdu.go:20-69 | the part after the header decodes to the data and Ne it was built from |
| Apdu.ShortCase3Decodes | card/apdu.go:41-44 | data of at most 255 bytes and no Le: Lc then data |
| Apdu.ShortCase4Decodes | card/apdu.go:51-58 | short data and Ne up to 256: Lc, data, then Le with 256 written as 00 |
| Apdu.ExtendedBodyDecodes | card/apdu.go:45-49 | long data: 00 and a two-byte Lc, then the data, decoded back whatever extended Le follows |
| Apdu.TwoByteLeReadsAsData | card/apdu_test.go:33-38 | no data and Ne 0x1FF gives the body 01 FF, which the standard reads as one data byte and no Le |
| Apdu.TwoByteLeDeparture | card/apdu.go:28-38 | for every Ne above 256 and up to 65536 without data, the body is the bare two-byte Le (00 00 for 65536); the standard reads it as one data byte and no Le for Ne below 512 and rejects it otherwise |
| Apdu.ExtendedMaxLeDropped | card/apdu.go:63-66 | with long data and Ne 65536 no Le is written, so the command reads back with Ne 0 |
| Transport.Exchange | card/card.go:19-22 | one `Transmit`: the command is logged; an exhausted script is a transport error; otherwise the next answer is consumed |
| Transport.Card.Transmit | card/card.go:21 | the card object's state moves exactly as `Exchange` says |
| Transport.Card.constructor | card/card.go:19-22 | a card with a status and a script of answers, nothing sent yet |
| Transport.ResponseOKIff | card/card.go:241-249 | `responseOK` holds exactly when the answer is some payload followed by 90 00 |
| Transport.UintAdd | card/gemalto.go:171 | `offset += uint(len(data))` agrees with ordinary addition below 2^64 |
| Transport.ReadBinaryDecodes | card/card.go:123-125 | the command `read` sends decodes as READ BINARY with the offset's high and low bytes in P1 P2 and Ne = min(length, 0xFF) |
| Transport.ReadSpecMeaning | card/card.go:123-136 | `read` sends one READ BINARY, fails on a missing answer or one shorter than two bytes, and otherwise returns the answer without its last two bytes, unchecked |
| Transport.Read | card/card.go:123-136 | the method on the card ends in the state and result `ReadSpec` gives |
| Transport.ReadLoopSends | card/gemalto.go:163-173 | the read loop only appends commands: what was sent before it stays in place |
| Transport.LoopFirstRead | card/gemalto.go:163-164 | while bytes remain, the loop's next command is READ BINARY at the current offset for at most the cap |
| Transport.ReadLoopAsks | card/vehicle.go:125-126 | every command the loop sends is a READ BINARY asking for no more than the cap |
| Transport.PayloadsAppend | card/gemalto.go:169 | the concatenated payloads of two runs of answers are the payloads of each, in order |
| Transport.ReadLoopPayloads | card/gemalto.go:163-173 | a successful loop returns exactly the payloads of the answers it consumed, in order, each a response carrying a status word |
| Transport.ReadLoopLength | card/gemalto.go:171-172 | a successful loop adds `length` bytes plus a multiple of 2^64, because `length -=` wraps on Go's `uint` |
| Transport.ReadLoopExactLength | card/gemalto.go:163-173 | a result shorter than 2^64 bytes has exactly the announced length |
| Transport.ReadChunks | card/medical.go:135-145 | the loop over the card ends in the state and result `ReadLoop` gives |
| Transport.EmptyAnswerStalls | card/gemalto.go:163-173 | an answer that is a bare status word leaves the offset, the remaining length and the bytes read unchanged, so the same READ BINARY is sent again |
| Transport.EmptyAnswersRunOut | card/gemalto.go:163-173 | a card that answers only with bare status words never lets the loop finish; with finitely many answers it ends in a transport error |
| CardFile.ToUint | card/gemalto.go:157 | `uint(len(data))` is the length itself below 2^64 |
| CardFile.HeaderLength | card/gemalto.go:157-161 | the intended header check: the length is read exactly when the header holds bytes 2 and 3, little-endian, and a short header is `file too short` |
| CardFile.GuardGap | card/gemalto.go:158-161 | the guard as written and the intended one differ exactly on headers from the guard up to one byte short of the length field, where `Uint16` panics |
| CardFile.ThreeByteHeaderPanics | card/medical.go:129-133 | a 3-byte header passes `offset < 3` and reaches the panic; the intended check rejects it |
| CardFile.FiveByteHeaderPanics | card/apollo.go:32-35 | a 5-byte header passes `len(data) < 5` and reaches the panic; the intended check rejects it |
| CardFile.ReadFile | card/gemalto.go:144-176 | the method ends in the state and result of the file read function, which applies the corrected header check (see Findings) |
| CardFile.LoopResult | card/medical.go:135-145 | a loop started with no bytes returns the payloads it consumed, as many as announced below 2^64 |
| CardFile.ReadFileMeaning | card/medical.go:116-148 | a successful file read had its SELECT and header answered, the header holds four bytes, and the file is the payloads that follow, as long as bytes 2 and 3 announce |
| CardFile.ReadFileSends | card/gemalto.go:147-152 | a file read sends its SELECT first and only appends to the log |
| CardFile.ReadFileFailures | card/gemalto.go:147-161 | no answer to the SELECT is a transport error; under the corrected header check, a header answer with fewer than four payload bytes is `file too short` (as written, three payload bytes panic instead; see Findings) |
| Gemalto.RejectedRun | card/gemalto.go:49-83 | the count of leading rejected answers never exceeds the number of probes or of answers |
| Gemalto.RejectedRunMeaning | card/gemalto.go:57-81 | every answer in the run is a rejection and the one after it, if any, is not |
| Gemalto.ProbeOutcome | card/gemalto.go:49-84 | the probes initialise the card exactly when the first non-rejection is 90 00, fail with a transport error exactly when it is missing or failed, and give `unknown card type` exactly when all are rejected |
| Gemalto.ProbeVerdict | card/gemalto.go:49-84 | the probing ends as the answer after the run of rejections decides: 90 00 initialises, a missing or failed answer is a transport error, all rejected is an unknown card type |
| Gemalto.ProbeSends | card/gemalto.go:49-84 | exactly the probes up to the deciding one are sent, in order |
| Gemalto.ProbeConsumes | card/gemalto.go:49-84 | each probe sent consumes one answer |
| Gemalto.GemaltoCard.constructor | card/gemalto.go:40-47 | a card with its ATR and link and four empty files |
| Gemalto.GemaltoCard.InitCard | card/gemalto.go:49-84 | the three SELECTs run as the probe function says |
| Gemalto.GemaltoCard.ReadFile | card/gemalto.go:144-176 | the select, header and loop run as the shared file read says, with the corrected header check |
| Gemalto.GemaltoCard.ReadCard | card/gemalto.go:86-112 | the four reads update the link and the stored files as the read function says, stopping at the first failure |
| Gemalto.GemaltoCard.Test | card/gemalto.go:188-196 | the probes, then the document file read |
| Gemalto.GemaltoCard.InitCrypto | card/gemalto.go:199-213 | the PKCS#15 SELECT must be answered with 90 00 |
| Gemalto.GemaltoCard.ChangePin | card/gemalto.go:215-256 | the PIN change runs as its function says |
| Gemalto.InitCardMeaning | card/gemalto.go:49-84 | the outcome of `InitCard` and the commands it sends, in terms of the card's first three answers |
| Gemalto.FirstProbeAccepted | card/gemalto.go:50-59 | a card that accepts the identity application is initialised by that one SELECT |
| Gemalto.ChangePinSucceeds | card/gemalto.go:215-256 | the change succeeds exactly when both PINs are valid and the SELECT, VERIFY and CHANGE REFERENCE DATA are answered 90 00; those three are then all that was sent |
| Gemalto.PinsCheckedBeforeVerify | card/gemalto.go:221-229 | an invalid PIN, the old one checked first, is refused after the SELECT and before any VERIFY |
| Gemalto.ChangePinNeedsCrypto | card/gemalto.go:216-219 | without the PKCS#15 application nothing is sent after its SELECT |
| Gemalto.RejectedVerifyStops | card/gemalto.go:231-239 | a refused VERIFY ends the change before CHANGE REFERENCE DATA is sent |
| Gemalto.PinCommandsDecode | card/gemalto.go:231-245 | VERIFY carries the old PIN's 8-byte block; CHANGE REFERENCE DATA carries 16 bytes, the old block then the new |
| Gemalto.ReadCardOrder | card/gemalto.go:86-112 | a successful `ReadCard` sent the document, personal, residence and photo SELECTs in that order, the first right after what was sent before |
| Gemalto.FourSelectsInOrder | card/gemalto.go:89-104 | four file reads one after another leave their SELECTs in the log at increasing positions |
| Gemalto.ReadCardStoresAsRead | card/gemalto.go:89-109 | the document file is stored as its read returned it, empty on failure; the photo changes only when all four reads succeed |
| Gemalto.TestMeaning | card/gemalto.go:188-196 | `Test` holds only on a card that accepted one of the probes |
| Apollo.Extent | card/apollo.go:35-41 | without `trim` the content starts at 6 and is as long as announced; with `trim` it starts at 10 and is 4 shorter, wrapping on Go's `uint` below 4 |
| Apollo.ApolloCard.constructor | card/apollo.go:19 | an Apollo card holds only its link |
| Apollo.ApolloCard.ReadFile | card/apollo.go:19-56 | the method ends in the state and result of the corrected file read |
| Apollo.ReadFileMeaning | card/apollo.go:19-56 | a successful read had its SELECT and a header of at least six bytes answered; the file is the payloads that follow, as long as bytes 4 and 5 announce, 4 fewer with `trim` |
| Apollo.FirstChunk | card/apollo.go:36-44 | after the header the first READ BINARY asks at offset 6, or 10 with `trim`, for the whole remaining length |
| Apollo.AfterHeader | card/apollo.go:22-43 | past an answered SELECT and a six-byte header, the read is the loop from the extent the header gives |
| Apollo.HeaderGuards | card/apollo.go:32-35 | the read as written and the corrected one differ only on a 5-byte header, where the former panics and the latter reports an invalid header |
| Apollo.TrimOfShortLengthWraps | card/apollo.go:38-41 | with `trim`, an announced length below 4 wraps to nearly 2^64 |
| Atr.IsIsEquality | card/atr.go:14-16 | `Is` holds exactly when the two ATRs are equal byte strings, so it is reflexive and symmetric |
| Atr.HexDigit | card/atr.go:10-12 | a value below 16 prints as one lower-case hex digit |
| Atr.String | card/atr.go:10-12 | the hex form has two characters per byte |
| Atr.HexValue | card/atr.go:10-12 | a hex digit reads back as a value below 16 |
| Atr.DecodeString | card/atr.go:10-12 | reading the hex form back gives the ATR again: printing loses nothing |
| Atr.StringIff | card/atr.go:10-16 | two ATRs print the same exactly when `Is` holds between them |
| Pin.ValidatePin | card/pin.go:7-20 | the loop returns true exactly when the PIN has 4 to 8 bytes and every rune is a digit |
| Pin.ValidPinShape | card/pin.go:7-20 | a valid PIN is four to eight ASCII digits, one byte each |
| Pin.ValidatePinCases | card/pin_test.go:10-45 | "123", "123456789", "123a" and "" are refused; "1234" is accepted |
| Pin.Place | card/pin.go:26-30 | the block stays eight bytes long |
| Pin.PadPinSpec | card/pin.go:23-33 | the PIN block is always eight bytes |
| Pin.PadPin | card/pin.go:23-33 | the in-place fill of a fresh 8-byte buffer gives the PIN block |
| Pin.PadPinAscii | card/pin.go:23-33 | for an ASCII PIN the block is its first eight characters, then zeros |
| Pin.PlaceAscii | card/pin.go:26-30 | each ASCII character lands at its own index; bytes no character reaches keep their value |
| Pin.PadPinTruncates | card/pin.go:27 | runes starting at byte 8 or later do not change the block |
| Pin.PlaceTruncates | card/pin.go:26-30 | what follows the first eight bytes of runes is ignored |
| Pin.PlacePast | card/pin.go:27 | runes at byte index 8 or later change nothing |
| Tlv.ParseTlv | card/tlv/tlv.go:11-39 | the offset loop returns what the parse function gives, an empty input being an invalid length |
| Tlv.CardParseTlv | card/card.go:147-170 | the older copy's loop, without the overrun check, returns what its parse function gives |
| Tlv.ParseLoop | card/tlv/tlv.go:19-36 | the shared `for` loop, over a non-empty input, returns the parse from offset 0 with an empty map |
| Tlv.EncodeElement | card/tlv/tlv.go:20-29 | an element takes four header bytes plus its value |
| Tlv.ParseEncoded | card/tlv/tlv.go:11-39 | parsing the encoding of any non-empty element list gives each tag the value of its last element, in both copies |
| Tlv.ParseEncodedFrom | card/tlv/tlv.go:19-36 | the same from any offset, with the fields already read kept unless overwritten |
| Tlv.CollectDistinct | card/tlv/tlv.go:30 | with distinct tags each element lands under its own tag and other keys keep their values |
| Tlv.ParseTlvEncoded | card/tlv/tlv.go:11-39 | `ParseTLV` of an encoded list gives the fields the list describes |
| Tlv.Stored | card/tlv/tlv.go:43-50 | with distinct tags, `AssignField` on the parsed fields gives back each element's value |
| Tlv.ElementReads | card/tlv/tlv.go:20-29 | an encoded element reads back as its tag, its length and its value |
| Tlv.ParseStep | card/tlv/tlv.go:20-35 | one loop turn over an encoded element stores it and moves past it |
| Tlv.ParseSample | card/card_test.go:29-57 | the test sample maps tag 1 to "Hello" and tag 9 to "World" |
| Tlv.OverrunRejected | card/tlv/tlv.go:25-27 | a value announced longer than what follows is an invalid length |
| Tlv.CopiesAgree | card/card.go:155-167 | from any offset, the older copy returns what `ParseTLV` returns, and may panic where `ParseTLV` reports an overrun |
| Tlv.ParsersAgree | card/card.go:147-170 | the two copies agree on every non-empty input, up to that possible panic |
| Tlv.AssignField | card/tlv/tlv.go:43-50 | the value of a present tag, or the empty string for an absent one (the copy in card/card.go is the same) |
| Tlv.AssignBoolField | card/tlv/tlv.go:54-61 | true exactly when the tag holds the one byte 0x31 |
| Bytes.UintSub | card/gemalto.go:172 | `length -=` on Go's `uint`: the difference when it is not negative, and 2^64 less the shortfall otherwise |
| Bytes.Uint16LE | card/gemalto.go:161 | `binary.LittleEndian.Uint16`: a value below 2^16 whose low byte is the first and high byte the second |
| Bytes.BigEndianRoundTrip | card/ber/ber.go:240-246 | a value that fits in n bytes is recovered from its n-byte big-endian form |
| Bytes.EncodeRune | document/medical.go:95-96 | a code point takes one to four UTF-8 bytes, one exactly when it is ASCII |
| Bytes.Utf8Append | document/medical.go:95-96 | the UTF-8 form of a concatenation is the concatenation of the forms |
| Bytes.Utf8LengthBounds | card/pin.go:8 | a string has at least as many bytes as runes and at most four per rune |
| BerCodec.ParseTag | card/ber/ber.go:257-282 | a tag takes one to three bytes of the input; its size and primitive bit follow from its value; missing bytes are an invalid length |
| BerCodec.TwoByteTag | card/ber/ber.go:271-273 | a lead byte with low bits 11111 and a second byte with bit 8 clear read as a two-byte tag |
| BerCodec.ThreeByteTag | card/ber/ber.go:274-276 | a lead byte with low bits 11111 and a second byte with bit 8 set read as a three-byte tag |
| BerCodec.EncodeTag | card/ber/ber.go:257-282 | a well-formed tag is written in as many bytes as its size |
| BerCodec.TagRoundTrip | card/ber/ber.go:257-282 | a well-formed tag reads back from its bytes, whatever follows them |
| BerCodec.ParsedTagEncodes | card/ber/ber.go:257-282 | whatever `ParseTag` accepts is well formed and is exactly the bytes it consumed |
| BerCodec.TagValueDeterminesForm | card/ber/ber.go:262-265 | two well-formed tags with the same value have the same form and size, so a tag value is never both primitive and constructed |
| BerCodec.ParseTagCases | card/ber/ber_test.go:91-158 | the empty input, one-byte primitive and constructed tags, the two-byte tag, the truncated and the complete three-byte tag give the results the source tests expect |
| BerCodec.LegacyParseTag | card/ber.go:160-180 | the unguarded tag read of the older copy can only fail with an index panic |
| BerCodec.LegacyTagAgrees | card/ber.go:160-180 | the older tag read returns the same tag wherever `ParseTag` succeeds, and panics wherever `ParseTag` reports a missing byte |
| BerCodec.ParseLength | card/ber/ber.go:224-253 | a length takes one to five bytes and stays below 2^32; a short form is the byte itself; a long form 0x81 to 0x84 is the big-endian value of the bytes it announces; 0x80 alone is an invalid format |
| BerCodec.EncodeLength | card/ber/ber.go:224-253 | the shortest encoding takes one byte plus the length bytes it announces |
| BerCodec.LengthRoundTrip | card/ber/ber.go:224-253 | every length below 2^32 reads back from its shortest encoding, whatever follows it |
| BerCodec.ParseLengthCases | card/ber/ber_test.go:10-89 | short, long, 0x80 and truncated lengths give the results the source tests expect |
| BerCodec.BigEndianDigits | card/ber/ber.go:240-246 | the big-endian values of the length bytes in the source tests |
| BerCodec.LegacyParseLength | card/ber.go:240-263 | the unguarded length read of the older copy fails only with an index panic or an invalid length |
| BerCodec.LegacyLengthAgrees | card/ber.go:240-263 | the older length read returns the same length wherever `ParseLength` succeeds, accepts nothing `ParseLength` refuses, and gives an invalid length where `ParseLength` gives an invalid format |
| Ber.Get | card/ber/ber.go:153-155 | a layer map holds a value for a tag exactly when some field has that tag |
| Ber.Put | card/ber/ber.go:174-178 | storing into a map adds only the new field and keeps its keys distinct |
| Ber.PutGet | card/ber/ber.go:174-178 | after storing, the stored tag reads back its value and every other tag what it held before |
| Ber.GetIndex | card/ber/ber.go:174-178 | in a map with distinct keys, each field's tag reads back that field's value |
| Ber.StoreOK | card/ber/ber.go:174-178 | a value stored under its own form keeps primitive keys primitive, constructed keys constructed, and all values shorter than the data |
| Ber.TagAt | card/ber/ber.go:159-164 | the tag read of either copy takes bytes that are present, and its primitive bit follows from its value |
| Ber.LengthAt | card/ber.go:182-185 | the length read of either copy takes bytes that are present |
| Ber.HeaderAt | card/ber/ber.go:159-172 | one data object's value starts after its tag and length and ends inside the data |
| Ber.LayerFrom | card/ber/ber.go:158-187 | the loop from any offset keeps every layer well formed |
| Ber.LayerSpec | card/ber/ber.go:153-190 | a parsed layer holds primitive tags in one map and constructed ones in the other, each key once, each value shorter than the data |
| Ber.ParseLayer | card/ber/ber.go:153-190 | the `for` loop over the offset returns what the layer function gives |
| Ber.HeaderAgrees | card/ber.go:160-188 | the two copies read the same header wherever either reads one |
| Ber.TagAtAgrees | card/ber.go:160-180 | the two copies' tag reads succeed together and then agree |
| Ber.LengthAtAgrees | card/ber.go:182-185 | the two copies' length reads succeed together and then agree |
| Ber.LayerAgrees | card/ber.go:153-206 | the two copies' layer loops succeed together, with the same maps |
| Ber.TagAtEncoding | card/ber/ber.go:159 | both copies read a well-formed tag back from its bytes |
| Ber.LengthAtEncoding | card/ber/ber.go:166 | both copies read a length below 2^32 back from its shortest encoding |
| Ber.ParseBerSpec | card/ber/ber.go:23-71 | a parsed tree is a constructed root with tag 0 and no data |
| Ber.SubParses | card/ber/ber.go:51-55 | each constructed value is parsed on its own, in order |
| Ber.AddConstructed | card/ber/ber.go:51-67 | adding the parsed constructed values leaves the root's tag, form and data as they were |
| Ber.ParseBer | card/ber/ber.go:23-71 | the method returns what the parse function gives |
| Ber.AppendAll | card/ber/ber.go:112-114 | adding nodes with new and distinct tags appends them in order |
| Ber.NestedAll | card/ber/ber.go:56-61 | each nested node keeps its field's tag and is constructed |
| Ber.NestedAllMeaning | card/ber/ber.go:51-61 | the nested nodes are all built exactly when every constructed value parses, and each holds its parse's children |
| Ber.AddConstructedAppends | card/ber/ber.go:51-67 | adding constructed values under tags the root lacks appends one nested node per value, or stops at the first failing parse |
| Ber.AppendNew | card/ber/ber.go:112-114 | a node whose tag is new is appended |
| Ber.ParseBerShape | card/ber/ber.go:23-71 | a layer error is the parse error; otherwise the tree is the leaves followed by the nested constructed values |
| Ber.LeavesAdded | card/ber/ber.go:37-49 | adding the leaves into the empty root never fails and leaves no constructed key present |
| Ber.AssembledReadsLeaf | card/ber/ber.go:37-49 | each primitive field of the layer reads back from the tree under its tag |
| Ber.AssembledReadsNested | card/ber/ber.go:51-67 | a path under a constructed tag reads what it reads in that value's own parse |
| Ber.AssembledUnique | card/ber/ber.go:23-71 | assembled from unique sub-trees, the tree has no two siblings with one tag |
| Ber.ParseBerReadsLeaf | card/ber/ber.go:23-71 | in a parsed tree every primitive field of the top layer reads back under its tag |
| Ber.ParseBerReadsNested | card/ber/ber.go:23-71 | in a parsed tree every path under a constructed tag reads what it reads in that value's own parse |
| Ber.AddConstructedAgrees | card/ber.go:51-67 | adding agreeing parses gives agreeing trees |
| Ber.ParseBerAgrees | card/ber.go:23-71 | the two copies of `ParseBER` succeed on the same inputs and build the same tree |
| Ber.ParseBerUnique | card/ber/ber.go:23-71 | no node of a parsed tree has two children with one tag |
| BerTree.FindChild | card/ber/ber.go:104-110 | the search stops at the first child with the tag, and finds none exactly when no child has it |
| BerTree.Add | card/ber/ber.go:96-133 | adding into a leaf fails; a successful add keeps the target's tag and data, makes it constructed and drops no child; the only other failure is a type mismatch |
| BerTree.AddAll | card/ber/ber.go:120-125 | a run of adds keeps the target's tag, form and data and drops no child |
| BerTree.Merge | card/ber/ber.go:137-149 | different root tags fail; otherwise failures are those of `add`, and the result keeps the root's tag and form |
| BerTree.Access | card/ber/ber.go:74-91 | the only failure is `tag not found` |
| BerTree.AccessStep | card/ber/ber.go:79-86 | a path under a tag reads what the rest reads in the first child with that tag |
| BerTree.AccessIsLookup | card/ber/ber.go:74-91 | `access` reads the data of the node the path leads to and fails exactly where there is none |
| BerTree.AssignFrom | card/ber/ber.go:192-197 | the data at the path, or the target unchanged when the path is missing |
| BerTree.AddLeafReadsBack | card/ber/ber.go:112-119 | after adding a leaf its tag reads back its data |
| BerTree.AddFrame | card/ber/ber.go:96-133 | an add leaves every child with another tag where it was |
| BerTree.AddAllFrame | card/ber/ber.go:120-125 | a run of adds leaves every child whose tag none of them has where it was |
| BerTree.AddReadsBack | card/ber/ber.go:96-133 | after adding a tree with unique sibling tags, each of its leaves is found under the added tag |
| BerTree.AddFound | card/ber/ber.go:104-126 | after an add the first child with the node's tag is the node or what merging it there gave |
| BerTree.LookupStep | card/ber/ber.go:79-86 | a path under a tag leads where the rest leads from the first child with that tag |
| BerTree.AddAllReadsBack | card/ber/ber.go:120-125 | after a run of adds with distinct tags, each added tree's leaves are found under its tag |
| BerTree.MergeReadsBack | card/ber/ber.go:137-149 | after a merge every leaf of the merged-in tree reads back at its path |
| BerTree.AddKeepsUnique | card/ber/ber.go:96-133 | `add` keeps sibling tags distinct |
| BerTree.AddAllKeepsUnique | card/ber/ber.go:120-125 | a run of adds keeps sibling tags distinct |
| Localization.CodePoints | localization/scripts.go:3-11 | both tables hold 30 capitals and 30 small letters, with 30 Latin spellings each; the capitals lie in U+0400..U+042F and the small letters in U+0430..U+045F |
| Localization.CapitalsDistinct | localization/scripts.go:4 | no capital appears twice |
| Localization.SmallDistinct | localization/scripts.go:5 | no small letter appears twice |
| Localization.CyrillicDistinct | localization/scripts.go:3-11 | the 60 letters of the table are distinct, and there are as many Latin spellings |
| Localization.IndexFrom | localization/scripts.go:28-35 | the search returns the first index from the start with the rune, or -1 exactly when there is none |
| Localization.Find | localization/scripts.go:28-35 | `indexOfCyrillic` gives the first index of the rune in the table, or -1 exactly when it is not a table letter |
| Localization.IndexOfCyrillic | localization/scripts.go:28-35 | the loop over the table returns what `Find` gives |
| Localization.CyrillicToLatin | localization/scripts.go:13-26 | the loop over the runes builds the transliteration, letter by letter |
| Localization.ToLatinAppend | localization/scripts.go:16-23 | transliteration distributes over concatenation |
| Localization.LetterLength | localization/scripts.go:9-10 | each rune becomes one or two runes |
| Localization.ToLatinBounds | localization/scripts.go:9-23 | the output has at least as many runes as the input and at most twice as many |
| Localization.ToLatinIdentity | localization/scripts.go:20-21 | a string without table letters is copied unchanged |
| Localization.CapitalAt | localization/scripts.go:4-9 | the i-th capital is found at i and spelled as the i-th Latin capital |
| Localization.SmallAt | localization/scripts.go:5-10 | the i-th small letter is found at 30 + i and spelled as the i-th Latin small letter |
| Localization.TableLetters | localization/scripts.go:17-19 | every table letter is found at its own index and replaced by the Latin spelling at that index |
| Localization.CapitalSpelled | localization/scripts.go:4-9 | a capital is spelled as the Latin capital at its index |
| Localization.SmallSpelled | localization/scripts.go:5-10 | a small letter is spelled as the Latin small letter at its index |
| Localization.DigraphLj | localization/scripts_test.go:14-15 | Љ and љ become "Lj" and "lj", in capital text too |
| Localization.DigraphNj | localization/scripts_test.go:14-15 | Њ and њ become "Nj" and "nj" |
| Localization.DigraphDz | localization/scripts_test.go:14-15 | Џ and џ become "Dž" and "dž" |
| Localization.BelowCyrillic | localization/scripts.go:20-21 | a rune below U+0400 is not in the table and is copied as it is |
| Localization.ToLatinSingle | localization/scripts.go:16-23 | one rune transliterates to its own spelling |
| Localization.ToLatinCases | localization/scripts_test.go:16-17 | the digits and the empty string are unchanged |
| Localization.FormatYesNoMeaning | localization/format.go:3-17 | the wording depends only on the answer and on whether the script is Latin, and the two answers always read differently |
| Localization.FormatYesNoCases | localization/format_test.go:48-60 | Latin gives "Da" and "Ne"; Cyrillic and the out-of-range scripts 10 and 155 give "Да" and "Не" |
| Localization.FormatDateRoundTrip | localization/format_test.go:9-27 | an input that is not eight bytes is kept; a known eight-byte date is shown with dots after day, month and year, and its digits read back |
| Localization.FormatDateCases | localization/format_test.go:9-27 | "23051987", "01010000", "123" and "" give the results the source tests expect |
| Localization.NonEmpty | document/id.go:63 | the kept parts are all non-empty and no more than were given |
| Localization.JoinLength | document/id_test.go:35-60 | joined non-empty parts take their total length plus two bytes per separator |
| Localization.NonEmptyLength | document/id.go:63 | dropping the empty parts keeps the total length |
| Localization.JoinEmpty | document/id_test.go:35-60 | the join is empty exactly when every part is |
| Localization.AllEmpty | document/id.go:63 | the total length is zero exactly when every part is empty |
| Localization.NonEmptySkips | document/id.go:63 | an empty part anywhere is skipped |
| Localization.JoinSkipsEmpty | document/id_test.go:35-60 | an empty part leaves no gap and no extra separator in the join |
| Localization.NonEmptyAppend | document/id.go:63 | keeping the non-empty parts distributes over concatenation |
| Localization.NonEmptyNone | document/id.go:63 | only empty parts leave nothing |
| Localization.JoinSingle | document/id_test.go:35-60 | one non-empty part among empty ones is the join itself |
| Localization.JoinTwo | document/id_test.go:35-60 | two non-empty parts join as the first, ", " and the second |
| Localization.JoinStarts | document/id.go:82 | the join starts with the first part when it is non-empty |
| Localization.JoinEndsLast | document/id.go:84 | joined parts end with the last part |
| Localization.NonEmptyLast | document/id.go:84 | a non-empty last part is the last part kept |
| Localization.JoinEnds | document/id.go:84 | the join ends with the last part when it is non-empty |
| Localization.JoinThree | document/id_test.go:35-60 | three non-empty parts are joined with a separator between each two |
| DocumentId.IdDocument.constructor | document/id.go:25-60 | a new document has every field empty |
| DocumentId.StreetLineBare | document/id.go:67-79 | the street line is the bare street exactly when there is no number, letter or entrance; floor and apartment alone do not show |
| DocumentId.EntranceNotPrinted | document/id.go:69-70 | the entrance decides whether the suffix is written, but which entrance is given does not change the line |
| DocumentId.EntranceOnly | document/id.go:69-70 | an entrance without a number or letter leaves the street followed by a lone space |
| DocumentId.StreetLineShapes | document/id_test.go:62-87 | number and letter follow the street after a space; an apartment follows after a slash |
| DocumentId.FullNameEmpty | document/id.go:62-64 | the full name is empty exactly when given name, parent's name and surname all are |
| DocumentId.FullNameWithoutParent | document/id_test.go:35-60 | without a parent's name, the full name is given name, ", ", surname |
| DocumentId.AddressOrder | document/id.go:81-85 | with a place, the reversed address starts with it and the normal one ends with it |
| DocumentId.AddressWithoutCommunity | document/id_test.go:62-87 | without a community the address is the street line, ", ", the place |
| DocumentId.PlaceOfBirthEmpty | document/id.go:88-90 | the place of birth is empty exactly when its three parts are |
| DocumentId.EmptyGetters | document/id.go:62-90 | a fresh document gives the empty string from every getter |
| IdCard.ParseIdDocumentFile | card/idCard.go:25-40 | a TLV error is returned with the document untouched; otherwise the six document fields are the parsed values or empty, the two dates formatted |
| IdCard.ParseIdPersonalFile | card/idCard.go:42-60 | a TLV error is returned with the document untouched; otherwise the nine personal fields are the parsed values or empty, the birth date formatted |
| IdCard.ParseIdResidenceFile | card/idCard.go:62-80 | a TLV error is returned with the document untouched; otherwise the ten residence fields are the parsed values or empty, the address date formatted |
| IdCard.AssignDocumentFields | card/idCard.go:30-37 | the assignments leave the document part as the fields give it |
| IdCard.AssignPersonalFields | card/idCard.go:48-57 | the assignments leave the personal part as the fields give it |
| IdCard.AssignResidenceFields | card/idCard.go:67-77 | the assignments leave the residence part as the fields give it |
| IdCard.FieldsFrame | card/idCard.go:30-76 | each file's fields depend only on its own tags: 1546-1551, 1558-1566, and 1568-1575, 1578 and 1580 |
| IdCard.AbsentFieldsEmpty | card/tlv/tlv.go:43-50 | tags that are absent leave every field empty |
| IdCard.DocumentFileRoundTrip | card/idCard.go:25-40 | a document file encoded from its fields parses back to them, with the dates formatted |
| IdCard.PersonalFileRoundTrip | card/idCard.go:42-60 | a personal file encoded from its fields parses back to them, with the birth date formatted |
| IdCard.ResidenceFileRoundTrip | card/idCard.go:62-80 | a residence file encoded from its fields parses back to them, with the address date formatted |
| DocumentMedical.MedicalDocument.constructor | document/medical.go:14-74 | a new document has every field empty |
| DocumentMedical.MedicalDocument.GetFullStreetAddress | document/medical.go:80-95 | the builder writes the street, then ", Број: " and the number and " Стан: " and the apartment when each is given |
| DocumentMedical.MedicalDocument.UpdateValidUntilDateFromRfzo | document/medical.go:266-295 | `ValidUntil` becomes the date the service's answer gives, and nothing changes when the numbers are refused, the service fails or the answer holds no date |
| DocumentMedical.StreetAddressShape | document/medical.go:80-95 | the street always leads, each label appears with its value only when the value is given, and the address is the bare street exactly when number and apartment are empty |
| DocumentMedical.StreetAddressCases | document/medical_test.go:62-87 | street, number and apartment; a bare street; and the empty document give the shapes the source tests expect |
| DocumentMedical.FullNameEmpty | document/medical.go:76-78 | the full name is empty exactly when the three Latin name parts are |
| DocumentMedical.FullNameIsLatin | document/medical_test.go:35-60 | only the Latin names are joined; an empty parent's name leaves no gap |
| DocumentMedical.PlaceAddressWithoutMunicipality | document/medical_test.go:89-114 | with no municipality, place and country are joined by one ", " |
| DocumentMedical.EmptyGetters | document/medical.go:76-99 | a fresh document gives the empty string from every getter |
| DocumentMedical.RuneCountAppend | document/medical.go:267 | runes of a concatenation are the runes of each part |
| DocumentMedical.RuneCountUtf8 | document/medical.go:267-271 | `len([]rune(s))` of a UTF-8 string counts its characters |
| DocumentMedical.RfzoGuards | document/medical.go:267-273 | a card number that is not 11 characters gives `ErrInvalidCardNo`, then an insurance number that is not gives `ErrInvalidInsuranceNo`, both before the service is asked |
| DocumentMedical.DigitRun | document/medical.go:298 | the run of digits ends inside the text |
| DocumentMedical.GroupEnd | document/medical.go:298 | a matched digit group with its dot takes at least two bytes |
| DocumentMedical.DateEnd | document/medical.go:298 | a matched date takes at least six bytes |
| DocumentMedical.FirstMatch | document/medical.go:303 | the search returns a position where the pattern matches |
| DocumentMedical.FirstMatchLeftmost | document/medical.go:303 | the search finds nothing exactly when the pattern matches nowhere, and otherwise no match lies before the one found |
| DocumentMedical.FindDateNone | document/medical.go:303-306 | nothing is captured exactly when the pattern occurs nowhere |
| DocumentMedical.FindDateLeftmost | document/medical.go:303-308 | what is captured is the date of the leftmost match |
| DocumentMedical.ParseValidUntilNoMatch | document/medical.go:297-309 | `ErrNoSubmatchFound` exactly when the pattern occurs nowhere in the answer |
| DocumentMedical.ParseValidUntilLeftmost | document/medical.go:297-309 | otherwise the date returned is the one captured at the leftmost occurrence |
| DocumentMedical.FindDateRoundTrip | document/medical.go:298-308 | a text opening with the prefix, a date of three digit groups and the suffix gives that date back |
| DocumentMedical.ParseValidUntilRoundTrip | document/medical.go:297-309 | an answer opening with "оверена до: <strong>", a date and "</strong>" gives that date back |
| Medical.Gender | card/medical.go:264-268 | "Мушко" exactly when tag 1603 holds "01", "Женско" otherwise |
| Medical.MaleLabelMixesScripts | card/medical.go:265 | the male label as written starts with a Latin M, and differs from the Cyrillic word |
| Medical.GenderLabels | card/medical.go:264-268 | the intended labels are the Cyrillic words "Мушко" and "Женско" |
| Medical.TaxpayerId | card/medical.go:304-307 | tag 1632 when it is not empty, else tag 1633 |
| Medical.DescrambleMeaning | card/medical.go:103-114 | `descramble` sets the tag to its decoded text, empty when absent or undecodable, and `AssignField` then reads that text |
| Medical.DocumentFileRunMeaning | card/medical.go:210-218 | the descramble and assignment run of the document file gives the document part |
| Medical.FixedPersonalRunMeaning | card/medical.go:228-238 | the run of the fixed personal file gives the fixed personal part |
| Medical.HolderRunMeaning | card/medical.go:260-279 | the holder run gives the holder part, with the corrected male label (see Findings), and leaves tags from 1614 on untouched |
| Medical.InsuranceRunMeaning | card/medical.go:280-297 | the insurance run gives the insurance part and leaves tags from 1626 on untouched |
| Medical.TaxpayerRunMeaning | card/medical.go:298-308 | the taxpayer run gives the taxpayer part |
| Medical.LaterRunsReadLaterTags | card/medical.go:280-308 | the insurance and taxpayer parts read only tags from 1614 and 1626 on |
| Medical.AdminRunMeaning | card/medical.go:260-308 | the three runs over one map, each descrambling in place, give the three parts of the original map, the holder part with the corrected male label |
| Medical.ParseMedicalDocumentFile | card/medical.go:204-221 | a TLV error is returned with the document untouched; otherwise the document part is filled from the fields |
| Medical.ParseMedicalFixedPersonalFile | card/medical.go:223-241 | likewise for the fixed personal part |
| Medical.ParseMedicalVariablePersonalFile | card/medical.go:243-253 | likewise for the validity date and the permanent-validity flag |
| Medical.ParseMedicalVariableAdminFile | card/medical.go:255-311 | on error the document is untouched; otherwise it gets the holder part (with the corrected male label), the insurance part and the taxpayer part |
| Medical.ReadAdminRuns | card/medical.go:260-308 | the runs over the administrative file give the three parts, the holder part with the corrected male label |
| Medical.MedicalCard.constructor | card/medical.go:16-23 | a card with its ATR and link and four empty files |
| Medical.MedicalCard.ReadCard | card/medical.go:50-74 | as written: the four reads move the link, but the files are dropped with the value receiver |
| Medical.MedicalCard.ReadCardStoring | card/medical.go:50-74 | as intended: the four files read are kept when all reads succeed |
| Medical.MedicalCard.ReadFiles | card/medical.go:53-71 | the four reads in order, the first failure returned; each read applies the corrected header check |
| Medical.MedicalCard.GetDocument | card/medical.go:76-100 | a new document filled from the four files, or the first parse error; the gender field carries the corrected male label |
| Medical.MedicalCard.InitCard | card/medical.go:188-202 | the SELECT of the medical application runs as its function says |
| Medical.MedicalCard.TestMedicalCard | card/medical.go:162-182 | the probe runs as its function says; its file read applies the corrected header check |
| Medical.InitCardMeaning | card/medical.go:188-202 | the SELECT is always sent; the card is initialised exactly when it answers 90 00, and a missing answer is a transport error |
| Medical.NamesInsurerMeaning | card/medical.go:170-181 | the probe accepts exactly a document file that parses and whose descrambled tag 1553 is RFZO's name |
| Medical.TestIgnoresSelectStatus | card/medical.go:163-170 | an answered SELECT, whatever its status word, goes on to the document file read |
| Medical.TestWithoutAnswer | card/medical.go:165-168 | with no answer the probe fails after the one SELECT |
| Medical.UnreadFilesDoNotParse | card/medical.go:76-82 | the files of a card as constructed do not parse: the first gives an invalid length |
| Medical.DocumentFileRoundTrip | card/medical.go:204-221 | a document file encoded from its values parses back to them, the name decoded and the dates formatted |
| Medical.VariablePersonalRoundTrip | card/medical.go:243-253 | the variable personal file parses back to its date, formatted, and its flag |
| Vehicle.ContentExtent | card/vehicle.go:115-122 | the content starts at header byte 1 and is as long as the BER length found 3 bytes after that offset; a header too short for either read is an index panic, an unreadable length an invalid length |
| Vehicle.ContentExtentRoundTrip | card/vehicle.go:115-122 | a header with `offset` in byte 1 and the encoding of `n` from byte `offset + 3` gives back that offset and length |
| Vehicle.ContentExtentCases | card/vehicle_test.go:10-65 | the header vectors of the test, read by this reader: the empty and short headers and a length past the header panic, the full header gives offset 14 and length 39, and 0x80 is an invalid length |
| Vehicle.ReadFileMeaning | card/vehicle.go:100-138 | a successful read had its SELECT and header answered, the header locates a length, and the file is the payloads that follow, as long as announced below 2^64 |
| Vehicle.ReadFileSends | card/vehicle.go:103-106 | a file read sends its SELECT first and only appends to the log |
| Vehicle.ReadFileChunks | card/vehicle.go:124-135 | after the header every command is a READ BINARY for at most 0x64 bytes, the first at the header's offset |
| Vehicle.InitCardSpec | card/vehicle.go:140-192 | `initCard` either succeeds or reports the card not responsive, and only appends to the log |
| Vehicle.TryOutcome | card/vehicle.go:141-165 | a triple succeeds exactly when its first SELECT is answered 90 00 and the next two are answered at all |
| Vehicle.TryAccepted | card/vehicle.go:148-161 | a successful triple sent its three SELECTs and consumed three answers |
| Vehicle.TryRefused | card/vehicle.go:142-147 | a triple whose first SELECT fails sent only that SELECT |
| Vehicle.TrySends | card/vehicle.go:142-143 | a triple starts with its first SELECT and only appends to the log |
| Vehicle.InitCardSucceeds | card/vehicle.go:167-189 | success comes right after some triple's three SELECTs, the last commands sent |
| Vehicle.InitCardTriesAll | card/vehicle.go:167-191 | before reporting the card not responsive, every triple's first SELECT was sent, in order |
| Vehicle.SilentCard | card/vehicle.go:167-191 | a card that never answers gets the first SELECT of each triple and is reported not responsive |
| Vehicle.FileStep | card/vehicle.go:46-59 | one turn leaves the link as the file read left it |
| Vehicle.FileStepReadsBack | card/vehicle.go:51-59 | after a merge each leaf of the file reads back at the same path in the tree |
| Vehicle.FileStepKeepsRoot | card/vehicle.go:43-59 | merging a parsed file keeps a constructed tag-0 root, and never fails for different root tags, since every parsed file has a tag-0 root |
| Vehicle.ReadFilesKeepsRoot | card/vehicle.go:45-60 | a successful run of reads keeps a constructed tag-0 root |
| Vehicle.ReadFilesSends | card/vehicle.go:45-60 | a successful run of reads sent the SELECT of every file, in order |
| Vehicle.AssignFrame | card/vehicle.go:62-95 | assigning a field touches no other field |
| Vehicle.AssignFromTwice | card/ber.go:208-213 | assigning from the same path twice is assigning once |
| Vehicle.FillValue | card/vehicle.go:62-95 | after the assignments, an assigned field reads what its path holds, or what it held when the path is missing; other fields are untouched |
| Vehicle.PathsAreAssigned | card/vehicle.go:62-95 | every field with a path is assigned |
| Vehicle.DocumentFields | card/vehicle.go:62-95 | every field with a path holds the merged tree's data at that path, or "" when it lacks it; the fields without a path stay "" |
| Vehicle.ReadVehicleCardSends | card/vehicle.go:34-60 | a successful read sent the application SELECT first, then the SELECTs of D0 11, D0 21 and D0 31 in order |
| Vehicle.LiteralAddNests | card/vehicle.go:56 | a literal `add` of a parsed tag-0 tree into an empty root nests it as a child, after which no path under 0x71 or 0x72 is found |
| Vehicle.VehicleCard.constructor | card/vehicle.go:10-12 | the card holds only its link |
| Vehicle.VehicleCard.ReadFile | card/vehicle.go:100-138 | the method ends in the state and result of the file read function |
| Vehicle.VehicleCard.TryToSelect | card/vehicle.go:141-165 | the three SELECTs run as the triple function says |
| Vehicle.VehicleCard.InitCard | card/vehicle.go:140-192 | the triples run in order as `InitCardSpec` says |
| Vehicle.VehicleCard.ReadVehicleCard | card/vehicle.go:34-98 | the method ends in the state and result of the read function |
| Vehicle.FillFields | card/vehicle.go:62-95 | the loop of assignments gives the document `Fill` describes |
| Dispatch.ClassifyAsWrittenMeaning | card/card.go:41-67 | as written, an ATR chooses a family only when it is the Apollo ATR or one of the two vehicle ATRs, and then the same family as the intended chain; any other ATR, the Gemalto and medical ones included, is refused with nothing sent |
| Dispatch.GemaltoAtrRefused | card/card.go:41-47 | a card reporting the first Gemalto ATR is refused by the chain as written and accepted by the intended one |
| Dispatch.ClassifyKnown | card/card.go:41-67 | an ATR chooses a family exactly when it is one of the seven recognised ATRs (the intended byte comparison; see Findings) |
| Dispatch.RefusedBeforeSending | card/card.go:36-67 | a failed status and an unknown ATR end `ReadCard` with their errors before anything is sent (the intended byte comparison; see Findings) |
| Dispatch.FixedFamilies | card/card.go:55-64 | the third Gemalto, Apollo, medical and two vehicle ATRs choose their family without sending anything (the intended byte comparison; see Findings) |
| Dispatch.SharedAtr | card/card.go:41-47 | the vehicle ATR never compared is the first Gemalto ATR, read as a vehicle card exactly when the Gemalto test fails (the intended byte comparison; see Findings) |
| Dispatch.InitOnlyGemaltoAndVehicle | card/card.go:71-76 | Apollo and medical cards get no initialisation; Gemalto and vehicle cards first get the SELECT of their application |
| Dispatch.OutcomeAtrs | card/card.go:41-91 | which ATRs each outcome comes from; a vehicle card is never handed over (the intended byte comparison; see Findings) |
| Dispatch.InitErrorAborts | card/card.go:78-80 | an initialisation error ends `ReadCard` with that error and no file is read |
| Dispatch.Choose | card/card.go:41-67 | the comparison chain with its trial reads ends as `Classify` says (the intended byte comparison; see Findings) |
| Dispatch.Init | card/card.go:71-76 | the type switch initialises as `InitSpec` says |
| Dispatch.ReadCard | card/card.go:33-98 | `ReadCard` ends in the state and outcome `ReadCardSpec` gives (the intended byte comparison; see Findings) |

## Left out

- Error messages: Go wraps errors with `fmt.Errorf` text; the model keeps only the error kind.
- PC/SC I/O: the card link is a scripted oracle (`Transport.Card`), so timing, reader enumeration and card removal are not modelled.
- The UTF-16 decoder used when descrambling medical fields, and `trim4b`, are parameters of the model rather than definitions.
- Photo decoding and image handling, and the PDF, JSON and Excel builders, are outside the core.
- MedicalDocument fields are grouped into part records (document file, fixed personal, variable personal, holder, insurance, taxpayer), not kept as one flat record; the field values are the same.
- `readIdCard` and `readMedicalCard` are not part of this model: `Dispatch.ReadCard` ends in `Handover(family)` for those families.
- `testGemalto` and `initCard`, called from `card/card.go`, are not part of this model; the Gemalto reader's own `Test` and `InitCard` stand in for them.
- `MEDICAL_ATR` is not defined in the modelled files; the dispatch uses `MEDICAL_ATR_1`, an `Atr` value, so the chain as written never matches it.
- ClassifyKnown: compares ATRs by bytes, the intended comparison; as written, `reflect.DeepEqual` of the reported `[]byte` with the `Atr`-typed Gemalto and medical ATRs is false, so only the Apollo and vehicle ATRs are recognised (`Dispatch.ClassifyAsWrittenMeaning`).
- RefusedBeforeSending: its set of unknown ATRs is that of the byte comparison; as written, the Gemalto and medical ATRs are refused before anything is sent as well.
- FixedFamilies: the third Gemalto ATR and the medical ATR choose their family only under the byte comparison; as written they are refused.
- SharedAtr: under the byte comparison; as written, the first Gemalto ATR is never matched and no Gemalto test runs (`Dispatch.GemaltoAtrRefused`).
- OutcomeAtrs: the Gemalto and medical outcomes come from branches the chain as written never takes.
- Choose: runs the intended byte comparison, not `reflect.DeepEqual`.
- ReadCard (Dispatch): its outcome follows the intended byte comparison; as written, a card with a Gemalto or medical ATR ends in `unknown card type`.
- Apollo's `selectFile` expects `buildAPDU` to return an error as well, but the `buildAPDU` in the modelled files returns only the command; the model uses that builder, so this error path does not exist in the model.
- `card/vehicle_test.go` targets a later `parseVehicleCardFileSize`; `Vehicle.ContentExtentCases` states the code as written, which differs on those inputs.
- `emptyTree`, `parseBER` and `assignToFrom`, called from `card/vehicle.go`, are not part of this model; they are modelled as the empty root, the legacy parser and `AssignFrom`, with the per-file trees accumulated by `Merge`. A literal `add` of a whole tree would nest its root (`Vehicle.LiteralAddNests`).
- The seven VehicleDocument fields that `card/vehicle.go` never writes stay empty in the model too; nothing more is said about them.
- Go map iteration order is unspecified. The model fixes first-occurrence order, with primitive values added before constructed ones.
- The `String`/levels pretty-printing of BER trees is not modelled.
- Go panics on unguarded indexing become explicit error results: `IndexOutOfRange`, and `HeaderOutOfRange` in the header checks as written (`CardFile.HeaderLengthAsWritten`, `Apollo.ReadFileAsWritten`). The readers themselves apply the corrected checks of the Findings, as the lines below say.
- ReadFileSpec (CardFile): applies the corrected header check `HeaderLength`, so a header answer with three payload bytes gives `file too short` where card/gemalto.go:157-161 and card/medical.go:129-133 panic; `CardFile.ThreeByteHeaderPanics` states the code as written.
- ReadFile (CardFile.ReadFile and Gemalto.GemaltoCard.ReadFile): built on that file read, so it carries the same corrected header check.
- ReadFileFailures: states the corrected header check; as written, a three-byte header payload panics instead of giving `file too short`.
- ReadFiles (Medical.MedicalCard): each of its four reads carries the corrected header check; so do `Medical.MedicalCard.ReadCard`, `ReadCardStoring` and every Gemalto member built on the same file read (`GemaltoCard.ReadCard`, `GemaltoCard.Test`).
- TestMedicalCard: its document file read carries the corrected header check.
- HolderRunMeaning: the holder part it states carries the corrected male label "Мушко" (`Medical.Gender`); card/medical.go:265 stores a label whose first byte is a Latin `M` (`Medical.MaleLabelMixesScripts`).
- AdminRunMeaning: through the holder run it gives the corrected male label, not the Latin-`M` label of card/medical.go:265.
- ParseMedicalVariableAdminFile: the holder part it writes carries the corrected male label, not the Latin-`M` label of card/medical.go:265.
- ReadAdminRuns: the runs give the corrected male label, not the Latin-`M` label of card/medical.go:265.
- GetDocument (Medical.MedicalCard): the document it builds carries the corrected male label, not the Latin-`M` label of card/medical.go:265.
- ReadLoop and ReadChunks (Transport): Go's `for length > 0` loop never ends while the card answers with bare status words; the model's card holds finitely many answers, so that loop ends in a transport error when they run out (`Transport.EmptyAnswerStalls`, `Transport.EmptyAnswersRunOut`).
- CyrillicToLatin: strings are sequences of code points, so Go's decoding of invalid UTF-8 (each bad byte becomes U+FFFD in `range`) is not modelled.
- RuneCount (DocumentMedical): stated only for valid UTF-8; Go's `len([]rune(s))` counting one rune per invalid byte is not modelled.
- A BER value running past the end of its input is modelled as `InvalidLength` in both copies; Go may panic on the slice before that check.
- `unicode.IsDigit` is modelled as the ASCII digits `0`-`9` only.
- `FormatDateYMD` is not modelled.
- FormatDate and JoinWithComma (Localization): no definition of them is among the modelled files; their definitions are inferred from localization/format_test.go and the document tests that use them.
- `card/ber_test.go` targets a later `parseBerLength` that returns `ErrInvalidLength` and `ErrInvalidFormat`; the card/ber.go copy (`BerCodec.LegacyParseLength`) panics or returns `ERROR_INVALID_LENGTH` on those inputs, so its vectors are stated only for the card/ber/ber.go parser (`BerCodec.ParseLengthCases`).
- The ID card reader's field names differ from the IdDocument getters; the model maps them by meaning.
- The RFZO insurance-status HTTP POST is the `rfzo` parameter of the medical reader.
- Go `uint` arithmetic (the Apollo `trim` subtraction) is modelled modulo 2^64.
- BER `add`: a tree partly changed before an error is returned is not modelled; every caller drops the tree on error.

## Findings

| source | as written | input that shows it | evidently intended | confidence | as-written member | corrected member |
|---|---|---|---|---|---|---|
| card/gemalto.go:157-161 | `offset < 3` guards `Uint16(data[2:])`, which needs 4 bytes | a 3-byte file header (also card/medical.go:129-133) | reject headers shorter than 4 bytes as too short | not executed | CardFile.ThreeByteHeaderPanics | CardFile.HeaderLength |
| card/apollo.go:32-35 | `len(data) < 5` guards `Uint16(data[4:])`, which needs 6 bytes | a 5-byte file header | reject headers shorter than 6 bytes as invalid | not executed | CardFile.FiveByteHeaderPanics | Apollo.ApolloCard.ReadFile |
| card/medical.go:265 | the male label starts with a Latin `M` | tag 1603 holding "01" | the Cyrillic word "Мушко" | not executed | Medical.MaleLabelMixesScripts | Medical.Gender |
| card/card.go:41-63 | `reflect.DeepEqual` compares the reported `[]byte` ATR with the `Atr`-typed Gemalto and medical ATRs, which is always false | a card reporting the first Gemalto ATR | compare the bytes, as `Atr.Is` does | not executed | Dispatch.GemaltoAtrRefused | Dispatch.ClassifyKnown |
| card/medical.go:50 | `ReadCard` has a value receiver, so the files it reads are dropped | any card whose four reads succeed | keep the files for `GetDocument`; the corrected half stores all four only when every read succeeds | not executed | Medical.UnreadFilesDoNotParse | Medical.MedicalCard.ReadCardStoring |
