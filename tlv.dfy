/**
 * The proprietary TLV format of the identity and medical cards: a two-byte little-endian tag, a two-byte
 * little-endian length, then the value; elements follow each other to the end of the file. Two copies
 * of the parser exist: `tlv.ParseTLV` (card/tlv/tlv.go), which checks that a value fits, and the older
 * `parseTLV` of card/card.go, which rejects empty data with its own error and does not check the fit.
 */
module Tlv {
  import opened Bytes
  import opened Wrappers
  import opened Errors

  type Fields = map<nat, Bytes>

  /**
   * The parse from `offset` on, with the fields read so far in `m`. `checked` selects the copy: with
   * it, a value running past the end is `InvalidLength`; without it, the slice of that value panics.
   * Fewer than four bytes left for a tag and a length panic in both copies.
   */
  function ParseFrom(data: Bytes, offset: nat, m: Fields, checked: bool): (r: Result<Fields, ParseError>)
    requires offset < |data|
    decreases |data| - offset
  {
    if offset + 4 > |data| then Err(IndexOutOfRange)
    else
      var tag := Uint16LE(data[offset], data[offset + 1]);
      var length := Uint16LE(data[offset + 2], data[offset + 3]);
      var start := offset + 4;
      if start + length > |data| then
        if checked then Err(InvalidLength) else Err(IndexOutOfRange)
      else
        var m' := m[tag := data[start..start + length]];
        if start + length >= |data| then Ok(m') else ParseFrom(data, start + length, m', checked)
  }

  /** `tlv.ParseTLV(data)`. */
  function ParseTlvSpec(data: Bytes): Result<Fields, ParseError>
  {
    if |data| == 0 then Err(InvalidLength) else ParseFrom(data, 0, map[], true)
  }

  /** `parseTLV(data)` of card/card.go. */
  function CardParseTlvSpec(data: Bytes): Result<Fields, ParseError>
  {
    if |data| == 0 then Err(EmptyData) else ParseFrom(data, 0, map[], false)
  }

  /** `tlv.ParseTLV(data)`: the offset loop filling the map. */
  method ParseTlv(data: Bytes) returns (r: Result<Fields, ParseError>)
    ensures r == ParseTlvSpec(data)
  {
    if |data| == 0 {
      return Err(InvalidLength);
    }
    r := ParseLoop(data, true);
  }

  /** `parseTLV(data)` of card/card.go. */
  method CardParseTlv(data: Bytes) returns (r: Result<Fields, ParseError>)
    ensures r == CardParseTlvSpec(data)
  {
    if |data| == 0 {
      return Err(EmptyData);
    }
    r := ParseLoop(data, false);
  }

  /** The `for` loop the two copies share. */
  method ParseLoop(data: Bytes, checked: bool) returns (r: Result<Fields, ParseError>)
    requires |data| > 0
    ensures r == ParseFrom(data, 0, map[], checked)
  {
    var m: Fields := map[];
    var offset := 0;
    while true
      invariant offset < |data|
      invariant ParseFrom(data, offset, m, checked) == ParseFrom(data, 0, map[], checked)
      decreases |data| - offset
    {
      if offset + 4 > |data| {
        return Err(IndexOutOfRange);
      }
      var tag := Uint16LE(data[offset], data[offset + 1]);
      var length := Uint16LE(data[offset + 2], data[offset + 3]);
      offset := offset + 4;
      if offset + length > |data| {
        return if checked then Err(InvalidLength) else Err(IndexOutOfRange);
      }
      m := m[tag := data[offset..offset + length]];
      offset := offset + length;
      if offset >= |data| {
        return Ok(m);
      }
    }
  }

  /** One element as it is stored: tag and length little-endian, then the value. */
  datatype Element = Element(tag: nat, value: Bytes)

  predicate Encodable(e: Element)
  {
    e.tag < 0x10000 && |e.value| < 0x10000
  }

  function EncodeElement(e: Element): (b: Bytes)
    requires Encodable(e)
    ensures |b| == 4 + |e.value|
  {
    [e.tag % 0x100, e.tag / 0x100, |e.value| % 0x100, |e.value| / 0x100] + e.value
  }

  function Encode(es: seq<Element>): (b: Bytes)
    requires forall i :: 0 <= i < |es| ==> Encodable(es[i])
  {
    if es == [] then [] else EncodeElement(es[0]) + Encode(es[1..])
  }

  /** The fields a list of elements describes when a later element overrides an earlier one with the same tag. */
  function Collect(m: Fields, es: seq<Element>): Fields
    decreases |es|
  {
    if es == [] then m else Collect(m[es[0].tag := es[0].value], es[1..])
  }

  /**
   * Round trip: parsing the encoding of any non-empty element list gives each tag the value of its last
   * element, in both copies of the parser.
   */
  lemma ParseEncoded(es: seq<Element>, checked: bool)
    requires es != [] && forall i :: 0 <= i < |es| ==> Encodable(es[i])
    ensures ParseFrom(Encode(es), 0, map[], checked) == Ok(Collect(map[], es))
  {
    var data := Encode(es);
    assert data[0..] == data;
    EncodedAtSuffix(data, 0, es);
    ParseEncodedFrom(data, 0, es, map[], checked);
  }

  /** The elements `es`, encoded one after the other, fill `data` from `offset` to its end. */
  predicate EncodedAt(data: Bytes, offset: nat, es: seq<Element>)
    decreases |es|
  {
    if es == [] then offset == |data|
    else
      && Encodable(es[0]) && offset + 4 + |es[0].value| <= |data|
      && data[offset..][..4 + |es[0].value|] == EncodeElement(es[0])
      && EncodedAt(data, offset + 4 + |es[0].value|, es[1..])
  }

  /** A buffer whose tail from `offset` is the encoding of `es` holds the elements one after the other. */
  lemma {:induction false} EncodedAtSuffix(data: Bytes, offset: nat, es: seq<Element>)
    requires forall i :: 0 <= i < |es| ==> Encodable(es[i])
    requires offset <= |data| && data[offset..] == Encode(es)
    ensures EncodedAt(data, offset, es)
    decreases |es|
  {
    if es != [] {
      EncodedSplit(data, offset, es);
      EncodedAtSuffix(data, offset + 4 + |es[0].value|, es[1..]);
    }
  }

  /**
   * The same from any offset of a buffer whose tail is the encoding: the fields already read in `m` are
   * kept unless an element overrides them.
   */
  lemma {:induction false} ParseEncodedFrom(data: Bytes, offset: nat, es: seq<Element>, m: Fields, checked: bool)
    requires es != [] && EncodedAt(data, offset, es)
    ensures offset < |data|
    ensures ParseFrom(data, offset, m, checked) == Ok(Collect(m, es))
    decreases |es|
  {
    var e := es[0];
    var next := offset + 4 + |e.value|;
    var m' := m[e.tag := e.value];
    ParseElementAt(data, offset, e, m, checked);
    assert Collect(m, es) == Collect(m', es[1..]);
    if es[1..] != [] {
      ParseEncodedFrom(data, next, es[1..], m', checked);
    }
  }

  /** At an offset holding an encoded element, the parse stores it and goes on after it. */
  lemma ParseElementAt(data: Bytes, offset: nat, e: Element, m: Fields, checked: bool)
    requires Encodable(e) && offset + 4 + |e.value| <= |data|
    requires data[offset..][..4 + |e.value|] == EncodeElement(e)
    ensures var next := offset + 4 + |e.value|;
            ParseFrom(data, offset, m, checked)
            == if next == |data| then Ok(m[e.tag := e.value]) else ParseFrom(data, next, m[e.tag := e.value], checked)
  {
    ElementReads(data, offset, e);
    ParseStep(data, offset, m, checked, e);
  }

  /** The encoding at `offset` is the first element's encoding, then the rest's, which fills the buffer to its end. */
  lemma EncodedSplit(data: Bytes, offset: nat, es: seq<Element>)
    requires es != [] && forall i :: 0 <= i < |es| ==> Encodable(es[i])
    requires offset <= |data| && data[offset..] == Encode(es)
    ensures var next := offset + 4 + |es[0].value|;
            && next <= |data|
            && data[offset..][..4 + |es[0].value|] == EncodeElement(es[0])
            && (next == |data| <==> es[1..] == [])
            && data[next..] == Encode(es[1..])
  {
    EncodedHead(data, offset, es);
    EncodedEmpty(es[1..]);
  }

  lemma EncodedHead(data: Bytes, offset: nat, es: seq<Element>)
    requires es != [] && forall i :: 0 <= i < |es| ==> Encodable(es[i])
    requires offset <= |data| && data[offset..] == Encode(es)
    ensures var next := offset + 4 + |es[0].value|;
            && next <= |data|
            && data[offset..][..4 + |es[0].value|] == EncodeElement(es[0])
            && data[next..] == Encode(es[1..])
  {
    var e := es[0];
    assert Encode(es) == EncodeElement(e) + Encode(es[1..]);
    assert data[offset + 4 + |e.value|..] == data[offset..][4 + |e.value|..];
  }

  /** Only the empty list has the empty encoding. */
  lemma EncodedEmpty(es: seq<Element>)
    requires forall i :: 0 <= i < |es| ==> Encodable(es[i])
    ensures Encode(es) == [] <==> es == []
  {
    if es != [] {
      assert |Encode(es)| >= |EncodeElement(es[0])| == 4 + |es[0].value|;
    }
  }

  /** No two elements share a tag. */
  predicate DistinctTags(es: seq<Element>)
  {
    forall i, j :: 0 <= i < j < |es| ==> es[i].tag != es[j].tag
  }

  /** Each tag is larger than the one before it. */
  predicate Ascending(es: seq<Element>)
  {
    forall i :: 0 < i < |es| ==> es[i - 1].tag < es[i].tag
  }

  /** Ascending tags are distinct. */
  lemma AscendingDistinct(es: seq<Element>)
    requires Ascending(es)
    ensures DistinctTags(es)
  {
    forall i, j | 0 <= i < j < |es|
      ensures es[i].tag != es[j].tag
    {
      AscendingBelow(es, i, j);
    }
  }

  lemma {:induction false} AscendingBelow(es: seq<Element>, i: nat, j: nat)
    requires Ascending(es) && i < j < |es|
    ensures es[i].tag < es[j].tag
    decreases j - i
  {
    if i + 1 < j {
      AscendingBelow(es, i + 1, j);
    }
  }

  /** With distinct tags every element lands in the map under its own tag, and other keys keep their old values. */
  lemma {:induction false} CollectDistinct(m: Fields, es: seq<Element>)
    requires DistinctTags(es)
    ensures forall i :: 0 <= i < |es| ==> es[i].tag in Collect(m, es) && Collect(m, es)[es[i].tag] == es[i].value
    ensures forall t :: t in Collect(m, es) && (forall i :: 0 <= i < |es| ==> es[i].tag != t) ==> t in m && Collect(m, es)[t] == m[t]
    ensures forall t :: t !in Collect(m, es) ==> t !in m && forall i :: 0 <= i < |es| ==> es[i].tag != t
    decreases |es|
  {
    if es != [] {
      var rest := es[1..];
      assert forall i :: 1 <= i < |es| ==> es[i] == rest[i - 1];
      CollectDistinct(m[es[0].tag := es[0].value], rest);
    }
  }

  /** `tlv.ParseTLV` of an encoded element list gives the fields the list describes. */
  lemma ParseTlvEncoded(es: seq<Element>)
    requires es != [] && forall i :: 0 <= i < |es| ==> Encodable(es[i])
    ensures ParseTlvSpec(Encode(es)) == Ok(Collect(map[], es))
  {
    ParseEncoded(es, true);
    assert |EncodeElement(es[0])| > 0;
  }

  /** With distinct tags, `AssignField` on the parsed fields gives back each element's value. */
  lemma Stored(es: seq<Element>, i: nat)
    requires DistinctTags(es) && i < |es|
    ensures AssignField(Collect(map[], es), es[i].tag) == es[i].value
  {
    CollectDistinct(map[], es);
  }

  /** Reading one encoded element back at `offset`: its tag, its length and its value. */
  lemma ElementReads(data: Bytes, offset: nat, e: Element)
    requires Encodable(e) && offset + 4 + |e.value| <= |data|
    requires data[offset..][..4 + |e.value|] == EncodeElement(e)
    ensures && Uint16LE(data[offset], data[offset + 1]) == e.tag
            && Uint16LE(data[offset + 2], data[offset + 3]) == |e.value|
            && data[offset + 4..offset + 4 + |e.value|] == e.value
  {
    var p := data[offset..][..4 + |e.value|];
    assert data[offset] == p[0] && data[offset + 1] == p[1];
    assert data[offset + 2] == p[2] && data[offset + 3] == p[3];
    assert data[offset + 4..offset + 4 + |e.value|] == p[4..];
  }

  /** One turn of the parse loop over an element that reads back as `e`. */
  lemma ParseStep(data: Bytes, offset: nat, m: Fields, checked: bool, e: Element)
    requires offset + 4 + |e.value| <= |data|
    requires Uint16LE(data[offset], data[offset + 1]) == e.tag
    requires Uint16LE(data[offset + 2], data[offset + 3]) == |e.value|
    requires data[offset + 4..offset + 4 + |e.value|] == e.value
    ensures var next := offset + 4 + |e.value|;
            ParseFrom(data, offset, m, checked)
            == if next == |data| then Ok(m[e.tag := e.value]) else ParseFrom(data, next, m[e.tag := e.value], checked)
  {
  }

  /** The test sample: tags 1 and 9 with values "Hello" and "World". */
  lemma ParseSample()
    ensures ParseTlvSpec([0x01, 0x00, 0x05, 0x00, 0x48, 0x65, 0x6C, 0x6C, 0x6F,
                          0x09, 0x00, 0x05, 0x00, 0x57, 0x6F, 0x72, 0x6C, 0x64])
            == Ok(map[1 := [0x48, 0x65, 0x6C, 0x6C, 0x6F], 9 := [0x57, 0x6F, 0x72, 0x6C, 0x64]])
  {
    var data: Bytes := [0x01, 0x00, 0x05, 0x00, 0x48, 0x65, 0x6C, 0x6C, 0x6F,
                        0x09, 0x00, 0x05, 0x00, 0x57, 0x6F, 0x72, 0x6C, 0x64];
    var hello: Bytes := [0x48, 0x65, 0x6C, 0x6C, 0x6F];
    var world: Bytes := [0x57, 0x6F, 0x72, 0x6C, 0x64];
    var es := [Element(1, hello), Element(9, world)];
    assert EncodeElement(es[0]) == data[..9];
    assert EncodeElement(es[1]) == data[9..];
    assert Encode(es[1..]) == EncodeElement(es[1]) + Encode([]);
    assert Encode(es) == data[..9] + data[9..] == data;
    ParseTlvEncoded(es);
    assert Collect(map[], es) == Collect(map[1 := hello], es[1..]) == map[1 := hello][9 := world];
  }

  /** A value announced longer than what follows is `InvalidLength` in the checked copy. */
  lemma OverrunRejected(data: Bytes)
    requires |data| >= 4 && 4 + Uint16LE(data[2], data[3]) > |data|
    ensures ParseTlvSpec(data) == Err(InvalidLength)
  {
  }

  /** The checked error, seen from the unchecked copy: the panic that copy raises instead. */
  function Unchecked(r: Result<Fields, ParseError>): Result<Fields, ParseError>
  {
    if r == Err(InvalidLength) then Err(IndexOutOfRange) else r
  }

  /**
   * The two copies agree on every non-empty input: where `tlv.ParseTLV` succeeds the older copy returns
   * the same map, and where `tlv.ParseTLV` reports an overrun the older copy panics.
   */
  lemma {:induction false} CopiesAgree(data: Bytes, offset: nat, m: Fields)
    requires offset < |data|
    ensures ParseFrom(data, offset, m, false) == Unchecked(ParseFrom(data, offset, m, true))
    decreases |data| - offset
  {
    if offset + 4 <= |data| {
      var length := Uint16LE(data[offset + 2], data[offset + 3]);
      var start := offset + 4;
      if start + length <= |data| && start + length < |data| {
        var tag := Uint16LE(data[offset], data[offset + 1]);
        CopiesAgree(data, start + length, m[tag := data[start..start + length]]);
      }
    }
  }

  lemma ParsersAgree(data: Bytes)
    requires data != []
    ensures CardParseTlvSpec(data) == Unchecked(ParseTlvSpec(data))
  {
    CopiesAgree(data, 0, map[]);
  }

  /** `AssignField`: the value of the tag as a string, or "" when the tag is absent. */
  function AssignField(fields: Fields, tag: nat): (s: Bytes)
    ensures tag in fields ==> s == fields[tag]
    ensures tag !in fields ==> s == []
  {
    if tag in fields then fields[tag] else []
  }

  /** `AssignBoolField`: true exactly when the tag holds the one byte 0x31 ('1'). */
  function AssignBoolField(fields: Fields, tag: nat): (b: bool)
    ensures b <==> tag in fields && fields[tag] == [0x31]
  {
    tag in fields && |fields[tag]| == 1 && fields[tag][0] == 0x31
  }
}
