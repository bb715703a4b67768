/**
 * The tag and length fields of BER-TLV as ISO/IEC 7816-4 lays them out (section 5.2 of ISO/IEC 7816-4:2005):
 * `ParseTag` and `ParseLength` of card/ber/ber.go, and the unguarded copies that card/ber.go inlines
 * into its layer loop (the tag bytes) or keeps as `parseBerLength`.
 */
module BerCodec {
  import opened Bytes
  import opened Wrappers
  import opened Errors

  /** A parsed tag: its complete value, whether it is primitive, and how many bytes it took. */
  datatype Tag = Tag(value: nat, primitive: bool, size: nat)

  /** The number of bytes a tag value is written in: its lead byte sets the form, so the value alone decides. */
  function TagSize(v: nat): nat
  {
    if v < 0x100 then 1 else if v < 0x10000 then 2 else 3
  }

  /** The first byte of a tag, the one that holds the class, the constructed bit and the tag number. */
  function LeadByte(v: nat): nat
  {
    if v < 0x100 then v else if v < 0x10000 then v / 0x100 else v / 0x10000
  }

  /** Bit 6 (0x20) of the lead byte clear: the data object is primitive. */
  predicate PrimitiveTag(v: nat)
  {
    (LeadByte(v) / 0x20) % 2 == 0
  }

  /**
   * `ParseTag(data)`: one byte unless its low five bits are all set; then two bytes when the second byte
   * has bit 8 clear, else three. Missing bytes are `ErrInvalidLength`. The form is read off the value:
   * a tag value has one size and one primitive bit wherever it occurs.
   */
  function ParseTag(data: Bytes): (r: Result<Tag, ParseError>)
    ensures r.Ok? ==> 1 <= r.value.size <= |data|
    ensures r.Ok? ==> r.value.size == TagSize(r.value.value) && r.value.primitive == PrimitiveTag(r.value.value)
    ensures r.Err? ==> r.error == InvalidLength
  {
    if |data| == 0 then Err(InvalidLength)
    else
      var primitive := (data[0] / 0x20) % 2 == 0;
      if data[0] % 0x20 != 0x1F then Ok(Tag(data[0], primitive, 1))
      else if |data| >= 2 && data[1] < 0x80 then
        TwoByteTag(data[0], data[1]);
        Ok(Tag((data[0] as int) * 0x100 + data[1], primitive, 2))
      else if |data| >= 3 then
        ThreeByteTag(data[0], data[1], data[2]);
        Ok(Tag((data[0] as int) * 0x10000 + (data[1] as int) * 0x100 + data[2], primitive, 3))
      else Err(InvalidLength)
  }

  lemma TwoByteTag(b0: byte, b1: byte)
    requires b0 % 0x20 == 0x1F
    ensures var v := (b0 as int) * 0x100 + b1;
            0x100 <= v < 0x10000 && v / 0x100 == b0 && v % 0x100 == b1
  {
  }

  lemma ThreeByteTag(b0: byte, b1: byte, b2: byte)
    requires b0 % 0x20 == 0x1F
    ensures var v := (b0 as int) * 0x10000 + (b1 as int) * 0x100 + b2;
            0x10000 <= v < 0x1000000 && v / 0x10000 == b0 && (v / 0x100) % 0x100 == b1 && v % 0x100 == b2
  {
  }

  /** A tag as ISO/IEC 7816-4 allows it: the form its size names, and the primitive bit of its lead byte. */
  predicate WellFormedTag(t: Tag)
  {
    && t.value < 0x1000000
    && t.size == TagSize(t.value)
    && t.primitive == PrimitiveTag(t.value)
    && (t.size == 1 ==> t.value % 0x20 != 0x1F)
    && (t.size == 2 ==> LeadByte(t.value) % 0x20 == 0x1F && t.value % 0x100 < 0x80)
    && (t.size == 3 ==> LeadByte(t.value) % 0x20 == 0x1F && (t.value / 0x100) % 0x100 >= 0x80)
  }

  /** The bytes of a tag, most significant first. */
  function EncodeTag(t: Tag): (b: Bytes)
    requires WellFormedTag(t)
    ensures |b| == t.size
  {
    if t.size == 1 then [t.value]
    else if t.size == 2 then [t.value / 0x100, t.value % 0x100]
    else [t.value / 0x10000, (t.value / 0x100) % 0x100, t.value % 0x100]
  }

  /** Round trip: a well-formed tag reads back from its bytes, whatever follows them. */
  lemma TagRoundTrip(t: Tag, rest: Bytes)
    requires WellFormedTag(t)
    ensures ParseTag(EncodeTag(t) + rest) == Ok(t)
  {
    var d := EncodeTag(t) + rest;
    if t.size == 2 {
      assert d[0] == t.value / 0x100 && d[1] == t.value % 0x100;
      assert (d[0] as int) * 0x100 + d[1] == t.value;
    } else if t.size == 3 {
      assert d[0] == t.value / 0x10000 && d[1] == (t.value / 0x100) % 0x100 && d[2] == t.value % 0x100;
      assert (d[0] as int) * 0x10000 + (d[1] as int) * 0x100 + d[2] == t.value;
    }
  }

  /** And the converse: whatever `ParseTag` accepts is a well-formed tag written in the bytes it consumed. */
  lemma ParsedTagEncodes(data: Bytes)
    requires ParseTag(data).Ok?
    ensures WellFormedTag(ParseTag(data).value)
    ensures data[..ParseTag(data).value.size] == EncodeTag(ParseTag(data).value)
  {
    var t := ParseTag(data).value;
    if t.size == 2 {
      TwoByteTag(data[0], data[1]);
    } else if t.size == 3 {
      ThreeByteTag(data[0], data[1], data[2]);
    }
  }

  /** Two well-formed tags with the same value are the same tag: the primitive and constructed maps of a layer never share a key. */
  lemma TagValueDeterminesForm(a: Tag, b: Tag)
    requires WellFormedTag(a) && WellFormedTag(b) && a.value == b.value
    ensures a == b
  {
  }

  /** The test vectors of `Test_parseBerTag`. */
  lemma ParseTagCases()
    ensures ParseTag([]) == Err(InvalidLength)
    ensures ParseTag([0x01]) == Ok(Tag(0x01, true, 1))
    ensures ParseTag([0x21]) == Ok(Tag(0x21, false, 1))
    ensures ParseTag([0xBF, 0x2F]) == Ok(Tag(0xBF2F, false, 2))
    ensures ParseTag([0xBF, 0xAF]) == Err(InvalidLength)
    ensures ParseTag([0xBF, 0xAF, 0xD5]) == Ok(Tag(0xBFAFD5, false, 3))
  {
  }

  /**
   * The tag as the layer loop of card/ber.go reads it: the same cases without the length guards, so a
   * missing byte is an index panic.
   */
  function LegacyParseTag(data: Bytes): (r: Result<Tag, ParseError>)
    ensures r.Err? ==> r.error == IndexOutOfRange
  {
    if |data| == 0 then Err(IndexOutOfRange)
    else
      var primitive := (data[0] / 0x20) % 2 == 0;
      if data[0] % 0x20 != 0x1F then Ok(Tag(data[0], primitive, 1))
      else if |data| < 2 then Err(IndexOutOfRange)
      else if data[1] < 0x80 then Ok(Tag((data[0] as int) * 0x100 + data[1], primitive, 2))
      else if |data| < 3 then Err(IndexOutOfRange)
      else Ok(Tag((data[0] as int) * 0x10000 + (data[1] as int) * 0x100 + data[2], primitive, 3))
  }

  /** The two tag readers accept the same inputs and read the same tag; where `ParseTag` errs, the old loop panics. */
  lemma LegacyTagAgrees(data: Bytes)
    ensures ParseTag(data).Ok? ==> LegacyParseTag(data) == ParseTag(data)
    ensures ParseTag(data).Err? ==> LegacyParseTag(data) == Err(IndexOutOfRange)
  {
  }

  /** A parsed length and the number of bytes it took. */
  datatype Length = Length(value: nat, size: nat)

  /**
   * `ParseLength(data)`: one byte below 0x80 is the length; 0x81 to 0x84 announce one to four big-endian
   * length bytes (0x83 masks the first four bytes to their low 24 bits, which are bytes 1 to 3); 0x80 is
   * `ErrInvalidFormat`; anything else, or too few bytes, is `ErrInvalidLength`.
   */
  function ParseLength(data: Bytes): (r: Result<Length, ParseError>)
    ensures r.Ok? ==> 1 <= r.value.size <= 5 && r.value.size <= |data| && r.value.value < 0x1_0000_0000
    ensures r.Ok? && r.value.size == 1 ==> r.value.value == data[0] < 0x80
    ensures r.Ok? && r.value.size > 1 ==> data[0] == 0x7F + r.value.size && r.value.value == BigEndian(data[1..r.value.size])
    ensures r.Err? ==> r.error == InvalidLength || (r.error == InvalidFormat && |data| > 0 && data[0] == 0x80)
  {
    if |data| == 0 then Err(InvalidLength)
    else if data[0] < 0x80 then Ok(Length(data[0], 1))
    else if data[0] == 0x80 then Err(InvalidFormat)
    else if data[0] == 0x81 && |data| >= 2 then
      assert BigEndian(data[1..2]) == data[1] by { assert data[1..2][..0] == []; }
      Ok(Length(data[1], 2))
    else if data[0] == 0x82 && |data| >= 3 then
      BigEndianBound(data[1..3], 4);
      Ok(Length(BigEndian(data[1..3]), 3))
    else if data[0] == 0x83 && |data| >= 4 then
      BigEndianBound(data[1..4], 4);
      Ok(Length(BigEndian(data[1..4]), 4))
    else if data[0] == 0x84 && |data| >= 5 then
      BigEndianBound(data[1..5], 4);
      Ok(Length(BigEndian(data[1..5]), 5))
    else Err(InvalidLength)
  }

  /** The number of bytes the shortest length encoding of `n` takes after its first byte. */
  function LengthBytes(n: nat): nat
  {
    if n < 0x80 then 0
    else if n < 0x100 then 1
    else if n < 0x10000 then 2
    else if n < 0x1000000 then 3
    else 4
  }

  /** The shortest encoding of a length: the byte itself below 0x80, else 0x80 + k and k big-endian bytes. */
  function EncodeLength(n: nat): (b: Bytes)
    requires n < 0x1_0000_0000
    ensures |b| == 1 + LengthBytes(n)
  {
    if n < 0x80 then [n] else [0x80 + LengthBytes(n)] + ToBigEndian(n, LengthBytes(n))
  }

  /** Round trip: every length a `uint32` can hold reads back from its encoding, whatever follows it. */
  lemma LengthRoundTrip(n: nat, rest: Bytes)
    requires n < 0x1_0000_0000
    ensures ParseLength(EncodeLength(n) + rest) == Ok(Length(n, |EncodeLength(n)|))
  {
    if n >= 0x80 {
      var k := LengthBytes(n);
      var d := EncodeLength(n) + rest;
      assert Pow256(1) == 0x100 && Pow256(2) == 0x10000 && Pow256(3) == 0x1000000 && Pow256(4) == 0x1_0000_0000;
      assert d[1..1 + k] == ToBigEndian(n, k);
      BigEndianRoundTrip(n, k);
      if k == 1 {
        assert BigEndian(ToBigEndian(n, 1)) == ToBigEndian(n, 1)[0] by {
          assert ToBigEndian(n, 1)[..0] == [];
        }
      }
    }
  }

  /** The test vectors of `Test_parseBerLength`. */
  lemma ParseLengthCases()
    ensures ParseLength([]) == Err(InvalidLength)
    ensures ParseLength([0x79]) == Ok(Length(0x79, 1))
    ensures ParseLength([0x80, 0x91]) == Err(InvalidFormat)
    ensures ParseLength([0x81, 0x01]) == Ok(Length(0x01, 2))
    ensures ParseLength([0x81]) == Err(InvalidLength)
    ensures ParseLength([0x82, 0x01, 0x02]) == Ok(Length(0x0102, 3))
    ensures ParseLength([0x83, 0x01, 0x02, 0x03]) == Ok(Length(0x010203, 4))
    ensures ParseLength([0x84, 0x01, 0x02, 0x03, 0x04]) == Ok(Length(0x01020304, 5))
    ensures ParseLength([0x82]) == Err(InvalidLength) && ParseLength([0x83]) == Err(InvalidLength)
    ensures ParseLength([0x84]) == Err(InvalidLength)
  {
    var d3: Bytes := [0x83, 0x01, 0x02, 0x03];
    var d4: Bytes := [0x84, 0x01, 0x02, 0x03, 0x04];
    BigEndianDigits();
    assert d3[1..4] == [0x01, 0x02, 0x03] && d4[1..5] == [0x01, 0x02, 0x03, 0x04];
    var d2: Bytes := [0x82, 0x01, 0x02];
    assert d2[1..3] == [0x01, 0x02];
  }

  /** The big-endian values of the prefixes of 01 02 03 04. */
  lemma BigEndianDigits()
    ensures BigEndian([0x01, 0x02]) == 0x0102 && BigEndian([0x01, 0x02, 0x03]) == 0x010203
    ensures BigEndian([0x01, 0x02, 0x03, 0x04]) == 0x01020304
  {
    var s: Bytes := [0x01, 0x02, 0x03, 0x04];
    var s1: Bytes := [0x01];
    var s2: Bytes := [0x01, 0x02];
    var s3: Bytes := [0x01, 0x02, 0x03];
    assert s1[..0] == [];
    assert BigEndian(s1) == 1;
    assert s2[..1] == s1;
    assert BigEndian(s2) == 0x0102;
    assert s3[..2] == s2;
    assert BigEndian(s3) == 0x010203;
    assert s[..3] == s3;
  }

  /**
   * `parseBerLength(data)` of card/ber.go: the same cases without the length guards, so a missing byte is
   * an index panic; 0x80 is not singled out and, like 0x85 and above, is `ERROR_INVALID_LENGTH`.
   */
  function LegacyParseLength(data: Bytes): (r: Result<Length, ParseError>)
    ensures r.Err? ==> r.error == IndexOutOfRange || r.error == InvalidLength
  {
    if |data| == 0 then Err(IndexOutOfRange)
    else if data[0] < 0x80 then Ok(Length(data[0], 1))
    else if data[0] == 0x81 then
      if |data| < 2 then Err(IndexOutOfRange) else Ok(Length(data[1], 2))
    else if data[0] == 0x82 then
      if |data| < 3 then Err(IndexOutOfRange) else Ok(Length(BigEndian(data[1..3]), 3))
    else if data[0] == 0x83 then
      if |data| < 4 then Err(IndexOutOfRange) else Ok(Length(BigEndian(data[1..4]), 4))
    else if data[0] == 0x84 then
      if |data| < 5 then Err(IndexOutOfRange) else Ok(Length(BigEndian(data[1..5]), 5))
    else Err(InvalidLength)
  }

  /**
   * The two length readers accept the same inputs and read the same length. Where `ParseLength` reports a
   * missing byte the old copy panics, and its 0x80 `ErrInvalidFormat` is the old copy's invalid length.
   */
  lemma LegacyLengthAgrees(data: Bytes)
    ensures ParseLength(data).Ok? ==> LegacyParseLength(data) == ParseLength(data)
    ensures ParseLength(data) == Err(InvalidFormat) ==> LegacyParseLength(data) == Err(InvalidLength)
    ensures LegacyParseLength(data).Ok? ==> ParseLength(data).Ok?
  {
  }
}
