/**
 * BER-TLV decoding (card/ber/ber.go, and its older copy card/ber.go): `parseBERLayer` splits one level
 * of data objects into a map of primitive values and a map of constructed values, and `ParseBER` builds
 * the tree under a root with tag 0, parsing each constructed value recursively. Both copies share the
 * code below; `legacy` selects the unguarded tag and length reads of card/ber.go.
 */
module Ber {
  import opened Bytes
  import opened Wrappers
  import opened Errors
  import opened BerCodec
  import opened BerTree

  /** One entry of a layer's map: a tag and the value bytes it maps to. */
  datatype Field = Field(tag: nat, value: Bytes)

  /** The two maps `parseBERLayer` returns, each in the order its keys first appeared. */
  datatype Layer = Layer(prim: seq<Field>, cons: seq<Field>)

  /** The value a map holds for `tag`. */
  function Get(fs: seq<Field>, tag: nat): (r: Option<Bytes>)
    ensures r.Some? <==> exists i :: 0 <= i < |fs| && fs[i].tag == tag
  {
    if fs == [] then None else if fs[0].tag == tag then Some(fs[0].value) else Get(fs[1..], tag)
  }

  /** No key twice. */
  predicate Distinct(fs: seq<Field>)
  {
    forall i, j :: 0 <= i < j < |fs| ==> fs[i].tag != fs[j].tag
  }

  /**
   * `m[tag] = value` on a Go map: a key already present keeps its place and takes the new value; a new
   * key comes last.
   */
  function Put(fs: seq<Field>, f: Field): (r: seq<Field>)
    ensures forall i :: 0 <= i < |r| ==> r[i] == f || r[i] in fs
    ensures Distinct(fs) ==> Distinct(r)
  {
    if fs == [] then [f]
    else if fs[0].tag == f.tag then [f] + fs[1..]
    else [fs[0]] + Put(fs[1..], f)
  }

  /** `Put` is map assignment: the key reads the new value and every other key reads what it did. */
  lemma {:induction false} PutGet(fs: seq<Field>, f: Field, tag: nat)
    ensures Get(Put(fs, f), tag) == if tag == f.tag then Some(f.value) else Get(fs, tag)
  {
    if fs != [] && fs[0].tag != f.tag {
      PutGet(fs[1..], f, tag);
      assert ([fs[0]] + Put(fs[1..], f))[1..] == Put(fs[1..], f);
    } else if fs != [] {
      assert ([f] + fs[1..])[1..] == fs[1..];
    }
  }

  /** In a map without repeated keys, `Get` reads the entry with the key. */
  lemma {:induction false} GetIndex(fs: seq<Field>, tag: nat)
    requires Distinct(fs)
    ensures forall i :: 0 <= i < |fs| && fs[i].tag == tag ==> Get(fs, tag) == Some(fs[i].value)
  {
    if fs != [] {
      assert Distinct(fs[1..]);
      GetIndex(fs[1..], tag);
      forall i | 0 <= i < |fs| && fs[i].tag == tag
        ensures Get(fs, tag) == Some(fs[i].value)
      {
        if i > 0 {
          assert fs[1..][i - 1] == fs[i];
        }
      }
    }
  }

  /**
   * What holds of every layer the loop builds over data of length `n`: primitive keys name primitive
   * tags, constructed keys constructed ones, no key twice, and every value shorter than the data.
   */
  predicate LayerOK(l: Layer, n: nat)
  {
    && (forall i :: 0 <= i < |l.prim| ==> PrimitiveTag(l.prim[i].tag) && |l.prim[i].value| < n)
    && (forall i :: 0 <= i < |l.cons| ==> !PrimitiveTag(l.cons[i].tag) && |l.cons[i].value| < n)
    && Distinct(l.prim) && Distinct(l.cons)
  }

  /** `primF[tag] = value` or `consF[tag] = value`, as the tag's primitive bit says. */
  function Store(l: Layer, t: Tag, value: Bytes): Layer
  {
    if t.primitive then l.(prim := Put(l.prim, Field(t.value, value)))
    else l.(cons := Put(l.cons, Field(t.value, value)))
  }

  /** Storing a value shorter than the data under a tag of the right form keeps the layer well formed. */
  lemma StoreOK(l: Layer, t: Tag, value: Bytes, n: nat)
    requires t.primitive == PrimitiveTag(t.value) && |value| < n
    ensures LayerOK(l, n) ==> LayerOK(Store(l, t, value), n)
  {
  }

  /** The tag read of the selected copy. */
  function TagAt(data: Bytes, legacy: bool): (r: Result<Tag, ParseError>)
    ensures r.Ok? ==> 1 <= r.value.size <= |data|
    ensures r.Ok? ==> r.value.primitive == PrimitiveTag(r.value.value)
  {
    LegacyTagAgrees(data);
    if legacy then LegacyParseTag(data) else ParseTag(data)
  }

  /** The length read of the selected copy; card/ber.go turns every error of `parseBerLength` into `ERROR_INVALID_LENGTH`. */
  function LengthAt(data: Bytes, legacy: bool): (r: Result<Length, ParseError>)
    ensures r.Ok? ==> 1 <= r.value.size <= |data|
  {
    LegacyLengthAgrees(data);
    if !legacy then ParseLength(data)
    else
      match LegacyParseLength(data)
      case Ok(len) => Ok(len)
      case Err(IndexOutOfRange) => Err(IndexOutOfRange)
      case Err(_) => Err(InvalidLength)
  }

  /** Where one data object's value lies: its tag, and the first and the past-the-end index of its value. */
  datatype Header = Header(tag: Tag, start: nat, end: nat)

  /** The tag and the length at `offset`, and the check that the value they announce lies inside the data. */
  function HeaderAt(data: Bytes, offset: nat, legacy: bool): (r: Result<Header, ParseError>)
    requires offset <= |data|
    ensures r.Ok? ==> offset < r.value.start <= r.value.end <= |data|
    ensures r.Ok? ==> r.value.tag.primitive == PrimitiveTag(r.value.tag.value)
  {
    match TagAt(data[offset..], legacy)
    case Err(e) => Err(e)
    case Ok(t) =>
      var afterTag := offset + t.size;
      match LengthAt(data[afterTag..], legacy)
      case Err(e) => Err(e)
      case Ok(len) =>
        var start := afterTag + len.size;
        var end := start + len.value;
        if end > |data| then Err(InvalidLength) else Ok(Header(t, start, end))
  }

  /**
   * The layer loop from `offset` on: tag, length, value, stored by form, until the data ends exactly;
   * a value running past the end is `ErrInvalidLength`.
   */
  function LayerFrom(data: Bytes, offset: nat, l: Layer, legacy: bool): (r: Result<Layer, ParseError>)
    requires offset <= |data|
    ensures LayerOK(l, |data|) && r.Ok? ==> LayerOK(r.value, |data|)
    decreases |data| - offset
  {
    match HeaderAt(data, offset, legacy)
    case Err(e) => Err(e)
    case Ok(h) =>
      var l' := Store(l, h.tag, data[h.start..h.end]);
      StoreOK(l, h.tag, data[h.start..h.end], |data|);
      if h.end == |data| then Ok(l') else LayerFrom(data, h.end, l', legacy)
  }

  const EmptyLayer := Layer([], [])

  /** `parseBERLayer(data)`. */
  function LayerSpec(data: Bytes, legacy: bool): (r: Result<Layer, ParseError>)
    ensures r.Ok? ==> LayerOK(r.value, |data|)
  {
    LayerFrom(data, 0, EmptyLayer, legacy)
  }

  /** `parseBERLayer(data)`: the `for` loop over the offset. */
  method ParseLayer(data: Bytes, legacy: bool) returns (r: Result<Layer, ParseError>)
    ensures r == LayerSpec(data, legacy)
  {
    var l := EmptyLayer;
    var offset := 0;
    while true
      invariant offset <= |data|
      invariant LayerFrom(data, offset, l, legacy) == LayerSpec(data, legacy)
      decreases |data| - offset
    {
      var header := HeaderAt(data, offset, legacy);
      if header.Err? {
        return Err(header.error);
      }
      var h := header.value;
      l := Store(l, h.tag, data[h.start..h.end]);
      offset := h.end;
      if offset == |data| {
        return Ok(l);
      }
    }
  }

  /**
   * The two copies agree on a result: one succeeds exactly when the other does, with the same value;
   * their errors may differ.
   */
  predicate Agree<T(==)>(current: Result<T, ParseError>, older: Result<T, ParseError>)
  {
    current.Ok? == older.Ok? && (current.Ok? ==> current == older)
  }

  /** card/ber.go reads the same header as card/ber/ber.go, and fails exactly where it does. */
  lemma HeaderAgrees(data: Bytes, offset: nat)
    requires offset <= |data|
    ensures Agree(HeaderAt(data, offset, false), HeaderAt(data, offset, true))
  {
    TagAtAgrees(data[offset..]);
    if TagAt(data[offset..], false).Ok? {
      LengthAtAgrees(data[offset + TagAt(data[offset..], false).value.size..]);
    }
  }

  lemma TagAtAgrees(data: Bytes)
    ensures Agree(TagAt(data, false), TagAt(data, true))
  {
    LegacyTagAgrees(data);
  }

  lemma LengthAtAgrees(data: Bytes)
    ensures Agree(LengthAt(data, false), LengthAt(data, true))
  {
    LegacyLengthAgrees(data);
  }

  /** The layer loops of the two copies agree, from any offset and any layer built so far. */
  lemma {:induction false} LayerAgrees(data: Bytes, offset: nat, l: Layer)
    requires offset <= |data|
    ensures Agree(LayerFrom(data, offset, l, false), LayerFrom(data, offset, l, true))
    decreases |data| - offset
  {
    HeaderAgrees(data, offset);
    if HeaderAt(data, offset, false).Ok? {
      var h := HeaderAt(data, offset, false).value;
      if h.end < |data| {
        LayerAgrees(data, h.end, Store(l, h.tag, data[h.start..h.end]));
      }
    }
  }

  /** Either copy reads a well-formed tag back from its bytes. */
  lemma TagAtEncoding(t: Tag, rest: Bytes, legacy: bool)
    requires WellFormedTag(t)
    ensures TagAt(EncodeTag(t) + rest, legacy) == Ok(t)
  {
    TagRoundTrip(t, rest);
    LegacyTagAgrees(EncodeTag(t) + rest);
  }

  /** Either copy reads a length back from its shortest encoding. */
  lemma LengthAtEncoding(n: nat, rest: Bytes, legacy: bool)
    requires n < 0x1_0000_0000
    ensures LengthAt(EncodeLength(n) + rest, legacy) == Ok(Length(n, |EncodeLength(n)|))
  {
    LengthRoundTrip(n, rest);
    LegacyLengthAgrees(EncodeLength(n) + rest);
  }

  /** The root `ParseBER` starts from: tag 0, constructed, no children. */
  const EmptyRoot := Ber(0, false, [], [])

  /** The leaf nodes of the primitive map. */
  function Leaves(fs: seq<Field>): (r: seq<Ber>)
    ensures |r| == |fs|
    ensures forall i :: 0 <= i < |fs| ==> r[i] == Ber(fs[i].tag, true, fs[i].value, [])
  {
    if fs == [] then [] else [Ber(fs[0].tag, true, fs[0].value, [])] + Leaves(fs[1..])
  }

  /** `ParseBER(data)`. */
  function ParseBerSpec(data: Bytes, legacy: bool): (r: Result<Ber, ParseError>)
    ensures r.Ok? ==> r.value.tag == 0 && !r.value.primitive && r.value.data == []
    decreases |data|, 1
  {
    match LayerSpec(data, legacy)
    case Err(e) => Err(e)
    case Ok(l) =>
      match AddAll(EmptyRoot, Leaves(l.prim))
      case Err(e) => Err(e)
      case Ok(root) => AddConstructed(root, l.cons, SubParses(l.cons, |data|, legacy))
  }

  /** The recursive parse of each constructed value of a layer, in order. */
  function SubParses(cons: seq<Field>, bound: nat, legacy: bool): (r: seq<Result<Ber, ParseError>>)
    requires forall i :: 0 <= i < |cons| ==> |cons[i].value| < bound
    ensures |r| == |cons|
    ensures forall k :: 0 <= k < |cons| ==> r[k] == ParseBerSpec(cons[k].value, legacy)
    decreases bound, 0, |cons|
  {
    if cons == [] then [] else [ParseBerSpec(cons[0].value, legacy)] + SubParses(cons[1..], bound, legacy)
  }

  /** The node a constructed value becomes: its tag over the children of its own parse. */
  function Nested(f: Field, sub: Ber): Ber
  {
    Ber(f.tag, false, [], sub.children)
  }

  /**
   * The second loop of `ParseBER`, given the parse of each constructed value: stop at the first value
   * that does not parse, otherwise add the nested node under its tag.
   */
  function AddConstructed(into: Ber, cons: seq<Field>, subs: seq<Result<Ber, ParseError>>): (r: Result<Ber, ParseError>)
    requires |subs| == |cons|
    ensures r.Ok? ==> r.value.tag == into.tag && r.value.primitive == into.primitive && r.value.data == into.data
    decreases |cons|
  {
    if cons == [] then Ok(into)
    else
      match subs[0]
      case Err(e) => Err(e)
      case Ok(sub) =>
        match Add(into, Nested(cons[0], sub))
        case Err(e) => Err(e)
        case Ok(t) => AddConstructed(t, cons[1..], subs[1..])
  }

  /** `ParseBER(data)`: the layer, then a loop adding the leaves and a loop adding the parsed constructed values. */
  method ParseBer(data: Bytes, legacy: bool) returns (r: Result<Ber, ParseError>)
    ensures r == ParseBerSpec(data, legacy)
    decreases |data|
  {
    var layer := ParseLayer(data, legacy);
    if layer.Err? {
      return Err(layer.error);
    }
    var l := layer.value;
    var leaves := Leaves(l.prim);
    var ber := EmptyRoot;
    for i := 0 to |leaves|
      invariant AddAll(ber, leaves[i..]) == AddAll(EmptyRoot, leaves)
    {
      LeafTurn(ber, leaves, i);
      var added := Add(ber, leaves[i]);
      if added.Err? {
        return Err(added.error);
      }
      ber := added.value;
    }
    assert leaves[|leaves|..] == [];
    ghost var root := ber;
    ghost var subs := SubParses(l.cons, |data|, legacy);
    for j := 0 to |l.cons|
      invariant AddConstructed(ber, l.cons[j..], subs[j..]) == AddConstructed(root, l.cons, subs)
    {
      ConstructedTurn(ber, l.cons, subs, j);
      var sub := ParseBer(l.cons[j].value, legacy);
      if sub.Err? {
        return Err(sub.error);
      }
      var added := Add(ber, Nested(l.cons[j], sub.value));
      if added.Err? {
        return Err(added.error);
      }
      ber := added.value;
    }
    assert l.cons[|l.cons|..] == [];
    return Ok(ber);
  }

  /** One turn of the first loop of `ParseBER`. */
  lemma LeafTurn(ber: Ber, leaves: seq<Ber>, i: nat)
    requires i < |leaves|
    ensures AddAll(ber, leaves[i..]) == match Add(ber, leaves[i])
                                        case Err(e) => Err(e)
                                        case Ok(t) => AddAll(t, leaves[i + 1..])
  {
    assert leaves[i..][1..] == leaves[i + 1..];
  }

  /** One turn of the second loop of `ParseBER`. */
  lemma ConstructedTurn(ber: Ber, cons: seq<Field>, subs: seq<Result<Ber, ParseError>>, j: nat)
    requires |subs| == |cons| && j < |cons|
    ensures subs[j].Err? ==> AddConstructed(ber, cons[j..], subs[j..]) == Err(subs[j].error)
    ensures subs[j].Ok? ==>
              AddConstructed(ber, cons[j..], subs[j..]) == match Add(ber, Nested(cons[j], subs[j].value))
                                                          case Err(e) => Err(e)
                                                          case Ok(t) => AddConstructed(t, cons[j + 1..], subs[j + 1..])
  {
    assert cons[j..][1..] == cons[j + 1..];
    assert subs[j..][1..] == subs[j + 1..];
  }

  /** Adding nodes whose tags are new and distinct appends them in order. */
  lemma {:induction false} AppendAll(into: Ber, news: seq<Ber>)
    requires !into.primitive
    requires forall k :: 0 <= k < |news| ==> FindChild(into.children, news[k].tag).None?
    requires forall a, b :: 0 <= a < b < |news| ==> news[a].tag != news[b].tag
    ensures AddAll(into, news) == Ok(into.(children := into.children + news))
    decreases |news|
  {
    if news == [] {
      assert into.children + news == into.children;
    } else {
      var t := into.(children := into.children + [news[0]]);
      assert Add(into, news[0]) == Ok(t);
      forall k | 0 <= k < |news[1..]|
        ensures FindChild(t.children, news[1..][k].tag).None?
      {
        assert news[1..][k] == news[k + 1];
      }
      AppendAll(t, news[1..]);
      assert t.children + news[1..] == into.children + news;
    }
  }

  /** The nested nodes of all constructed entries, or the error of the first value that does not parse. */
  function NestedAll(cons: seq<Field>, subs: seq<Result<Ber, ParseError>>): (r: Result<seq<Ber>, ParseError>)
    requires |subs| == |cons|
    ensures r.Ok? ==> |r.value| == |cons|
    ensures r.Ok? ==> forall k :: 0 <= k < |cons| ==> r.value[k].tag == cons[k].tag && !r.value[k].primitive
  {
    if cons == [] then Ok([])
    else
      match subs[0]
      case Err(e) => Err(e)
      case Ok(sub) =>
        match NestedAll(cons[1..], subs[1..])
        case Err(e) => Err(e)
        case Ok(rest) => Ok([Nested(cons[0], sub)] + rest)
  }

  /** `NestedAll` succeeds exactly when every constructed value parses, and holds the nested node of each. */
  lemma {:induction false} NestedAllMeaning(cons: seq<Field>, subs: seq<Result<Ber, ParseError>>)
    requires |subs| == |cons|
    ensures NestedAll(cons, subs).Ok? <==> forall k :: 0 <= k < |cons| ==> subs[k].Ok?
    ensures NestedAll(cons, subs).Ok? ==>
              forall k :: 0 <= k < |cons| ==> NestedAll(cons, subs).value[k] == Nested(cons[k], subs[k].value)
  {
    if cons != [] {
      NestedAllMeaning(cons[1..], subs[1..]);
      forall k | 1 <= k < |cons|
        ensures cons[1..][k - 1] == cons[k] && subs[1..][k - 1] == subs[k]
      {
      }
    }
  }

  /** The constructed keys are distinct and none is yet a child of `into`, which can take children. */
  predicate AllNew(into: Ber, cons: seq<Field>)
  {
    && !into.primitive && Distinct(cons)
    && forall k :: 0 <= k < |cons| ==> FindChild(into.children, cons[k].tag).None?
  }

  /** The second loop of `ParseBER` over tags that are new and distinct: it appends the nested nodes, in order. */
  lemma {:induction false} AddConstructedAppends(into: Ber, cons: seq<Field>, subs: seq<Result<Ber, ParseError>>)
    requires |subs| == |cons| && AllNew(into, cons)
    ensures AddConstructed(into, cons, subs)
            == match NestedAll(cons, subs)
               case Err(e) => Err(e)
               case Ok(ns) => Ok(into.(children := into.children + ns))
    decreases |cons|
  {
    if cons == [] {
      assert into.children + [] == into.children;
    } else if subs[0].Ok? {
      var t := AppendsStep(into, cons, subs);
      AddConstructedAppends(t, cons[1..], subs[1..]);
      if NestedAll(cons[1..], subs[1..]).Ok? {
        var rest := NestedAll(cons[1..], subs[1..]).value;
        AppendAssoc(into.children, Nested(cons[0], subs[0].value), rest);
      }
    }
  }

  /** Appending one node and then a list is appending the list that starts with it. */
  lemma AppendAssoc(cs: seq<Ber>, node: Ber, rest: seq<Ber>)
    ensures (cs + [node]) + rest == cs + ([node] + rest)
  {
  }

  /** One turn of the second loop of `ParseBER` over a new tag: the nested node is appended and the remaining tags are still new. */
  lemma AppendsStep(into: Ber, cons: seq<Field>, subs: seq<Result<Ber, ParseError>>) returns (t: Ber)
    requires |subs| == |cons| && cons != [] && subs[0].Ok? && AllNew(into, cons)
    ensures t == into.(children := into.children + [Nested(cons[0], subs[0].value)])
    ensures AddConstructed(into, cons, subs) == AddConstructed(t, cons[1..], subs[1..])
    ensures AllNew(t, cons[1..])
    ensures NestedAll(cons, subs) == match NestedAll(cons[1..], subs[1..])
                                     case Err(e) => Err(e)
                                     case Ok(rest) => Ok([Nested(cons[0], subs[0].value)] + rest)
  {
    var node := Nested(cons[0], subs[0].value);
    t := into.(children := into.children + [node]);
    AppendNew(into, node);
    RestMissing(into.children, node, cons);
  }

  /** `add` of a node whose tag is new appends it. */
  lemma AppendNew(into: Ber, node: Ber)
    requires !into.primitive && FindChild(into.children, node.tag).None?
    ensures Add(into, node) == Ok(into.(children := into.children + [node]))
  {
  }

  /** After the first constructed entry is appended, the others are still new: the keys are distinct. */
  lemma RestMissing(cs: seq<Ber>, node: Ber, cons: seq<Field>)
    requires cons != [] && Distinct(cons) && node.tag == cons[0].tag
    requires forall k :: 0 <= k < |cons| ==> FindChild(cs, cons[k].tag).None?
    ensures forall k :: 0 <= k < |cons[1..]| ==> FindChild(cs + [node], cons[1..][k].tag).None?
  {
    forall k | 0 <= k < |cons[1..]|
      ensures FindChild(cs + [node], cons[1..][k].tag).None?
    {
      assert cons[1..][k] == cons[k + 1];
      assert FindChild(cs, cons[k + 1].tag).None?;
    }
  }

  /** The tree `ParseBER` builds from a layer: the leaves of the primitive entries, then the nested nodes of the constructed ones. */
  function Assemble(l: Layer, subs: seq<Result<Ber, ParseError>>): Result<Ber, ParseError>
    requires |subs| == |l.cons|
  {
    match NestedAll(l.cons, subs)
    case Err(e) => Err(e)
    case Ok(ns) => Ok(Ber(0, false, [], Leaves(l.prim) + ns))
  }

  /**
   * What `ParseBER` builds: under a root with tag 0, one leaf per primitive entry of the layer, in order,
   * then one nested node per constructed entry holding the children of that value's own parse. It fails
   * exactly where the layer or one of the constructed values does: an `add` never fails here, because
   * the keys of each map are distinct and the two maps share none.
   */
  lemma ParseBerShape(data: Bytes, legacy: bool)
    ensures LayerSpec(data, legacy).Err? ==> ParseBerSpec(data, legacy) == Err(LayerSpec(data, legacy).error)
    ensures LayerSpec(data, legacy).Ok? ==>
              var l := LayerSpec(data, legacy).value;
              ParseBerSpec(data, legacy) == Assemble(l, SubParses(l.cons, |data|, legacy))
  {
    var layer := LayerSpec(data, legacy);
    if layer.Ok? {
      var l := layer.value;
      var root := LeavesAdded(l, |data|);
      assert AllNew(root, l.cons);
      AddConstructedAppends(root, l.cons, SubParses(l.cons, |data|, legacy));
    }
  }

  /** The first loop of `ParseBER`: the leaves of a layer's primitive entries, appended under the empty root. */
  lemma LeavesAdded(l: Layer, n: nat) returns (root: Ber)
    requires LayerOK(l, n)
    ensures root == Ber(0, false, [], Leaves(l.prim))
    ensures AddAll(EmptyRoot, Leaves(l.prim)) == Ok(root)
    ensures forall k :: 0 <= k < |l.cons| ==> FindChild(root.children, l.cons[k].tag).None?
  {
    root := Ber(0, false, [], Leaves(l.prim));
    LeavesAppend(l.prim);
    LeavesMissing(l, n);
  }

  /** The leaves of a map without repeated keys are appended one after the other. */
  lemma LeavesAppend(fs: seq<Field>)
    requires Distinct(fs)
    ensures AddAll(EmptyRoot, Leaves(fs)) == Ok(Ber(0, false, [], Leaves(fs)))
  {
    var leaves := Leaves(fs);
    AppendAll(EmptyRoot, leaves);
    assert [] + leaves == leaves;
  }

  /** No constructed key of a well-formed layer is among its leaves: their tags differ in the primitive bit. */
  lemma LeavesMissing(l: Layer, n: nat)
    requires LayerOK(l, n)
    ensures forall k :: 0 <= k < |l.cons| ==> FindChild(Leaves(l.prim), l.cons[k].tag).None?
  {
    var leaves := Leaves(l.prim);
    forall k | 0 <= k < |l.cons|
      ensures FindChild(leaves, l.cons[k].tag).None?
    {
      assert !PrimitiveTag(l.cons[k].tag);
      assert forall j :: 0 <= j < |leaves| ==> PrimitiveTag(leaves[j].tag);
    }
  }

  /** No two children share a tag. */
  predicate TagsDistinct(cs: seq<Ber>)
  {
    forall a, b :: 0 <= a < b < |cs| ==> cs[a].tag != cs[b].tag
  }

  /** The first child with a tag, among children whose tags are distinct, is the one child with it. */
  lemma FindDistinct(cs: seq<Ber>, i: nat)
    requires i < |cs| && TagsDistinct(cs)
    ensures FindChild(cs, cs[i].tag) == Some(i)
  {
  }

  /** The children of an assembled tree: the leaves, then the nested nodes, with distinct tags throughout. */
  lemma AssembleChildren(l: Layer, n: nat, subs: seq<Result<Ber, ParseError>>)
    requires LayerOK(l, n) && |subs| == |l.cons| && Assemble(l, subs).Ok?
    ensures var cs := Assemble(l, subs).value.children;
            |cs| == |l.prim| + |l.cons|
            && (forall i :: 0 <= i < |l.prim| ==> cs[i] == Ber(l.prim[i].tag, true, l.prim[i].value, []))
            && (forall k :: 0 <= k < |l.cons| ==> subs[k].Ok? && cs[|l.prim| + k] == Nested(l.cons[k], subs[k].value))
            && TagsDistinct(cs)
  {
    NestedAllMeaning(l.cons, subs);
    var cs := Assemble(l, subs).value.children;
    assert cs == Leaves(l.prim) + NestedAll(l.cons, subs).value;
    AssembleDistinct(l, n, Leaves(l.prim), NestedAll(l.cons, subs).value);
  }

  /** Leaves of primitive keys followed by nodes of constructed keys, each list without repeats, repeat no tag. */
  lemma AssembleDistinct(l: Layer, n: nat, leaves: seq<Ber>, ns: seq<Ber>)
    requires LayerOK(l, n) && leaves == Leaves(l.prim) && |ns| == |l.cons|
    requires forall k :: 0 <= k < |l.cons| ==> ns[k].tag == l.cons[k].tag
    ensures TagsDistinct(leaves + ns)
  {
    var cs := leaves + ns;
    forall a, b | 0 <= a < b < |cs|
      ensures cs[a].tag != cs[b].tag
    {
      if b < |l.prim| {
        assert cs[a].tag == l.prim[a].tag && cs[b].tag == l.prim[b].tag;
      } else if a < |l.prim| {
        assert cs[a].tag == l.prim[a].tag && cs[b].tag == l.cons[b - |l.prim|].tag;
        assert PrimitiveTag(l.prim[a].tag) && !PrimitiveTag(l.cons[b - |l.prim|].tag);
      } else {
        assert cs[a].tag == l.cons[a - |l.prim|].tag && cs[b].tag == l.cons[b - |l.prim|].tag;
      }
    }
  }

  /** In an assembled tree, the tag of the `i`-th primitive entry reads its value. */
  lemma AssembledReadsLeaf(l: Layer, n: nat, subs: seq<Result<Ber, ParseError>>, i: nat)
    requires LayerOK(l, n) && |subs| == |l.cons| && Assemble(l, subs).Ok? && i < |l.prim|
    ensures Access(Assemble(l, subs).value, [l.prim[i].tag]) == Ok(l.prim[i].value)
  {
    AssembleChildren(l, n, subs);
    var t := Assemble(l, subs).value;
    FindDistinct(t.children, i);
    AccessStep(t, l.prim[i].tag, [], i);
  }

  /** In an assembled tree, a path below the tag of the `k`-th constructed entry reads as in that entry's parse. */
  lemma AssembledReadsNested(l: Layer, n: nat, subs: seq<Result<Ber, ParseError>>, k: nat, path: seq<nat>)
    requires LayerOK(l, n) && |subs| == |l.cons| && Assemble(l, subs).Ok? && k < |l.cons| && path != []
    ensures subs[k].Ok?
    ensures Access(Assemble(l, subs).value, [l.cons[k].tag] + path) == Access(subs[k].value, path)
  {
    AssembledChild(l, n, subs, k);
    ChildReads(Assemble(l, subs).value, |l.prim| + k, l.cons[k], subs[k].value, path);
  }

  /** The `k`-th constructed entry of an assembled tree is its nested node, among children with distinct tags. */
  lemma AssembledChild(l: Layer, n: nat, subs: seq<Result<Ber, ParseError>>, k: nat)
    requires LayerOK(l, n) && |subs| == |l.cons| && Assemble(l, subs).Ok? && k < |l.cons|
    ensures var cs := Assemble(l, subs).value.children;
            && subs[k].Ok? && TagsDistinct(cs) && |l.prim| + k < |cs|
            && cs[|l.prim| + k] == Nested(l.cons[k], subs[k].value)
  {
    AssembleChildren(l, n, subs);
  }

  /** Among children with distinct tags, a path below the tag of a nested child reads as in the tree it came from. */
  lemma ChildReads(t: Ber, i: nat, f: Field, sub: Ber, path: seq<nat>)
    requires TagsDistinct(t.children) && i < |t.children| && t.children[i] == Nested(f, sub) && path != []
    ensures Access(t, [f.tag] + path) == Access(sub, path)
  {
    FindDistinct(t.children, i);
    AccessStep(t, f.tag, path, i);
    NestedAccess(f, sub, path);
  }

  /** Below its own tag, a nested node reads as the tree it was taken from: it holds the same children. */
  lemma NestedAccess(f: Field, sub: Ber, path: seq<nat>)
    requires path != []
    ensures Access(Nested(f, sub), path) == Access(sub, path)
  {
  }

  /** An assembled tree is unique wherever the parses of its constructed entries are. */
  lemma AssembledUnique(l: Layer, n: nat, subs: seq<Result<Ber, ParseError>>)
    requires LayerOK(l, n) && |subs| == |l.cons| && Assemble(l, subs).Ok?
    requires forall k :: 0 <= k < |subs| && subs[k].Ok? ==> Unique(subs[k].value)
    ensures Unique(Assemble(l, subs).value)
  {
    AssembleChildren(l, n, subs);
    var t := Assemble(l, subs).value;
    forall i | 0 <= i < |t.children|
      ensures Unique(t.children[i])
    {
      if i >= |l.prim| {
        var k := i - |l.prim|;
        assert t.children[i] == Nested(l.cons[k], subs[k].value);
        assert Unique(subs[k].value);
      }
    }
  }

  /** Read-back of a primitive entry: its tag, under the root, reads its value. */
  lemma ParseBerReadsLeaf(data: Bytes, legacy: bool, i: nat)
    requires ParseBerSpec(data, legacy).Ok?
    ensures LayerSpec(data, legacy).Ok?
    ensures i < |LayerSpec(data, legacy).value.prim| ==>
              var f := LayerSpec(data, legacy).value.prim[i];
              Access(ParseBerSpec(data, legacy).value, [f.tag]) == Ok(f.value)
  {
    ParseBerShape(data, legacy);
    var l := LayerSpec(data, legacy).value;
    if i < |l.prim| {
      AssembledReadsLeaf(l, |data|, SubParses(l.cons, |data|, legacy), i);
    }
  }

  /** Read-back of a constructed entry: every path below its tag reads what the same path reads in the parse of its value. */
  lemma ParseBerReadsNested(data: Bytes, legacy: bool, k: nat, path: seq<nat>)
    requires ParseBerSpec(data, legacy).Ok?
    ensures LayerSpec(data, legacy).Ok?
    ensures k < |LayerSpec(data, legacy).value.cons| ==>
              var f := LayerSpec(data, legacy).value.cons[k];
              && ParseBerSpec(f.value, legacy).Ok?
              && (path != [] ==>
                    Access(ParseBerSpec(data, legacy).value, [f.tag] + path) == Access(ParseBerSpec(f.value, legacy).value, path))
  {
    ParseBerShape(data, legacy);
    var l := LayerSpec(data, legacy).value;
    if k < |l.cons| {
      AssembledReadsNested(l, |data|, SubParses(l.cons, |data|, legacy), k, if path == [] then [0] else path);
    }
  }

  /** The second loop gives agreeing results from sub-parses that agree one by one. */
  lemma {:induction false} AddConstructedAgrees(into: Ber, cons: seq<Field>, s1: seq<Result<Ber, ParseError>>, s2: seq<Result<Ber, ParseError>>)
    requires |s1| == |cons| && |s2| == |cons|
    requires forall k :: 0 <= k < |cons| ==> Agree(s1[k], s2[k])
    ensures Agree(AddConstructed(into, cons, s1), AddConstructed(into, cons, s2))
    decreases |cons|
  {
    if cons != [] && s1[0].Ok? {
      assert s2[0] == s1[0];
      match Add(into, Nested(cons[0], s1[0].value))
      case Err(_) =>
      case Ok(t) =>
        assert forall k :: 0 <= k < |cons| - 1 ==> s1[1..][k] == s1[k + 1] && s2[1..][k] == s2[k + 1];
        AddConstructedAgrees(t, cons[1..], s1[1..], s2[1..]);
    }
  }

  /**
   * The two copies build the same tree: card/ber.go fails exactly where card/ber/ber.go does (with
   * `ERROR_INVALID_LENGTH` or an index panic in place of the finer errors), and otherwise returns the same tree.
   */
  lemma {:induction false} ParseBerAgrees(data: Bytes)
    ensures Agree(ParseBerSpec(data, false), ParseBerSpec(data, true))
    decreases |data|
  {
    LayerAgrees(data, 0, EmptyLayer);
    if LayerSpec(data, false).Ok? {
      var l := LayerSpec(data, false).value;
      var s1 := SubParses(l.cons, |data|, false);
      var s2 := SubParses(l.cons, |data|, true);
      forall k | 0 <= k < |l.cons|
        ensures Agree(s1[k], s2[k])
      {
        ParseBerAgrees(l.cons[k].value);
      }
      if AddAll(EmptyRoot, Leaves(l.prim)).Ok? {
        AddConstructedAgrees(AddAll(EmptyRoot, Leaves(l.prim)).value, l.cons, s1, s2);
      }
    }
  }

  /** Every tree `ParseBER` returns has distinct tags among the children of every node. */
  lemma {:induction false} ParseBerUnique(data: Bytes, legacy: bool)
    requires ParseBerSpec(data, legacy).Ok?
    ensures Unique(ParseBerSpec(data, legacy).value)
    decreases |data|
  {
    ParseBerShape(data, legacy);
    var l := LayerSpec(data, legacy).value;
    var subs := SubParses(l.cons, |data|, legacy);
    forall k | 0 <= k < |subs| && subs[k].Ok?
      ensures Unique(subs[k].value)
    {
      ParseBerUnique(l.cons[k].value, legacy);
    }
    AssembledUnique(l, |data|, subs);
  }
}
