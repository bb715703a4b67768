/**
 * The BER tree of card/ber/ber.go (repeated verbatim in card/ber.go): leaves carry data, constructed
 * nodes carry children; `add` inserts a node, merging into an existing constructed node with the same
 * tag and replacing an existing leaf with the same tag; `access` follows a path of tags.
 */
module BerTree {
  import opened Bytes
  import opened Wrappers
  import opened Errors

  /** A node: its complete tag, whether it is a leaf, a leaf's data, a constructed node's children. */
  datatype Ber = Ber(tag: nat, primitive: bool, data: Bytes, children: seq<Ber>)

  /** The number of nodes of a tree. */
  function Size(b: Ber): (n: nat)
    ensures n >= 1
    decreases b
  {
    1 + SizeAll(b.children)
  }

  function SizeAll(bs: seq<Ber>): nat
    decreases bs
  {
    if bs == [] then 0 else Size(bs[0]) + SizeAll(bs[1..])
  }

  /** The loop of `add` and `access` that stops at the first child with the tag. */
  function FindChild(cs: seq<Ber>, tag: nat): (r: Option<nat>)
    ensures r.Some? ==> r.value < |cs| && cs[r.value].tag == tag
    ensures r.Some? ==> forall j :: 0 <= j < r.value ==> cs[j].tag != tag
    ensures r.None? <==> forall j :: 0 <= j < |cs| ==> cs[j].tag != tag
  {
    if cs == [] then None
    else if cs[0].tag == tag then Some(0)
    else match FindChild(cs[1..], tag)
      case None => None
      case Some(i) => Some(i + 1)
  }

  /** `into.add(new)`. */
  function Add(into: Ber, node: Ber): (r: Result<Ber, ParseError>)
    ensures into.primitive ==> r == Err(AddIntoPrimitive)
    ensures r.Ok? ==> r.value.tag == into.tag && !r.value.primitive && r.value.data == into.data
    ensures r.Ok? ==> |r.value.children| >= |into.children|
    ensures r.Err? ==> r.error == AddIntoPrimitive || r.error == TypesDontMatch
    decreases Size(node), 1
  {
    if into.primitive then Err(AddIntoPrimitive)
    else
      match FindChild(into.children, node.tag)
      case None => Ok(into.(children := into.children + [node]))
      case Some(i) =>
        var target := into.children[i];
        if target.primitive != node.primitive then Err(TypesDontMatch)
        else if target.primitive then Ok(into.(children := into.children[i := node]))
        else
          match AddAll(target, node.children)
          case Err(e) => Err(e)
          case Ok(merged) => Ok(into.(children := into.children[i := merged]))
  }

  /** `add` of each node of `news` in turn, stopping at the first failure. */
  function AddAll(into: Ber, news: seq<Ber>): (r: Result<Ber, ParseError>)
    ensures r.Ok? ==> r.value.tag == into.tag && r.value.primitive == into.primitive && r.value.data == into.data
    ensures r.Ok? ==> |r.value.children| >= |into.children|
    ensures r.Err? ==> r.error == AddIntoPrimitive || r.error == TypesDontMatch
    decreases SizeAll(news), 2
  {
    if news == [] then Ok(into)
    else
      match Add(into, news[0])
      case Err(e) => Err(e)
      case Ok(t) => AddAll(t, news[1..])
  }

  /** `into.Merge(new)`: the children of `new` added into `into`, whose root tag must be the same. */
  function Merge(into: Ber, node: Ber): (r: Result<Ber, ParseError>)
    ensures into.tag != node.tag ==> r == Err(TagsDontMatch)
    ensures into.tag == node.tag && r.Err? ==> r.error == AddIntoPrimitive || r.error == TypesDontMatch
    ensures r.Ok? ==> r.value.tag == into.tag && r.value.primitive == into.primitive
  {
    if into.tag != node.tag then Err(TagsDontMatch) else AddAll(into, node.children)
  }

  /** The node a path of tags leads to, taking the first child with each tag. */
  function Lookup(tree: Ber, path: seq<nat>): Option<Ber>
    decreases |path|
  {
    if path == [] then Some(tree)
    else
      match FindChild(tree.children, path[0])
      case None => None
      case Some(i) => Lookup(tree.children[i], path[1..])
  }

  /** `tree.access(path...)`. */
  function Access(tree: Ber, path: seq<nat>): (r: Result<Bytes, ParseError>)
    ensures r.Err? ==> r.error == TagNotFound
    decreases |path|
  {
    if path == [] then Ok(tree.data)
    else
      match FindChild(tree.children, path[0])
      case None => Err(TagNotFound)
      case Some(i) => Access(tree.children[i], path[1..])
  }

  /** A path under a tag reads what the rest of the path reads in the first child with that tag. */
  lemma AccessStep(tree: Ber, tag: nat, path: seq<nat>, i: nat)
    requires FindChild(tree.children, tag) == Some(i)
    ensures Access(tree, [tag] + path) == Access(tree.children[i], path)
  {
    assert ([tag] + path)[1..] == path;
  }

  /** `access` reads the data of the node `Lookup` finds, and fails exactly where `Lookup` finds none. */
  lemma {:induction false} AccessIsLookup(tree: Ber, path: seq<nat>)
    ensures Access(tree, path) == match Lookup(tree, path) case None => Err(TagNotFound) case Some(n) => Ok(n.data)
    decreases |path|
  {
    if path != [] {
      match FindChild(tree.children, path[0])
      case None =>
      case Some(i) => AccessIsLookup(tree.children[i], path[1..]);
    }
  }

  /** `tree.AssignFrom(&target, path...)`: the data at the path, or `target` unchanged when the path is missing. */
  function AssignFrom(tree: Ber, target: Bytes, path: seq<nat>): (s: Bytes)
    ensures Access(tree, path).Ok? ==> s == Access(tree, path).value
    ensures Access(tree, path).Err? ==> s == target
  {
    match Access(tree, path)
    case Ok(v) => v
    case Err(_) => target
  }

  /** No two children of any node share a tag. */
  predicate Unique(b: Ber)
    decreases b
  {
    && (forall i, j :: 0 <= i < j < |b.children| ==> b.children[i].tag != b.children[j].tag)
    && (forall i :: 0 <= i < |b.children| ==> Unique(b.children[i]))
  }

  /** After a successful `add` of a leaf, the leaf's tag reads back the leaf's data. */
  lemma AddLeafReadsBack(into: Ber, node: Ber)
    requires node.primitive && Add(into, node).Ok?
    ensures Access(Add(into, node).value, [node.tag]) == Ok(node.data)
  {
    var t := Add(into, node).value;
    match FindChild(into.children, node.tag)
    case None =>
      assert t.children[|into.children|] == node;
      assert FindChild(t.children, node.tag) == Some(|into.children|);
    case Some(i) =>
      assert t.children[i] == node;
      assert FindChild(t.children, node.tag) == Some(i);
  }

  /** A successful `add` leaves every child with another tag where it was. */
  lemma AddFrame(into: Ber, node: Ber, tag: nat)
    requires Add(into, node).Ok? && tag != node.tag
    ensures FindChild(Add(into, node).value.children, tag) == FindChild(into.children, tag)
    ensures match FindChild(into.children, tag)
            case None => true
            case Some(k) => Add(into, node).value.children[k] == into.children[k]
  {
    var t := Add(into, node).value;
    var cs := into.children;
    match FindChild(cs, node.tag)
    case None =>
      assert t.children == cs + [node];
      FindChildAppend(cs, node, tag);
    case Some(i) =>
      assert |t.children| == |cs| && t.children[i].tag == node.tag;
      assert forall j :: 0 <= j < |cs| && j != i ==> t.children[j] == cs[j];
      FindChildSameTags(cs, t.children, tag);
  }

  lemma FindChildAppend(cs: seq<Ber>, node: Ber, tag: nat)
    requires tag != node.tag
    ensures FindChild(cs + [node], tag) == FindChild(cs, tag)
  {
    var r := FindChild(cs + [node], tag);
    var s := FindChild(cs, tag);
    if s.Some? {
      assert (cs + [node])[s.value].tag == tag;
    }
    if r.Some? {
      assert r.value < |cs|;
      assert cs[r.value].tag == tag;
    }
  }

  lemma FindChildSameTags(a: seq<Ber>, b: seq<Ber>, tag: nat)
    requires |a| == |b| && forall j :: 0 <= j < |a| ==> (a[j].tag == tag <==> b[j].tag == tag)
    ensures FindChild(a, tag) == FindChild(b, tag)
  {
  }

  /** A successful run of adds leaves a child whose tag none of them has where it was. */
  lemma {:induction false} AddAllFrame(into: Ber, news: seq<Ber>, tag: nat)
    requires AddAll(into, news).Ok?
    requires forall k :: 0 <= k < |news| ==> news[k].tag != tag
    ensures FindChild(AddAll(into, news).value.children, tag) == FindChild(into.children, tag)
    ensures match FindChild(into.children, tag)
            case None => true
            case Some(k) => AddAll(into, news).value.children[k] == into.children[k]
    decreases |news|
  {
    if news != [] {
      AddFrame(into, news[0], tag);
      AddAllFrame(Add(into, news[0]).value, news[1..], tag);
    }
  }

  /** A leaf somewhere in a tree: the node a path leads to is primitive. */
  predicate LeafAt(tree: Ber, path: seq<nat>)
  {
    Lookup(tree, path).Some? && Lookup(tree, path).value.primitive
  }

  /**
   * Read-back: after a successful `add` of a tree whose siblings have distinct tags, each of its leaves
   * is found under the added tag, whatever `into` held before.
   */
  lemma {:induction false} AddReadsBack(into: Ber, node: Ber, path: seq<nat>)
    requires Unique(node) && Add(into, node).Ok? && LeafAt(node, path)
    ensures Lookup(Add(into, node).value, [node.tag] + path) == Lookup(node, path)
    decreases Size(node), 1
  {
    var t := Add(into, node).value;
    var i := AddFound(into, node);
    LookupStep(t, node.tag, path, i);
    if t.children[i] != node {
      var j := FindChild(node.children, path[0]).value;
      LookupStep(node, node.children[j].tag, path[1..], j);
      assert path == [node.children[j].tag] + path[1..];
      AddAllReadsBack(into.children[i], node.children, j, path[1..]);
    }
  }

  /** Where a successful `add` puts a node: the first child with its tag is the node, or what merging it there gave. */
  lemma AddFound(into: Ber, node: Ber) returns (i: nat)
    requires Add(into, node).Ok?
    ensures FindChild(Add(into, node).value.children, node.tag) == Some(i)
    ensures var c := Add(into, node).value.children[i];
            c == node
            || (&& !node.primitive && i < |into.children|
                && AddAll(into.children[i], node.children) == Ok(c))
  {
    var t := Add(into, node).value;
    var cs := into.children;
    match FindChild(cs, node.tag)
    case None =>
      assert t.children == cs + [node];
      i := |cs|;
      assert t.children[i] == node;
    case Some(k) =>
      i := k;
      assert |t.children| == |cs| && t.children[i].tag == node.tag;
      assert forall j :: 0 <= j < |cs| && j != i ==> t.children[j] == cs[j];
      FindChildSameTags(cs, t.children, node.tag);
  }

  /** A path under a tag leads where the rest of the path leads from the first child with that tag. */
  lemma LookupStep(tree: Ber, tag: nat, path: seq<nat>, i: nat)
    requires FindChild(tree.children, tag) == Some(i)
    ensures Lookup(tree, [tag] + path) == Lookup(tree.children[i], path)
  {
    assert ([tag] + path)[1..] == path;
  }

  lemma {:induction false} AddAllReadsBack(into: Ber, news: seq<Ber>, k: nat, path: seq<nat>)
    requires forall a, b :: 0 <= a < b < |news| ==> news[a].tag != news[b].tag
    requires forall a :: 0 <= a < |news| ==> Unique(news[a])
    requires AddAll(into, news).Ok? && k < |news| && LeafAt(news[k], path)
    ensures Lookup(AddAll(into, news).value, [news[k].tag] + path) == Lookup(news[k], path)
    decreases SizeAll(news), 2
  {
    var t0 := Add(into, news[0]).value;
    if k == 0 {
      AddReadsBack(into, news[0], path);
      AddAllFrame(t0, news[1..], news[0].tag);
      var i := FindChild(t0.children, news[0].tag).value;
      assert ([news[0].tag] + path)[1..] == path;
    } else {
      AddAllReadsBack(t0, news[1..], k - 1, path);
    }
  }

  /** A successful `Merge` holds every leaf of the merged-in tree at the same path. */
  lemma MergeReadsBack(into: Ber, node: Ber, path: seq<nat>)
    requires Unique(node) && Merge(into, node).Ok? && LeafAt(node, path) && path != []
    ensures Lookup(Merge(into, node).value, path) == Lookup(node, path)
    ensures Access(Merge(into, node).value, path) == Ok(Lookup(node, path).value.data)
  {
    var j := FindChild(node.children, path[0]).value;
    assert path == [node.children[j].tag] + path[1..];
    AddAllReadsBack(into, node.children, j, path[1..]);
    AccessIsLookup(Merge(into, node).value, path);
  }

  /** `add` keeps sibling tags distinct. */
  lemma {:induction false} AddKeepsUnique(into: Ber, node: Ber)
    requires Unique(into) && Unique(node) && Add(into, node).Ok?
    ensures Unique(Add(into, node).value)
    decreases Size(node), 1
  {
    var t := Add(into, node).value;
    var cs := into.children;
    match FindChild(cs, node.tag)
    case None =>
      assert t.children == cs + [node];
    case Some(i) =>
      if !node.primitive && !cs[i].primitive {
        AddAllKeepsUnique(cs[i], node.children);
      }
  }

  lemma {:induction false} AddAllKeepsUnique(into: Ber, news: seq<Ber>)
    requires Unique(into) && forall a :: 0 <= a < |news| ==> Unique(news[a])
    requires AddAll(into, news).Ok?
    ensures Unique(AddAll(into, news).value)
    decreases SizeAll(news), 2
  {
    if news != [] {
      AddKeepsUnique(into, news[0]);
      AddAllKeepsUnique(Add(into, news[0]).value, news[1..]);
    }
  }
}
