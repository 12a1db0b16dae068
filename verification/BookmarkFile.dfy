/**
 The browser's bookmark file, between its parsed JSON text and a canonical snapshot. A JSON
 object of roots is a table, walked in key order.
 */
module BookmarkFile {
  import opened Wrappers
  import opened Bookmarks
  import opened KeyOrder

  /** A node as the file holds it: a type tag and every field optional but id and name. */
  datatype RawNode = RawNode(
    id: string, name: string, kind: string, url: Option<string>,
    dateAdded: Option<string>, dateModified: Option<string>, children: seq<RawNode>)

  datatype RawBookmarks = RawBookmarks(version: nat, roots: map<string, RawNode>)

  datatype ReadError = UnsupportedNodeType(kind: string)

  const FORMAT := "helium-bookmarks-v1"
  const BROWSER := "helium"

  function ConvertNode(raw: RawNode): Result<Node, ReadError>
    decreases raw
  {
    if raw.kind == "folder" then
      match ConvertChildren(raw.children)
      case Ok(children) => Ok(Folder(raw.id, raw.name, raw.dateAdded, raw.dateModified, children))
      case Err(e) => Err(e)
    else if raw.kind == "url" then
      match raw.url
      case Some(url) => Ok(Url(raw.id, raw.name, url, raw.dateAdded))
      case None => Err(UnsupportedNodeType("url node without URL"))
    else
      Err(UnsupportedNodeType(raw.kind))
  }

  /** Left to right; the first child that does not convert decides. */
  function ConvertChildren(raws: seq<RawNode>): Result<seq<Node>, ReadError>
    decreases raws
  {
    if raws == [] then Ok([])
    else
      match ConvertNode(raws[0])
      case Err(e) => Err(e)
      case Ok(first) =>
        match ConvertChildren(raws[1..])
        case Err(e) => Err(e)
        case Ok(rest) => Ok([first] + rest)
  }

  function ConvertRoots(keys: seq<string>, roots: map<string, RawNode>): Result<seq<Root>, ReadError>
    requires forall k :: k in keys ==> k in roots
  {
    if keys == [] then Ok([])
    else
      match ConvertNode(roots[keys[0]])
      case Err(e) => Err(e)
      case Ok(node) =>
        match ConvertRoots(keys[1..], roots)
        case Err(e) => Err(e)
        case Ok(rest) => Ok([Root(keys[0], node)] + rest)
  }

  function ReadBookmarks(file: RawBookmarks, profileDirectory: string): Result<Snapshot, ReadError>
  {
    match ConvertRoots(InOrder(file.roots.Keys), file.roots)
    case Err(e) => Err(e)
    case Ok(roots) => Ok(Snapshot(FORMAT, BROWSER, profileDirectory, file.version, roots))
  }

  function SerializeNode(n: Node): RawNode
  {
    match n
    case Folder(id, name, added, modified, children) =>
      RawNode(id, name, "folder", None, added, modified, SerializeChildren(children))
    case Url(id, name, url, added) => RawNode(id, name, "url", Some(url), added, None, [])
  }

  function SerializeChildren(nodes: seq<Node>): seq<RawNode>
  {
    if nodes == [] then [] else [SerializeNode(nodes[0])] + SerializeChildren(nodes[1..])
  }

  /** The file a snapshot is written as. */
  function WriteBookmarks(s: Snapshot): RawBookmarks
  {
    var roots := Index(s.roots);
    RawBookmarks(s.chromiumVersion, map k | k in roots :: SerializeNode(roots[k]))
  }

  // ----- round trips -----

  lemma {:induction false} NodeRoundTrip(n: Node)
    ensures ConvertNode(SerializeNode(n)) == Ok(n)
    decreases n
  {
    if n.Folder? {
      ChildrenRoundTrip(n.children);
    }
  }

  lemma {:induction false} ChildrenRoundTrip(nodes: seq<Node>)
    ensures ConvertChildren(SerializeChildren(nodes)) == Ok(nodes)
    decreases nodes
  {
    if nodes != [] {
      NodeRoundTrip(nodes[0]);
      ChildrenRoundTrip(nodes[1..]);
      var raws := SerializeChildren(nodes);
      assert raws[0] == SerializeNode(nodes[0]) && raws[1..] == SerializeChildren(nodes[1..]);
      assert nodes == [nodes[0]] + nodes[1..];
    }
  }

  lemma KeysOfCons(first: Root, rest: seq<Root>)
    ensures Keys([first] + rest) == [first.key] + Keys(rest)
  {
  }

  lemma {:induction false} RootsRoundTrip(keys: seq<string>, roots: map<string, RawNode>, nodes: map<string, Node>)
    requires forall k :: k in keys ==> k in roots && k in nodes && roots[k] == SerializeNode(nodes[k])
    ensures ConvertRoots(keys, roots).Ok?
    ensures Keys(ConvertRoots(keys, roots).value) == keys
    ensures forall e :: e in ConvertRoots(keys, roots).value ==> e.key in nodes && e.node == nodes[e.key]
  {
    hide ConvertNode, SerializeNode;
    if keys != [] {
      assert keys[0] in keys;
      NodeRoundTrip(nodes[keys[0]]);
      RootsRoundTrip(keys[1..], roots, nodes);
      var rest := ConvertRoots(keys[1..], roots).value;
      KeysOfCons(Root(keys[0], nodes[keys[0]]), rest);
      assert ConvertRoots(keys, roots).value == [Root(keys[0], nodes[keys[0]])] + rest;
      assert keys == [keys[0]] + keys[1..];
    }
  }

  lemma SortedHasNoDuplicates(keys: seq<string>)
    requires Sorted(keys)
    ensures NoDuplicates(keys)
  {
    forall i, j | 0 <= i < j < |keys| ensures keys[i] != keys[j] {
      BeforeTotal(keys[i], keys[j]);
    }
  }

  /**
   Writing any snapshot and reading it back keeps the version and every node under its key,
   with the roots sorted by key; a repeated root key keeps its last node only.
   */
  lemma WriteThenRead(s: Snapshot)
    ensures var back := ReadBookmarks(WriteBookmarks(s), s.profileDirectory);
            && back.Ok?
            && back.value.(roots := []) == Snapshot(FORMAT, BROWSER, s.profileDirectory, s.chromiumVersion, [])
            && Sorted(Keys(back.value.roots))
            && forall k :: Lookup(back.value.roots, k) == Lookup(s.roots, k)
  {
    var nodes, file := Index(s.roots), WriteBookmarks(s);
    var keys := InOrder(file.roots.Keys);
    InOrderSorted(file.roots.Keys);
    RootsRoundTrip(keys, file.roots, nodes);
    var roots := ConvertRoots(keys, file.roots).value;
    forall k ensures Lookup(roots, k) == Lookup(s.roots, k) {
      if k in Keys(roots) {
        var i := LookupFrom(roots, k);
        assert roots[i] in roots;
      }
    }
  }

  /** With distinct root keys nothing is lost: the roots come back permuted into key order. */
  lemma WriteThenReadPermutes(s: Snapshot)
    requires NoDuplicates(Keys(s.roots))
    ensures ReadBookmarks(WriteBookmarks(s), s.profileDirectory).Ok?
    ensures multiset(ReadBookmarks(WriteBookmarks(s), s.profileDirectory).value.roots) == multiset(s.roots)
  {
    WriteThenRead(s);
    var roots := ReadBookmarks(WriteBookmarks(s), s.profileDirectory).value.roots;
    SortedHasNoDuplicates(Keys(roots));
    SameTableSameElements(roots, s.roots);
  }

  lemma SameTableSameElements(a: seq<Root>, b: seq<Root>)
    requires NoDuplicates(Keys(a)) && NoDuplicates(Keys(b))
    requires forall k :: Lookup(a, k) == Lookup(b, k)
    ensures multiset(a) == multiset(b)
  {
    forall e ensures multiset(a)[e] == multiset(b)[e] {
      OccursOnce(a, e);
      OccursOnce(b, e);
    }
  }

  lemma {:induction false} OccursOnce(entries: seq<Root>, e: Root)
    requires NoDuplicates(Keys(entries))
    ensures multiset(entries)[e] == if Lookup(entries, e.key) == Some(e.node) then 1 else 0
  {
    if entries != [] {
      var rest, last := entries[..|entries| - 1], entries[|entries| - 1];
      assert entries == rest + [last];
      assert Keys(entries) == Keys(rest) + [last.key];
      assert last.key !in Keys(rest) by {
        assert forall i :: 0 <= i < |rest| ==> Keys(rest)[i] == Keys(entries)[i] != Keys(entries)[|rest|];
      }
      assert NoDuplicates(Keys(rest)) by {
        assert forall i :: 0 <= i < |rest| ==> Keys(rest)[i] == Keys(entries)[i];
      }
      OccursOnce(rest, e);
    }
  }

  /** A snapshot survives the file unchanged exactly when it has the shape that reading gives. */
  lemma RoundTripExactly(s: Snapshot)
    ensures ReadBookmarks(WriteBookmarks(s), s.profileDirectory) == Ok(s)
        <==> Sorted(Keys(s.roots)) && s.format == FORMAT && s.sourceBrowser == BROWSER
  {
    WriteThenRead(s);
    var back := ReadBookmarks(WriteBookmarks(s), s.profileDirectory).value;
    if Sorted(Keys(s.roots)) {
      SortedHasNoDuplicates(Keys(s.roots));
      forall k ensures k in Keys(s.roots) <==> k in Keys(back.roots) {
        assert Lookup(back.roots, k) == Lookup(s.roots, k);
      }
      SortedUnique(Keys(s.roots), Keys(back.roots));
      SameKeysSameTable(s.roots, back.roots);
    }
  }

  lemma {:induction false} RootsConvertedInOrder(keys: seq<string>, roots: map<string, RawNode>)
    requires forall k :: k in keys ==> k in roots
    requires ConvertRoots(keys, roots).Ok?
    ensures Keys(ConvertRoots(keys, roots).value) == keys
  {
    if keys != [] {
      RootsConvertedInOrder(keys[1..], roots);
      assert keys == [keys[0]] + keys[1..];
    }
  }

  lemma ReadIsSorted(file: RawBookmarks, profileDirectory: string)
    requires ReadBookmarks(file, profileDirectory).Ok?
    ensures Sorted(Keys(ReadBookmarks(file, profileDirectory).value.roots))
  {
    InOrderSorted(file.roots.Keys);
    RootsConvertedInOrder(InOrder(file.roots.Keys), file.roots);
  }

  /** Any readable file: reading, writing what was read and reading again gives the same. */
  lemma ReadWriteRead(file: RawBookmarks, profileDirectory: string)
    requires ReadBookmarks(file, profileDirectory).Ok?
    ensures var s := ReadBookmarks(file, profileDirectory).value;
            ReadBookmarks(WriteBookmarks(s), profileDirectory) == Ok(s)
  {
    ReadIsSorted(file, profileDirectory);
    RoundTripExactly(ReadBookmarks(file, profileDirectory).value);
  }

  // ----- what can be read, and as what -----

  /** Folders of such nodes, and urls that have one. */
  predicate Convertible(raw: RawNode)
    decreases raw
  {
    || (raw.kind == "folder" && forall c :: c in raw.children ==> Convertible(c))
    || (raw.kind == "url" && raw.url.Some?)
  }

  /** Field by field, and child by child in order, the node is what the file says. */
  ghost predicate Shows(raw: RawNode, n: Node)
    decreases raw
  {
    && n.id == raw.id && n.name == raw.name && n.dateAdded == raw.dateAdded
    && (raw.kind == "folder" ==>
          && n.Folder? && n.dateModified == raw.dateModified && |n.children| == |raw.children|
          && forall i :: 0 <= i < |raw.children| ==> Shows(raw.children[i], n.children[i]))
    && (raw.kind == "url" ==> n.Url? && Some(n.url) == raw.url)
  }

  lemma {:induction false} ConvertsExactly(raw: RawNode)
    ensures ConvertNode(raw).Ok? <==> Convertible(raw)
    ensures ConvertNode(raw).Ok? ==> Shows(raw, ConvertNode(raw).value)
    ensures raw.kind != "folder" && raw.kind != "url" ==> ConvertNode(raw) == Err(UnsupportedNodeType(raw.kind))
    ensures raw.kind == "url" && raw.url.None? ==>
              ConvertNode(raw) == Err(UnsupportedNodeType("url node without URL"))
    decreases raw
  {
    if raw.kind == "folder" { ChildrenConvertExactly(raw.children); }
  }

  lemma {:induction false} ChildrenConvertExactly(raws: seq<RawNode>)
    ensures ConvertChildren(raws).Ok? <==> forall c :: c in raws ==> Convertible(c)
    ensures ConvertChildren(raws).Ok? ==>
              var nodes := ConvertChildren(raws).value;
              |nodes| == |raws| && forall i :: 0 <= i < |raws| ==> Shows(raws[i], nodes[i])
    decreases raws
  {
    hide Convertible, Shows;
    if raws != [] {
      assert raws[0] in raws;
      assert raws == [raws[0]] + raws[1..];
      ConvertsExactly(raws[0]);
      ChildrenConvertExactly(raws[1..]);
    }
  }

  lemma {:induction false} RootsConvertExactly(keys: seq<string>, roots: map<string, RawNode>)
    requires forall k :: k in keys ==> k in roots
    ensures ConvertRoots(keys, roots).Ok? <==> forall k :: k in keys ==> Convertible(roots[k])
    ensures ConvertRoots(keys, roots).Ok? ==>
              forall e :: e in ConvertRoots(keys, roots).value ==> e.key in roots && Shows(roots[e.key], e.node)
  {
    hide Convertible, Shows;
    if keys != [] {
      assert keys == [keys[0]] + keys[1..];
      ConvertsExactly(roots[keys[0]]);
      RootsConvertExactly(keys[1..], roots);
    }
  }

  /**
   A file is read exactly when every node in it can be; the snapshot then has the file's version,
   its roots in key order, and under each key the node that the file shows there.
   */
  lemma ReadExactly(file: RawBookmarks, profileDirectory: string)
    ensures ReadBookmarks(file, profileDirectory).Ok? <==> forall k :: k in file.roots ==> Convertible(file.roots[k])
    ensures ReadBookmarks(file, profileDirectory).Ok? ==>
              var s := ReadBookmarks(file, profileDirectory).value;
              && s.format == "helium-bookmarks-v1" && s.sourceBrowser == "helium"
              && s.profileDirectory == profileDirectory && s.chromiumVersion == file.version
              && Sorted(Keys(s.roots)) && (forall k :: k in Keys(s.roots) <==> k in file.roots)
              && forall e :: e in s.roots ==> e.key in file.roots && Shows(file.roots[e.key], e.node)
  {
    hide Convertible, Shows;
    var keys := InOrder(file.roots.Keys);
    InOrderSorted(file.roots.Keys);
    RootsConvertExactly(keys, file.roots);
    if ReadBookmarks(file, profileDirectory).Ok? { RootsConvertedInOrder(keys, file.roots); }
  }
}
