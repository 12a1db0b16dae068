/** What the conflict count counts: the places of the tree where the two sides' edits clash. */
module MergeConflicts {
  import opened Wrappers
  import opened Bookmarks
  import opened BookmarkMerge
  import opened MergeShape
  import opened MergeAbsorption
  import opened MergeOutcome

  /** A whole node, or one scalar field of a node. */
  datatype Clash = WholeNode | Field(name: string)

  /** The clash and the ids that lead to its node. */
  datatype Place = Place(path: seq<string>, clash: Clash)

  predicate FieldClashes<T(==)>(base: Option<T>, local: T, remote: T)
  {
    local != remote && base != Some(local) && base != Some(remote)
  }

  function FieldPlaces<T(==)>(name: string, base: Option<T>, local: T, remote: T): set<Place>
  {
    if FieldClashes(base, local, remote) then {Place([], Field(name))} else {}
  }

  /**
   Both sides changed the node, and in ways that exclude each other: one deleted it, they made
   different things of it, or they gave a field of it different values. Children clash on their own.
   */
  ghost function Clashes(base: Option<Node>, local: Option<Node>, remote: Option<Node>): set<Place>
    decreases SizeOfOption(local), 0
  {
    if local == remote || local == base || remote == base then {}
    else if local.None? || remote.None? then {Place([], WholeNode)}
    else if SameFolder(local.value, remote.value) then
      var id, b := local.value.id, FolderBase(base, local.value.id);
      FieldPlaces("name", if b.Some? then Some(b.value.name) else None, local.value.name, remote.value.name)
      + FieldPlaces("added", if b.Some? then Some(b.value.dateAdded) else None, local.value.dateAdded,
                    remote.value.dateAdded)
      + FieldPlaces("modified", if b.Some? then Some(b.value.dateModified) else None, local.value.dateModified,
                    remote.value.dateModified)
      + ClashesBelow(Keyed(BaseChildren(base, id)), Keyed(local.value.children), Keyed(remote.value.children))
    else if SameUrl(local.value, remote.value) then
      var b := UrlBase(base, local.value.id);
      FieldPlaces("name", if b.Some? then Some(b.value.name) else None, local.value.name, remote.value.name)
      + FieldPlaces("url", if b.Some? then Some(b.value.url) else None, local.value.url, remote.value.url)
      + FieldPlaces("added", if b.Some? then Some(b.value.dateAdded) else None, local.value.dateAdded,
                    remote.value.dateAdded)
    else {Place([], WholeNode)}
  }

  ghost function ClashesBelow(base: seq<Root>, local: seq<Root>, remote: seq<Root>): set<Place>
    decreases SizeOfEntries(local), 2
  {
    set k, p | k in Keys(remote) + Keys(local) + Keys(base) && p in ClashesAt(k, base, local, remote) :: Under(k, p)
  }

  ghost function ClashesAt(k: string, base: seq<Root>, local: seq<Root>, remote: seq<Root>): set<Place>
    decreases SizeOfEntries(local), 1
  {
    Clashes(Lookup(base, k), Lookup(local, k), Lookup(remote, k))
  }

  function Under(k: string, p: Place): Place
  {
    Place([k] + p.path, p.clash)
  }

  // ----- counting -----

  lemma {:induction false} SameCount(k: string, places: set<Place>)
    ensures |set p | p in places :: Under(k, p)| == |places|
    decreases |places|
  {
    var image := set p | p in places :: Under(k, p);
    if places != {} {
      var one :| one in places;
      var rest := places - {one};
      SameCount(k, rest);
      var small := set p | p in rest :: Under(k, p);
      forall p | p in rest ensures Under(k, p) != Under(k, one) {
        assert Under(k, p).path[1..] == p.path && Under(k, one).path[1..] == one.path;
      }
      assert image == small + {Under(k, one)};
    }
  }

  ghost function ClashesOf(keys: seq<string>, base: seq<Root>, local: seq<Root>, remote: seq<Root>): set<Place>
  {
    set k, p | k in keys && p in ClashesAt(k, base, local, remote) :: Under(k, p)
  }

  lemma {:induction false} EachCounts(keys: seq<string>, base: seq<Root>, local: seq<Root>, remote: seq<Root>)
    requires NoDuplicates(keys)
    requires forall k :: MergeAt(k, base, local, remote).conflicts == |ClashesAt(k, base, local, remote)|
    ensures MergeEach(keys, base, local, remote).conflicts == |ClashesOf(keys, base, local, remote)|
  {
    hide MergeOptional, Clashes, ClashesAt;
    if keys != [] {
      var rest, last := keys[..|keys| - 1], keys[|keys| - 1];
      EachCounts(rest, base, local, remote);
      SameCount(last, ClashesAt(last, base, local, remote));
      var here := set p | p in ClashesAt(last, base, local, remote) :: Under(last, p);
      assert keys == rest + [last];
      assert ClashesOf(keys, base, local, remote) == ClashesOf(rest, base, local, remote) + here;
      forall p | p in ClashesOf(rest, base, local, remote) ensures p !in here {
        assert p.path[0] in rest;
      }
      assert MergeAt(last, base, local, remote).conflicts == |here|;
    }
  }

  lemma EntriesCount(base: seq<Root>, local: seq<Root>, remote: seq<Root>)
    requires forall k :: MergeAt(k, base, local, remote).conflicts == |ClashesAt(k, base, local, remote)|
    ensures MergeEntries(base, local, remote).conflicts == |ClashesBelow(base, local, remote)|
  {
    hide MergeOptional, Clashes, ClashesAt;
    var all := Keys(remote) + Keys(local) + Keys(base);
    DistinctFacts(all);
    EachCounts(MergeOrder(base, local, remote), base, local, remote);
    assert ClashesOf(MergeOrder(base, local, remote), base, local, remote) == ClashesBelow(base, local, remote);
  }

  lemma FieldCounts<T>(name: string, base: Option<T>, local: T, remote: T)
    ensures MergeValue(base, local, remote).conflicts == |FieldPlaces(name, base, local, remote)|
    ensures forall p :: p in FieldPlaces(name, base, local, remote) ==> p == Place([], Field(name))
  {
  }

  lemma BelowIsDeeper(base: seq<Root>, local: seq<Root>, remote: seq<Root>)
    ensures forall p :: p in ClashesBelow(base, local, remote) ==> p.path != []
  {
    hide ClashesAt;
  }

  lemma {:induction false} OptionalCounts(base: Option<Node>, local: Option<Node>, remote: Option<Node>)
    ensures MergeOptional(base, local, remote).conflicts == |Clashes(base, local, remote)|
    decreases SizeOfOption(local), 1
  {
    hide MergePresent, FieldPlaces, ClashesBelow;
    if local.Some? && remote.Some? && local != remote && local != base && remote != base {
      if SameFolder(local.value, remote.value) {
        ChildrenCount(BaseChildren(base, local.value.id), local.value.children, remote.value.children);
        FolderCounts(base, local.value, remote.value);
      } else if SameUrl(local.value, remote.value) {
        UrlCounts(base, local.value, remote.value);
      } else {
        MismatchCounts(base, local.value, remote.value);
      }
    }
  }

  lemma MismatchCounts(base: Option<Node>, local: Node, remote: Node)
    requires !SameFolder(local, remote) && !SameUrl(local, remote)
    ensures MergePresent(base, local, remote).conflicts == 1
  {
    hide MergeChildren;
  }

  lemma {:induction false} ChildrenCount(base: seq<Node>, local: seq<Node>, remote: seq<Node>)
    ensures MergeChildren(base, local, remote).conflicts == |ClashesBelow(Keyed(base), Keyed(local), Keyed(remote))|
    decreases SizeOfNodes(local), 4
  {
    hide MergeOptional, Clashes;
    var b, l, r := Keyed(base), Keyed(local), Keyed(remote);
    forall k ensures MergeAt(k, b, l, r).conflicts == |ClashesAt(k, b, l, r)| {
      OptionalCounts(Lookup(b, k), Lookup(l, k), Lookup(r, k));
    }
    EntriesCount(b, l, r);
  }

  lemma UrlCounts(base: Option<Node>, local: Node, remote: Node)
    requires SameUrl(local, remote) && local != remote && Some(local) != base && Some(remote) != base
    ensures MergePresent(base, local, remote).conflicts == |Clashes(base, Some(local), Some(remote))|
  {
    hide MergeValue, FieldPlaces, ClashesBelow;
    var b := UrlBase(base, local.id);
    FieldCounts("name", if b.Some? then Some(b.value.name) else None, local.name, remote.name);
    FieldCounts("url", if b.Some? then Some(b.value.url) else None, local.url, remote.url);
    FieldCounts("added", if b.Some? then Some(b.value.dateAdded) else None, local.dateAdded, remote.dateAdded);
    NamesDiffer();
    Disjoint4(FieldPlaces("name", if b.Some? then Some(b.value.name) else None, local.name, remote.name),
              FieldPlaces("url", if b.Some? then Some(b.value.url) else None, local.url, remote.url),
              FieldPlaces("added", if b.Some? then Some(b.value.dateAdded) else None, local.dateAdded,
                          remote.dateAdded),
              {});
  }

  lemma FolderCounts(base: Option<Node>, local: Node, remote: Node)
    requires SameFolder(local, remote) && local != remote && Some(local) != base && Some(remote) != base
    requires MergeChildren(BaseChildren(base, local.id), local.children, remote.children).conflicts
          == |ClashesBelow(Keyed(BaseChildren(base, local.id)), Keyed(local.children), Keyed(remote.children))|
    ensures MergePresent(base, local, remote).conflicts == |Clashes(base, Some(local), Some(remote))|
  {
    hide MergeValue, FieldPlaces, ClashesBelow, MergeChildren;
    var b := FolderBase(base, local.id);
    FieldCounts("name", if b.Some? then Some(b.value.name) else None, local.name, remote.name);
    FieldCounts("added", if b.Some? then Some(b.value.dateAdded) else None, local.dateAdded, remote.dateAdded);
    FieldCounts("modified", if b.Some? then Some(b.value.dateModified) else None, local.dateModified,
                remote.dateModified);
    NamesDiffer();
    BelowIsDeeper(Keyed(BaseChildren(base, local.id)), Keyed(local.children), Keyed(remote.children));
    Disjoint4(FieldPlaces("name", if b.Some? then Some(b.value.name) else None, local.name, remote.name),
              FieldPlaces("added", if b.Some? then Some(b.value.dateAdded) else None, local.dateAdded,
                          remote.dateAdded),
              FieldPlaces("modified", if b.Some? then Some(b.value.dateModified) else None, local.dateModified,
                          remote.dateModified),
              ClashesBelow(Keyed(BaseChildren(base, local.id)), Keyed(local.children), Keyed(remote.children)));
  }

  lemma NamesDiffer()
    ensures "name" != "added" && "name" != "modified" && "added" != "modified" && "name" != "url" && "added" != "url"
  {
    assert "name"[0] == 'n' && "added"[0] == 'a' && "modified"[0] == 'm' && "url"[0] == 'u';
  }

  lemma Disjoint4(a: set<Place>, b: set<Place>, c: set<Place>, d: set<Place>)
    requires a !! b && a !! c && a !! d && b !! c && b !! d && c !! d
    ensures |a + b + c + d| == |a| + |b| + |c| + |d|
    ensures |a + b + c| == |a| + |b| + |c|
  {
    assert (a + b) !! c && (a + b + c) !! d;
  }

  /** For every three snapshots, the reported count is the number of places that clash. */
  lemma ConflictsCounted(base: Option<Snapshot>, local: Snapshot, remote: Snapshot)
    requires MergeBookmarks(base, local, remote).Ok?
    ensures MergeBookmarks(base, local, remote).value.conflicts
         == |ClashesBelow(BaseRoots(base), local.roots, remote.roots)|
  {
    hide MergeOptional, Clashes;
    var b, l, r := BaseRoots(base), local.roots, remote.roots;
    forall k ensures MergeAt(k, b, l, r).conflicts == |ClashesAt(k, b, l, r)| {
      OptionalCounts(Lookup(b, k), Lookup(l, k), Lookup(r, k));
    }
    EntriesCount(b, l, r);
  }
}
