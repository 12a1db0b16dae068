/** A merge without conflicts carries every edit of both sides. */
module MergeLossless {
  import opened Wrappers
  import opened Bookmarks
  import opened BookmarkMerge
  import opened MergeShape
  import opened MergeSymmetry
  import opened MergeAbsorption

  /**
   `merged` carries every edit that `side` made to `base`. A deletion leaves nothing; an
   addition or a change of kind brings all its fields; an edited scalar keeps the side's value;
   and so on below, child by child. What the side left alone is unconstrained.
   */
  ghost predicate Carries(base: Option<Node>, side: Option<Node>, merged: Option<Node>)
    decreases SizeOfOption(side), 1
  {
    || side == base
    || (side.None? && merged.None?)
    || (side.Some? && merged.Some? && CarriesNode(base, side.value, merged.value))
  }

  predicate CarriesField<T(==)>(base: Option<T>, side: T, merged: T)
  {
    base == Some(side) || merged == side
  }

  ghost predicate CarriesNode(base: Option<Node>, side: Node, merged: Node)
    decreases Size(side), 0
  {
    && side.id == merged.id
    && match side {
         case Folder(id, name, added, modified, children) =>
           var b := FolderBase(base, id);
           && merged.Folder?
           && CarriesField(if b.Some? then Some(b.value.name) else None, name, merged.name)
           && CarriesField(if b.Some? then Some(b.value.dateAdded) else None, added, merged.dateAdded)
           && CarriesField(if b.Some? then Some(b.value.dateModified) else None, modified, merged.dateModified)
           && CarriesBelow(if b.Some? then b.value.children else [], children, merged.children)
         case Url(id, name, url, added) =>
           var b := UrlBase(base, id);
           && merged.Url?
           && CarriesField(if b.Some? then Some(b.value.name) else None, name, merged.name)
           && CarriesField(if b.Some? then Some(b.value.url) else None, url, merged.url)
           && CarriesField(if b.Some? then Some(b.value.dateAdded) else None, added, merged.dateAdded)
       }
  }

  /** Child by child, over every id that the base or the side knows. */
  ghost predicate CarriesBelow(base: seq<Node>, side: seq<Node>, merged: seq<Node>)
    decreases SizeOfNodes(side), 2
  {
    forall k :: k in Keys(Keyed(side)) || k in Keys(Keyed(base)) ==>
      Carries(Lookup(Keyed(base), k), Lookup(Keyed(side), k), Lookup(Keyed(merged), k))
  }

  ghost predicate CarriesRoots(base: seq<Root>, side: seq<Root>, merged: seq<Root>)
  {
    forall k :: k in Keys(side) || k in Keys(base) ==>
      Carries(Lookup(base, k), Lookup(side, k), Lookup(merged, k))
  }

  lemma {:induction false} CarriesItself(base: Option<Node>, side: Option<Node>)
    ensures Carries(base, side, side)
    decreases SizeOfOption(side)
  {
    if side.Some? && side.value.Folder? {
      var b, s := BaseChildren(base, side.value.id), side.value.children;
      forall k | k in Keys(Keyed(s)) || k in Keys(Keyed(b))
        ensures Carries(Lookup(Keyed(b), k), Lookup(Keyed(s), k), Lookup(Keyed(s), k)) {
        CarriesItself(Lookup(Keyed(b), k), Lookup(Keyed(s), k));
      }
    }
  }

  lemma {:induction false} OptionalLossless(base: Option<Node>, local: Option<Node>, remote: Option<Node>)
    requires MergeOptional(base, local, remote).conflicts == 0
    ensures Carries(base, local, MergeOptional(base, local, remote).value)
    ensures Carries(base, remote, MergeOptional(base, local, remote).value)
    decreases SizeOfOption(local), 1
  {
    if local == remote || local == base || remote == base {
      hide CarriesNode;
      CarriesItself(base, local);
      CarriesItself(base, remote);
    } else if local.Some? && remote.Some? {
      hide MergePresent;
      PresentLossless(base, local.value, remote.value);
    }
  }

  lemma {:induction false} PresentLossless(base: Option<Node>, local: Node, remote: Node)
    requires MergePresent(base, local, remote).conflicts == 0
    ensures CarriesNode(base, local, MergePresent(base, local, remote).value)
    ensures CarriesNode(base, remote, MergePresent(base, local, remote).value)
    decreases Size(local), 0
  {
    hide MergeChildren, CarriesBelow;
    if SameFolder(local, remote) {
      ChildrenLossless(BaseChildren(base, local.id), local.children, remote.children);
    }
  }

  lemma {:induction false} ChildrenLossless(base: seq<Node>, local: seq<Node>, remote: seq<Node>)
    requires MergeChildren(base, local, remote).conflicts == 0
    ensures CarriesBelow(base, local, MergeChildren(base, local, remote).value)
    ensures CarriesBelow(base, remote, MergeChildren(base, local, remote).value)
    decreases SizeOfNodes(local), 4
  {
    hide MergeOptional, Carries;
    var b, l, r := Keyed(base), Keyed(local), Keyed(remote);
    ChildrenKeyed(base, local, remote);
    EntriesTable(b, l, r);
    forall k ensures Carries(Lookup(b, k), Lookup(l, k), MergeAt(k, b, l, r).value)
                  && Carries(Lookup(b, k), Lookup(r, k), MergeAt(k, b, l, r).value) {
      NoConflictAt(k, b, l, r);
      OptionalLossless(Lookup(b, k), Lookup(l, k), Lookup(r, k));
    }
  }

  /** For every three snapshots that merge without conflict, no edit of either side is lost. */
  lemma NoSilentLoss(base: Option<Snapshot>, local: Snapshot, remote: Snapshot)
    requires MergeBookmarks(base, local, remote).Ok?
    requires MergeBookmarks(base, local, remote).value.conflicts == 0
    ensures var merged := MergeBookmarks(base, local, remote).value.value;
            && CarriesRoots(BaseRoots(base), local.roots, merged.roots)
            && CarriesRoots(BaseRoots(base), remote.roots, merged.roots)
  {
    hide MergeOptional, Carries;
    var b, l, r := BaseRoots(base), local.roots, remote.roots;
    EntriesTable(b, l, r);
    forall k ensures Carries(Lookup(b, k), Lookup(l, k), MergeAt(k, b, l, r).value)
                  && Carries(Lookup(b, k), Lookup(r, k), MergeAt(k, b, l, r).value) {
      NoConflictAt(k, b, l, r);
      OptionalLossless(Lookup(b, k), Lookup(l, k), Lookup(r, k));
    }
  }

  // ----- what the merge keeps -----

  lemma {:induction false} OptionalKeepsUnique(base: Option<Node>, local: Option<Node>, remote: Option<Node>)
    requires UniqueOption(local) && UniqueOption(remote)
    ensures UniqueOption(MergeOptional(base, local, remote).value)
    decreases SizeOfOption(local), 1
  {
    if local.Some? && remote.Some? && local != remote && local != base && remote != base {
      hide MergeChildren;
      if SameFolder(local.value, remote.value) {
        ChildrenKeepUnique(BaseChildren(base, local.value.id), local.value.children, remote.value.children);
      }
    }
  }

  lemma {:induction false} ChildrenKeepUnique(base: seq<Node>, local: seq<Node>, remote: seq<Node>)
    requires UniqueChildren(local) && UniqueChildren(remote)
    ensures UniqueChildren(MergeChildren(base, local, remote).value)
    decreases SizeOfNodes(local), 4
  {
    hide MergeOptional;
    var b, l, r := Keyed(base), Keyed(local), Keyed(remote);
    ChildrenKeyed(base, local, remote);
    EntriesTable(b, l, r);
    var out := MergeEntries(b, l, r).value;
    EachKeys(MergeOrder(b, l, r), b, l, r);
    forall c | c in Unkeyed(out) ensures UniqueSiblings(c) {
      var i :| 0 <= i < |out| && out[i].node == c;
      assert out[i] in out;
      var k := out[i].key;
      UniqueLookup(local, k);
      UniqueLookup(remote, k);
      OptionalKeepsUnique(Lookup(b, k), Lookup(l, k), Lookup(r, k));
    }
  }

  ghost predicate WellFormed(roots: seq<Root>)
  {
    NoDuplicates(Keys(roots)) && UniqueSiblingsIn(roots)
  }

  /** Distinct ids in both sides stay distinct; root keys come out distinct from any input. */
  lemma MergeKeepsWellFormed(base: seq<Root>, local: seq<Root>, remote: seq<Root>)
    requires UniqueSiblingsIn(local) && UniqueSiblingsIn(remote)
    ensures WellFormed(MergeEntries(base, local, remote).value)
  {
    hide MergeOptional;
    EntriesTable(base, local, remote);
    var out := MergeEntries(base, local, remote).value;
    EachKeys(MergeOrder(base, local, remote), base, local, remote);
    forall e | e in out ensures UniqueSiblings(e.node) {
      UniqueEntry(local, e.key);
      UniqueEntry(remote, e.key);
      OptionalKeepsUnique(Lookup(base, e.key), Lookup(local, e.key), Lookup(remote, e.key));
    }
  }

  lemma UniqueEntry(entries: seq<Root>, key: string)
    requires UniqueSiblingsIn(entries)
    ensures UniqueOption(Lookup(entries, key))
  {
    if key in Keys(entries) {
      var i := LookupFrom(entries, key);
      assert entries[i] in entries;
    }
  }
}
