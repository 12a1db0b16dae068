/**
 When a merge reports conflicts, and how it settles them: no conflict is reported if and only if
 some tree keeps both sides' edits, and where none does, the remote side's edit stands.
 */
module MergeOutcome {
  import opened Wrappers
  import opened Bookmarks
  import opened BookmarkMerge
  import opened MergeShape
  import opened MergeSymmetry
  import opened MergeAbsorption
  import opened MergeLossless

  // ----- conflicts, exactly -----

  lemma {:induction false} EachQuiet(keys: seq<string>, base: seq<Root>, local: seq<Root>, remote: seq<Root>)
    requires forall k :: MergeAt(k, base, local, remote).conflicts == 0
    ensures MergeEach(keys, base, local, remote).conflicts == 0
  {
    hide MergeOptional;
    if keys != [] {
      EachQuiet(keys[..|keys| - 1], base, local, remote);
      assert MergeAt(keys[|keys| - 1], base, local, remote).conflicts == 0;
    }
  }

  lemma {:induction false} OptionalQuiet(base: Option<Node>, local: Option<Node>, remote: Option<Node>,
                                         both: Option<Node>)
    requires Carries(base, local, both) && Carries(base, remote, both)
    ensures MergeOptional(base, local, remote).conflicts == 0
    decreases SizeOfOption(local), 1
  {
    if local.Some? && remote.Some? && local != remote && local != base && remote != base {
      hide MergePresent, CarriesNode;
      PresentQuiet(base, local.value, remote.value, both.value);
    } else {
      hide MergePresent, CarriesNode;
    }
  }

  lemma {:induction false} PresentQuiet(base: Option<Node>, local: Node, remote: Node, both: Node)
    requires CarriesNode(base, local, both) && CarriesNode(base, remote, both)
    ensures MergePresent(base, local, remote).conflicts == 0
    decreases Size(local), 0
  {
    hide MergeChildren, CarriesBelow;
    if SameFolder(local, remote) {
      ChildrenQuiet(BaseChildren(base, local.id), local.children, remote.children, both.children);
    }
  }

  lemma {:induction false} ChildrenQuiet(base: seq<Node>, local: seq<Node>, remote: seq<Node>, both: seq<Node>)
    requires CarriesBelow(base, local, both) && CarriesBelow(base, remote, both)
    ensures MergeChildren(base, local, remote).conflicts == 0
    decreases SizeOfNodes(local), 4
  {
    hide MergeOptional, Carries;
    var b, l, r := Keyed(base), Keyed(local), Keyed(remote);
    forall k ensures MergeAt(k, b, l, r).conflicts == 0 {
      if k in Keys(b) || (k in Keys(l) && k in Keys(r)) {
        OptionalQuiet(Lookup(b, k), Lookup(l, k), Lookup(r, k), Lookup(Keyed(both), k));
      } else {
        OneSidedQuiet(k, b, l, r);
      }
    }
    EachQuiet(MergeOrder(b, l, r), b, l, r);
  }

  lemma OneSidedQuiet(k: string, base: seq<Root>, local: seq<Root>, remote: seq<Root>)
    requires k !in Keys(base) && (k !in Keys(local) || k !in Keys(remote))
    ensures MergeAt(k, base, local, remote).conflicts == 0
  {
  }

  /** Some roots keep every edit of both sides. */
  ghost predicate Compatible(base: seq<Root>, local: seq<Root>, remote: seq<Root>)
  {
    exists both :: CarriesRoots(base, local, both) && CarriesRoots(base, remote, both)
  }

  /**
   The merge reports no conflict if and only if the two sides' edits can stand together at all,
   for every three snapshots, repeated ids and root keys included.
   */
  lemma ConflictFreeExactly(base: Option<Snapshot>, local: Snapshot, remote: Snapshot)
    requires MergeBookmarks(base, local, remote).Ok?
    ensures MergeBookmarks(base, local, remote).value.conflicts == 0
            <==> Compatible(BaseRoots(base), local.roots, remote.roots)
  {
    hide MergeOptional, Carries;
    var b, l, r := BaseRoots(base), local.roots, remote.roots;
    if MergeBookmarks(base, local, remote).value.conflicts == 0 {
      NoSilentLoss(base, local, remote);
    }
    if both :| CarriesRoots(b, l, both) && CarriesRoots(b, r, both) {
      forall k ensures MergeAt(k, b, l, r).conflicts == 0 {
        if k in Keys(b) || (k in Keys(l) && k in Keys(r)) {
          OptionalQuiet(Lookup(b, k), Lookup(l, k), Lookup(r, k), Lookup(both, k));
        } else {
          OneSidedQuiet(k, b, l, r);
        }
      }
      EachQuiet(MergeOrder(b, l, r), b, l, r);
    }
  }

  // ----- conflicts, settled -----

  function ChildrenOf(n: Option<Node>, id: string): seq<Node>
  {
    if n.Some? && n.value.Folder? && n.value.id == id then n.value.children else []
  }

  /**
   The remote side's edits are in the result even where they clash with local ones, with one
   exception at every depth: a node deleted remotely but changed locally stays as it is locally.
   */
  ghost predicate RemoteStands(base: Option<Node>, local: Option<Node>, remote: Option<Node>, merged: Option<Node>)
    decreases SizeOfOption(remote), 1
  {
    || remote == base
    || (remote.None? && merged == if local == base then None else local)
    || (remote.Some? && merged.Some? && RemoteNodeStands(base, local, remote.value, merged.value))
  }

  ghost predicate RemoteNodeStands(base: Option<Node>, local: Option<Node>, remote: Node, merged: Node)
    decreases Size(remote), 0
  {
    && remote.id == merged.id
    && match remote {
         case Folder(id, name, added, modified, children) =>
           var b := FolderBase(base, id);
           && merged.Folder?
           && CarriesField(if b.Some? then Some(b.value.name) else None, name, merged.name)
           && CarriesField(if b.Some? then Some(b.value.dateAdded) else None, added, merged.dateAdded)
           && CarriesField(if b.Some? then Some(b.value.dateModified) else None, modified, merged.dateModified)
           && RemoteStandsBelow(if b.Some? then b.value.children else [], ChildrenOf(local, id), children,
                                merged.children)
         case Url(id, name, url, added) =>
           var b := UrlBase(base, id);
           && merged.Url?
           && CarriesField(if b.Some? then Some(b.value.name) else None, name, merged.name)
           && CarriesField(if b.Some? then Some(b.value.url) else None, url, merged.url)
           && CarriesField(if b.Some? then Some(b.value.dateAdded) else None, added, merged.dateAdded)
       }
  }

  ghost predicate RemoteStandsBelow(base: seq<Node>, local: seq<Node>, remote: seq<Node>, merged: seq<Node>)
    decreases SizeOfNodes(remote), 2
  {
    forall k :: k in Keys(Keyed(remote)) || k in Keys(Keyed(base)) ==>
      RemoteStands(Lookup(Keyed(base), k), Lookup(Keyed(local), k), Lookup(Keyed(remote), k), Lookup(Keyed(merged), k))
  }

  /** The local side has nothing to set against the remote node. */
  predicate Yields(base: Option<Node>, local: Option<Node>, remote: Option<Node>)
  {
    local == base || local.None? || local == remote
  }

  lemma {:induction false} RemoteItselfStands(base: Option<Node>, local: Option<Node>, remote: Option<Node>)
    requires Yields(base, local, remote)
    ensures RemoteStands(base, local, remote, remote)
    decreases SizeOfOption(remote), 0
  {
    if remote.Some? && remote.value.Folder? {
      var id := remote.value.id;
      RemoteChildrenStand(BaseChildren(base, id), ChildrenOf(local, id), remote.value.children);
      hide RemoteStandsBelow;
    }
  }

  lemma {:induction false} RemoteChildrenStand(base: seq<Node>, local: seq<Node>, remote: seq<Node>)
    requires local == base || local == [] || local == remote
    ensures RemoteStandsBelow(base, local, remote, remote)
    decreases SizeOfNodes(remote), 1
  {
    hide RemoteStands;
    forall k | k in Keys(Keyed(remote)) || k in Keys(Keyed(base))
      ensures RemoteStands(Lookup(Keyed(base), k), Lookup(Keyed(local), k), Lookup(Keyed(remote), k),
                           Lookup(Keyed(remote), k)) {
      assert local == [] ==> Lookup(Keyed(local), k).None?;
      if k in Keys(Keyed(remote)) {
        RemoteItselfStands(Lookup(Keyed(base), k), Lookup(Keyed(local), k), Lookup(Keyed(remote), k));
      } else {
        RemoteGoneStands(Lookup(Keyed(base), k), Lookup(Keyed(local), k));
      }
    }
  }

  lemma RemoteGoneStands(base: Option<Node>, local: Option<Node>)
    requires Yields(base, local, None)
    ensures RemoteStands(base, local, None, None)
  {
  }

  lemma {:induction false} OptionalRemoteStands(base: Option<Node>, local: Option<Node>, remote: Option<Node>)
    ensures RemoteStands(base, local, remote, MergeOptional(base, local, remote).value)
    decreases SizeOfOption(local), 1
  {
    hide RemoteNodeStands;
    if Yields(base, local, remote) {
      RemoteItselfStands(base, local, remote);
    } else if local.Some? && remote.Some? && remote != base {
      hide MergePresent;
      PresentRemoteStands(base, local.value, remote.value);
    }
  }

  lemma {:induction false} PresentRemoteStands(base: Option<Node>, local: Node, remote: Node)
    ensures RemoteNodeStands(base, Some(local), remote, MergePresent(base, local, remote).value)
    decreases Size(local), 0
  {
    hide MergeChildren, RemoteStandsBelow;
    if SameFolder(local, remote) {
      ChildrenRemoteStand(BaseChildren(base, local.id), local.children, remote.children);
    } else if remote.Folder? {
      RemoteChildrenStand(BaseChildren(base, remote.id), [], remote.children);
    }
  }

  lemma {:induction false} ChildrenRemoteStand(base: seq<Node>, local: seq<Node>, remote: seq<Node>)
    ensures RemoteStandsBelow(base, local, remote, MergeChildren(base, local, remote).value)
    decreases SizeOfNodes(local), 4
  {
    hide MergeOptional, RemoteStands;
    var b, l, r := Keyed(base), Keyed(local), Keyed(remote);
    ChildrenKeyed(base, local, remote);
    EntriesTable(b, l, r);
    forall k ensures RemoteStands(Lookup(b, k), Lookup(l, k), Lookup(r, k), MergeAt(k, b, l, r).value) {
      OptionalRemoteStands(Lookup(b, k), Lookup(l, k), Lookup(r, k));
    }
  }

  /**
   For every three snapshots, conflicts or not: each remote edit is in the result, except that a
   remote deletion yields to a local change of the deleted node.
   */
  lemma RemoteEditsStand(base: Option<Snapshot>, local: Snapshot, remote: Snapshot)
    requires MergeBookmarks(base, local, remote).Ok?
    ensures var merged := MergeBookmarks(base, local, remote).value.value;
            forall k :: RemoteStands(Lookup(BaseRoots(base), k), Lookup(local.roots, k), Lookup(remote.roots, k),
                                     Lookup(merged.roots, k))
  {
    hide MergeOptional, RemoteStands;
    var b, l, r := BaseRoots(base), local.roots, remote.roots;
    EntriesTable(b, l, r);
    forall k ensures RemoteStands(Lookup(b, k), Lookup(l, k), Lookup(r, k), MergeAt(k, b, l, r).value) {
      OptionalRemoteStands(Lookup(b, k), Lookup(l, k), Lookup(r, k));
    }
  }

  // ----- local edits, where they are not overruled -----

  /** A field the remote side left at its base value comes out as the local one. */
  predicate LeftToLocal<T(==)>(base: Option<T>, local: T, remote: T, merged: T)
  {
    base == Some(remote) ==> merged == local
  }

  predicate SameUrl(local: Node, remote: Node)
  {
    local.Url? && remote.Url? && local.id == remote.id
  }

  /**
   The counterpart for the local side. A node, or its absence, that the remote side left alone is
   the local one; a node deleted remotely but changed locally is the local one; and in a node of one
   kind and id on both sides, each field the remote side left alone is the local one, whatever
   became of the others. The same holds below, id by id.
   */
  ghost predicate LocalStands(base: Option<Node>, local: Option<Node>, remote: Option<Node>, merged: Option<Node>)
    decreases SizeOfOption(local), 1
  {
    && (remote == base ==> merged == local)
    && (remote.None? && local != base ==> merged == local)
    && (local.Some? && remote.Some? && (SameFolder(local.value, remote.value) || SameUrl(local.value, remote.value)) ==>
          merged.Some? && LocalNodeStands(base, local.value, remote.value, merged.value))
  }

  ghost predicate LocalNodeStands(base: Option<Node>, local: Node, remote: Node, merged: Node)
    requires SameFolder(local, remote) || SameUrl(local, remote)
    decreases Size(local), 0
  {
    && merged.id == local.id
    && match local {
         case Folder(id, name, added, modified, children) =>
           var b := FolderBase(base, id);
           && merged.Folder?
           && LeftToLocal(if b.Some? then Some(b.value.name) else None, name, remote.name, merged.name)
           && LeftToLocal(if b.Some? then Some(b.value.dateAdded) else None, added, remote.dateAdded, merged.dateAdded)
           && LeftToLocal(if b.Some? then Some(b.value.dateModified) else None, modified, remote.dateModified,
                          merged.dateModified)
           && LocalStandsBelow(if b.Some? then b.value.children else [], children, remote.children, merged.children)
         case Url(id, name, url, added) =>
           var b := UrlBase(base, id);
           && merged.Url?
           && LeftToLocal(if b.Some? then Some(b.value.name) else None, name, remote.name, merged.name)
           && LeftToLocal(if b.Some? then Some(b.value.url) else None, url, remote.url, merged.url)
           && LeftToLocal(if b.Some? then Some(b.value.dateAdded) else None, added, remote.dateAdded, merged.dateAdded)
       }
  }

  ghost predicate LocalStandsBelow(base: seq<Node>, local: seq<Node>, remote: seq<Node>, merged: seq<Node>)
    decreases SizeOfNodes(local), 2
  {
    forall k :: LocalStands(Lookup(Keyed(base), k), Lookup(Keyed(local), k), Lookup(Keyed(remote), k),
                            Lookup(Keyed(merged), k))
  }

  /** Where the local side made no edit, the remote node has nothing to keep but what both had. */
  lemma {:induction false} RemoteKeepsLocal(base: Option<Node>, local: Option<Node>, remote: Option<Node>)
    requires local == base || local == remote
    ensures LocalStands(base, local, remote, remote)
    decreases SizeOfOption(local), 0
  {
    if local.Some? && remote.Some? && SameFolder(local.value, remote.value) {
      var bs := BaseChildren(base, local.value.id);
      RemoteKeepsLocalBelow(bs, local.value.children, remote.value.children);
      hide LocalStandsBelow;
    }
  }

  lemma {:induction false} RemoteKeepsLocalBelow(base: seq<Node>, local: seq<Node>, remote: seq<Node>)
    requires local == base || local == remote
    ensures LocalStandsBelow(base, local, remote, remote)
    decreases SizeOfNodes(local), 1
  {
    hide LocalStands;
    forall k ensures LocalStands(Lookup(Keyed(base), k), Lookup(Keyed(local), k), Lookup(Keyed(remote), k),
                                 Lookup(Keyed(remote), k)) {
      if k in Keys(Keyed(local)) {
        RemoteKeepsLocal(Lookup(Keyed(base), k), Lookup(Keyed(local), k), Lookup(Keyed(remote), k));
      } else {
        AbsentKeepsLocal(Lookup(Keyed(base), k), Lookup(Keyed(remote), k));
      }
    }
  }

  lemma AbsentKeepsLocal(base: Option<Node>, remote: Option<Node>)
    requires base.None? || remote.None?
    ensures LocalStands(base, None, remote, remote)
  {
  }

  /** The local node itself keeps all of its edits. */
  lemma {:induction false} LocalItselfStands(base: Option<Node>, local: Option<Node>, remote: Option<Node>)
    ensures LocalStands(base, local, remote, local)
    decreases SizeOfOption(local), 0
  {
    if local.Some? && remote.Some? && SameFolder(local.value, remote.value) {
      var b, l, r := BaseChildren(base, local.value.id), local.value.children, remote.value.children;
      forall k ensures LocalStands(Lookup(Keyed(b), k), Lookup(Keyed(l), k), Lookup(Keyed(r), k), Lookup(Keyed(l), k)) {
        if k in Keys(Keyed(l)) {
          LocalItselfStands(Lookup(Keyed(b), k), Lookup(Keyed(l), k), Lookup(Keyed(r), k));
        }
      }
    }
  }

  lemma {:induction false} OptionalLocalStands(base: Option<Node>, local: Option<Node>, remote: Option<Node>)
    ensures LocalStands(base, local, remote, MergeOptional(base, local, remote).value)
    decreases SizeOfOption(local), 1
  {
    hide LocalNodeStands;
    if local == base || local == remote {
      RemoteKeepsLocal(base, local, remote);
    } else if remote == base {
      LocalItselfStands(base, local, remote);
    } else if local.Some? && remote.Some? {
      hide MergePresent;
      if SameFolder(local.value, remote.value) || SameUrl(local.value, remote.value) {
        PresentLocalStands(base, local.value, remote.value);
      }
    }
  }

  lemma {:induction false} PresentLocalStands(base: Option<Node>, local: Node, remote: Node)
    requires SameFolder(local, remote) || SameUrl(local, remote)
    ensures LocalNodeStands(base, local, remote, MergePresent(base, local, remote).value)
    decreases Size(local), 0
  {
    hide MergeChildren, LocalStandsBelow;
    if SameFolder(local, remote) {
      ChildrenLocalStand(BaseChildren(base, local.id), local.children, remote.children);
    }
  }

  lemma {:induction false} ChildrenLocalStand(base: seq<Node>, local: seq<Node>, remote: seq<Node>)
    ensures LocalStandsBelow(base, local, remote, MergeChildren(base, local, remote).value)
    decreases SizeOfNodes(local), 4
  {
    hide MergeOptional, LocalStands;
    var b, l, r := Keyed(base), Keyed(local), Keyed(remote);
    ChildrenKeyed(base, local, remote);
    EntriesTable(b, l, r);
    forall k ensures LocalStands(Lookup(b, k), Lookup(l, k), Lookup(r, k), MergeAt(k, b, l, r).value) {
      OptionalLocalStands(Lookup(b, k), Lookup(l, k), Lookup(r, k));
    }
  }

  /** For every three snapshots, conflicts or not: local edits stand wherever the remote made none. */
  lemma LocalEditsStand(base: Option<Snapshot>, local: Snapshot, remote: Snapshot)
    requires MergeBookmarks(base, local, remote).Ok?
    ensures var merged := MergeBookmarks(base, local, remote).value.value;
            forall k :: LocalStands(Lookup(BaseRoots(base), k), Lookup(local.roots, k), Lookup(remote.roots, k),
                                    Lookup(merged.roots, k))
  {
    hide MergeOptional, LocalStands;
    var b, l, r := BaseRoots(base), local.roots, remote.roots;
    EntriesTable(b, l, r);
    forall k ensures LocalStands(Lookup(b, k), Lookup(l, k), Lookup(r, k), MergeAt(k, b, l, r).value) {
      OptionalLocalStands(Lookup(b, k), Lookup(l, k), Lookup(r, k));
    }
  }

  // ----- nothing else -----

  /** Every node and every field of the result is the local or the remote one's of the same place. */
  ghost predicate FromEither(local: Option<Node>, remote: Option<Node>, merged: Option<Node>)
    decreases SizeOfOption(merged), 1
  {
    || merged == local
    || merged == remote
    || (local.Some? && remote.Some? && merged.Some? && FromBoth(local.value, remote.value, merged.value))
  }

  ghost predicate FromBoth(local: Node, remote: Node, merged: Node)
    decreases Size(merged), 0
  {
    && local.id == remote.id == merged.id
    && merged.name in {local.name, remote.name}
    && merged.dateAdded in {local.dateAdded, remote.dateAdded}
    && match (local, remote, merged) {
         case (Folder(_, _, _, m, children), Folder(_, _, _, m', children'), Folder(_, _, _, m'', children'')) =>
           && m'' in {m, m'}
           && FromEitherBelow(children, children', children'')
         case (Url(_, _, u, _), Url(_, _, u', _), Url(_, _, u'', _)) => u'' in {u, u'}
         case _ => false
       }
  }

  ghost predicate FromEitherBelow(local: seq<Node>, remote: seq<Node>, merged: seq<Node>)
    decreases SizeOfNodes(merged), 2
  {
    forall k :: FromEither(Lookup(Keyed(local), k), Lookup(Keyed(remote), k), Lookup(Keyed(merged), k))
  }

  lemma {:induction false} OptionalFromEither(base: Option<Node>, local: Option<Node>, remote: Option<Node>)
    ensures FromEither(local, remote, MergeOptional(base, local, remote).value)
    decreases SizeOfOption(local), 1
  {
    hide FromBoth, MergePresent;
    if local.Some? && remote.Some? && local != remote && local != base && remote != base {
      PresentFromEither(base, local.value, remote.value);
    }
  }

  lemma {:induction false} PresentFromEither(base: Option<Node>, local: Node, remote: Node)
    ensures var merged := MergePresent(base, local, remote).value; merged == remote || FromBoth(local, remote, merged)
    decreases Size(local), 0
  {
    hide MergeChildren, FromEitherBelow;
    if SameFolder(local, remote) {
      ChildrenFromEither(BaseChildren(base, local.id), local.children, remote.children);
    }
  }

  lemma {:induction false} ChildrenFromEither(base: seq<Node>, local: seq<Node>, remote: seq<Node>)
    ensures FromEitherBelow(local, remote, MergeChildren(base, local, remote).value)
    decreases SizeOfNodes(local), 4
  {
    hide MergeOptional, FromEither;
    var b, l, r := Keyed(base), Keyed(local), Keyed(remote);
    ChildrenKeyed(base, local, remote);
    EntriesTable(b, l, r);
    forall k ensures FromEither(Lookup(l, k), Lookup(r, k), MergeAt(k, b, l, r).value) {
      OptionalFromEither(Lookup(b, k), Lookup(l, k), Lookup(r, k));
    }
  }

  /** A merge never invents: at every place the result is one side's, or made of both sides'. */
  lemma NothingInvented(base: Option<Snapshot>, local: Snapshot, remote: Snapshot)
    requires MergeBookmarks(base, local, remote).Ok?
    ensures var merged := MergeBookmarks(base, local, remote).value.value;
            && (merged.chromiumVersion == local.chromiumVersion || merged.chromiumVersion == remote.chromiumVersion)
            && forall k :: FromEither(Lookup(local.roots, k), Lookup(remote.roots, k), Lookup(merged.roots, k))
  {
    hide MergeOptional, FromEither;
    var b, l, r := BaseRoots(base), local.roots, remote.roots;
    EntriesTable(b, l, r);
    forall k ensures FromEither(Lookup(l, k), Lookup(r, k), MergeAt(k, b, l, r).value) {
      OptionalFromEither(Lookup(b, k), Lookup(l, k), Lookup(r, k));
    }
  }
}
