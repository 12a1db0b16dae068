/**
 The laws of the merge leave nothing open: who yields to whom, field by field, and in which order
 siblings stand. Whatever satisfies them for a node is the merged node.
 */
module MergeDetermined {
  import opened Wrappers
  import opened Bookmarks
  import opened BookmarkMerge
  import opened MergeShape
  import opened MergeAbsorption
  import opened MergeOutcome

  /** The ids under which merged siblings stand: survivors, remote order, then local-only order. */
  ghost function SiblingOrder(base: seq<Root>, local: seq<Root>, remote: seq<Root>): seq<string>
  {
    var keep := iset k | Survives(k, base, local, remote);
    Select(Distinct(Keys(remote)), keep) + Select(Distinct(Keys(local)), keep * Outside(Keys(remote)))
  }

  /**
   Whole nodes first: an untouched side yields, the side that still has the node wins over the one
   that deleted it, and of two different things under one id the remote one stands. In a folder
   that both sides changed the children stand in sibling order, and so on below.
   */
  ghost predicate Resolved(base: Option<Node>, local: Option<Node>, remote: Option<Node>, merged: Option<Node>)
    decreases SizeOfOption(local), 1
  {
    if local == base then merged == remote
    else if remote == base || local == remote || remote.None? then merged == local
    else if local.None? then merged == remote
    else if SameFolder(local.value, remote.value) then
      && merged.Some? && merged.value.Folder?
      && ResolvedBelow(BaseChildren(base, local.value.id), local.value.children, remote.value.children,
                       merged.value.children)
    else if SameUrl(local.value, remote.value) then merged.Some? && merged.value.Url?
    else merged == remote
  }

  ghost predicate ResolvedBelow(base: seq<Node>, local: seq<Node>, remote: seq<Node>, merged: seq<Node>)
    decreases SizeOfNodes(local), 2
  {
    && Keys(Keyed(merged)) == SiblingOrder(Keyed(base), Keyed(local), Keyed(remote))
    && forall k :: Resolved(Lookup(Keyed(base), k), Lookup(Keyed(local), k), Lookup(Keyed(remote), k),
                            Lookup(Keyed(merged), k))
  }

  lemma {:induction false} OptionalResolved(base: Option<Node>, local: Option<Node>, remote: Option<Node>)
    ensures Resolved(base, local, remote, MergeOptional(base, local, remote).value)
    decreases SizeOfOption(local), 1
  {
    if local.Some? && remote.Some? && local != base && remote != base && local != remote {
      if SameFolder(local.value, remote.value) {
        ChildrenResolved(BaseChildren(base, local.value.id), local.value.children, remote.value.children);
      }
      hide MergeChildren, ResolvedBelow;
    }
  }

  lemma {:induction false} ChildrenResolved(base: seq<Node>, local: seq<Node>, remote: seq<Node>)
    ensures ResolvedBelow(base, local, remote, MergeChildren(base, local, remote).value)
    decreases SizeOfNodes(local), 4
  {
    hide MergeOptional, Resolved;
    var b, l, r := Keyed(base), Keyed(local), Keyed(remote);
    ChildrenKeyed(base, local, remote);
    EntriesTable(b, l, r);
    ExactShape(b, l, r);
    forall k ensures Resolved(Lookup(b, k), Lookup(l, k), Lookup(r, k), MergeAt(k, b, l, r).value) {
      OptionalResolved(Lookup(b, k), Lookup(l, k), Lookup(r, k));
    }
    hide MergeAt, MergeEntries, Lookup;
  }

  // ----- and conversely -----

  /** The three laws together, for one place of the tree. */
  ghost predicate Lawful(base: Option<Node>, local: Option<Node>, remote: Option<Node>, merged: Option<Node>)
  {
    && Resolved(base, local, remote, merged)
    && LocalStands(base, local, remote, merged)
    && RemoteStands(base, local, remote, merged)
  }

  lemma {:induction false} OptionalDetermined(base: Option<Node>, local: Option<Node>, remote: Option<Node>,
                                              merged: Option<Node>)
    requires Lawful(base, local, remote, merged)
    ensures merged == MergeOptional(base, local, remote).value
    decreases SizeOfOption(local), 1
  {
    hide MergePresent, LocalNodeStands, RemoteNodeStands, ResolvedBelow;
    if local.Some? && remote.Some? && local != base && remote != base && local != remote {
      if SameFolder(local.value, remote.value) {
        FolderDetermined(base, local.value, remote.value, merged.value);
      } else if SameUrl(local.value, remote.value) {
        UrlDetermined(base, local.value, remote.value, merged.value);
      } else {
        MismatchTakesRemote(base, local.value, remote.value);
      }
    }
  }

  lemma MismatchTakesRemote(base: Option<Node>, local: Node, remote: Node)
    requires !SameFolder(local, remote) && !SameUrl(local, remote)
    ensures MergePresent(base, local, remote).value == remote
  {
    hide MergeChildren;
  }

  lemma {:induction false} FolderDetermined(base: Option<Node>, local: Node, remote: Node, merged: Node)
    requires SameFolder(local, remote) && merged.Folder?
    requires LocalNodeStands(base, local, remote, merged) && RemoteNodeStands(base, Some(local), remote, merged)
    requires ResolvedBelow(BaseChildren(base, local.id), local.children, remote.children, merged.children)
    ensures merged == MergePresent(base, local, remote).value
    decreases Size(local), 0
  {
    hide MergeChildren, LocalStandsBelow, RemoteStandsBelow, ResolvedBelow;
    ChildrenDetermined(BaseChildren(base, local.id), local.children, remote.children, merged.children);
  }

  lemma UrlDetermined(base: Option<Node>, local: Node, remote: Node, merged: Node)
    requires SameUrl(local, remote) && merged.Url?
    requires LocalNodeStands(base, local, remote, merged) && RemoteNodeStands(base, Some(local), remote, merged)
    ensures merged == MergePresent(base, local, remote).value
  {
  }

  lemma {:induction false} ChildrenDetermined(base: seq<Node>, local: seq<Node>, remote: seq<Node>, merged: seq<Node>)
    requires ResolvedBelow(base, local, remote, merged) && LocalStandsBelow(base, local, remote, merged)
    requires RemoteStandsBelow(base, local, remote, merged)
    ensures merged == MergeChildren(base, local, remote).value
    decreases SizeOfNodes(local), 4
  {
    hide MergeOptional, Resolved, LocalStands, RemoteStands;
    var b, l, r, m := Keyed(base), Keyed(local), Keyed(remote), Keyed(merged);
    forall k ensures Lookup(m, k) == MergeAt(k, b, l, r).value {
      if k in Keys(r) || k in Keys(b) {
        OptionalDetermined(Lookup(b, k), Lookup(l, k), Lookup(r, k), Lookup(m, k));
      } else {
        LocalOnlyDetermined(Lookup(l, k), Lookup(m, k));
      }
    }
    ChildrenKeyed(base, local, remote);
    EntriesDetermined(b, l, r, m);
    KeyedInjective(merged, MergeChildren(base, local, remote).value);
  }

  lemma EntriesDetermined(base: seq<Root>, local: seq<Root>, remote: seq<Root>, merged: seq<Root>)
    requires Keys(merged) == SiblingOrder(base, local, remote)
    requires forall k :: Lookup(merged, k) == MergeAt(k, base, local, remote).value
    ensures merged == MergeEntries(base, local, remote).value
  {
    hide MergeOptional;
    EntriesTable(base, local, remote);
    ExactShape(base, local, remote);
    hide MergeAt, MergeEntries;
    SameKeysSameTable(MergeEntries(base, local, remote).value, merged);
  }

  lemma LocalOnlyDetermined(local: Option<Node>, merged: Option<Node>)
    requires Resolved(None, local, None, merged)
    ensures merged == MergeOptional(None, local, None).value
  {
  }

  // ----- snapshots -----

  /** Every root is lawful, the roots stand in sibling order, and the header is what both sides share. */
  ghost predicate LawfulSnapshot(base: Option<Snapshot>, local: Snapshot, remote: Snapshot, merged: Snapshot)
  {
    && merged.format == remote.format && merged.sourceBrowser == remote.sourceBrowser
    && merged.profileDirectory == remote.profileDirectory
    && merged.chromiumVersion in {local.chromiumVersion, remote.chromiumVersion}
    && merged.chromiumVersion >= local.chromiumVersion && merged.chromiumVersion >= remote.chromiumVersion
    && Keys(merged.roots) == SiblingOrder(BaseRoots(base), local.roots, remote.roots)
    && forall k :: Lawful(Lookup(BaseRoots(base), k), Lookup(local.roots, k), Lookup(remote.roots, k),
                          Lookup(merged.roots, k))
  }

  /**
   For every three snapshots: they are refused exactly when format, browser or profile differ, and
   a snapshot is the merge exactly when it satisfies the laws.
   */
  lemma MergeDeterminedExactly(base: Option<Snapshot>, local: Snapshot, remote: Snapshot, merged: Snapshot)
    ensures MergeBookmarks(base, local, remote).Err? <==>
              || local.format != remote.format || local.sourceBrowser != remote.sourceBrowser
              || local.profileDirectory != remote.profileDirectory
              || (base.Some? && (base.value.format != local.format || base.value.sourceBrowser != local.sourceBrowser
                                 || base.value.profileDirectory != local.profileDirectory))
    ensures MergeBookmarks(base, local, remote).Ok? ==>
              (merged == MergeBookmarks(base, local, remote).value.value
               <==> LawfulSnapshot(base, local, remote, merged))
  {
    hide MergeOptional, Resolved, LocalStands, RemoteStands;
    if MergeBookmarks(base, local, remote).Ok? {
      var b, l, r := BaseRoots(base), local.roots, remote.roots;
      var out := MergeEntries(b, l, r).value;
      EntriesTable(b, l, r);
      ExactShape(b, l, r);
      forall k ensures Lawful(Lookup(b, k), Lookup(l, k), Lookup(r, k), MergeAt(k, b, l, r).value) {
        OptionalResolved(Lookup(b, k), Lookup(l, k), Lookup(r, k));
        OptionalLocalStands(Lookup(b, k), Lookup(l, k), Lookup(r, k));
        OptionalRemoteStands(Lookup(b, k), Lookup(l, k), Lookup(r, k));
      }
      if LawfulSnapshot(base, local, remote, merged) {
        forall k ensures Lookup(merged.roots, k) == MergeAt(k, b, l, r).value {
          OptionalDetermined(Lookup(b, k), Lookup(l, k), Lookup(r, k), Lookup(merged.roots, k));
        }
        hide MergeAt, MergeEntries, Lawful;
        EntriesDetermined(b, l, r, merged.roots);
      }
    }
  }
}
