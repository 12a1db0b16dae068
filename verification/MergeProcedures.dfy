/**
 The merge as the program runs it: procedures that bump one shared conflict counter and fill
 `seen`, `ids` and the output list in loops. Each computes the function of BookmarkMerge.
 */
module MergeProcedures {
  import opened Wrappers
  import opened Bookmarks
  import opened BookmarkMerge
  import opened MergeShape

  /** The counter that the recursive procedures share. */
  class ConflictCounter {
    var count: nat

    constructor ()
      ensures count == 0
    {
      count := 0;
    }

    method Increment()
      modifies this
      ensures count == old(count) + 1
    {
      count := count + 1;
    }
  }

  method MergeValueInto<T(==)>(base: Option<T>, local: T, remote: T, conflicts: ConflictCounter) returns (value: T)
    modifies conflicts
    ensures value == MergeValue(base, local, remote).value
    ensures conflicts.count == old(conflicts.count) + MergeValue(base, local, remote).conflicts
  {
    if local == remote {
      return local;
    }
    if Some(local) == base {
      return remote;
    }
    if Some(remote) == base {
      return local;
    }
    conflicts.Increment();
    return remote;
  }

  method MergeOptionalInto(base: Option<Node>, local: Option<Node>, remote: Option<Node>, conflicts: ConflictCounter)
    returns (merged: Option<Node>)
    modifies conflicts
    ensures merged == MergeOptional(base, local, remote).value
    ensures conflicts.count == old(conflicts.count) + MergeOptional(base, local, remote).conflicts
    decreases SizeOfOption(local), 1
  {
    hide MergePresent;
    if local == remote {
      return local;
    }
    if local == base {
      return remote;
    }
    if remote == base {
      return local;
    }
    if local.Some? && remote.Some? {
      var node := MergePresentInto(base, local.value, remote.value, conflicts);
      merged := Some(node);
    } else if base.Some? && remote.Some? {
      conflicts.Increment();
      merged := remote;
    } else if base.Some? && local.Some? {
      conflicts.Increment();
      merged := local;
    } else {
      // One side is absent and differs from an absent base: nothing reaches this arm.
      assert false;
      merged := None;
    }
  }

  method MergePresentInto(base: Option<Node>, local: Node, remote: Node, conflicts: ConflictCounter)
    returns (merged: Node)
    modifies conflicts
    ensures merged == MergePresent(base, local, remote).value
    ensures conflicts.count == old(conflicts.count) + MergePresent(base, local, remote).conflicts
    decreases Size(local), 0
  {
    hide MergeChildren, MergeValue;
    if local.Folder? && remote.Folder? && local.id == remote.id {
      var b := FolderBase(base, local.id);
      var name := MergeValueInto(if b.Some? then Some(b.value.name) else None, local.name, remote.name, conflicts);
      var added := MergeValueInto(if b.Some? then Some(b.value.dateAdded) else None,
                                  local.dateAdded, remote.dateAdded, conflicts);
      var modified := MergeValueInto(if b.Some? then Some(b.value.dateModified) else None,
                                     local.dateModified, remote.dateModified, conflicts);
      var children := MergeChildrenInto(if b.Some? then b.value.children else [],
                                        local.children, remote.children, conflicts);
      merged := Folder(local.id, name, added, modified, children);
    } else if local.Url? && remote.Url? && local.id == remote.id {
      var b := UrlBase(base, local.id);
      var name := MergeValueInto(if b.Some? then Some(b.value.name) else None, local.name, remote.name, conflicts);
      var url := MergeValueInto(if b.Some? then Some(b.value.url) else None, local.url, remote.url, conflicts);
      var added := MergeValueInto(if b.Some? then Some(b.value.dateAdded) else None,
                                  local.dateAdded, remote.dateAdded, conflicts);
      merged := Url(local.id, name, url, added);
    } else {
      conflicts.Increment();
      merged := remote;
    }
  }

  /** The `seen` loop: first occurrences, in order. */
  method FirstSeen(keys: seq<string>) returns (distinct: seq<string>)
    ensures distinct == Distinct(keys)
  {
    var seen: set<string> := {};
    distinct := [];
    for i := 0 to |keys|
      invariant distinct == Distinct(keys[..i])
      invariant forall k :: k in seen <==> k in keys[..i]
    {
      assert keys[..i + 1][..i] == keys[..i];
      if keys[i] !in seen {
        seen := seen + {keys[i]};
        distinct := distinct + [keys[i]];
      }
    }
    assert keys[..|keys|] == keys;
  }

  /** The `filter_map` loop over the keys, for children and for roots alike. */
  method MergeEntriesInto(base: seq<Root>, local: seq<Root>, remote: seq<Root>, conflicts: ConflictCounter)
    returns (merged: seq<Root>)
    modifies conflicts
    ensures merged == MergeEntries(base, local, remote).value
    ensures conflicts.count == old(conflicts.count) + MergeEntries(base, local, remote).conflicts
    decreases SizeOfEntries(local), 3
  {
    hide MergeOptional;
    var baseNodes, localNodes, remoteNodes := Index(base), Index(local), Index(remote);
    var keys := FirstSeen(Keys(remote) + Keys(local) + Keys(base));
    merged := [];
    for i := 0 to |keys|
      invariant merged == MergeEach(keys[..i], base, local, remote).value
      invariant conflicts.count == old(conflicts.count) + MergeEach(keys[..i], base, local, remote).conflicts
    {
      assert keys[..i + 1][..i] == keys[..i];
      assert SizeOfOption(Lookup(local, keys[i])) <= SizeOfEntries(local);
      var node := MergeOptionalInto(Get(baseNodes, keys[i]), Get(localNodes, keys[i]), Get(remoteNodes, keys[i]),
                                    conflicts);
      if node.Some? {
        merged := merged + [Root(keys[i], node.value)];
      }
    }
    assert keys[..|keys|] == keys;
  }

  method MergeChildrenInto(base: seq<Node>, local: seq<Node>, remote: seq<Node>, conflicts: ConflictCounter)
    returns (merged: seq<Node>)
    modifies conflicts
    ensures merged == MergeChildren(base, local, remote).value
    ensures conflicts.count == old(conflicts.count) + MergeChildren(base, local, remote).conflicts
    decreases SizeOfNodes(local), 4
  {
    hide MergeOptional, MergeEach;
    var entries := MergeEntriesInto(Keyed(base), Keyed(local), Keyed(remote), conflicts);
    merged := Unkeyed(entries);
  }

  method MergeSnapshots(base: Option<Snapshot>, local: Snapshot, remote: Snapshot)
    returns (result: Result<Merged<Snapshot>, MergeError>)
    ensures result == MergeBookmarks(base, local, remote)
  {
    hide MergeOptional, MergeEach;
    if !Mergeable(local, remote) {
      return Err(IncompatibleSnapshot(local, remote));
    }
    if base.Some? && !Mergeable(base.value, local) {
      return Err(IncompatibleSnapshot(base.value, local));
    }
    var conflicts := new ConflictCounter();
    var roots := MergeEntriesInto(BaseRoots(base), local.roots, remote.roots, conflicts);
    var version := if local.chromiumVersion >= remote.chromiumVersion then local.chromiumVersion
                   else remote.chromiumVersion;
    result := Ok(Merged(
      Snapshot(remote.format, remote.sourceBrowser, remote.profileDirectory, version, roots),
      conflicts.count));
  }
}
