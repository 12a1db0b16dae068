/**
 Three-way reconciliation of bookmark snapshots, as functions that return the
 merged value together with the number of conflicts met on the way.
 */
module BookmarkMerge {
  import opened Wrappers
  import opened Bookmarks

  /** A merged value and the conflicts its computation counted. */
  datatype Merged<+T> = Merged(value: T, conflicts: nat)

  datatype MergeError = IncompatibleSnapshot(left: Snapshot, right: Snapshot)

  function MergeValue<T(==)>(base: Option<T>, local: T, remote: T): Merged<T>
  {
    if local == remote then Merged(local, 0)
    else if Some(local) == base then Merged(remote, 0)
    else if Some(remote) == base then Merged(local, 0)
    else Merged(remote, 1)
  }

  function MergeOptional(base: Option<Node>, local: Option<Node>, remote: Option<Node>): Merged<Option<Node>>
    decreases SizeOfOption(local), 1
  {
    if local == remote then Merged(local, 0)
    else if local == base then Merged(remote, 0)
    else if remote == base then Merged(local, 0)
    else
      match (base, local, remote)
      case (_, Some(l), Some(r)) =>
        var m := MergePresent(base, l, r);
        Merged(Some(m.value), m.conflicts)
      case (Some(_), None, Some(r)) => Merged(Some(r), 1)
      case (Some(_), Some(l), None) => Merged(Some(l), 1)
      case _ => Merged(None, 0)
  }

  /** The base that counts for a folder: a base folder with the same id. */
  function FolderBase(base: Option<Node>, id: string): (b: Option<Node>)
    ensures b.Some? <==> base.Some? && base.value.Folder? && base.value.id == id
    ensures b.Some? ==> b == base
  {
    if base.Some? && base.value.Folder? && base.value.id == id then base else None
  }

  function UrlBase(base: Option<Node>, id: string): (b: Option<Node>)
    ensures b.Some? <==> base.Some? && base.value.Url? && base.value.id == id
    ensures b.Some? ==> b == base
  {
    if base.Some? && base.value.Url? && base.value.id == id then base else None
  }

  function MergePresent(base: Option<Node>, local: Node, remote: Node): Merged<Node>
    decreases Size(local), 0
  {
    match (local, remote)
    case (Folder(id, name, added, modified, children), Folder(id', name', added', modified', children')) =>
      if id == id' then
        var b := FolderBase(base, id);
        var n := MergeValue(if b.Some? then Some(b.value.name) else None, name, name');
        var a := MergeValue(if b.Some? then Some(b.value.dateAdded) else None, added, added');
        var m := MergeValue(if b.Some? then Some(b.value.dateModified) else None, modified, modified');
        var c := MergeChildren(if b.Some? then b.value.children else [], children, children');
        Merged(Folder(id, n.value, a.value, m.value, c.value),
               n.conflicts + a.conflicts + m.conflicts + c.conflicts)
      else
        Merged(remote, 1)
    case (Url(id, name, url, added), Url(id', name', url', added')) =>
      if id == id' then
        var b := UrlBase(base, id);
        var n := MergeValue(if b.Some? then Some(b.value.name) else None, name, name');
        var u := MergeValue(if b.Some? then Some(b.value.url) else None, url, url');
        var a := MergeValue(if b.Some? then Some(b.value.dateAdded) else None, added, added');
        Merged(Url(id, n.value, u.value, a.value), n.conflicts + u.conflicts + a.conflicts)
      else
        Merged(remote, 1)
    case _ => Merged(remote, 1)
  }

  /** A missing base and an empty one look up, and list, the same nothing. */
  function MergeChildren(base: seq<Node>, local: seq<Node>, remote: seq<Node>): Merged<seq<Node>>
    decreases SizeOfNodes(local), 4
  {
    var merged := MergeEntries(Keyed(base), Keyed(local), Keyed(remote));
    Merged(Unkeyed(merged.value), merged.conflicts)
  }

  /** Every key in first-seen order: remote, then local, then base. */
  function MergeOrder(base: seq<Root>, local: seq<Root>, remote: seq<Root>): seq<string>
  {
    Distinct(Keys(remote) + Keys(local) + Keys(base))
  }

  function MergeEntries(base: seq<Root>, local: seq<Root>, remote: seq<Root>): Merged<seq<Root>>
    decreases SizeOfEntries(local), 3
  {
    MergeEach(MergeOrder(base, local, remote), base, local, remote)
  }

  function MergeEach(keys: seq<string>, base: seq<Root>, local: seq<Root>, remote: seq<Root>): Merged<seq<Root>>
    decreases SizeOfEntries(local), 2, |keys|
  {
    if keys == [] then Merged([], 0)
    else
      var rest := MergeEach(keys[..|keys| - 1], base, local, remote);
      var last := keys[|keys| - 1];
      var m := MergeOptional(Lookup(base, last), Lookup(local, last), Lookup(remote, last));
      Merged(rest.value + (if m.value.Some? then [Root(last, m.value.value)] else []),
             rest.conflicts + m.conflicts)
  }

  predicate Mergeable(left: Snapshot, right: Snapshot)
  {
    && left.format == right.format
    && left.sourceBrowser == right.sourceBrowser
    && left.profileDirectory == right.profileDirectory
  }

  function BaseRoots(base: Option<Snapshot>): seq<Root>
  {
    if base.Some? then base.value.roots else []
  }

  function MergeBookmarks(base: Option<Snapshot>, local: Snapshot, remote: Snapshot)
    : Result<Merged<Snapshot>, MergeError>
  {
    if !Mergeable(local, remote) then Err(IncompatibleSnapshot(local, remote))
    else if base.Some? && !Mergeable(base.value, local) then Err(IncompatibleSnapshot(base.value, local))
    else
      var roots := MergeEntries(BaseRoots(base), local.roots, remote.roots);
      Ok(Merged(
        Snapshot(remote.format, remote.sourceBrowser, remote.profileDirectory,
                 if local.chromiumVersion >= remote.chromiumVersion then local.chromiumVersion
                 else remote.chromiumVersion,
                 roots.value),
        roots.conflicts))
  }
}
