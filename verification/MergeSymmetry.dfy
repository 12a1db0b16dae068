/** Swapping the two sides: same conflict count always, same tree when nothing conflicts. */
module MergeSymmetry {
  import opened Wrappers
  import opened Bookmarks
  import opened BookmarkMerge
  import opened MergeShape

  /** Equal, or equal up to the order of distinctly keyed siblings at every depth. */
  ghost predicate Similar(x: Node, y: Node)
    decreases Size(x), 1
  {
    || x == y
    || (&& x.Folder? && y.Folder? && x.id == y.id && x.name == y.name
        && x.dateAdded == y.dateAdded && x.dateModified == y.dateModified
        && SimilarEntries(Keyed(x.children), Keyed(y.children)))
  }

  ghost predicate SimilarEntries(xs: seq<Root>, ys: seq<Root>)
    decreases SizeOfEntries(xs), 2
  {
    && NoDuplicates(Keys(xs))
    && NoDuplicates(Keys(ys))
    && (forall k :: k in Keys(xs) <==> k in Keys(ys))
    && forall k :: k in Keys(xs) ==> Similar(Lookup(xs, k).value, Lookup(ys, k).value)
  }

  ghost predicate SimilarOption(x: Option<Node>, y: Option<Node>)
  {
    (x.Some? <==> y.Some?) && (x.Some? ==> Similar(x.value, y.value))
  }

  lemma ValueSymmetric<T>(base: Option<T>, local: T, remote: T)
    ensures MergeValue(base, local, remote).conflicts == MergeValue(base, remote, local).conflicts
    ensures MergeValue(base, local, remote).conflicts == 0 ==>
              MergeValue(base, local, remote).value == MergeValue(base, remote, local).value
  {
  }

  lemma EachConflictsWithout(before: seq<string>, k: string, after: seq<string>,
                             base: seq<Root>, local: seq<Root>, remote: seq<Root>)
    ensures MergeEach(before + [k] + after, base, local, remote).conflicts
         == MergeEach(before + after, base, local, remote).conflicts + MergeAt(k, base, local, remote).conflicts
  {
    hide MergeOptional;
    EachAppend(before, after, base, local, remote);
    EachAppend(before + [k], after, base, local, remote);
    assert (before + [k])[..|before|] == before;
  }

  lemma SameKeysWithout(rest: seq<string>, last: string, before: seq<string>, after: seq<string>)
    requires NoDuplicates(rest + [last]) && NoDuplicates(before + [last] + after)
    requires forall k :: k in rest + [last] <==> k in before + [last] + after
    ensures NoDuplicates(before + after)
    ensures forall k :: k in rest <==> k in before + after
  {
    var keys' := before + [last] + after;
    assert before == keys'[..|before|] && after == keys'[|before| + 1..];
    assert forall i :: 0 <= i < |rest| ==> (rest + [last])[i] != (rest + [last])[|rest|];
    assert forall i :: 0 <= i < |rest| ==> rest[i] == (rest + [last])[i];
    assert last == keys'[|before|];
    forall k ensures k in rest <==> k in before + after {
      assert k in rest + [last] <==> k in rest || k == last;
      assert k in keys' <==> k in before || k == last || k in after;
    }
  }

  /** Two orders of the same distinct keys count the same conflicts, if every key does. */
  lemma {:induction false} EachConflictsReordered(
      keys: seq<string>, keys': seq<string>,
      base: seq<Root>, local: seq<Root>, remote: seq<Root>)
    requires NoDuplicates(keys) && NoDuplicates(keys')
    requires forall k :: k in keys <==> k in keys'
    requires forall k :: MergeAt(k, base, local, remote).conflicts == MergeAt(k, base, remote, local).conflicts
    ensures MergeEach(keys, base, local, remote).conflicts == MergeEach(keys', base, remote, local).conflicts
    decreases |keys|
  {
    hide MergeOptional;
    assert forall i :: 0 <= i < |keys'| ==> keys'[i] in keys;
    if keys != [] {
      var rest, last := keys[..|keys| - 1], keys[|keys| - 1];
      assert last in keys;
      var i :| 0 <= i < |keys'| && keys'[i] == last;
      assert keys == rest + [last];
      assert keys' == keys'[..i] + [last] + keys'[i + 1..];
      SameKeysWithout(rest, last, keys'[..i], keys'[i + 1..]);
      EachConflictsReordered(rest, keys'[..i] + keys'[i + 1..], base, local, remote);
      EachConflictsWithout(keys'[..i], last, keys'[i + 1..], base, remote, local);
      assert MergeAt(last, base, local, remote).conflicts == MergeAt(last, base, remote, local).conflicts;
    }
  }

  lemma {:induction false} EachConflictsBound(keys: seq<string>, k: string, base: seq<Root>, local: seq<Root>,
                                              remote: seq<Root>)
    requires k in keys
    ensures MergeAt(k, base, local, remote).conflicts <= MergeEach(keys, base, local, remote).conflicts
  {
    hide MergeOptional;
    var rest, last := keys[..|keys| - 1], keys[|keys| - 1];
    assert keys == rest + [last];
    if k != last {
      EachConflictsBound(rest, k, base, local, remote);
    }
  }

  /** No conflict overall means none at any key, including keys nobody lists. */
  lemma NoConflictAt(k: string, base: seq<Root>, local: seq<Root>, remote: seq<Root>)
    requires MergeEntries(base, local, remote).conflicts == 0
    ensures MergeAt(k, base, local, remote).conflicts == 0
  {
    hide MergeOptional;
    DistinctFacts(Keys(remote) + Keys(local) + Keys(base));
    if k in MergeOrder(base, local, remote) {
      EachConflictsBound(MergeOrder(base, local, remote), k, base, local, remote);
    } else {
      AbsentMergesQuietly(k, base, local, remote);
    }
  }

  lemma AbsentMergesQuietly(k: string, base: seq<Root>, local: seq<Root>, remote: seq<Root>)
    requires k !in Keys(local) && k !in Keys(remote)
    ensures MergeAt(k, base, local, remote) == Merged(None, 0)
  {
  }

  ghost predicate Mirrors(there: Merged<Option<Node>>, back: Merged<Option<Node>>)
  {
    && there.conflicts == back.conflicts
    && (there.conflicts == 0 ==> SimilarOption(there.value, back.value))
  }

  lemma {:induction false} OptionalSymmetric(base: Option<Node>, local: Option<Node>, remote: Option<Node>)
    ensures Mirrors(MergeOptional(base, local, remote), MergeOptional(base, remote, local))
    decreases SizeOfOption(local), 1
  {
    hide Similar, MergePresent;
    SimilarToItself();
    if local.Some? && remote.Some? && local != remote && local != base && remote != base {
      PresentSymmetric(base, local.value, remote.value);
    }
  }

  lemma SimilarToItself()
    ensures forall n: Node :: Similar(n, n)
  {
  }

  lemma {:induction false} PresentSymmetric(base: Option<Node>, local: Node, remote: Node)
    ensures MergePresent(base, local, remote).conflicts == MergePresent(base, remote, local).conflicts
    ensures MergePresent(base, local, remote).conflicts == 0 ==>
              Similar(MergePresent(base, local, remote).value, MergePresent(base, remote, local).value)
    decreases Size(local), 0
  {
    hide MergeChildren, SimilarEntries, MergeValue;
    if local.Folder? && remote.Folder? && local.id == remote.id {
      var b := FolderBase(base, local.id);
      ValueSymmetric(if b.Some? then Some(b.value.name) else None, local.name, remote.name);
      ValueSymmetric(if b.Some? then Some(b.value.dateAdded) else None, local.dateAdded, remote.dateAdded);
      ValueSymmetric(if b.Some? then Some(b.value.dateModified) else None, local.dateModified, remote.dateModified);
      ChildrenSymmetric(if b.Some? then b.value.children else [], local.children, remote.children);
    } else if local.Url? && remote.Url? && local.id == remote.id {
      var b := UrlBase(base, local.id);
      ValueSymmetric(if b.Some? then Some(b.value.name) else None, local.name, remote.name);
      ValueSymmetric(if b.Some? then Some(b.value.url) else None, local.url, remote.url);
      ValueSymmetric(if b.Some? then Some(b.value.dateAdded) else None, local.dateAdded, remote.dateAdded);
    }
  }

  lemma {:induction false} ChildrenSymmetric(base: seq<Node>, local: seq<Node>, remote: seq<Node>)
    ensures MergeChildren(base, local, remote).conflicts == MergeChildren(base, remote, local).conflicts
    ensures MergeChildren(base, local, remote).conflicts == 0 ==>
              SimilarEntries(Keyed(MergeChildren(base, local, remote).value),
                             Keyed(MergeChildren(base, remote, local).value))
    decreases SizeOfNodes(local), 4
  {
    hide MergeOptional, SimilarEntries;
    var b, l, r := Keyed(base), Keyed(local), Keyed(remote);
    forall k ensures Mirrors(MergeAt(k, b, l, r), MergeAt(k, b, r, l)) {
      OptionalSymmetric(Lookup(b, k), Lookup(l, k), Lookup(r, k));
    }
    EntriesSymmetric(b, l, r);
    ChildrenKeyed(base, local, remote);
    ChildrenKeyed(base, remote, local);
  }

  lemma EntriesSymmetric(base: seq<Root>, local: seq<Root>, remote: seq<Root>)
    requires forall k :: Mirrors(MergeAt(k, base, local, remote), MergeAt(k, base, remote, local))
    ensures MergeEntries(base, local, remote).conflicts == MergeEntries(base, remote, local).conflicts
    ensures MergeEntries(base, local, remote).conflicts == 0 ==>
              SimilarEntries(MergeEntries(base, local, remote).value, MergeEntries(base, remote, local).value)
  {
    hide MergeOptional, Similar;
    DistinctFacts(Keys(remote) + Keys(local) + Keys(base));
    DistinctFacts(Keys(local) + Keys(remote) + Keys(base));
    EachConflictsReordered(MergeOrder(base, local, remote), MergeOrder(base, remote, local), base, local, remote);
    if MergeEntries(base, local, remote).conflicts == 0 {
      EntriesTable(base, local, remote);
      EntriesTable(base, remote, local);
      var there, back := MergeEntries(base, local, remote).value, MergeEntries(base, remote, local).value;
      forall k ensures SimilarOption(Lookup(there, k), Lookup(back, k)) {
        assert Mirrors(MergeAt(k, base, local, remote), MergeAt(k, base, remote, local));
        NoConflictAt(k, base, local, remote);
      }
      forall k ensures k in Keys(there) <==> k in Keys(back) {
        assert SimilarOption(Lookup(there, k), Lookup(back, k));
      }
      forall k | k in Keys(there) ensures Similar(Lookup(there, k).value, Lookup(back, k).value) {
        assert SimilarOption(Lookup(there, k), Lookup(back, k));
      }
    }
  }

  /**
   For every three snapshots: the two directions both fail or both merge, count the same
   conflicts, and without conflicts give the same roots up to sibling order at every depth.
   */
  lemma Symmetry(base: Option<Snapshot>, local: Snapshot, remote: Snapshot)
    ensures MergeBookmarks(base, local, remote).Ok? <==> MergeBookmarks(base, remote, local).Ok?
    ensures MergeBookmarks(base, local, remote).Ok? ==>
              var there, back := MergeBookmarks(base, local, remote).value, MergeBookmarks(base, remote, local).value;
              && there.conflicts == back.conflicts
              && there.value.(roots := []) == back.value.(roots := [])
              && (there.conflicts == 0 ==> SimilarEntries(there.value.roots, back.value.roots))
  {
    hide MergeOptional, SimilarEntries;
    var b, l, r := BaseRoots(base), local.roots, remote.roots;
    forall k ensures Mirrors(MergeAt(k, b, l, r), MergeAt(k, b, r, l)) {
      OptionalSymmetric(Lookup(b, k), Lookup(l, k), Lookup(r, k));
    }
    EntriesSymmetric(b, l, r);
  }
}
