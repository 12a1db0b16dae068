/**
 Crash-retry absorption: merging the same base and local tree into a merge that already
 holds them changes nothing.
 */
module MergeAbsorption {
  import opened Wrappers
  import opened Bookmarks
  import opened BookmarkMerge
  import opened MergeShape

  ghost predicate UniqueOption(n: Option<Node>)
  {
    n.Some? ==> UniqueSiblings(n.value)
  }

  ghost predicate UniqueChildren(nodes: seq<Node>)
  {
    && NoDuplicates(Keys(Keyed(nodes)))
    && forall c :: c in nodes ==> UniqueSiblings(c)
  }

  lemma UniqueLookup(nodes: seq<Node>, key: string)
    requires UniqueChildren(nodes)
    ensures UniqueOption(Lookup(Keyed(nodes), key))
  {
    if key in Keys(Keyed(nodes)) {
      var n := KeyedChild(nodes, key);
    }
  }

  // ----- a merged node equals its base only if the remote node does -----

  lemma {:induction false} OptionalFixesBase(base: Option<Node>, local: Option<Node>, remote: Option<Node>)
    requires UniqueOption(remote)
    requires MergeOptional(base, local, remote).value == base
    ensures remote == base
    decreases SizeOfOption(local), 1
  {
    if local.Some? && remote.Some? && base.Some? && local != remote && local != base && remote != base {
      PresentFixesBase(base.value, local.value, remote.value);
    }
  }

  lemma {:induction false} PresentFixesBase(base: Node, local: Node, remote: Node)
    requires UniqueSiblings(remote)
    requires MergePresent(Some(base), local, remote).value == base
    ensures remote == base
    decreases Size(local), 0
  {
    hide MergeChildren;
    if local.Folder? && remote.Folder? && local.id == remote.id {
      ChildrenFixBase(base.children, local.children, remote.children);
    }
  }

  lemma {:induction false} ChildrenFixBase(base: seq<Node>, local: seq<Node>, remote: seq<Node>)
    requires UniqueChildren(remote)
    requires MergeChildren(base, local, remote).value == base
    ensures remote == base
    decreases SizeOfNodes(local), 4
  {
    hide MergeOptional;
    var b, l, r := Keyed(base), Keyed(local), Keyed(remote);
    ChildrenKeyed(base, local, remote);
    EntriesTable(b, l, r);
    forall k ensures MergeAt(k, b, l, r).value == Lookup(r, k) {
      UniqueLookup(remote, k);
      OptionalFixesBase(Lookup(b, k), Lookup(l, k), Lookup(r, k));
    }
    EntriesKeepRemote(b, l, r);
    KeyedInjective(remote, base);
  }

  /** If every key merges to what the remote side holds, the merge is the remote sequence. */
  lemma EntriesKeepRemote(base: seq<Root>, local: seq<Root>, remote: seq<Root>)
    requires NoDuplicates(Keys(remote))
    requires forall k :: MergeAt(k, base, local, remote).value == Lookup(remote, k)
    ensures MergeEntries(base, local, remote).value == remote
  {
    hide MergeOptional;
    var added := DistinctAppend(Keys(remote), Keys(local) + Keys(base));
    assert Keys(remote) + Keys(local) + Keys(base) == Keys(remote) + (Keys(local) + Keys(base));
    EachAppend(Keys(remote), added, base, local, remote);
    forall e | e in remote ensures MergeAt(e.key, base, local, remote).value == Some(e.node) {
      var i :| 0 <= i < |remote| && remote[i] == e;
      LookupAt(remote, i);
    }
    EachRebuilds(remote, base, local, remote);
    EachNothing(added, base, local, remote);
  }

  // ----- absorption, exactly -----

  function BaseChildren(base: Option<Node>, id: string): seq<Node>
  {
    var b := FolderBase(base, id);
    if b.Some? then b.value.children else []
  }

  /**
   Both sides left the base alone, or changed a folder in nothing but the order and the repetition
   of child ids: the remote ids, at their first occurrences, are the base's in the base's order,
   the local ids are the same ones in any order, and so on below.
   */
  ghost predicate OnlyRepeats(base: Option<Node>, local: Option<Node>, remote: Option<Node>)
    decreases SizeOfOption(local), 0
  {
    || (local == base && remote == base)
    || (&& base.Some? && local.Some? && remote.Some?
        && local != base && remote != base && local != remote
        && SameButChildren(base.value, local.value) && SameButChildren(base.value, remote.value)
        && OnlyRepeatsBelow(base.value.children, local.value.children, remote.value.children))
  }

  predicate SameButChildren(x: Node, y: Node)
  {
    x.Folder? && y.Folder? && x.(children := []) == y.(children := [])
  }

  ghost predicate OnlyRepeatsBelow(base: seq<Node>, local: seq<Node>, remote: seq<Node>)
    decreases SizeOfNodes(local), 1
  {
    && Distinct(Keys(Keyed(remote))) == Keys(Keyed(base))
    && (forall k :: k in Keys(Keyed(local)) <==> k in Keys(Keyed(base)))
    && forall k :: k in Keys(Keyed(local)) ==>
         OnlyRepeats(Lookup(Keyed(base), k), Lookup(Keyed(local), k), Lookup(Keyed(remote), k))
  }

  /** Exactly then does a merge give back the base. */
  lemma {:induction false} OptionalIsBaseExactly(base: Option<Node>, local: Option<Node>, remote: Option<Node>)
    ensures MergeOptional(base, local, remote).value == base <==> OnlyRepeats(base, local, remote)
    decreases SizeOfOption(local), 1
  {
    if local.Some? && remote.Some? && local != remote && local != base && remote != base {
      if base.Some? {
        PresentIsBaseExactly(base.value, local.value, remote.value);
      }
      hide MergePresent, OnlyRepeatsBelow;
    } else {
      hide MergePresent, OnlyRepeatsBelow;
    }
  }

  lemma {:induction false} PresentIsBaseExactly(base: Node, local: Node, remote: Node)
    requires local != base && remote != base && local != remote
    ensures MergePresent(Some(base), local, remote).value == base
            <==> && SameButChildren(base, local) && SameButChildren(base, remote)
                 && OnlyRepeatsBelow(base.children, local.children, remote.children)
    decreases Size(local), 0
  {
    hide MergeChildren, OnlyRepeatsBelow;
    if SameFolder(local, remote) && base.Folder? && base.id == local.id {
      ChildrenAreBaseExactly(base.children, local.children, remote.children);
    }
  }

  lemma {:induction false} ChildrenAreBaseExactly(base: seq<Node>, local: seq<Node>, remote: seq<Node>)
    ensures MergeChildren(base, local, remote).value == base <==> OnlyRepeatsBelow(base, local, remote)
    decreases SizeOfNodes(local), 4
  {
    hide MergeOptional, OnlyRepeats;
    var b, l, r := Keyed(base), Keyed(local), Keyed(remote);
    forall k ensures MergeAt(k, b, l, r).value == Lookup(b, k)
                <==> OnlyRepeats(Lookup(b, k), Lookup(l, k), Lookup(r, k)) {
      if k in Keys(l) {
        OptionalIsBaseExactly(Lookup(b, k), Lookup(l, k), Lookup(r, k));
      } else {
        AbsentIsBaseExactly(Lookup(b, k), Lookup(r, k));
      }
    }
    ChildrenKeyed(base, local, remote);
    if MergeChildren(base, local, remote).value == base {
      BaseEntriesOnlyRepeat(b, l, r);
    } else if OnlyRepeatsBelow(base, local, remote) {
      RepeatingEntriesAreBase(b, l, r);
      KeyedInjective(MergeChildren(base, local, remote).value, base);
    }
  }

  /** From the merged entries being the base's to what the sides look like. */
  lemma BaseEntriesOnlyRepeat(base: seq<Root>, local: seq<Root>, remote: seq<Root>)
    requires MergeEntries(base, local, remote).value == base
    requires forall k :: MergeAt(k, base, local, remote).value == Lookup(base, k)
                    ==> OnlyRepeats(Lookup(base, k), Lookup(local, k), Lookup(remote, k))
    ensures Distinct(Keys(remote)) == Keys(base)
    ensures forall k :: k in Keys(local) <==> k in Keys(base)
    ensures forall k :: k in Keys(local) ==> OnlyRepeats(Lookup(base, k), Lookup(local, k), Lookup(remote, k))
  {
    hide MergeOptional, OnlyRepeats, MergeEntries;
    EntriesTable(base, local, remote);
    forall k
      ensures OnlyRepeats(Lookup(base, k), Lookup(local, k), Lookup(remote, k))
      ensures k in Keys(local) <==> k in Keys(base)
      ensures k in Keys(remote) <==> k in Keys(base) {
      assert MergeAt(k, base, local, remote).value == Lookup(base, k);
      OnlyRepeatsPresent(Lookup(base, k), Lookup(local, k), Lookup(remote, k));
    }
    hide Lookup, MergeAt;
    SameKeysRemoteOrder(base, local, remote);
  }

  lemma RepeatingEntriesAreBase(base: seq<Root>, local: seq<Root>, remote: seq<Root>)
    requires Distinct(Keys(remote)) == Keys(base)
    requires forall k :: k in Keys(local) <==> k in Keys(base)
    requires forall k :: k in Keys(local) ==> MergeAt(k, base, local, remote).value == Lookup(base, k)
    ensures MergeEntries(base, local, remote).value == base
  {
    hide MergeOptional, MergeEntries;
    DistinctFacts(Keys(remote));
    SameKeysRemoteOrder(base, local, remote);
    EntriesTable(base, local, remote);
    hide MergeAt;
    SameKeysSameTable(MergeEntries(base, local, remote).value, base);
  }

  lemma AbsentIsBaseExactly(base: Option<Node>, remote: Option<Node>)
    ensures MergeOptional(base, None, remote).value == base <==> OnlyRepeats(base, None, remote)
  {
  }

  lemma OnlyRepeatsPresent(base: Option<Node>, local: Option<Node>, remote: Option<Node>)
    requires OnlyRepeats(base, local, remote)
    ensures base.Some? == local.Some? == remote.Some?
  {
  }

  /** With one set of keys everywhere all of them survive, in remote order. */
  lemma SameKeysRemoteOrder(base: seq<Root>, local: seq<Root>, remote: seq<Root>)
    requires forall k :: k in Keys(local) <==> k in Keys(remote)
    ensures Keys(MergeEntries(base, local, remote).value) == Distinct(Keys(remote))
  {
    ExactShape(base, local, remote);
    hide MergeEntries;
    var keep := iset k | Survives(k, base, local, remote);
    DistinctFacts(Keys(remote));
    DistinctFacts(Keys(local));
    SelectAll(Distinct(Keys(remote)), keep);
    SelectNothing(Distinct(Keys(local)), keep * Outside(Keys(remote)));
  }

  lemma {:induction false} SelectAll(keys: seq<string>, keep: iset<string>)
    requires forall k :: k in keys ==> k in keep
    ensures Select(keys, keep) == keys
  {
    if keys != [] {
      SelectAll(keys[..|keys| - 1], keep);
      assert keys[|keys| - 1] in keys;
    }
  }

  /**
   Nowhere in the recursion do both sides change a node by repetitions and reorderings alone.
   Where they do, the merge is the base, and a second merge takes it for an untouched side and
   yields the local order.
   */
  ghost predicate Settles(base: Option<Node>, local: Option<Node>, remote: Option<Node>)
    decreases SizeOfOption(local), 0
  {
    local.Some? && remote.Some? && local != remote && local != base && remote != base ==>
      && !OnlyRepeats(base, local, remote)
      && (SameFolder(local.value, remote.value) ==>
            SettlesBelow(BaseChildren(base, local.value.id), local.value.children, remote.value.children))
  }

  ghost predicate SettlesBelow(base: seq<Node>, local: seq<Node>, remote: seq<Node>)
    decreases SizeOfNodes(local), 1
  {
    forall k :: k in Keys(Keyed(local)) ==>
      Settles(Lookup(Keyed(base), k), Lookup(Keyed(local), k), Lookup(Keyed(remote), k))
  }

  predicate SameFolder(local: Node, remote: Node)
  {
    local.Folder? && remote.Folder? && local.id == remote.id
  }

  ghost predicate Absorbs(base: Option<Node>, local: Option<Node>, remote: Option<Node>)
  {
    MergeOptional(base, local, MergeOptional(base, local, remote).value).value
      == MergeOptional(base, local, remote).value
  }

  lemma {:induction false} OptionalAbsorbsExactly(base: Option<Node>, local: Option<Node>, remote: Option<Node>)
    ensures Absorbs(base, local, remote) <==> Settles(base, local, remote)
    decreases SizeOfOption(local), 1
  {
    if local.Some? && remote.Some? && local != remote && local != base && remote != base {
      PresentAbsorbsExactly(base, local.value, remote.value);
      OptionalIsBaseExactly(base, local, remote);
      var m := MergePresent(base, local.value, remote.value).value;
      TwoPresent(base, local.value, remote.value);
      TwoPresent(base, local.value, m);
      hide MergeOptional, MergePresent, SettlesBelow, OnlyRepeats;
    } else {
      hide MergePresent, SettlesBelow, OnlyRepeats;
    }
  }

  lemma TwoPresent(base: Option<Node>, local: Node, remote: Node)
    requires Some(local) != base
    ensures MergeOptional(base, Some(local), Some(remote)).value
         == if local != remote && Some(remote) == base then Some(local)
            else if local == remote then Some(local)
            else Some(MergePresent(base, local, remote).value)
  {
    hide MergePresent;
  }

  lemma {:induction false} PresentAbsorbsExactly(base: Option<Node>, local: Node, remote: Node)
    ensures MergePresent(base, local, MergePresent(base, local, remote).value).value
              == MergePresent(base, local, remote).value
            <==> (SameFolder(local, remote) ==>
                    SettlesBelow(BaseChildren(base, local.id), local.children, remote.children))
    ensures MergePresent(base, local, remote).value == local && SameFolder(local, remote) ==>
              SettlesBelow(BaseChildren(base, local.id), local.children, remote.children)
    decreases Size(local), 0
  {
    hide MergeChildren, SettlesBelow;
    if SameFolder(local, remote) {
      ChildrenAbsorbExactly(BaseChildren(base, local.id), local.children, remote.children);
    }
  }

  lemma {:induction false} ChildrenAbsorbExactly(base: seq<Node>, local: seq<Node>, remote: seq<Node>)
    ensures MergeChildren(base, local, MergeChildren(base, local, remote).value).value
              == MergeChildren(base, local, remote).value
            <==> SettlesBelow(base, local, remote)
    ensures MergeChildren(base, local, remote).value == local ==> SettlesBelow(base, local, remote)
    decreases SizeOfNodes(local), 4
  {
    hide MergeOptional, Settles;
    var b, l, r := Keyed(base), Keyed(local), Keyed(remote);
    forall k ensures Absorbs(Lookup(b, k), Lookup(l, k), Lookup(r, k))
                <==> (k in Keys(l) ==> Settles(Lookup(b, k), Lookup(l, k), Lookup(r, k))) {
      if k in Keys(l) {
        OptionalAbsorbsExactly(Lookup(b, k), Lookup(l, k), Lookup(r, k));
      } else {
        AbsentLocalAbsorbs(Lookup(b, k), Lookup(r, k));
      }
    }
    ChildrenKeyed(base, local, remote);
    var m := MergeEntries(b, l, r).value;
    assert Unkeyed(m) == MergeChildren(base, local, remote).value;
    EntriesAbsorbExactly(b, l, r);
    EntriesTable(b, l, r);
    if Unkeyed(m) == local {
      forall k | k in Keys(l) ensures Absorbs(Lookup(b, k), Lookup(l, k), Lookup(r, k)) {
        LocalAbsorbs(Lookup(b, k), Lookup(l, k));
      }
    }
    ChildrenKeyed(base, local, Unkeyed(m));
    if Unkeyed(MergeEntries(b, l, m).value) == Unkeyed(m) {
      assert Keyed(Unkeyed(MergeEntries(b, l, m).value)) == Keyed(Unkeyed(m));
    }
  }

  lemma AbsentLocalAbsorbs(base: Option<Node>, remote: Option<Node>)
    ensures Absorbs(base, None, remote)
  {
  }

  lemma LocalAbsorbs(base: Option<Node>, local: Option<Node>)
    ensures MergeOptional(base, local, local).value == local
  {
  }

  /** Level by level: the sequence absorbs, order included, exactly when every key does. */
  lemma EntriesAbsorbExactly(base: seq<Root>, local: seq<Root>, remote: seq<Root>)
    ensures MergeEntries(base, local, MergeEntries(base, local, remote).value).value
              == MergeEntries(base, local, remote).value
            <==> forall k :: Absorbs(Lookup(base, k), Lookup(local, k), Lookup(remote, k))
  {
    hide MergeOptional;
    var m := MergeEntries(base, local, remote).value;
    EntriesTable(base, local, remote);
    EntriesTable(base, local, m);
    if forall k :: Absorbs(Lookup(base, k), Lookup(local, k), Lookup(remote, k)) {
      forall k ensures MergeAt(k, base, local, m).value == Lookup(m, k) {
        assert Absorbs(Lookup(base, k), Lookup(local, k), Lookup(remote, k));
      }
      EntriesKeepRemote(base, local, m);
    } else {
      var k :| !Absorbs(Lookup(base, k), Lookup(local, k), Lookup(remote, k));
      assert MergeAt(k, base, local, m).value != Lookup(m, k);
    }
  }

  /** Distinct sibling ids in the remote tree are enough. */
  lemma {:induction false} UniqueSettles(base: Option<Node>, local: Option<Node>, remote: Option<Node>)
    requires UniqueOption(remote)
    ensures Settles(base, local, remote)
    decreases SizeOfOption(local)
  {
    if local.Some? && remote.Some? && local != remote && local != base && remote != base {
      hide MergeOptional, OnlyRepeats;
      OptionalIsBaseExactly(base, local, remote);
      if MergeOptional(base, local, remote).value == base {
        OptionalFixesBase(base, local, remote);
      }
      if SameFolder(local.value, remote.value) {
        var b, l, r := BaseChildren(base, local.value.id), local.value.children, remote.value.children;
        forall k | k in Keys(Keyed(l))
          ensures Settles(Lookup(Keyed(b), k), Lookup(Keyed(l), k), Lookup(Keyed(r), k)) {
          UniqueLookup(r, k);
          UniqueSettles(Lookup(Keyed(b), k), Lookup(Keyed(l), k), Lookup(Keyed(r), k));
        }
      }
    }
  }

  /**
   For every base, local and remote snapshot that merge: merging again onto the result gives
   the result, snapshot for snapshot, exactly when no node is changed on both sides by repetitions
   and reorderings of child ids alone.
   */
  lemma AbsorptionExactly(base: Option<Snapshot>, local: Snapshot, remote: Snapshot)
    requires MergeBookmarks(base, local, remote).Ok?
    ensures var merged := MergeBookmarks(base, local, remote).value.value;
            && MergeBookmarks(base, local, merged).Ok?
            && (MergeBookmarks(base, local, merged).value.value == merged
                <==> forall k :: Settles(Lookup(BaseRoots(base), k), Lookup(local.roots, k), Lookup(remote.roots, k)))
  {
    hide MergeOptional, Settles;
    var b, l, r := BaseRoots(base), local.roots, remote.roots;
    EntriesAbsorbExactly(b, l, r);
    forall k ensures Absorbs(Lookup(b, k), Lookup(l, k), Lookup(r, k))
                <==> Settles(Lookup(b, k), Lookup(l, k), Lookup(r, k)) {
      OptionalAbsorbsExactly(Lookup(b, k), Lookup(l, k), Lookup(r, k));
    }
  }

  /** In particular whenever no remote folder repeats a child id. */
  lemma Absorption(base: Option<Snapshot>, local: Snapshot, remote: Snapshot)
    requires MergeBookmarks(base, local, remote).Ok?
    requires UniqueSiblingsIn(remote.roots)
    ensures var merged := MergeBookmarks(base, local, remote).value.value;
            && MergeBookmarks(base, local, merged).Ok?
            && MergeBookmarks(base, local, merged).value.value == merged
  {
    hide MergeOptional, Settles;
    var b, l, r := BaseRoots(base), local.roots, remote.roots;
    AbsorptionExactly(base, local, remote);
    forall k ensures Settles(Lookup(b, k), Lookup(l, k), Lookup(r, k)) {
      if k in Keys(r) {
        var i := LookupFrom(r, k);
        assert r[i] in r;
      }
      UniqueSettles(Lookup(b, k), Lookup(l, k), Lookup(r, k));
    }
  }

  // ----- and not otherwise -----

  lemma LookupLast(entries: seq<Root>, e: Root, key: string)
    ensures Lookup(entries + [e], key) == if e.key == key then Some(e.node) else Lookup(entries, key)
  {
    assert (entries + [e])[..|entries|] == entries;
  }

  lemma DistinctLast(keys: seq<string>, key: string)
    ensures Distinct(keys + [key]) == if key in keys then Distinct(keys) else Distinct(keys) + [key]
  {
    assert (keys + [key])[..|keys|] == keys;
  }

  /**
   Two remote children with one id: a local reorder and a remote duplicate merge back to the
   base, so the next merge of the same two sides yields the local order instead.
   */
  lemma RepeatedIdDoesNotAbsorb()
    ensures var x, x', y := Url("a", "n", "u", None), Url("a", "m", "u", None), Url("b", "n", "u", None);
            var base, local, remote := Folder("f", "n", None, None, [x, y]),
                                       Folder("f", "n", None, None, [y, x]),
                                       Folder("f", "n", None, None, [x', x, y]);
            && MergeOptional(Some(base), Some(local), Some(remote)).value == Some(base)
            && !Absorbs(Some(base), Some(local), Some(remote))
  {
    var x, x', y := Url("a", "n", "u", None), Url("a", "m", "u", None), Url("b", "n", "u", None);
    var base, local, remote := Folder("f", "n", None, None, [x, y]), Folder("f", "n", None, None, [y, x]),
                               Folder("f", "n", None, None, [x', x, y]);
    RepeatedIdChildren(x, x', y);
    hide MergeChildren;
    assert x != y && [x, y][0] != [y, x][0] && |[x', x, y]| != 2;
    assert MergePresent(Some(base), local, remote).value == base;
    assert MergeOptional(Some(base), Some(local), Some(base)).value == Some(local);
  }

  lemma RepeatedIdTables(ex: Root, ex': Root, ey: Root, k: string)
    requires ex.key == ex'.key != ey.key
    ensures Lookup([ex', ex, ey], k) == Lookup([ex, ey], k) == Lookup([ey, ex], k)
  {
    assert [ex, ey] == [] + [ex] + [ey] && [ey, ex] == [] + [ey] + [ex]
        && [ex', ex, ey] == [] + [ex'] + [ex] + [ey];
    LookupLast([], ex, k);
    LookupLast([] + [ex], ey, k);
    LookupLast([], ey, k);
    LookupLast([] + [ey], ex, k);
    LookupLast([], ex', k);
    LookupLast([] + [ex'], ex, k);
    LookupLast([] + [ex'] + [ex], ey, k);
  }

  lemma RepeatedIdOrder()
    ensures Distinct(["a", "a", "b"] + ["b", "a"] + ["a", "b"]) == ["a", "b"]
  {
    assert ["a", "a", "b"] + ["b", "a"] + ["a", "b"]
        == [] + ["a"] + ["a"] + ["b"] + ["b"] + ["a"] + ["a"] + ["b"];
    DistinctLast([], "a");
    DistinctLast([] + ["a"], "a");
    DistinctLast([] + ["a"] + ["a"], "b");
    DistinctLast([] + ["a"] + ["a"] + ["b"], "b");
    DistinctLast([] + ["a"] + ["a"] + ["b"] + ["b"], "a");
    DistinctLast([] + ["a"] + ["a"] + ["b"] + ["b"] + ["a"], "a");
    DistinctLast([] + ["a"] + ["a"] + ["b"] + ["b"] + ["a"] + ["a"], "b");
  }

  lemma RepeatedIdEntries(ex: Root, ex': Root, ey: Root)
    requires ex.key == ex'.key == "a" && ey.key == "b"
    ensures MergeEntries([ex, ey], [ey, ex], [ex', ex, ey]).value == [ex, ey]
  {
    hide MergeOptional, Distinct, Index, MergeEach;
    var b, l, r := [ex, ey], [ey, ex], [ex', ex, ey];
    assert Keys(r) == ["a", "a", "b"] && Keys(l) == ["b", "a"] && Keys(b) == ["a", "b"];
    RepeatedIdOrder();
    assert ex.key != ey.key by { assert ex.key[0] != ey.key[0]; }
    forall e | e in b ensures MergeAt(e.key, b, l, r).value == Some(e.node) {
      var i :| 0 <= i < 2 && b[i] == e;
      LookupAt(b, i);
      RepeatedIdTables(ex, ex', ey, e.key);
      LocalAbsorbs(Some(e.node), Some(e.node));
    }
    EachRebuilds(b, b, l, r);
  }

  lemma RepeatedIdChildren(x: Node, x': Node, y: Node)
    requires x.id == x'.id == "a" && y.id == "b"
    ensures MergeChildren([x, y], [y, x], [x', x, y]).value == [x, y]
  {
    hide MergeEntries;
    var ex, ex', ey := Root("a", x), Root("a", x'), Root("b", y);
    assert Keyed([x, y]) == [ex, ey] && Keyed([y, x]) == [ey, ex] && Keyed([x', x, y]) == [ex', ex, ey];
    RepeatedIdEntries(ex, ex', ey);
  }
}
