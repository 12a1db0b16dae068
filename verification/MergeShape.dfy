/** The shape of a merge: which keys come out, in what order, carrying what. */
module MergeShape {
  import opened Wrappers
  import opened Bookmarks
  import opened BookmarkMerge

  // ----- selecting keys -----

  ghost function Select(keys: seq<string>, keep: iset<string>): seq<string>
  {
    if keys == [] then []
    else
      var rest := Select(keys[..|keys| - 1], keep);
      var last := keys[|keys| - 1];
      if last in keep then rest + [last] else rest
  }

  lemma {:induction false} SelectFacts(keys: seq<string>, keep: iset<string>)
    ensures forall k :: k in Select(keys, keep) <==> k in keys && k in keep
    ensures NoDuplicates(keys) ==> NoDuplicates(Select(keys, keep))
  {
    if keys != [] {
      var rest, last := keys[..|keys| - 1], keys[|keys| - 1];
      SelectFacts(rest, keep);
      assert keys == rest + [last];
    }
  }

  lemma {:induction false} SelectAppend(a: seq<string>, b: seq<string>, keep: iset<string>)
    ensures Select(a + b, keep) == Select(a, keep) + Select(b, keep)
    decreases |b|
  {
    if b == [] {
      assert a + b == a;
    } else {
      SelectAppend(a, b[..|b| - 1], keep);
      assert (a + b)[..|a + b| - 1] == a + b[..|b| - 1];
    }
  }

  lemma {:induction false} SelectTwice(keys: seq<string>, first: iset<string>, second: iset<string>)
    ensures Select(Select(keys, first), second) == Select(keys, first * second)
  {
    if keys != [] {
      var rest, last := keys[..|keys| - 1], keys[|keys| - 1];
      SelectTwice(rest, first, second);
      SelectAppend(Select(rest, first), [last], second);
      assert [last][..0] == [];
      assert Select([last], second) == if last in second then [last] else [];
    }
  }

  lemma {:induction false} SelectNothing(keys: seq<string>, keep: iset<string>)
    requires forall k :: k in keys ==> k !in keep
    ensures Select(keys, keep) == []
  {
    if keys != [] {
      assert keys[|keys| - 1] in keys;
      SelectNothing(keys[..|keys| - 1], keep);
    }
  }

  ghost function Outside(keys: seq<string>): iset<string>
  {
    iset k: string | k !in keys
  }

  lemma {:induction false} DistinctConcat(a: seq<string>, b: seq<string>)
    ensures Distinct(a + b) == Distinct(a) + Select(Distinct(b), Outside(a))
    decreases |b|
  {
    if b == [] {
      assert a + b == a;
    } else {
      var rest, last := b[..|b| - 1], b[|b| - 1];
      DistinctConcat(a, rest);
      assert (a + b)[..|a + b| - 1] == a + rest;
      if last !in rest {
        var d := Distinct(rest);
        assert (d + [last])[..|d + [last]| - 1] == d;
      }
    }
  }

  // ----- the pass over the keys -----

  /** The merge of one key, as the pass over the keys computes it. */
  function MergeAt(key: string, base: seq<Root>, local: seq<Root>, remote: seq<Root>): Merged<Option<Node>>
  {
    MergeOptional(Lookup(base, key), Lookup(local, key), Lookup(remote, key))
  }

  lemma {:induction false} EachAppend(a: seq<string>, b: seq<string>, base: seq<Root>, local: seq<Root>,
                                      remote: seq<Root>)
    ensures MergeEach(a + b, base, local, remote).value
         == MergeEach(a, base, local, remote).value + MergeEach(b, base, local, remote).value
    ensures MergeEach(a + b, base, local, remote).conflicts
         == MergeEach(a, base, local, remote).conflicts + MergeEach(b, base, local, remote).conflicts
    decreases |b|
  {
    hide MergeOptional;
    if b == [] {
      assert a + b == a;
    } else {
      var rest, last := b[..|b| - 1], b[|b| - 1];
      EachAppend(a, rest, base, local, remote);
      assert (a + b)[..|a + b| - 1] == a + rest;
    }
  }

  lemma {:induction false} EachNothing(keys: seq<string>, base: seq<Root>, local: seq<Root>, remote: seq<Root>)
    requires forall k :: k in keys ==> MergeAt(k, base, local, remote).value == None
    ensures MergeEach(keys, base, local, remote).value == []
  {
    hide MergeOptional;
    if keys != [] {
      EachNothing(keys[..|keys| - 1], base, local, remote);
      assert keys[|keys| - 1] in keys;
    }
  }

  /** If every entry of `to` is what its key merges to, the pass over its keys rebuilds `to`. */
  lemma {:induction false} EachRebuilds(to: seq<Root>, base: seq<Root>, local: seq<Root>, remote: seq<Root>)
    requires forall e :: e in to ==> MergeAt(e.key, base, local, remote).value == Some(e.node)
    ensures MergeEach(Keys(to), base, local, remote).value == to
  {
    hide MergeOptional;
    if to != [] {
      var rest, last := to[..|to| - 1], to[|to| - 1];
      EachRebuilds(rest, base, local, remote);
      assert Keys(to)[..|to| - 1] == Keys(rest);
      assert last in to;
      assert to == rest + [last];
    }
  }

  /** The keys that merge to a node. */
  ghost function Kept(base: seq<Root>, local: seq<Root>, remote: seq<Root>): iset<string>
  {
    iset k: string | MergeAt(k, base, local, remote).value.Some?
  }

  lemma {:induction false} EachKeys(keys: seq<string>, base: seq<Root>, local: seq<Root>, remote: seq<Root>)
    ensures Keys(MergeEach(keys, base, local, remote).value) == Select(keys, Kept(base, local, remote))
    ensures forall e :: e in MergeEach(keys, base, local, remote).value
              ==> MergeAt(e.key, base, local, remote).value == Some(e.node)
  {
    hide MergeOptional;
    if keys != [] {
      var rest, last := keys[..|keys| - 1], keys[|keys| - 1];
      EachKeys(rest, base, local, remote);
      var out := MergeEach(rest, base, local, remote).value;
      if MergeAt(last, base, local, remote).value.Some? {
        var e := Root(last, MergeAt(last, base, local, remote).value.value);
        assert Keys(out + [e]) == Keys(out) + [last];
      } else {
        assert out + [] == out;
      }
    }
  }

  /**
   The merged sequence as a table: no key repeats, and each key, listed or not, maps to
   exactly the merge of what the three inputs map it to.
   */
  lemma EntriesTable(base: seq<Root>, local: seq<Root>, remote: seq<Root>)
    ensures NoDuplicates(Keys(MergeEntries(base, local, remote).value))
    ensures forall k :: Lookup(MergeEntries(base, local, remote).value, k)
                     == MergeAt(k, base, local, remote).value
  {
    var keys := MergeOrder(base, local, remote);
    var out := MergeEntries(base, local, remote).value;
    DistinctFacts(Keys(remote) + Keys(local) + Keys(base));
    EachKeys(keys, base, local, remote);
    SelectFacts(keys, Kept(base, local, remote));
    forall k ensures Lookup(out, k) == MergeAt(k, base, local, remote).value {
      EntryOfTable(k, base, local, remote);
    }
  }

  lemma EntryOfTable(k: string, base: seq<Root>, local: seq<Root>, remote: seq<Root>)
    requires var out := MergeEntries(base, local, remote).value;
             && (k in Keys(out) <==> k in MergeOrder(base, local, remote) && k in Kept(base, local, remote))
             && (forall e :: e in out ==> MergeAt(e.key, base, local, remote).value == Some(e.node))
    ensures Lookup(MergeEntries(base, local, remote).value, k) == MergeAt(k, base, local, remote).value
  {
    var out := MergeEntries(base, local, remote).value;
    DistinctFacts(Keys(remote) + Keys(local) + Keys(base));
    if k in Keys(out) {
      hide MergeOptional;
      var i := LookupFrom(out, k);
      assert out[i] in out;
    } else if k !in MergeOrder(base, local, remote) {
      assert k !in Keys(remote) && k !in Keys(local) && k !in Keys(base);
    }
  }

  predicate HasId(n: Option<Node>, id: string)
  {
    n.Some? ==> n.value.id == id
  }

  lemma OptionalKeepsId(id: string, base: Option<Node>, local: Option<Node>, remote: Option<Node>)
    requires HasId(base, id) && HasId(local, id) && HasId(remote, id)
    ensures HasId(MergeOptional(base, local, remote).value, id)
  {
  }

  lemma ChildHasId(key: string, nodes: seq<Node>)
    ensures HasId(Lookup(Keyed(nodes), key), key)
  {
    if key in Keys(Keyed(nodes)) {
      var n := KeyedChild(nodes, key);
    }
  }

  /** A child keeps the id it is keyed by through every branch of the merge. */
  lemma MergedChildId(key: string, base: seq<Node>, local: seq<Node>, remote: seq<Node>)
    ensures HasId(MergeAt(key, Keyed(base), Keyed(local), Keyed(remote)).value, key)
  {
    hide MergeOptional;
    ChildHasId(key, base);
    ChildHasId(key, local);
    ChildHasId(key, remote);
    OptionalKeepsId(key, Lookup(Keyed(base), key), Lookup(Keyed(local), key), Lookup(Keyed(remote), key));
  }

  /** Merged children re-keyed by their ids are the keyed merge itself. */
  lemma ChildrenKeyed(base: seq<Node>, local: seq<Node>, remote: seq<Node>)
    ensures Keyed(MergeChildren(base, local, remote).value)
         == MergeEntries(Keyed(base), Keyed(local), Keyed(remote)).value
  {
    hide MergeOptional;
    var b, l, r := Keyed(base), Keyed(local), Keyed(remote);
    var out := MergeEntries(b, l, r).value;
    EachKeys(MergeOrder(b, l, r), b, l, r);
    forall i | 0 <= i < |out| ensures out[i].node.id == out[i].key {
      assert out[i] in out;
      MergedChildId(out[i].key, base, local, remote);
    }
    assert Keyed(Unkeyed(out)) == out;
  }

  // ----- exact shape -----

  /** A key survives when both sides hold it, or one side holds it other than the base does. */
  ghost predicate Survives(key: string, base: seq<Root>, local: seq<Root>, remote: seq<Root>)
  {
    var b, l, r := Lookup(base, key), Lookup(local, key), Lookup(remote, key);
    || (l.Some? && r.Some?)
    || (l.Some? && r.None? && l != b)
    || (l.None? && r.Some? && r != b)
  }

  lemma KeptExactly(base: seq<Root>, local: seq<Root>, remote: seq<Root>)
    ensures Kept(base, local, remote) == iset k | Survives(k, base, local, remote)
  {
  }

  /** The last arm of the node merge is dead: the earlier ones cover every case that reaches it. */
  lemma LastArmUnreachable(base: Option<Node>, local: Option<Node>, remote: Option<Node>)
    requires local != remote && local != base && remote != base
    ensures (local.Some? && remote.Some?)
         || (base.Some? && local.None? && remote.Some?)
         || (base.Some? && local.Some? && remote.None?)
  {
  }

  /**
   The output lists, without repetition, first the surviving remote keys in remote order, then
   the surviving keys that only the local side holds in local order, and nothing else.
   */
  lemma ExactShape(base: seq<Root>, local: seq<Root>, remote: seq<Root>)
    ensures var keep := iset k | Survives(k, base, local, remote);
            var out := Keys(MergeEntries(base, local, remote).value);
            && NoDuplicates(out)
            && out == Select(Distinct(Keys(remote)), keep)
                    + Select(Distinct(Keys(local)), keep * Outside(Keys(remote)))
            && forall k :: k in out <==> k in keep
  {
    hide MergeOptional;
    var keep := Kept(base, local, remote);
    KeptExactly(base, local, remote);
    var r, l, b := Keys(remote), Keys(local), Keys(base);
    EachKeys(MergeOrder(base, local, remote), base, local, remote);
    DistinctConcat(r + l, b);
    DistinctConcat(r, l);
    var fresh1, fresh2 := Select(Distinct(l), Outside(r)), Select(Distinct(b), Outside(r + l));
    SelectAppend(Distinct(r) + fresh1, fresh2, keep);
    SelectAppend(Distinct(r), fresh1, keep);
    SelectTwice(Distinct(l), Outside(r), keep);
    assert Outside(r) * keep == keep * Outside(r);
    SelectFacts(Distinct(b), Outside(r + l));
    SelectNothing(fresh2, keep);
    EntriesTable(base, local, remote);
  }
}
