/** Bookmark trees, snapshots and the keyed views of them that the merge works on. */
module Bookmarks {
  import opened Wrappers

  datatype Node =
    | Folder(id: string, name: string, dateAdded: Option<string>, dateModified: Option<string>,
             children: seq<Node>)
    | Url(id: string, name: string, url: string, dateAdded: Option<string>)

  /** A node under the key it is looked up by: a root key, or a child's own id. */
  datatype Root = Root(key: string, node: Node)

  datatype Snapshot = Snapshot(
    format: string, sourceBrowser: string, profileDirectory: string,
    chromiumVersion: nat, roots: seq<Root>)

  // ----- size, the termination measure of everything that walks a tree -----

  function Size(n: Node): (s: nat)
    ensures s > 0
  {
    match n
    case Folder(_, _, _, _, children) => 1 + SizeOfNodes(children)
    case Url(_, _, _, _) => 1
  }

  function SizeOfNodes(nodes: seq<Node>): nat
  {
    if nodes == [] then 0
    else SizeOfNodes(nodes[..|nodes| - 1]) + Size(nodes[|nodes| - 1])
  }

  function SizeOfEntries(entries: seq<Root>): nat
  {
    if entries == [] then 0
    else SizeOfEntries(entries[..|entries| - 1]) + Size(entries[|entries| - 1].node)
  }

  function SizeOfOption(n: Option<Node>): nat
  {
    if n.Some? then Size(n.value) else 0
  }

  // ----- keyed views -----

  /** The children of a folder, each under its own id. */
  function Keyed(nodes: seq<Node>): (entries: seq<Root>)
    ensures |entries| == |nodes|
    ensures forall i :: 0 <= i < |nodes| ==> entries[i] == Root(nodes[i].id, nodes[i])
    ensures SizeOfEntries(entries) == SizeOfNodes(nodes)
  {
    if nodes == [] then []
    else
      var rest := Keyed(nodes[..|nodes| - 1]);
      var last := nodes[|nodes| - 1];
      var entries := rest + [Root(last.id, last)];
      assert entries[..|entries| - 1] == rest;
      entries
  }

  function Unkeyed(entries: seq<Root>): (nodes: seq<Node>)
    ensures |nodes| == |entries|
    ensures forall i :: 0 <= i < |nodes| ==> nodes[i] == entries[i].node
  {
    seq(|entries|, i requires 0 <= i < |entries| => entries[i].node)
  }

  function Keys(entries: seq<Root>): (keys: seq<string>)
    ensures |keys| == |entries|
    ensures forall i :: 0 <= i < |keys| ==> keys[i] == entries[i].key
  {
    seq(|entries|, i requires 0 <= i < |entries| => entries[i].key)
  }

  /** The lookup table over a keyed sequence; a repeated key keeps its last node. */
  function Index(entries: seq<Root>): (m: map<string, Node>)
    ensures forall k :: k in m ==> Size(m[k]) <= SizeOfEntries(entries)
    ensures forall k :: k in m <==> k in Keys(entries)
  {
    if entries == [] then map[]
    else
      var last := entries[|entries| - 1];
      var rest := entries[..|entries| - 1];
      assert Keys(entries) == Keys(rest) + [last.key];
      Index(rest)[last.key := last.node]
  }

  function Get<T>(m: map<string, T>, key: string): Option<T>
  {
    if key in m then Some(m[key]) else None
  }

  /** The node that a key denotes in a keyed sequence. */
  function Lookup(entries: seq<Root>, key: string): (n: Option<Node>)
    ensures SizeOfOption(n) <= SizeOfEntries(entries)
    ensures n.Some? <==> key in Keys(entries)
  {
    Get(Index(entries), key)
  }

  /** Under a repeated key the last entry stands. */
  lemma {:induction false} LookupIsLast(entries: seq<Root>, i: nat)
    requires i < |entries| && entries[i].key !in Keys(entries[i + 1..])
    ensures Lookup(entries, entries[i].key) == Some(entries[i].node)
  {
    var n := |entries| - 1;
    if i < n {
      assert entries[..n][i + 1..] + [entries[n]] == entries[i + 1..];
      assert Keys(entries[i + 1..]) == Keys(entries[..n][i + 1..]) + [entries[n].key];
      LookupIsLast(entries[..n], i);
    }
  }

  /** The first occurrences of a sequence, in order: what a `seen` set lets through. */
  function Distinct(keys: seq<string>): (d: seq<string>)
  {
    if keys == [] then []
    else
      var rest := keys[..|keys| - 1];
      var last := keys[|keys| - 1];
      if last in rest then Distinct(rest) else Distinct(rest) + [last]
  }

  ghost predicate NoDuplicates(keys: seq<string>)
  {
    forall i, j :: 0 <= i < j < |keys| ==> keys[i] != keys[j]
  }

  /** No folder of the tree holds two children with one id. */
  ghost predicate UniqueSiblings(n: Node)
    decreases n
  {
    n.Folder? ==>
      && NoDuplicates(Keys(Keyed(n.children)))
      && forall c :: c in n.children ==> UniqueSiblings(c)
  }

  ghost predicate UniqueSiblingsIn(entries: seq<Root>)
  {
    forall e :: e in entries ==> UniqueSiblings(e.node)
  }

  // ----- facts about the views -----

  lemma {:induction false} DistinctFacts(keys: seq<string>)
    ensures NoDuplicates(Distinct(keys))
    ensures forall k :: k in Distinct(keys) <==> k in keys
  {
    if keys != [] {
      var rest, last := keys[..|keys| - 1], keys[|keys| - 1];
      DistinctFacts(rest);
      assert keys == rest + [last];
    }
  }

  lemma {:induction false} DistinctOfDistinct(keys: seq<string>)
    requires NoDuplicates(keys)
    ensures Distinct(keys) == keys
  {
    if keys != [] {
      var rest, last := keys[..|keys| - 1], keys[|keys| - 1];
      DistinctOfDistinct(rest);
      assert keys == rest + [last];
      assert last !in rest;
    }
  }

  /** Appending to distinct keys only adds, at the end, keys that are new. */
  lemma {:induction false} DistinctAppend(a: seq<string>, b: seq<string>) returns (added: seq<string>)
    requires NoDuplicates(a)
    ensures Distinct(a + b) == a + added
    ensures NoDuplicates(added)
    ensures forall k :: k in added <==> k in b && k !in a
    decreases |a| + |b|
  {
    if b == [] {
      assert a + b == a;
      added := [];
      DistinctOfDistinct(a);
    } else {
      var rest, last := b[..|b| - 1], b[|b| - 1];
      var before := DistinctAppend(a, rest);
      assert (a + b)[..|a + b| - 1] == a + rest;
      assert (a + b)[|a + b| - 1] == last;
      assert b == rest + [last];
      if last in a + rest {
        added := before;
      } else {
        added := before + [last];
        assert a + added == (a + before) + [last];
      }
    }
  }

  /** A key found by its position: with distinct keys, the table agrees with every entry. */
  lemma {:induction false} LookupAt(entries: seq<Root>, i: nat)
    requires i < |entries|
    requires NoDuplicates(Keys(entries))
    ensures Lookup(entries, entries[i].key) == Some(entries[i].node)
  {
    var n := |entries| - 1;
    if i < n {
      var rest := entries[..n];
      assert Keys(rest) == Keys(entries)[..n];
      LookupAt(rest, i);
      assert entries[i].key != entries[n].key by {
        assert Keys(entries)[i] != Keys(entries)[n];
      }
    }
  }

  /** Whatever a table holds stands somewhere in the sequence under that key. */
  lemma {:induction false} LookupFrom(entries: seq<Root>, key: string) returns (i: nat)
    requires key in Keys(entries)
    ensures i < |entries| && entries[i].key == key
    ensures Lookup(entries, key) == Some(entries[i].node)
  {
    var n := |entries| - 1;
    if entries[n].key == key {
      i := n;
    } else {
      assert Keys(entries) == Keys(entries[..n]) + [entries[n].key];
      i := LookupFrom(entries[..n], key);
    }
  }

  lemma KeyedChild(nodes: seq<Node>, key: string) returns (n: Node)
    requires key in Keys(Keyed(nodes))
    ensures n in nodes && n.id == key
    ensures Lookup(Keyed(nodes), key) == Some(n)
  {
    var i := LookupFrom(Keyed(nodes), key);
    n := nodes[i];
  }

  /** Distinct keys and equal tables fix a keyed sequence up to its order. */
  lemma SameKeysSameTable(a: seq<Root>, b: seq<Root>)
    requires NoDuplicates(Keys(a))
    requires Keys(a) == Keys(b)
    requires forall k :: k in Keys(a) ==> Lookup(a, k) == Lookup(b, k)
    ensures a == b
  {
    forall i | 0 <= i < |a| ensures a[i] == b[i] {
      assert a[i].key == Keys(a)[i] == Keys(b)[i] == b[i].key;
      LookupAt(a, i);
      LookupAt(b, i);
    }
  }

  lemma KeyedInjective(a: seq<Node>, b: seq<Node>)
    requires Keyed(a) == Keyed(b)
    ensures a == b
  {
    assert forall i :: 0 <= i < |a| ==> Keyed(a)[i].node == a[i] && Keyed(b)[i].node == b[i];
  }
}
