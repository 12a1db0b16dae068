/** Directory trees by path, and what the file-system calls of a restore do to them. */
module FileTree {
  import opened Wrappers
  import opened Bytes

  type Path = seq<string>

  datatype Json = Object(members: map<string, Json>) | Null | Other(text: string)

  /** A file holds JSON, which may be written in different ways, or bytes that are not JSON. */
  datatype Content = Document(json: Json) | Raw(bytes: seq<Byte>)

  datatype Entry = Directory | File(content: Content)

  /** Paths are relative to the tree's root, which is [] and always a directory. */
  type Tree = map<Path, Entry>

  predicate Under(p: Path, q: Path)
  {
    p <= q
  }

  function Parent(p: Path): Path
    requires p != []
  {
    p[..|p| - 1]
  }

  predicate WellFormed(t: Tree)
  {
    && [] in t && t[[]] == Directory
    && forall p :: p in t && p != [] ==> Parent(p) in t && t[Parent(p)] == Directory
  }

  const EmptyTree: Tree := map[[] := Directory]

  lemma {:induction false} AncestorsAreDirectories(t: Tree, q: Path, p: Path)
    requires WellFormed(t) && p in t && Under(q, p) && q != p
    ensures q in t && t[q] == Directory
    decreases |p|
  {
    if q != Parent(p) {
      AncestorsAreDirectories(t, q, Parent(p));
    }
  }

  lemma Comparable(a: Path, b: Path, q: Path)
    requires Under(a, q) && Under(b, q)
    ensures Under(a, b) || Under(b, a)
  {
    if |a| <= |b| {
      assert b[..|a|] == q[..|a|];
    } else {
      assert a[..|b|] == q[..|b|];
    }
  }

  function Subtree(t: Tree, p: Path): Tree
  {
    map q | q in t && Under(p, q) :: t[q]
  }

  function Without(t: Tree, p: Path): Tree
  {
    map q | q in t && !Under(p, q) :: t[q]
  }

  /** Creates the directory and its ancestors; a file in the way is an error. */
  function CreateDirAll(t: Tree, p: Path): Option<Tree>
    decreases |p|
  {
    if p == [] then Some(t)
    else
      match CreateDirAll(t, Parent(p))
      case None => None
      case Some(t') =>
        if p !in t' then Some(t'[p := Directory])
        else if t'[p] == Directory then Some(t')
        else None
  }

  lemma {:induction false} CreateDirAllExactly(t: Tree, p: Path)
    requires [] in t && t[[]] == Directory
    ensures CreateDirAll(t, p).Some? <==> forall q :: q in t && Under(q, p) ==> t[q] == Directory
    ensures CreateDirAll(t, p).Some? ==>
              var t' := CreateDirAll(t, p).value;
              && (forall q :: q in t ==> q in t' && t'[q] == t[q])
              && (forall q :: q in t' && q !in t ==> Under(q, p) && t'[q] == Directory)
              && p in t' && t'[p] == Directory
    decreases |p|
  {
    if p == [] {
      assert forall q :: Under(q, p) ==> q == [];
    } else {
      CreateDirAllExactly(t, Parent(p));
      assert forall q: Path :: Under(q, p) ==> q == p || Under(q, Parent(p)) by {
        forall q: Path | Under(q, p) && q != p ensures Under(q, Parent(p)) {
          assert q == Parent(p)[..|q|];
        }
      }
      assert forall q: Path :: Under(q, Parent(p)) ==> Under(q, p) by {
        forall q: Path | Under(q, Parent(p)) ensures Under(q, p) {
          assert q == p[..|q|];
        }
      }
    }
  }

  lemma {:induction false} CreateDirAllWellFormed(t: Tree, p: Path)
    requires WellFormed(t) && CreateDirAll(t, p).Some?
    ensures WellFormed(CreateDirAll(t, p).value)
    decreases |p|
  {
    if p != [] {
      CreateDirAllWellFormed(t, Parent(p));
      CreateDirAllExactly(t, Parent(p));
    }
  }

  /** A rename replaces a file by a file and an empty directory by a directory, nothing else. */
  predicate MayReplace(source: Entry, t: Tree, p: Path)
  {
    p in t ==>
      && source.Directory? == t[p].Directory?
      && (t[p].Directory? ==> forall q :: q in t && Under(p, q) ==> q == p)
  }

  predicate Renamable(from: Tree, to: Tree, p: Path)
  {
    && p != [] && p in from
    && Parent(p) in to && to[Parent(p)] == Directory
    && MayReplace(from[p], to, p)
  }

  /** Both ends have the same path inside their trees, so the moved entries keep theirs. */
  function Arrived(from: Tree, to: Tree, p: Path): Tree
  {
    Without(to, p) + Subtree(from, p)
  }
}
