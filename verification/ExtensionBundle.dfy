/**
 What a bundle holds of a profile, how it is captured, and how it is staged again: the extension
 directories, extension databases, and the `extensions` section of the preference files.
 */
module ExtensionBundle {
  import opened Wrappers
  import opened FileTree
  import opened ExtensionRestore

  const EXTENSION_DIRECTORIES: seq<string> :=
    ["Extensions", "Extension State", "Local Extension Settings", "Sync Extension Settings",
     "Managed Extension Settings", "Extension Rules", "Extension Scripts"]
  const PREFERENCE_FILES: seq<string> := ["Preferences", "Secure Preferences"]
  const DATABASES := "IndexedDB"
  const DATABASE_PREFIX := "chrome-extension_"
  const SECTION := "extensions"
  const BUNDLE_FORMAT := "helium-extensions-v1"

  predicate IsDatabaseName(name: string)
  {
    DATABASE_PREFIX <= name
  }

  /** The roots that are captured and, with the preference files, replaced. */
  predicate IsRoot(p: Path)
  {
    IsDirectoryRoot(p) || IsDatabase(p)
  }

  predicate IsDirectoryRoot(p: Path)
  {
    |p| == 1 && p[0] in EXTENSION_DIRECTORIES
  }

  predicate IsDatabase(p: Path)
  {
    |p| == 2 && p[0] == DATABASES && IsDatabaseName(p[1])
  }

  /** The allowlist a payload path is checked against. */
  predicate Allowed(p: Path)
  {
    p != [] && (p[0] in EXTENSION_DIRECTORIES || (p[0] == DATABASES && |p| >= 2 && IsDatabaseName(p[1])))
  }

  function RootOf(p: Path): (root: Path)
    requires Allowed(p)
    ensures IsRoot(root) && Under(root, p)
  {
    if p[0] in EXTENSION_DIRECTORIES then p[..1] else p[..2]
  }

  lemma RootIsUnique(root: Path, p: Path)
    requires IsRoot(root) && Under(root, p)
    ensures Allowed(p) && RootOf(p) == root
  {
    assert root == p[..|root|];
    assert p[0] == root[0];
  }

  predicate IsPreferenceFile(p: Path)
  {
    |p| == 1 && p[0] in PREFERENCE_FILES
  }

  // ----- bundles -----

  datatype Stats = Stats(extensions: nat, files: nat)

  datatype Bundle = Bundle(
    format: string, profileDirectory: string, stats: Stats, payload: seq<(Path, Entry)>, sections: map<string, Json>)

  datatype BundleError =
    | UnsupportedFormat | ProfileMismatch | UnsafePayload(path: Path) | SectionMissing(file: string)
    | Unreadable(path: Path) | NotAnObject(path: Path)

  /** What of a profile a bundle holds. */
  function Captured(t: Tree): Tree
  {
    map p | p in t && Allowed(p) :: t[p]
  }

  function Files(t: Tree): set<Path>
  {
    set p | p in t && t[p].File?
  }

  function InstalledExtensions(t: Tree): set<Path>
  {
    set p | p in t && |p| == 2 && p[0] == "Extensions" && t[p].Directory?
  }

  function StatsOf(t: Tree): Stats
  {
    Stats(|InstalledExtensions(t)|, |Files(t)|)
  }

  function Section(t: Tree, file: string): Result<Json, BundleError>
  {
    if [file] !in t || t[[file]].Directory? then Ok(Null)
    else
      match t[[file]].content
      case Raw(_) => Err(Unreadable([file]))
      case Document(Object(members)) => Ok(if SECTION in members then members[SECTION] else Null)
      case Document(_) => Ok(Null)
  }

  /** Only a preference file that is not JSON is in the way; without one, or a section in it, there is none to keep. */
  lemma SectionExactly(t: Tree, f: string)
    ensures Section(t, f).Err? <==> [f] in t && t[[f]].File? && t[[f]].content.Raw?
    ensures Section(t, f).Err? ==> Section(t, f).error == Unreadable([f])
    ensures forall json :: json != Null ==>
              (Section(t, f) == Ok(json) <==>
               && [f] in t && t[[f]].File? && t[[f]].content.Document? && t[[f]].content.json.Object?
               && SECTION in t[[f]].content.json.members && t[[f]].content.json.members[SECTION] == json)
  {
  }

  /** The entries are the tree's, each once, in some order. */
  ghost predicate Lists(entries: seq<(Path, Entry)>, content: Tree)
  {
    && (forall i, j :: 0 <= i < j < |entries| ==> entries[i].0 != entries[j].0)
    && (forall i :: 0 <= i < |entries| ==> entries[i].0 in content && content[entries[i].0] == entries[i].1)
    && forall p :: p in content ==> exists i :: 0 <= i < |entries| && entries[i].0 == p
  }

  lemma ListsAppend(a: seq<(Path, Entry)>, s: Tree, b: seq<(Path, Entry)>, t: Tree)
    requires Lists(a, s) && Lists(b, t) && s.Keys !! t.Keys
    ensures Lists(a + b, s + t)
  {
    forall p | p in s + t ensures exists i :: 0 <= i < |a + b| && (a + b)[i].0 == p {
      if p in t {
        var i :| 0 <= i < |b| && b[i].0 == p;
        assert (a + b)[|a| + i].0 == p;
      } else {
        var i :| 0 <= i < |a| && a[i].0 == p;
        assert (a + b)[i].0 == p;
      }
    }
  }

  /** The entries under any of the roots. */
  function Covered(t: Tree, roots: seq<Path>): Tree
  {
    map q | q in t && Targeted(roots, q) :: t[q]
  }

  lemma TargetedOneMore(roots: seq<Path>, p: Path)
    ensures forall q :: Targeted(roots + [p], q) <==> Targeted(roots, q) || Under(p, q)
  {
    forall q ensures Targeted(roots + [p], q) <==> Targeted(roots, q) || Under(p, q) {
      if Targeted(roots, q) {
        var t :| t in roots && Under(t, q);
        assert t in roots + [p];
      }
      if Under(p, q) { assert p in roots + [p]; }
    }
  }

  lemma CoveredOneMore(t: Tree, roots: seq<Path>, p: Path)
    requires Separate(roots + [p])
    ensures Covered(t, roots + [p]) == Covered(t, roots) + Subtree(t, p)
    ensures Covered(t, roots).Keys !! Subtree(t, p).Keys
  {
    TargetedOneMore(roots, p);
    forall q | Targeted(roots, q) ensures !Under(p, q) {
      var other :| other in roots && Under(other, q);
      assert other in roots + [p] && p in roots + [p];
      assert other != p by {
        var i :| 0 <= i < |roots| && roots[i] == other;
        assert (roots + [p])[i] == other && (roots + [p])[|roots|] == p;
      }
      OtherTarget(roots + [p], other, p, q);
    }
  }

  lemma SeparatePrefix(roots: seq<Path>, n: nat)
    requires Separate(roots) && n <= |roots|
    ensures Separate(roots[..n])
  {
  }

  // ----- capture -----

  method ListChildren(t: Tree, path: Path) returns (children: seq<Path>)
    ensures Distinct(children)
    ensures forall q :: q in children <==> q in t && |q| == |path| + 1 && Under(path, q)
  {
    var remaining := set q | q in t && |q| == |path| + 1 && Under(path, q);
    ghost var all := remaining;
    children := [];
    while remaining != {}
      invariant remaining <= all && Distinct(children)
      invariant forall q :: q in children <==> q in all && q !in remaining
      decreases remaining
    {
      var q :| q in remaining;
      remaining := remaining - {q};
      children := children + [q];
    }
  }

  lemma ChildrenSeparate(t: Tree, path: Path, children: seq<Path>)
    requires Distinct(children)
    requires forall q :: q in children <==> q in t && |q| == |path| + 1 && Under(path, q)
    ensures Separate(children)
  {
  }

  /** A directory's entries are itself and those of its children. */
  lemma SubtreeIsChildren(t: Tree, path: Path, children: seq<Path>)
    requires WellFormed(t) && path in t
    requires forall q :: q in children <==> q in t && |q| == |path| + 1 && Under(path, q)
    ensures Subtree(t, path) == map[path := t[path]] + Covered(t, children)
    ensures path !in Covered(t, children)
  {
    hide Covered, Subtree;
    forall q | q in t ensures Under(path, q) <==> q == path || Targeted(children, q) {
      BelowIsTargeted(t, path, children, q);
    }
    assert !Targeted(children, path) by { BelowIsTargeted(t, path, children, path); }
    hide WellFormed, Targeted, Under;
    CoveredPointwise(t, path, children);
  }

  lemma CoveredPointwise(t: Tree, path: Path, children: seq<Path>)
    requires path in t && !Targeted(children, path)
    requires forall q :: q in t ==> (Under(path, q) <==> q == path || Targeted(children, q))
    ensures Subtree(t, path) == map[path := t[path]] + Covered(t, children)
    ensures path !in Covered(t, children)
  {
    hide Targeted, Under;
  }

  lemma BelowIsTargeted(t: Tree, path: Path, children: seq<Path>, q: Path)
    requires WellFormed(t) && path in t && q in t
    requires forall q :: q in children <==> q in t && |q| == |path| + 1 && Under(path, q)
    ensures Under(path, q) && q != path ==> Targeted(children, q)
    ensures Targeted(children, q) ==> Under(path, q) && q != path
  {
    if Under(path, q) && q != path {
      var child := q[..|path| + 1];
      assert Under(child, q) && Under(path, child);
      if child != q { AncestorsAreDirectories(t, child, q); }
      assert child in children;
    }
    if Targeted(children, q) {
      var child :| child in children && Under(child, q);
      assert path == child[..|path|] == q[..|path|];
    }
  }

  lemma FilesOfUnion(s: Tree, t: Tree)
    requires s.Keys !! t.Keys
    ensures |Files(s + t)| == |Files(s)| + |Files(t)|
  {
    assert Files(s + t) == Files(s) + Files(t);
    assert Files(s) !! Files(t);
  }

  lemma ChildSmaller(t: Tree, path: Path, child: Path)
    requires path in t && Under(path, child) && |child| > |path|
    ensures Subtree(t, child).Keys < Subtree(t, path).Keys
  {
    assert path in Subtree(t, path) && path !in Subtree(t, child);
    forall q | q in Subtree(t, child) ensures q in Subtree(t, path) {
      assert path == child[..|path|] == q[..|path|];
    }
  }

  /** The ZIP under construction, with its running count of files. */
  class ArchiveWriter {
    var entries: seq<(Path, Entry)>
    var files: nat

    constructor ()
      ensures entries == [] && files == 0
    {
      entries, files := [], 0;
    }

    /** Adds the entry and, if it is a directory, everything below it; nothing if there is none. */
    method AddTree(t: Tree, path: Path)
      requires WellFormed(t)
      modifies this
      ensures old(entries) <= entries
      ensures Lists(entries[|old(entries)|..], Subtree(t, path))
      ensures files == old(files) + |Files(Subtree(t, path))|
      decreases Subtree(t, path).Keys, 0
    {
      hide WellFormed, Lists;
      if path !in t {
        EmptyWhenAbsent(t, path);
        NothingListed();
        assert entries[|old(entries)|..] == [];
        return;
      }
      ghost var start := |entries|;
      ghost var before := files;
      entries := entries + [(path, t[path])];
      OneListed(path, t[path]);
      if t[path].File? {
        LeafSubtree(t, path);
        files := files + 1;
        assert Files(map[path := t[path]]) == {path};
      } else {
        assert Files(map[path := t[path]]) == {};
        var children := ListChildren(t, path);
        ChildrenSeparate(t, path, children);
        SubtreeIsChildren(t, path, children);
        AddAll(t, path, children);
        assert entries[start..] == [(path, t[path])] + entries[start + 1..];
        ListsAppend([(path, t[path])], map[path := t[path]], entries[start + 1..], Covered(t, children));
        FilesOfUnion(map[path := t[path]], Covered(t, children));
      }
    }

    method AddAll(t: Tree, ghost above: Path, roots: seq<Path>)
      requires WellFormed(t) && Separate(roots)
      requires above in t && forall root :: root in roots ==> Under(above, root) && |root| > |above|
      modifies this
      ensures old(entries) <= entries
      ensures Lists(entries[|old(entries)|..], Covered(t, roots))
      ensures files == old(files) + |Files(Covered(t, roots))|
      decreases Subtree(t, above).Keys, 0, 1
    {
      hide WellFormed, Lists, Separate, Subtree, Covered, Files;
      ghost var start := |entries|;
      assert roots[..0] == [];
      NothingCovered(t);
      NothingListed();
      assert entries[start..] == [];
      for i := 0 to |roots|
        invariant old(entries) <= entries
        invariant Lists(entries[start..], Covered(t, roots[..i]))
        invariant files == old(files) + |Files(Covered(t, roots[..i]))|
      {
        ghost var sofar := entries;
        SeparatePrefix(roots, i + 1);
        assert roots[..i + 1] == roots[..i] + [roots[i]];
        CoveredOneMore(t, roots[..i], roots[i]);
        ChildSmaller(t, above, roots[i]);
        AddTree(t, roots[i]);
        assert entries[start..] == sofar[start..] + entries[|sofar|..];
        ListsAppend(sofar[start..], Covered(t, roots[..i]), entries[|sofar|..], Subtree(t, roots[i]));
        FilesOfUnion(Covered(t, roots[..i]), Subtree(t, roots[i]));
      }
      assert roots[..|roots|] == roots;
    }
  }

  lemma NothingCovered(t: Tree)
    ensures Covered(t, []) == map[] && Files(map[]) == {}
  {
  }

  lemma NothingListed()
    ensures Lists([], map[])
  {
  }

  lemma OneListed(p: Path, e: Entry)
    ensures Lists([(p, e)], map[p := e])
  {
    assert [(p, e)][0].0 == p;
  }

  lemma LeafSubtree(t: Tree, path: Path)
    requires WellFormed(t) && path in t && t[path].File?
    ensures Subtree(t, path) == map[path := t[path]]
  {
    forall q | q in t && Under(path, q) && q != path ensures false {
      AncestorsAreDirectories(t, path, q);
    }
  }

  // ----- capturing a profile -----

  ghost predicate IsRootList(t: Tree, roots: seq<Path>)
  {
    && Distinct(roots)
    && (forall p :: p in roots ==> IsRoot(p))
    && (forall p :: IsRoot(p) && (p in t || IsDirectoryRoot(p)) ==> p in roots)
  }

  lemma RootsSeparate(roots: seq<Path>)
    requires Distinct(roots) && forall p :: p in roots ==> IsRoot(p) || IsPreferenceFile(p)
    ensures Separate(roots)
  {
    forall a, b | a in roots && b in roots && Under(a, b) ensures a == b {
      assert a == b[..|a|];
      assert a[0] == b[0];
    }
  }

  lemma RootsCover(t: Tree, roots: seq<Path>)
    requires WellFormed(t) && IsRootList(t, roots)
    ensures Covered(t, roots) == Captured(t)
  {
    forall q | q in t ensures Targeted(roots, q) <==> Allowed(q) {
      if Targeted(roots, q) {
        var root :| root in roots && Under(root, q);
        RootIsUnique(root, q);
      }
      if Allowed(q) {
        var root := RootOf(q);
        if root != q { AncestorsAreDirectories(t, root, q); }
        assert root in roots;
      }
    }
    hide Targeted, Allowed, IsRootList;
  }

  function DirectoryRoots(): (roots: seq<Path>)
    ensures |roots| == |EXTENSION_DIRECTORIES|
    ensures forall i :: 0 <= i < |roots| ==> roots[i] == [EXTENSION_DIRECTORIES[i]]
  {
    seq(|EXTENSION_DIRECTORIES|, i requires 0 <= i < |EXTENSION_DIRECTORIES| => [EXTENSION_DIRECTORIES[i]])
  }

  lemma DirectoryRootsExactly()
    ensures Distinct(DirectoryRoots())
    ensures forall p: Path :: p in DirectoryRoots() <==> IsDirectoryRoot(p)
  {
    var roots := DirectoryRoots();
    assert forall i, j :: 0 <= i < j < |EXTENSION_DIRECTORIES| ==> EXTENSION_DIRECTORIES[i] != EXTENSION_DIRECTORIES[j];
    forall i, j | 0 <= i < j < |roots| ensures roots[i] != roots[j] {
      assert roots[i][0] == EXTENSION_DIRECTORIES[i] && roots[j][0] == EXTENSION_DIRECTORIES[j];
    }
    forall p: Path | |p| == 1 && p[0] in EXTENSION_DIRECTORIES ensures p in roots {
      var i :| 0 <= i < |EXTENSION_DIRECTORIES| && EXTENSION_DIRECTORIES[i] == p[0];
      assert roots[i] == p;
    }
  }

  /** The extension databases of a tree. */
  method ListDatabases(t: Tree) returns (roots: seq<Path>)
    ensures Distinct(roots)
    ensures forall p: Path :: p in roots <==> p in t && IsDatabase(p)
  {
    hide Distinct, Under, IsDatabaseName;
    roots := [];
    EmptyDistinct();
    var children := ListChildren(t, [DATABASES]);
    for i := 0 to |children|
      invariant Distinct(roots)
      invariant forall p: Path :: p in roots <==> p in children[..i] && |p| == 2 && IsDatabaseName(p[1])
    {
      assert children[..i + 1] == children[..i] + [children[i]];
      assert children[i] in children;
      NotBefore(children, i);
      if IsDatabaseName(children[i][1]) {
        OneMoreDistinct(roots, children[i]);
        roots := roots + [children[i]];
      }
    }
    assert children[..|children|] == children;
    forall p: Path | |p| == 2 ensures Under([DATABASES], p) <==> p[0] == DATABASES {
      DatabaseParent(p);
    }
  }

  lemma DatabaseParent(p: Path)
    requires |p| == 2
    ensures Under([DATABASES], p) <==> p[0] == DATABASES
  {
    assert p[..1] == [p[0]];
  }

  lemma EmptyDistinct()
    ensures Distinct([])
  {
  }

  lemma NotBefore(paths: seq<Path>, i: nat)
    requires Distinct(paths) && i < |paths|
    ensures paths[i] !in paths[..i]
  {
  }

  lemma OneMoreDistinct(paths: seq<Path>, p: Path)
    requires Distinct(paths) && p !in paths
    ensures Distinct(paths + [p])
  {
  }

  lemma DistinctJoin(a: seq<Path>, b: seq<Path>)
    requires Distinct(a) && Distinct(b) && forall p :: p in a ==> p !in b
    ensures Distinct(a + b)
  {
    forall i, j | 0 <= i < j < |a + b| ensures (a + b)[i] != (a + b)[j] {
      if i < |a| <= j {
        assert a[i] in a && b[j - |a|] in b;
      }
    }
  }

  method ListRoots(t: Tree) returns (roots: seq<Path>)
    requires WellFormed(t)
    ensures IsRootList(t, roots)
  {
    hide WellFormed, Distinct;
    DirectoryRootsExactly();
    var databases := ListDatabases(t);
    DistinctJoin(DirectoryRoots(), databases);
    roots := DirectoryRoots() + databases;
  }

  ghost predicate IsCaptureOf(b: Bundle, t: Tree)
  {
    && b.format == BUNDLE_FORMAT
    && Lists(b.payload, Captured(t))
    && b.stats == StatsOf(Captured(t))
    && b.sections.Keys == (set f | f in PREFERENCE_FILES)
    && forall f :: f in PREFERENCE_FILES ==> f in b.sections && Section(t, f) == Ok(b.sections[f])
  }

  lemma CapturedExtensions(t: Tree)
    ensures InstalledExtensions(Captured(t)) == InstalledExtensions(t)
  {
    forall p | p in InstalledExtensions(t) ensures Allowed(p) {
      assert EXTENSION_DIRECTORIES[0] == p[0];
    }
  }

  /** Capture succeeds exactly when both preference files can be read, and then holds all of it. */
  method Capture(t: Tree, directory: string) returns (r: Result<Bundle, BundleError>)
    requires WellFormed(t)
    ensures r.Ok? <==> forall f :: f in PREFERENCE_FILES ==> Section(t, f).Ok?
    ensures r.Err? ==> exists f :: f in PREFERENCE_FILES && Section(t, f).Err? && r.error == Unreadable([f])
    ensures r.Ok? ==> IsCaptureOf(r.value, t) && r.value.profileDirectory == directory
    ensures r.Ok? ==> forall i :: 0 <= i < |r.value.payload| ==> Allowed(r.value.payload[i].0)
  {
    hide WellFormed, Lists, IsRootList, Distinct, Separate, Covered, Section;
    var extensions := |InstalledExtensions(t)|;
    CapturedExtensions(t);
    var roots := ListRoots(t);
    RootsFacts(t, roots);
    RootsCover(t, roots);
    var writer := new ArchiveWriter();
    writer.AddAll(t, [], roots);
    assert writer.entries[0..] == writer.entries;
    PayloadAllowed(writer.entries, t);
    var sections: map<string, Json> := map[];
    for i := 0 to |PREFERENCE_FILES|
      invariant sections.Keys == (set f | f in PREFERENCE_FILES[..i])
      invariant forall f :: f in PREFERENCE_FILES[..i] ==> Section(t, f) == Ok(sections[f])
    {
      var section := Section(t, PREFERENCE_FILES[i]);
      if section.Err? {
        SectionExactly(t, PREFERENCE_FILES[i]);
        return Err(section.error);
      }
      sections := sections[PREFERENCE_FILES[i] := section.value];
    }
    assert PREFERENCE_FILES[..|PREFERENCE_FILES|] == PREFERENCE_FILES;
    return Ok(Bundle(BUNDLE_FORMAT, directory, Stats(extensions, writer.files), writer.entries, sections));
  }

  lemma RootsFacts(t: Tree, roots: seq<Path>)
    requires WellFormed(t) && IsRootList(t, roots)
    ensures [] in t && Separate(roots)
    ensures forall root :: root in roots ==> Under([], root) && |root| > 0
  {
    RootsSeparate(roots);
  }

  lemma PayloadAllowed(entries: seq<(Path, Entry)>, t: Tree)
    requires Lists(entries, Captured(t))
    ensures forall i :: 0 <= i < |entries| ==> Allowed(entries[i].0)
  {
  }

  // ----- staging -----

  function ExtractEntry(t: Tree, p: Path, e: Entry): Option<Tree>
  {
    if !Allowed(p) then None
    else if e == Directory then CreateDirAll(t, p)
    else
      match CreateDirAll(t, Parent(p))
      case None => None
      case Some(t') => if p in t' then None else Some(t'[p := e])
  }

  function Extract(payload: seq<(Path, Entry)>): Option<Tree>
  {
    if payload == [] then Some(EmptyTree)
    else
      match Extract(payload[..|payload| - 1])
      case None => None
      case Some(t) => ExtractEntry(t, payload[|payload| - 1].0, payload[|payload| - 1].1)
  }

  /** Entry n is the first that cannot be staged. */
  predicate StopsAt(payload: seq<(Path, Entry)>, n: nat)
  {
    n < |payload| && Extract(payload[..n]).Some? && Extract(payload[..n + 1]).None?
  }

  method ExtractPayload(payload: seq<(Path, Entry)>) returns (r: Result<Tree, BundleError>)
    ensures r.Ok? <==> Extract(payload).Some?
    ensures r.Ok? ==> Some(r.value) == Extract(payload)
    ensures r.Err? ==> exists n: nat :: StopsAt(payload, n) && r.error == UnsafePayload(payload[n].0)
  {
    hide ExtractEntry;
    var t := EmptyTree;
    assert payload[..0] == [];
    for i := 0 to |payload|
      invariant Extract(payload[..i]) == Some(t)
    {
      assert payload[..i + 1][..i] == payload[..i];
      var next := ExtractEntry(t, payload[i].0, payload[i].1);
      if next.None? {
        ExtractFails(payload, i + 1);
        assert StopsAt(payload, i);
        return Err(UnsafePayload(payload[i].0));
      }
      t := next.value;
    }
    assert payload[..|payload|] == payload;
    return Ok(t);
  }

  lemma {:induction false} ExtractFails(payload: seq<(Path, Entry)>, n: nat)
    requires n <= |payload| && Extract(payload[..n]).None?
    ensures Extract(payload).None?
  {
    if n < |payload| {
      assert payload[..|payload| - 1][..n] == payload[..n];
      ExtractFails(payload[..|payload| - 1], n);
    } else {
      assert payload[..n] == payload;
    }
  }

  /** Staged trees hold nothing outside the allowlist and its parent directories. */
  ghost predicate StagedShape(t: Tree)
  {
    && WellFormed(t)
    && forall p :: p in t && p != [] ==> Allowed(p) || p == [DATABASES]
  }

  lemma PrefixAllowed(p: Path, q: Path)
    requires Allowed(p) && Under(q, p) && q != []
    ensures Allowed(q) || q == [DATABASES]
  {
    assert q == p[..|q|];
  }

  lemma ExtractEntryShape(t: Tree, p: Path, e: Entry)
    requires StagedShape(t) && ExtractEntry(t, p, e).Some?
    ensures StagedShape(ExtractEntry(t, p, e).value)
  {
    var d := if e == Directory then p else Parent(p);
    CreateDirAllExactly(t, d);
    CreateDirAllWellFormed(t, d);
    var made := CreateDirAll(t, d).value;
    assert d == p[..|d|];
    hide CreateDirAll, IsDatabaseName;
    forall q | q in made && q !in t && q != [] ensures Allowed(q) || q == [DATABASES] {
      UnderBoth(q, d, p);
      PrefixAllowed(p, q);
    }
    hide Allowed, Under;
  }

  lemma UnderBoth(q: Path, d: Path, p: Path)
    requires Under(q, d) && |d| <= |p| && d == p[..|d|]
    ensures Under(q, p)
  {
    assert q == d[..|q|] == p[..|q|];
  }

  lemma {:induction false} ExtractShape(payload: seq<(Path, Entry)>)
    requires Extract(payload).Some?
    ensures StagedShape(Extract(payload).value)
  {
    hide ExtractEntry, Allowed;
    if payload != [] {
      ExtractShape(payload[..|payload| - 1]);
      ExtractEntryShape(Extract(payload[..|payload| - 1]).value, payload[|payload| - 1].0, payload[|payload| - 1].1);
    }
  }
}
