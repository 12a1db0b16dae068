/**
 Restoring a bundle into a profile, whole: extraction, preference files, targets, replacement;
 and what a later capture of the same profile finds.
 */
module ExtensionReload {
  import opened Wrappers
  import opened FileTree
  import opened ExtensionRestore
  import opened ExtensionBundle

  // ----- what extraction gives -----

  predicate AboveAny(payload: seq<(Path, Entry)>, n: nat, q: Path)
    requires n <= |payload|
  {
    exists i :: 0 <= i < n && Under(q, payload[i].0)
  }

  /** The entries describe one tree inside the allowlist: only directories are above others, or named twice. */
  ghost predicate Compatible(payload: seq<(Path, Entry)>)
  {
    && (forall i :: 0 <= i < |payload| ==> Allowed(payload[i].0))
    && forall i, j :: 0 <= i < |payload| && 0 <= j < |payload| && i != j && Under(payload[i].0, payload[j].0) ==>
         payload[i].1 == Directory
  }

  /** Each of the first n entries, and the directories above them. */
  ghost predicate Holds(payload: seq<(Path, Entry)>, n: nat, made: Tree)
    requires n <= |payload|
  {
    && (forall q :: q in made <==> q == [] || AboveAny(payload, n, q))
    && (forall i :: 0 <= i < n ==> payload[i].0 in made && made[payload[i].0] == payload[i].1)
    && forall q :: q in made && made[q].File? ==> exists i :: 0 <= i < n && payload[i] == (q, made[q])
  }

  lemma AboveOneMore(payload: seq<(Path, Entry)>, n: nat, q: Path)
    requires n < |payload|
    ensures AboveAny(payload, n + 1, q) <==> AboveAny(payload, n, q) || Under(q, payload[n].0)
  {
  }

  /** The directories an entry needs: itself, or those above it. */
  function DirectoryFor(p: Path, e: Entry): Path
    requires p != []
  {
    if e == Directory then p else Parent(p)
  }

  lemma EntryResult(made: Tree, p: Path, e: Entry)
    requires [] in made && made[[]] == Directory && ExtractEntry(made, p, e).Some?
    ensures var after := ExtractEntry(made, p, e).value;
            && (forall q :: q in after <==> q in made || Under(q, p))
            && (forall q :: q in made ==> after[q] == made[q])
            && forall q :: q in after && q !in made ==> after[q] == if q == p then e else Directory
  {
    var d := DirectoryFor(p, e);
    CreateDirAllExactly(made, d);
    hide Allowed, CreateDirAll, Under;
    forall q ensures Under(q, p) <==> Under(q, d) || q == p { UnderEntry(p, e, q); }
    forall q ensures Under(q, d) ==> q in CreateDirAll(made, d).value { BelowDirectory(made, d, q); }
  }

  lemma UnderEntry(p: Path, e: Entry, q: Path)
    requires p != []
    ensures Under(q, p) <==> Under(q, DirectoryFor(p, e)) || q == p
  {
    if Under(q, p) && q != p {
      assert q == Parent(p)[..|q|];
    }
    if Under(q, DirectoryFor(p, e)) {
      assert q == DirectoryFor(p, e)[..|q|] == p[..|q|];
    }
  }

  lemma {:induction false} BelowDirectory(t: Tree, d: Path, q: Path)
    requires [] in t && t[[]] == Directory && CreateDirAll(t, d).Some?
    ensures Under(q, d) ==> q in CreateDirAll(t, d).value
    decreases |d|
  {
    if d != [] {
      BelowDirectory(t, Parent(d), q);
      if Under(q, d) && q != d {
        assert q == Parent(d)[..|q|];
      }
    } else if Under(q, d) {
      assert q == [];
    }
  }

  /** An entry can be made exactly where only directories are above it and, for a file, nothing is at its path. */
  lemma EntryExactly(made: Tree, p: Path, e: Entry)
    requires [] in made && made[[]] == Directory
    ensures ExtractEntry(made, p, e).Some? <==>
              && Allowed(p)
              && (forall q :: q in made && Under(q, p) && (q != p || e == Directory) ==> made[q] == Directory)
              && (e.File? ==> p !in made)
  {
    if Allowed(p) {
      var d := DirectoryFor(p, e);
      CreateDirAllExactly(made, d);
      forall q ensures Under(q, d) <==> Under(q, p) && (q != p || e == Directory) {
        UnderEntry(p, e, q);
        assert Under(q, Parent(p)) ==> |q| < |p|;
      }
      hide Allowed, CreateDirAll, Under;
    }
  }

  /** Does entry n agree with the ones before it, in both directions? */
  ghost predicate Agrees(payload: seq<(Path, Entry)>, n: nat)
    requires n < |payload|
  {
    forall i :: 0 <= i < n ==>
      && (Under(payload[i].0, payload[n].0) ==> payload[i].1 == Directory)
      && (Under(payload[n].0, payload[i].0) ==> payload[n].1 == Directory)
  }

  lemma CompatibleOneMore(payload: seq<(Path, Entry)>, n: nat)
    requires n < |payload|
    ensures Compatible(payload[..n + 1]) <==> Compatible(payload[..n]) && Allowed(payload[n].0) && Agrees(payload, n)
  {
    var next := payload[..n + 1];
    assert forall i :: 0 <= i < n ==> next[i] == payload[..n][i] == payload[i];
    assert next[n] == payload[n];
    hide Allowed, Under;
    if Compatible(next) {
      forall i | 0 <= i < n ensures Allowed(payload[..n][i].0) { assert Allowed(next[i].0); }
    }
  }

  lemma AgreesExactly(payload: seq<(Path, Entry)>, n: nat, made: Tree)
    requires n < |payload| && Holds(payload, n, made) && [] in made && made[[]] == Directory
    ensures var p, e := payload[n].0, payload[n].1;
            Allowed(p) ==>
              (Agrees(payload, n) <==>
               && (forall q :: q in made && Under(q, p) && (q != p || e == Directory) ==> made[q] == Directory)
               && (e.File? ==> p !in made))
  {
    assert Allowed(payload[n].0) ==> payload[n].0 != [];
    hide Under, Allowed;
  }

  lemma HoldsOneMore(payload: seq<(Path, Entry)>, n: nat, made: Tree, after: Tree)
    requires n < |payload| && Holds(payload, n, made)
    requires forall q :: q in after <==> q in made || Under(q, payload[n].0)
    requires forall q :: q in made ==> after[q] == made[q]
    requires forall q :: q in after && q !in made ==> after[q] == if q == payload[n].0 then payload[n].1 else Directory
    requires payload[n].0 in made ==> made[payload[n].0] == payload[n].1
    ensures Holds(payload, n + 1, after)
  {
    assert Under(payload[n].0, payload[n].0);
    forall q ensures q in after <==> q == [] || AboveAny(payload, n + 1, q) {
      AboveOneMore(payload, n, q);
    }
    forall q | q in after && after[q].File? ensures exists i :: 0 <= i < n + 1 && payload[i] == (q, after[q]) {
      if q in made {
        var i :| 0 <= i < n && payload[i] == (q, made[q]);
      } else {
        assert payload[n] == (q, after[q]);
      }
    }
    forall i | 0 <= i < n + 1 ensures payload[i].0 in after && after[payload[i].0] == payload[i].1 {
    }
    hide AboveAny, Under;
  }

  /**
   What any payload extracts to, whoever wrote it: it is accepted exactly when its entries are
   inside the allowlist and describe one tree, and that tree is what is staged.
   */
  lemma {:induction false} ExtractsExactly(payload: seq<(Path, Entry)>, n: nat)
    requires n <= |payload|
    ensures Extract(payload[..n]).Some? <==> Compatible(payload[..n])
    ensures Extract(payload[..n]).Some? ==> Holds(payload, n, Extract(payload[..n]).value)
  {
    if n == 0 {
      assert payload[..0] == [];
    } else {
      var m := n - 1;
      ExtractsExactly(payload, m);
      assert payload[..n][..m] == payload[..m];
      CompatibleOneMore(payload, m);
      hide Compatible, Holds, ExtractEntry, Allowed, Agrees;
      if Extract(payload[..m]).Some? {
        ExtractShape(payload[..m]);
        NextExtracted(payload, m, Extract(payload[..m]).value);
      }
    }
  }

  lemma NextExtracted(payload: seq<(Path, Entry)>, n: nat, made: Tree)
    requires n < |payload| && Holds(payload, n, made) && [] in made && made[[]] == Directory
    ensures var next := ExtractEntry(made, payload[n].0, payload[n].1);
            && (next.Some? <==> Allowed(payload[n].0) && Agrees(payload, n))
            && (next.Some? ==> Holds(payload, n + 1, next.value))
  {
    EntryExactly(made, payload[n].0, payload[n].1);
    AgreesExactly(payload, n, made);
    hide Holds, Agrees, Allowed, ExtractEntry;
    if ExtractEntry(made, payload[n].0, payload[n].1).Some? {
      EntryResult(made, payload[n].0, payload[n].1);
      HoldsOneMore(payload, n, made, ExtractEntry(made, payload[n].0, payload[n].1).value);
    }
  }

  lemma ListedPath(t: Tree, payload: seq<(Path, Entry)>, n: nat)
    requires WellFormed(t) && Lists(payload, Captured(t)) && n < |payload|
    ensures var p := payload[n].0;
            && Allowed(p) && p in t && t[p] == payload[n].1
            && forall q :: Under(q, p) && q != p ==> q in t && t[q] == Directory
  {
    var p := payload[n].0;
    assert p in Captured(t);
    forall q | Under(q, p) && q != p ensures q in t && t[q] == Directory {
      AncestorsAreDirectories(t, q, p);
    }
  }

  lemma ListingCompatible(t: Tree, payload: seq<(Path, Entry)>)
    requires WellFormed(t) && Lists(payload, Captured(t))
    ensures Compatible(payload)
  {
    forall i | 0 <= i < |payload| ensures Allowed(payload[i].0) { ListedPath(t, payload, i); }
    forall i, j | 0 <= i < |payload| && 0 <= j < |payload| && i != j && Under(payload[i].0, payload[j].0)
      ensures payload[i].1 == Directory {
      ListedPath(t, payload, i);
      ListedPath(t, payload, j);
    }
  }

  /** Extracting what was captured gives back every captured root, exactly. */
  lemma ExtractUndoesCapture(t: Tree, payload: seq<(Path, Entry)>)
    requires WellFormed(t) && Lists(payload, Captured(t))
    ensures Extract(payload).Some?
    ensures forall root :: IsRoot(root) ==> Subtree(Extract(payload).value, root) == Subtree(t, root)
  {
    ListingCompatible(t, payload);
    ExtractsExactly(payload, |payload|);
    assert payload[..|payload|] == payload;
    var made := Extract(payload).value;
    hide Extract, WellFormed, Compatible, Allowed;
    forall root | IsRoot(root) ensures Subtree(made, root) == Subtree(t, root) {
      forall q | Under(root, q) ensures (q in made <==> q in t) && (q in made ==> made[q] == t[q]) {
        RootIsUnique(root, q);
        if q in t { ListedIsMade(t, payload, q, made); }
        if q in made { MadeIsListed(t, payload, q); }
      }
      hide Holds, Lists, Captured;
      SameSubtree(made, t, root);
    }
  }

  lemma ListedIsMade(t: Tree, payload: seq<(Path, Entry)>, q: Path, made: Tree)
    requires Lists(payload, Captured(t)) && q in t && Allowed(q) && Holds(payload, |payload|, made)
    ensures q in made && made[q] == t[q]
  {
    assert q in Captured(t);
    var i :| 0 <= i < |payload| && payload[i].0 == q;
    hide AboveAny;
  }

  lemma MadeIsListed(t: Tree, payload: seq<(Path, Entry)>, q: Path)
    requires WellFormed(t) && Lists(payload, Captured(t)) && AboveAny(payload, |payload|, q)
    ensures q in t
  {
    var i :| 0 <= i < |payload| && Under(q, payload[i].0);
    ListedPath(t, payload, i);
  }

  // ----- preference files -----

  /** The live file with its extension section replaced, or nothing if there is nothing to stage. */
  function MergedPreferences(live: Tree, file: string, section: Json): Result<Option<Json>, BundleError>
  {
    if [file] !in live && section == Null then Ok(None)
    else if [file] in live && live[[file]].File? && live[[file]].content.Raw? then Err(Unreadable([file]))
    else
      var preferences := if [file] in live && live[[file]].File? then live[[file]].content.json else Object(map[]);
      if !preferences.Object? then Err(NotAnObject([file]))
      else if section == Null then Ok(Some(Object(preferences.members - {SECTION})))
      else Ok(Some(Object(preferences.members[SECTION := section])))
  }

  /** A preference file can be merged into when it is missing, or a JSON object. */
  predicate Mergeable(live: Tree, file: string)
  {
    [file] in live && live[[file]].File? ==> live[[file]].content.Document? && live[[file]].content.json.Object?
  }

  /** Why a preference file cannot be staged. */
  predicate NotStaged(live: Tree, sections: map<string, Json>, file: string, error: BundleError)
  {
    match error
    case SectionMissing(f) => f == file && file !in sections
    case Unreadable(p) =>
      p == [file] && file in sections && p in live && live[p].File? && live[p].content.Raw?
    case NotAnObject(p) =>
      p == [file] && file in sections && p in live && live[p].File? && live[p].content.Document?
      && !live[p].content.json.Object?
    case _ => false
  }

  lemma MergeableExactly(live: Tree, file: string, section: Json)
    ensures MergedPreferences(live, file, section).Ok? <==> Mergeable(live, file)
  {
  }

  function StageFile(live: Tree, staged: Tree, sections: map<string, Json>, file: string): Result<Tree, BundleError>
  {
    if file !in sections then Err(SectionMissing(file))
    else
      match MergedPreferences(live, file, sections[file])
      case Err(e) => Err(e)
      case Ok(None) => Ok(staged)
      case Ok(Some(json)) => Ok(staged[[file] := File(Document(json))])
  }

  predicate FirstNotStaged(live: Tree, sections: map<string, Json>, i: nat, error: BundleError)
  {
    && i < |PREFERENCE_FILES| && NotStaged(live, sections, PREFERENCE_FILES[i], error)
    && CanStage(live, sections, PREFERENCE_FILES[..i])
  }

  predicate CanStage(live: Tree, sections: map<string, Json>, files: seq<string>)
  {
    forall f :: f in files ==> f in sections && Mergeable(live, f)
  }

  lemma CanStageOneMore(live: Tree, sections: map<string, Json>, i: nat)
    requires i < |PREFERENCE_FILES| && CanStage(live, sections, PREFERENCE_FILES[..i])
    ensures var file := PREFERENCE_FILES[i];
            && (file in sections && Mergeable(live, file) ==> CanStage(live, sections, PREFERENCE_FILES[..i + 1]))
            && (!(file in sections && Mergeable(live, file)) ==> !CanStage(live, sections, PREFERENCE_FILES))
  {
    NextPreferenceFile(i);
  }

  method StagePreferences(live: Tree, staged: Tree, sections: map<string, Json>) returns (r: Result<Tree, BundleError>)
    requires StagedShape(staged)
    ensures r.Ok? <==> CanStage(live, sections, PREFERENCE_FILES)
    ensures r.Ok? ==> PreferencesStaged(live, staged, sections, PREFERENCE_FILES, r.value)
    ensures r.Err? ==> exists i: nat :: FirstNotStaged(live, sections, i, r.error)
  {
    hide StagedShape, MergedPreferences, PreferencesStaged, Mergeable, NotStaged, StageFile;
    var t := staged;
    NothingStaged(live, staged, sections);
    assert PREFERENCE_FILES[..0] == [];
    assert CanStage(live, sections, []);
    hide CanStage;
    for i := 0 to |PREFERENCE_FILES|
      invariant CanStage(live, sections, PREFERENCE_FILES[..i])
      invariant PreferencesStaged(live, staged, sections, PREFERENCE_FILES[..i], t)
    {
      var file := PREFERENCE_FILES[i];
      NextPreferenceFile(i);
      CanStageOneMore(live, sections, i);
      NoPreferencesExtracted(staged, file);
      StagesOneMore(live, staged, sections, PREFERENCE_FILES[..i], t, file);
      var next := StageFile(live, t, sections, file);
      if next.Err? {
        assert FirstNotStaged(live, sections, i, next.error);
        return Err(next.error);
      }
      t := next.value;
    }
    assert PREFERENCE_FILES[..|PREFERENCE_FILES|] == PREFERENCE_FILES;
    return Ok(t);
  }

  lemma NextPreferenceFile(i: nat)
    requires i < |PREFERENCE_FILES|
    ensures PREFERENCE_FILES[i] !in PREFERENCE_FILES[..i]
    ensures PREFERENCE_FILES[..i + 1] == PREFERENCE_FILES[..i] + [PREFERENCE_FILES[i]]
  {
    assert PREFERENCE_FILES[0] != PREFERENCE_FILES[1];
  }

  lemma NothingStaged(live: Tree, staged: Tree, sections: map<string, Json>)
    ensures PreferencesStaged(live, staged, sections, [], staged)
  {
  }

  lemma StagesOneMore(live: Tree, staged: Tree, sections: map<string, Json>, files: seq<string>, t: Tree, file: string)
    requires PreferencesStaged(live, staged, sections, files, t) && file !in files && [file] !in staged
    ensures StageFile(live, t, sections, file).Ok? <==> file in sections && Mergeable(live, file)
    ensures StageFile(live, t, sections, file).Err? ==>
              NotStaged(live, sections, file, StageFile(live, t, sections, file).error)
    ensures StageFile(live, t, sections, file).Ok? ==>
              PreferencesStaged(live, staged, sections, files + [file], StageFile(live, t, sections, file).value)
  {
    if file in sections { MergeableExactly(live, file, sections[file]); }
    StageFails(live, t, sections, file);
    hide MergedPreferences, Mergeable, NotStaged;
    assert [file][0] == file;
    assert [file] !in t;
    if StageFile(live, t, sections, file).Ok? {
      var next := StageFile(live, t, sections, file).value;
      forall f | f in files ensures StagedAs(live, f, sections[f], next) {
        assert [f][0] == f;
        assert StagedAs(live, f, sections[f], t);
      }
      hide StagedAs;
    }
  }

  lemma StageFails(live: Tree, t: Tree, sections: map<string, Json>, file: string)
    ensures StageFile(live, t, sections, file).Err? ==>
              NotStaged(live, sections, file, StageFile(live, t, sections, file).error)
  {
  }

  lemma NoPreferencesExtracted(staged: Tree, file: string)
    requires StagedShape(staged) && file in PREFERENCE_FILES
    ensures [file] !in staged
  {
  }

  ghost predicate StagedAs(live: Tree, file: string, section: Json, t: Tree)
  {
    match MergedPreferences(live, file, section)
    case Err(_) => false
    case Ok(None) => [file] !in t
    case Ok(Some(json)) => [file] in t && t[[file]] == File(Document(json))
  }

  ghost predicate PreferencesStaged(live: Tree, staged: Tree, sections: map<string, Json>, files: seq<string>, t: Tree)
  {
    && (forall p: Path :: !(|p| == 1 && p[0] in files) ==> (p in t <==> p in staged) && (p in t ==> t[p] == staged[p]))
    && forall f :: f in files ==> f in sections && StagedAs(live, f, sections[f], t)
  }

  lemma StagedWellFormed(live: Tree, staged: Tree, sections: map<string, Json>, t: Tree)
    requires StagedShape(staged) && PreferencesStaged(live, staged, sections, PREFERENCE_FILES, t)
    ensures WellFormed(t)
  {
    hide MergedPreferences;
    assert !IsPreferenceFile([]);
    forall p | p in t && p != [] ensures Parent(p) in t && t[Parent(p)] == Directory {
      if IsPreferenceFile(p) {
        assert Parent(p) == [];
      } else {
        assert p in staged;
        assert !IsPreferenceFile(Parent(p)) by {
          if IsPreferenceFile(Parent(p)) {
            assert Parent(p) == [Parent(p)[0]];
            NoPreferencesExtracted(staged, Parent(p)[0]);
          }
        }
      }
    }
  }

  // ----- targets -----

  predicate IsTarget(live: Tree, staged: Tree, p: Path)
  {
    || IsPreferenceFile(p)
    || IsDirectoryRoot(p)
    || (IsDatabase(p) && (p in live || p in staged))
  }

  ghost predicate AreTargets(live: Tree, staged: Tree, targets: seq<Path>)
  {
    Distinct(targets) && forall p :: p in targets <==> IsTarget(live, staged, p)
  }

  lemma PreferenceFilesExactly()
    ensures Distinct([["Preferences"], ["Secure Preferences"]])
    ensures forall p: Path :: p in [["Preferences"], ["Secure Preferences"]] <==> IsPreferenceFile(p)
  {
    assert ["Preferences"][0] != ["Secure Preferences"][0];
    forall p: Path | IsPreferenceFile(p) ensures p in [["Preferences"], ["Secure Preferences"]] {
      assert p == [p[0]];
    }
  }

  lemma Apart()
    ensures forall p :: IsDatabase(p) ==> !IsDirectoryRoot(p) && !IsPreferenceFile(p)
    ensures forall p :: IsDirectoryRoot(p) ==> !IsPreferenceFile(p)
  {
  }

  method ListAllDatabases(live: Tree, staged: Tree) returns (databases: seq<Path>)
    ensures Distinct(databases)
    ensures forall p: Path :: p in databases <==> IsDatabase(p) && (p in live || p in staged)
  {
    hide Distinct, IsDatabase;
    databases := ListDatabases(live);
    var incoming := ListDatabases(staged);
    ghost var current := databases;
    assert incoming[..0] == [];
    for i := 0 to |incoming|
      invariant Distinct(databases) && forall p :: p in databases <==> p in current || p in incoming[..i]
    {
      assert incoming[..i + 1] == incoming[..i] + [incoming[i]];
      if incoming[i] !in databases {
        OneMoreDistinct(databases, incoming[i]);
        databases := databases + [incoming[i]];
      }
    }
    assert incoming[..|incoming|] == incoming;
  }

  method ListTargets(live: Tree, staged: Tree) returns (targets: seq<Path>)
    ensures AreTargets(live, staged, targets)
  {
    DirectoryRootsExactly();
    PreferenceFilesExactly();
    Apart();
    hide Distinct, IsDatabase, IsDirectoryRoot, IsPreferenceFile, DirectoryRoots;
    var databases := ListAllDatabases(live, staged);
    var preferences := [["Preferences"], ["Secure Preferences"]];
    var directories := DirectoryRoots();
    DistinctJoin(directories, databases);
    assert forall p :: p in directories + databases ==> p !in preferences;
    DistinctJoin(directories + databases, preferences);
    targets := directories + databases + preferences;
  }

  // ----- a whole restore -----

  ghost predicate StagedFrom(b: Bundle, live: Tree, staged: Tree)
  {
    Extract(b.payload).Some? && PreferencesStaged(live, Extract(b.payload).value, b.sections, PREFERENCE_FILES, staged)
  }

  lemma TargetsSeparate(live: Tree, staged: Tree, targets: seq<Path>)
    requires AreTargets(live, staged, targets)
    ensures Separate(targets)
  {
    RootsSeparate(targets);
  }

  /** All that is checked before anything is touched. */
  ghost predicate Restorable(b: Bundle, live: Tree, directory: string)
  {
    && b.format == BUNDLE_FORMAT && b.profileDirectory == directory
    && Extract(b.payload).Some?
    && CanStage(live, b.sections, PREFERENCE_FILES)
  }

  /** The first check that fails decides the error. */
  ghost predicate RefusedWith(b: Bundle, live: Tree, directory: string, error: BundleError)
  {
    if b.format != BUNDLE_FORMAT then error == UnsupportedFormat
    else if b.profileDirectory != directory then error == ProfileMismatch
    else if Extract(b.payload).None? then
      exists n: nat :: StopsAt(b.payload, n) && error == UnsafePayload(b.payload[n].0)
    else exists i: nat :: FirstNotStaged(live, b.sections, i, error)
  }

  /** What can be merged into can be captured for the backup. */
  lemma MergeableIsReadable(live: Tree, f: string)
    requires Mergeable(live, f)
    ensures Section(live, f).Ok?
  {
  }

  /**
   Checks, stages and then replaces; nothing is touched before the replacement. It is refused
   exactly when one of the checks fails, and before anything is replaced the profile is captured
   as a backup. Left undisturbed it then ends restored exactly when the
   targets fit, and with a single call disturbed a failure leaves the profile as it was.
   */
  method RestoreBundle(w: Workspace, b: Bundle, directory: string)
    returns (r: Result<Outcome, BundleError>, backup: Option<Bundle>,
             ghost staged: Tree, ghost targets: seq<Path>, ghost failedAt: nat)
    requires WellFormed(w.live) && w.aside == EmptyTree
    modifies w
    ensures r.Ok? <==> Restorable(b, old(w.live), directory)
    ensures r.Err? ==> w.live == old(w.live) && RefusedWith(b, old(w.live), directory, r.error)
    ensures r.Ok? ==> backup.Some? && IsCaptureOf(backup.value, old(w.live))
                      && backup.value.profileDirectory == directory
    ensures r.Ok? ==> StagedFrom(b, old(w.live), staged) && AreTargets(old(w.live), staged, targets)
    ensures r.Ok? && r.value.Restored? ==> w.RestoredOk(old(w.live), targets, staged)
    ensures r.Ok? && r.value.RolledBack? ==> w.RolledBackOk(old(w.live), targets, r.value.errors, failedAt)
    ensures r.Ok? && r.value.Abandoned? ==> w.AbandonedOk(old(w.live), targets, r.value.moved)
    ensures r.Ok? && !r.value.Restored? ==>
              w.FailedFirst(old(w.clock), failedAt, !AllFit(old(w.live), targets, staged))
    ensures r.Ok? && w.QuietFrom(old(w.clock)) ==> (r.value.Restored? <==> AllFit(old(w.live), targets, staged))
    ensures r.Ok? && w.OneObstructionFrom(old(w.clock)) && AllFit(old(w.live), targets, staged) ==>
              || r.value.Restored? || r.value.Abandoned?
              || (r.value == RolledBack([]) && Unchanged(old(w.live), w.live, targets))
  {
    hide WellFormed, StagedShape, PreferencesStaged, AreTargets, Separate, EmptyTree, Extract, MergedPreferences,
      Section, Mergeable, StopsAt, FirstNotStaged, IsCaptureOf;
    staged, targets, failedAt, backup := EmptyTree, [], 0, None;
    if b.format != BUNDLE_FORMAT {
      r := Err(UnsupportedFormat);
      return;
    }
    if b.profileDirectory != directory {
      r := Err(ProfileMismatch);
      return;
    }
    var extracted := ExtractPayload(b.payload);
    if extracted.Err? {
      r := Err(extracted.error);
      return;
    }
    ExtractShape(b.payload);
    var prepared := StagePreferences(w.live, extracted.value, b.sections);
    if prepared.Err? {
      r := Err(prepared.error);
      return;
    }
    staged := prepared.value;
    StagedWellFormed(w.live, extracted.value, b.sections, staged);
    forall f | f in PREFERENCE_FILES ensures Section(w.live, f).Ok? {
      MergeableIsReadable(w.live, f);
    }
    var captured := Capture(w.live, directory);
    match captured {
      case Err(error) =>
        r := Err(error);
        return;
      case Ok(bundle) => backup := Some(bundle);
    }
    w.staged := prepared.value;
    var order := ListTargets(w.live, prepared.value);
    targets := order;
    TargetsSeparate(w.live, staged, targets);
    var outcome;
    outcome, failedAt := w.Replace(order);
    r := Ok(outcome);
  }

  /** The one thing that can be in the way: a file where the extension databases belong. */
  lemma AllFitExactly(live: Tree, staged: Tree, targets: seq<Path>)
    requires WellFormed(live) && AreTargets(live, staged, targets)
    ensures AllFit(live, targets, staged) <==>
              !([DATABASES] in live && live[[DATABASES]].File? && exists p :: p in staged && IsDatabase(p))
  {
    forall t | t in targets && t in staged
      ensures Fits(live, t) <==> (IsDatabase(t) && [DATABASES] in live ==> live[[DATABASES]] == Directory) {
      FitsExactly(live, t);
    }
    hide WellFormed, Fits, IsDatabase, IsDirectoryRoot, IsPreferenceFile;
    forall p | p in staged && IsDatabase(p) ensures p in targets {
      assert IsTarget(live, staged, p);
    }
  }

  lemma FitsExactly(live: Tree, t: Path)
    requires WellFormed(live) && (IsDatabase(t) || IsDirectoryRoot(t) || IsPreferenceFile(t))
    ensures Fits(live, t) <==> (IsDatabase(t) && [DATABASES] in live ==> live[[DATABASES]] == Directory)
  {
    if IsDatabase(t) { assert t[..1] == [DATABASES]; }
    forall q | Under(q, t) && q != t ensures q == [] || (IsDatabase(t) && q == [DATABASES]) {
      assert q == t[..|q|];
    }
  }

  /** A captured bundle passes every check but those on the profile it is restored into. */
  lemma CapturedIsRestorable(source: Tree, b: Bundle, live: Tree)
    requires WellFormed(source) && IsCaptureOf(b, source)
    ensures Restorable(b, live, b.profileDirectory) <==> forall f :: f in PREFERENCE_FILES ==> Mergeable(live, f)
  {
    ExtractUndoesCapture(source, b.payload);
    hide Extract, Captured, Section, Mergeable, WellFormed;
  }

  /**
   From one profile to another: a captured bundle, restored undisturbed into a profile whose
   preference files can be merged and where nothing is in the way, ends restored, and is then a
   capture of that profile.
   */
  method TransferExtensions(source: Tree, b: Bundle, w: Workspace) returns (r: Result<Outcome, BundleError>)
    requires WellFormed(source) && IsCaptureOf(b, source)
    requires WellFormed(w.live) && w.aside == EmptyTree && w.QuietFrom(w.clock)
    requires forall f :: f in PREFERENCE_FILES ==> Mergeable(w.live, f)
    requires [DATABASES] in w.live ==> w.live[[DATABASES]] == Directory
    modifies w
    ensures r == Ok(Restored)
    ensures IsCaptureOf(b, w.live)
  {
    hide WellFormed, IsCaptureOf, StagedFrom, AreTargets, Restorable, Mergeable, RefusedWith, AllFit, EmptyTree;
    CapturedIsRestorable(source, b, w.live);
    ghost var before := w.live;
    ghost var staged, targets, failedAt;
    var backup;
    r, backup, staged, targets, failedAt := RestoreBundle(w, b, b.profileDirectory);
    AllFitExactly(before, staged, targets);
    CaptureUndoesRestore(source, b, before, staged, targets, w.live);
  }

  // ----- what a later capture finds -----

  ghost predicate Replaced(before: Tree, staged: Tree, targets: seq<Path>, after: Tree)
  {
    && SameOutside(before, after, targets)
    && (forall t :: t in targets ==> Subtree(after, t) == Subtree(staged, t))
    && forall t :: t in targets && t in staged ==> HasParent(after, t)
  }

  lemma InSubtree(a: Tree, b: Tree, t: Path, q: Path)
    requires Subtree(a, t) == Subtree(b, t) && Under(t, q)
    ensures q in a <==> q in b
    ensures q in a ==> a[q] == b[q]
  {
    assert q in Subtree(a, t) <==> q in a;
    assert q in Subtree(b, t) <==> q in b;
    assert q in a ==> Subtree(a, t)[q] == a[q];
    assert q in b ==> Subtree(b, t)[q] == b[q];
  }

  lemma TargetAbove(live: Tree, staged: Tree, t: Path, q: Path)
    requires IsTarget(live, staged, t) && Under(t, q)
    ensures q != [] && (Allowed(q) || q[0] in PREFERENCE_FILES)
  {
    assert t == q[..|t|] && t[0] == q[0];
    if !IsPreferenceFile(t) { RootIsUnique(t, q); }
  }

  lemma TargetAboveAllowed(live: Tree, staged: Tree, t: Path, q: Path)
    requires IsTarget(live, staged, t) && Under(t, q) && Allowed(q)
    ensures t == RootOf(q)
  {
    assert t == q[..|t|] && t[0] == q[0];
    if !IsPreferenceFile(t) { RootIsUnique(t, q); }
  }

  /** The only paths a restore adds outside its targets are single names. */
  lemma AddedIsShort(before: Tree, staged: Tree, targets: seq<Path>, after: Tree, q: Path)
    requires AreTargets(before, staged, targets) && Replaced(before, staged, targets, after)
    requires q in after && q !in before && !Targeted(targets, q)
    ensures |q| <= 1 && after[q] == Directory
    ensures q == [] || q == [DATABASES]
  {
    var t :| t in targets && Under(q, t);
    assert q == t[..|q|];
    assert q != t;
  }

  /** Every allowed path of the new profile lies under a target. */
  lemma AllowedIsTargeted(before: Tree, staged: Tree, targets: seq<Path>, after: Tree, q: Path)
    requires WellFormed(before) && AreTargets(before, staged, targets) && Replaced(before, staged, targets, after)
    requires Allowed(q) && q in after
    ensures RootOf(q) in targets
  {
    var root := RootOf(q);
    if Targeted(targets, q) {
      var t :| t in targets && Under(t, q);
      TargetAboveAllowed(before, staged, t, q);
    } else if q in before {
      if q != root { AncestorsAreDirectories(before, root, q); }
    } else {
      AddedIsShort(before, staged, targets, after, q);
    }
  }

  lemma StagedElsewhere(b: Bundle, before: Tree, staged: Tree, q: Path)
    requires StagedFrom(b, before, staged) && Allowed(q)
    ensures var extracted := Extract(b.payload).value;
            (q in staged <==> q in extracted) && (q in staged ==> staged[q] == extracted[q])
  {
    AllowedNotPreference(q);
    hide StagedAs, Allowed, Extract, IsPreferenceFile;
    assert StagedFrom(b, before, staged);
  }

  lemma AllowedNotPreference(q: Path)
    requires Allowed(q)
    ensures !(|q| == 1 && q[0] in PREFERENCE_FILES)
  {
  }

  lemma CaptureSection(b: Bundle, t: Tree, f: string)
    requires IsCaptureOf(b, t) && f in PREFERENCE_FILES
    ensures f in b.sections && Section(t, f) == Ok(b.sections[f])
  {
    hide Section, Lists;
  }

  /** The staged tree has exactly the captured roots of the source. */
  lemma StagedRoots(source: Tree, b: Bundle, before: Tree, staged: Tree, root: Path)
    requires WellFormed(source) && IsCaptureOf(b, source) && StagedFrom(b, before, staged) && IsRoot(root)
    ensures Subtree(staged, root) == Subtree(source, root)
  {
    ExtractUndoesCapture(source, b.payload);
    var extracted := Extract(b.payload).value;
    hide IsCaptureOf, WellFormed, Extract, Subtree, Allowed;
    forall q | Under(root, q) ensures (q in staged <==> q in extracted) && (q in staged ==> staged[q] == extracted[q]) {
      RootIsUnique(root, q);
      StagedElsewhere(b, before, staged, q);
    }
    hide StagedFrom, IsRoot;
    SameSubtree(staged, extracted, root);
  }

  lemma SameSubtree(a: Tree, b: Tree, root: Path)
    requires forall q :: Under(root, q) ==> (q in a <==> q in b) && (q in a ==> a[q] == b[q])
    ensures Subtree(a, root) == Subtree(b, root)
  {
  }

  lemma RestoredPayload(source: Tree, b: Bundle, before: Tree, staged: Tree, targets: seq<Path>, after: Tree)
    requires WellFormed(source) && WellFormed(before) && IsCaptureOf(b, source)
    requires StagedFrom(b, before, staged) && AreTargets(before, staged, targets)
             && Replaced(before, staged, targets, after)
    ensures Captured(after) == Captured(source)
  {
    forall q | Allowed(q) ensures (q in after <==> q in source) && (q in after ==> after[q] == source[q]) {
      var root := RootOf(q);
      StagedRoots(source, b, before, staged, root);
      InSubtree(staged, source, root, q);
      if q in after {
        AllowedIsTargeted(before, staged, targets, after, q);
        InSubtree(after, staged, root, q);
      }
      if q in source {
        if root != q { AncestorsAreDirectories(source, root, q); }
        InSubtree(staged, source, root, root);
        assert root in targets;
        InSubtree(after, staged, root, q);
      }
    }
    hide Allowed;
  }

  lemma RestoredSection(source: Tree, b: Bundle, before: Tree, staged: Tree, targets: seq<Path>, after: Tree, f: string)
    requires f in PREFERENCE_FILES
    requires IsCaptureOf(b, source)
    requires StagedFrom(b, before, staged) && AreTargets(before, staged, targets)
             && Replaced(before, staged, targets, after)
    ensures Section(after, f) == Section(source, f)
  {
    hide StagedAs, Section, Lists, SameOutside, HasParent;
    PreferenceStaged(b, before, staged, targets, after, f);
    CaptureSection(b, source, f);
    hide AreTargets, Replaced, IsCaptureOf, StagedFrom;
    SectionOfStaged(before, f, b.sections[f], staged);
    SameSection(after, staged, f);
  }

  lemma PreferenceStaged(b: Bundle, before: Tree, staged: Tree, targets: seq<Path>, after: Tree, f: string)
    requires f in PREFERENCE_FILES
    requires StagedFrom(b, before, staged) && AreTargets(before, staged, targets)
             && Replaced(before, staged, targets, after)
    ensures f in b.sections && StagedAs(before, f, b.sections[f], staged)
    ensures [f] in after <==> [f] in staged
    ensures [f] in after ==> after[[f]] == staged[[f]]
  {
    hide StagedAs, SameOutside, HasParent, Subtree, Extract;
    assert IsPreferenceFile([f]) && [f] in targets;
    InSubtree(after, staged, [f], [f]);
  }

  lemma SameSection(a: Tree, b: Tree, f: string)
    requires [f] in a <==> [f] in b
    requires [f] in a ==> a[[f]] == b[[f]]
    ensures Section(a, f) == Section(b, f)
    ensures OtherPreferences(a, f) == OtherPreferences(b, f)
  {
  }

  lemma SectionOfStaged(before: Tree, f: string, section: Json, staged: Tree)
    requires StagedAs(before, f, section, staged)
    ensures Section(staged, f) == Ok(section)
  {
  }

  /**
   Capture undoes restore: a bundle captured from any profile, restored into any profile, is
   afterwards a capture of that profile too, entry for entry, section for section, in its stats.
   */
  lemma CaptureUndoesRestore(source: Tree, b: Bundle, before: Tree, staged: Tree, targets: seq<Path>, after: Tree)
    requires WellFormed(source) && WellFormed(before) && IsCaptureOf(b, source)
    requires StagedFrom(b, before, staged) && AreTargets(before, staged, targets)
             && Replaced(before, staged, targets, after)
    ensures IsCaptureOf(b, after)
  {
    hide WellFormed, StagedFrom, AreTargets, Replaced, Section, Captured;
    RestoredPayload(source, b, before, staged, targets, after);
    forall f | f in PREFERENCE_FILES ensures f in b.sections && Section(after, f) == Ok(b.sections[f]) {
      CaptureSection(b, source, f);
      RestoredSection(source, b, before, staged, targets, after, f);
    }
  }

  /** The profile's preferences apart from the extension section. */
  function OtherPreferences(t: Tree, f: string): map<string, Json>
  {
    if [f] in t && t[[f]].File? && t[[f]].content.Document? && t[[f]].content.json.Object?
    then t[[f]].content.json.members - {SECTION} else map[]
  }

  /**
   For any bundle that restores, captured or not: files that are neither extension data nor
   preference files keep their place and content, and preferences other than the extension
   section keep their values. At most the directory above extension databases is new, and a
   preference file only where the bundle has a section for it; each is then a JSON object.
   */
  lemma RestoreKeepsTheRest(b: Bundle, before: Tree, staged: Tree, targets: seq<Path>, after: Tree)
    requires WellFormed(before) && StagedFrom(b, before, staged)
    requires AreTargets(before, staged, targets) && Replaced(before, staged, targets, after)
    ensures forall q :: !Owned(q) && q in before ==> q in after && after[q] == before[q]
    ensures forall q :: !Owned(q) && q in after && q !in before ==> q == [DATABASES] && after[q] == Directory
    ensures forall f :: f in PREFERENCE_FILES ==> OtherPreferences(after, f) == OtherPreferences(before, f)
    ensures forall f :: f in PREFERENCE_FILES ==> StandsAfter(b, before, after, f)
  {
    forall q | !Owned(q)
      ensures q in before ==> q in after && after[q] == before[q]
      ensures q in after && q !in before ==> q == [DATABASES] && after[q] == Directory {
      NotTargeted(before, staged, targets, q);
      if q in after && q !in before { AddedIsShort(before, staged, targets, after, q); }
    }
    forall f | f in PREFERENCE_FILES
      ensures OtherPreferences(after, f) == OtherPreferences(before, f) && StandsAfter(b, before, after, f) {
      PreferencesKept(b, before, staged, targets, after, f);
    }
  }

  predicate StandsAfter(b: Bundle, before: Tree, after: Tree, f: string)
  {
    && f in b.sections && ([f] in after <==> [f] in before || b.sections[f] != Null)
    && ([f] in after ==> after[[f]].File? && Mergeable(after, f))
  }

  /** The paths that are a bundle's to replace. */
  predicate Owned(q: Path)
  {
    Allowed(q) || (q != [] && q[0] in PREFERENCE_FILES)
  }

  lemma PreferencesKept(b: Bundle, before: Tree, staged: Tree, targets: seq<Path>, after: Tree, f: string)
    requires StagedFrom(b, before, staged) && f in PREFERENCE_FILES
    requires AreTargets(before, staged, targets) && Replaced(before, staged, targets, after)
    ensures OtherPreferences(after, f) == OtherPreferences(before, f) && StandsAfter(b, before, after, f)
  {
    PreferenceStaged(b, before, staged, targets, after, f);
    hide AreTargets, Replaced, StagedFrom, StagedAs, OtherPreferences;
    KeepsOthers(before, f, b.sections[f], staged);
    SameSection(after, staged, f);
  }

  lemma NotTargeted(live: Tree, staged: Tree, targets: seq<Path>, q: Path)
    requires AreTargets(live, staged, targets) && !Owned(q)
    ensures !Targeted(targets, q)
  {
    forall t | t in targets ensures !Under(t, q) {
      if Under(t, q) { TargetAbove(live, staged, t, q); }
    }
  }

  lemma KeepsOthers(before: Tree, f: string, section: Json, staged: Tree)
    requires StagedAs(before, f, section, staged)
    ensures OtherPreferences(staged, f) == OtherPreferences(before, f)
    ensures [f] in staged <==> [f] in before || section != Null
    ensures [f] in staged ==> staged[[f]].File? && Mergeable(staged, f)
  {
  }

  /** And the result is a tree again, ready to be captured. */
  lemma RestoredWellFormed(b: Bundle, before: Tree, staged: Tree, targets: seq<Path>, after: Tree)
    requires WellFormed(before) && WellFormed(staged)
    requires AreTargets(before, staged, targets) && Replaced(before, staged, targets, after)
    ensures WellFormed(after)
  {
    TargetsSeparate(before, staged, targets);
    assert !Allowed([]);
    NotTargeted(before, staged, targets, []);
    forall p | p in after && p != [] ensures Parent(p) in after && after[Parent(p)] == Directory {
      ParentRestored(before, staged, targets, after, p);
    }
  }

  lemma ParentRestored(before: Tree, staged: Tree, targets: seq<Path>, after: Tree, p: Path)
    requires WellFormed(before) && WellFormed(staged) && Separate(targets)
    requires AreTargets(before, staged, targets) && Replaced(before, staged, targets, after)
    requires [] in after && after[[]] == Directory
    requires p in after && p != []
    ensures Parent(p) in after && after[Parent(p)] == Directory
  {
    if Targeted(targets, p) {
      var t :| t in targets && Under(t, p);
      InSubtree(after, staged, t, p);
      if p != t {
        assert t == Parent(p)[..|t|];
        hide SameOutside, AreTargets, Separate;
        InSubtree(after, staged, t, Parent(p));
      }
    } else if p in before {
      hide Subtree, AreTargets, Separate;
      forall t | t in targets ensures !Under(t, Parent(p)) {
        if Under(t, Parent(p)) { UnderParent(t, p); }
      }
    } else {
      AddedIsShort(before, staged, targets, after, p);
      assert Parent(p) == [];
    }
  }

  lemma UnderParent(t: Path, p: Path)
    requires p != [] && Under(t, Parent(p))
    ensures Under(t, p)
  {
    assert t == Parent(p)[..|t|] == p[..|t|];
  }
}
