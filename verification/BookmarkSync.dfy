/**
 Bookmark synchronization as a state machine. Any number of devices of one account run it
 against one server, one request at a time, with any interleaving and any failure in between;
 other writers use the same server for everything else.
 */
module BookmarkSync {
  import opened Wrappers
  import opened Bytes
  import opened Crypto
  import opened Bookmarks
  import opened BookmarkMerge
  import opened MergeLossless
  import opened MergeAbsorption
  import opened BookmarkFile
  import opened VersionedObjects
  import opened Payloads

  /** The shared recovery key and the profile that the devices keep in step. */
  datatype Account = Account(master: MasterKey, profile: string)

  datatype Mapping = Mapping(id: Uuid, revision: nat)

  /** Why a revision was published. */
  datatype Origin =
    | Started(local: Snapshot)
    | Synced(base: Option<Snapshot>, local: Snapshot)
    | Replaced(local: Snapshot, seen: Option<nat>)

  /** Where a device stands between two requests. */
  datatype Stage =
    | Idle
    | Fetching(local: Snapshot)
    | FetchingToLoad
    | Publishing(snapshot: Snapshot, id: Uuid, base: Option<nat>, origin: Origin, restore: bool)
    | ReadingBack(snapshot: Snapshot, id: Uuid, restore: bool)
    | Restoring(snapshot: Snapshot, proof: Mapping, restore: bool)
    | Persisting(snapshot: Snapshot, proof: Mapping)

  /** The bookmark file, the persisted sync state (mapping and base together), and the stage. */
  datatype Device = Device(file: RawBookmarks, mapping: Option<Mapping>, base: Option<Snapshot>, stage: Stage)

  datatype System = System(
    account: Account, store: Objects<Payload>, devices: map<nat, Device>, origins: map<(Uuid, nat), Origin>)

  // ----- the account's bookmark objects -----

  predicate OursVersion(a: Account, v: Version<Payload>)
  {
    && v.namespace == BOOKMARK_NAMESPACE
    && v.content.Live?
    && v.content.author == a.master
    && v.content.payload.BookmarkPayload?
    && v.content.payload.snapshot.profileDirectory == a.profile
  }

  predicate Foreign(s: System, id: Uuid)
  {
    forall v :: v in VersionsOf(s.store, id) ==> !OursVersion(s.account, v)
  }

  predicate Ours(s: System, id: Uuid)
  {
    var vs := VersionsOf(s.store, id);
    vs != [] && OursVersion(s.account, vs[|vs| - 1])
  }

  /** The snapshot in revision r of one of the account's bookmark objects. */
  ghost function SnapshotAt(store: Objects<Payload>, id: Uuid, r: nat): Option<Snapshot>
  {
    var vs := VersionsOf(store, id);
    if 1 <= r <= |vs| && vs[r - 1].content.Live? && vs[r - 1].content.payload.BookmarkPayload?
    then Some(vs[r - 1].content.payload.snapshot)
    else None
  }

  function Head(s: System, id: Uuid): Snapshot
    requires Ours(s, id)
  {
    var vs := VersionsOf(s.store, id);
    vs[|vs| - 1].content.payload.snapshot
  }

  // ----- steps -----

  datatype Action =
    | EditFile(d: nat, file: RawBookmarks)
    | BeginSync(d: nat)
    | Fetch(d: nat, found: Option<Uuid>, newId: Uuid)
    | BeginSave(d: nat, newId: Uuid)
    | BeginLoad(d: nat)
    | FetchLoad(d: nat)
    | Publish(d: nat)
    | ReadBack(d: nat)
    | Restore(d: nat)
    | Persist(d: nat)
    | Abort(d: nat)
    | Elsewhere(id: Uuid, namespace: Text, content: Content<Payload>)

  function WithStage(s: System, d: nat, stage: Stage): System
    requires d in s.devices
  {
    s.(devices := s.devices[d := s.devices[d].(stage := stage)])
  }

  /** Merge what was fetched and decide whether the server, the file, or both must change. */
  function Decide(base: Option<Snapshot>, local: Snapshot, remote: Snapshot, proof: Mapping): Stage
  {
    match MergeBookmarks(base, local, remote)
    case Err(_) => Idle
    case Ok(merged) =>
      var restore := merged.value != local;
      if merged.value != remote then
        Publishing(merged.value, proof.id, Some(proof.revision), Synced(base, local), restore)
      else
        Restoring(merged.value, proof, restore)
  }

  /**
   One step. An action out of turn changes nothing. `found` is what discovery came back with:
   some bookmark object of the account, or nothing, whatever the server held meanwhile.
   */
  ghost function Step(s: System, a: Action): System
  {
    match a
    case EditFile(d, file) =>
      // The browser may do so at any moment, whatever the device is in the middle of.
      if d in s.devices && EditableFile(file, s.account.profile)
      then s.(devices := s.devices[d := s.devices[d].(file := file)]) else s
    case BeginSync(d) =>
      if d in s.devices && s.devices[d].stage.Idle? && ReadBookmarks(s.devices[d].file, s.account.profile).Ok?
      then WithStage(s, d, Fetching(ReadBookmarks(s.devices[d].file, s.account.profile).value)) else s
    case Fetch(d, found, newId) =>
      if d !in s.devices || !s.devices[d].stage.Fetching? then s
      else
        var dev := s.devices[d];
        var local := dev.stage.local;
        var target := if dev.mapping.Some? then Some(dev.mapping.value.id) else found;
        (match target
         case None => WithStage(s, d, Publishing(local, newId, None, Started(local), false))
         case Some(id) =>
           if !Ours(s, id) then WithStage(s, d, Idle)
           else WithStage(s, d, Decide(dev.base, local, Head(s, id), Mapping(id, RevisionOf(s.store, id)))))
    case BeginSave(d, newId) =>
      if d !in s.devices || !s.devices[d].stage.Idle? || ReadBookmarks(s.devices[d].file, s.account.profile).Err? then s
      else
        var dev := s.devices[d];
        var local := ReadBookmarks(dev.file, s.account.profile).value;
        var id := if dev.mapping.Some? then dev.mapping.value.id else newId;
        var base := if dev.mapping.Some? then Some(dev.mapping.value.revision) else None;
        WithStage(s, d, Publishing(local, id, base, Replaced(local, base), false))
    case BeginLoad(d) =>
      if d in s.devices && s.devices[d].stage.Idle? && s.devices[d].mapping.Some?
      then WithStage(s, d, FetchingToLoad) else s
    case FetchLoad(d) =>
      if d !in s.devices || !s.devices[d].stage.FetchingToLoad? || s.devices[d].mapping.None? then s
      else
        var id := s.devices[d].mapping.value.id;
        if !Ours(s, id) then WithStage(s, d, Idle)
        else WithStage(s, d, Restoring(Head(s, id), Mapping(id, RevisionOf(s.store, id)), true))
    case Publish(d) =>
      if d !in s.devices || !s.devices[d].stage.Publishing? then s
      else
        var Publishing(snapshot, id, base, origin, restore) := s.devices[d].stage;
        if !BaseMatches(s.store, id, base) then WithStage(s, d, Idle)
        else
          var store := Append(s.store, id, BOOKMARK_NAMESPACE, Live(s.account.master, BookmarkPayload(snapshot)));
          WithStage(s, d, ReadingBack(snapshot, id, restore))
            .(store := store, origins := s.origins[(id, RevisionOf(store, id)) := origin])
    case ReadBack(d) =>
      if d !in s.devices || !s.devices[d].stage.ReadingBack? then s
      else
        var ReadingBack(snapshot, id, restore) := s.devices[d].stage;
        if Ours(s, id) && Head(s, id) == snapshot
        then WithStage(s, d, Restoring(snapshot, Mapping(id, RevisionOf(s.store, id)), restore))
        else WithStage(s, d, Idle)
    case Restore(d) =>
      if d !in s.devices || !s.devices[d].stage.Restoring? then s
      else
        var Restoring(snapshot, proof, restore) := s.devices[d].stage;
        var dev := s.devices[d].(stage := Persisting(snapshot, proof));
        s.(devices := s.devices[d := if restore then dev.(file := WriteBookmarks(snapshot)) else dev])
    case Persist(d) =>
      if d !in s.devices || !s.devices[d].stage.Persisting? then s
      else
        var Persisting(snapshot, proof) := s.devices[d].stage;
        s.(devices := s.devices[d := s.devices[d].(mapping := Some(proof), base := Some(snapshot), stage := Idle)])
    case Abort(d) =>
      if d in s.devices then WithStage(s, d, Idle) else s
    case Elsewhere(id, namespace, content) =>
      if Foreign(s, id) && !OursVersion(s.account, Version(namespace, s.store.nextCursor, content))
      then s.(store := Append(s.store, id, namespace, content)) else s
  }

  /** The browser never repeats a child id inside one folder. */
  ghost predicate EditableFile(file: RawBookmarks, profile: string)
  {
    ReadBookmarks(file, profile).Ok? ==> UniqueSiblingsIn(ReadBookmarks(file, profile).value.roots)
  }

  ghost function RunAll(s: System, actions: seq<Action>): System
  {
    if actions == [] then s else Step(RunAll(s, actions[..|actions| - 1]), actions[|actions| - 1])
  }

  // ----- what every step keeps -----

  /** What reading a bookmark file of the profile yields. */
  ghost predicate Canonical(a: Account, snapshot: Snapshot)
  {
    && snapshot.format == FORMAT
    && snapshot.sourceBrowser == BROWSER
    && snapshot.profileDirectory == a.profile
    && WellFormed(snapshot.roots)
  }

  /** A bookmark object of the account, through its whole history. */
  ghost predicate Owned(a: Account, store: Objects<Payload>, id: Uuid)
  {
    && VersionsOf(store, id) != []
    && forall v :: v in VersionsOf(store, id) ==> OursVersion(a, v) && Canonical(a, v.content.payload.snapshot)
  }

  ghost predicate IsRevision(a: Account, store: Objects<Payload>, proof: Mapping, snapshot: Snapshot)
  {
    Owned(a, store, proof.id) && SnapshotAt(store, proof.id, proof.revision) == Some(snapshot)
  }

  /** The base, when there is one, is some revision of the object at or before r. */
  ghost predicate IsAncestor(store: Objects<Payload>, id: Uuid, r: nat, base: Option<Snapshot>)
  {
    base.Some? ==> exists r0: nat :: r0 <= r && SnapshotAt(store, id, r0) == base
  }

  ghost predicate MergesInto(base: Option<Snapshot>, local: Snapshot, remote: Snapshot, result: Snapshot)
  {
    MergeBookmarks(base, local, remote).Ok? && MergeBookmarks(base, local, remote).value.value == result
  }

  ghost predicate OriginOk(store: Objects<Payload>, id: Uuid, r: nat, origin: Origin)
  {
    match origin
    case Started(local) => r == 1 && SnapshotAt(store, id, r) == Some(local)
    case Replaced(local, seen) =>
      SnapshotAt(store, id, r) == Some(local) && seen == if r == 1 then None else Some(r - 1)
    case Synced(base, local) =>
      && r >= 2
      && SnapshotAt(store, id, r - 1).Some?
      && SnapshotAt(store, id, r).Some?
      && MergesInto(base, local, SnapshotAt(store, id, r - 1).value, SnapshotAt(store, id, r).value)
      && SnapshotAt(store, id, r) != SnapshotAt(store, id, r - 1)
      && IsAncestor(store, id, r - 1, base)
  }

  ghost predicate StageOk(a: Account, store: Objects<Payload>, stage: Stage)
  {
    match stage
    case Idle => true
    case Fetching(local) => Canonical(a, local)
    case FetchingToLoad => true
    case Publishing(snapshot, id, base, origin, _) =>
      && Canonical(a, snapshot)
      && (base.Some? ==> Owned(a, store, id) && base.value >= 1)
      && (match origin
          case Started(local) => base.None? && local == snapshot
          case Replaced(local, seen) => local == snapshot && seen == base
          case Synced(b, local) =>
            && base.Some?
            && SnapshotAt(store, id, base.value).Some?
            && MergesInto(b, local, SnapshotAt(store, id, base.value).value, snapshot)
            && SnapshotAt(store, id, base.value) != Some(snapshot)
            && IsAncestor(store, id, base.value, b))
    case ReadingBack(snapshot, _, _) => true
    case Restoring(snapshot, proof, _) => IsRevision(a, store, proof, snapshot)
    case Persisting(snapshot, proof) => IsRevision(a, store, proof, snapshot)
  }

  /** The stored merge base is the mapped object's content at the mapped revision. */
  ghost predicate BaseIsHistory(a: Account, store: Objects<Payload>, dev: Device)
  {
    && (dev.mapping.Some? <==> dev.base.Some?)
    && (dev.mapping.Some? ==> IsRevision(a, store, dev.mapping.value, dev.base.value))
  }

  /** What a sync is publishing was merged over the device's own stored base. */
  ghost predicate StageIsOwn(dev: Device)
  {
    dev.stage.Publishing? && dev.stage.origin.Synced? ==> dev.stage.origin.base == dev.base
  }

  ghost predicate DeviceOk(a: Account, store: Objects<Payload>, dev: Device)
  {
    && EditableFile(dev.file, a.profile)
    && StageIsOwn(dev)
    && BaseIsHistory(a, store, dev)
    && StageOk(a, store, dev.stage)
  }

  ghost predicate HistoryOk(s: System, id: Uuid)
  {
    Owned(s.account, s.store, id) ==>
      forall r: nat :: 1 <= r <= RevisionOf(s.store, id) ==>
        (id, r) in s.origins && OriginOk(s.store, id, r, s.origins[(id, r)])
  }

  ghost predicate Invariant(s: System)
  {
    && (forall id: Uuid :: Owned(s.account, s.store, id) || Foreign(s, id))
    && (forall id: Uuid :: HistoryOk(s, id))
    && forall d :: d in s.devices ==> DeviceOk(s.account, s.store, s.devices[d])
  }

  ghost predicate Initial(s: System)
  {
    && s.store.versions == map[]
    && forall d :: d in s.devices ==>
         && s.devices[d].mapping.None? && s.devices[d].base.None? && s.devices[d].stage.Idle?
         && EditableFile(s.devices[d].file, s.account.profile)
  }

  lemma InitialOk(s: System)
    requires Initial(s)
    ensures Invariant(s)
  {
  }

  // ----- growth of the store -----

  ghost predicate Extends(a: Account, store: Objects<Payload>, store': Objects<Payload>)
  {
    && (forall id: Uuid :: VersionsOf(store, id) <= VersionsOf(store', id))
    && forall id: Uuid :: Owned(a, store, id) ==> Owned(a, store', id)
  }

  lemma SnapshotPersists(a: Account, store: Objects<Payload>, store': Objects<Payload>, id: Uuid, r: nat)
    requires Extends(a, store, store')
    ensures SnapshotAt(store, id, r).Some? ==> SnapshotAt(store', id, r) == SnapshotAt(store, id, r)
    ensures r <= RevisionOf(store, id) ==> SnapshotAt(store', id, r) == SnapshotAt(store, id, r)
  {
    assert VersionsOf(store, id) <= VersionsOf(store', id);
  }

  lemma AncestorPersists(a: Account, store: Objects<Payload>, store': Objects<Payload>, id: Uuid, r: nat,
                         base: Option<Snapshot>)
    requires Extends(a, store, store')
    requires IsAncestor(store, id, r, base)
    ensures IsAncestor(store', id, r, base)
  {
    if base.Some? {
      var r0: nat :| r0 <= r && SnapshotAt(store, id, r0) == base;
      SnapshotPersists(a, store, store', id, r0);
    }
  }

  lemma RevisionPersists(a: Account, store: Objects<Payload>, store': Objects<Payload>, proof: Mapping,
                         snapshot: Snapshot)
    requires Extends(a, store, store')
    requires IsRevision(a, store, proof, snapshot)
    ensures IsRevision(a, store', proof, snapshot)
  {
    hide SnapshotAt, Owned;
    SnapshotPersists(a, store, store', proof.id, proof.revision);
  }

  lemma DevicePersists(a: Account, store: Objects<Payload>, store': Objects<Payload>, dev: Device)
    requires Extends(a, store, store')
    requires DeviceOk(a, store, dev)
    ensures DeviceOk(a, store', dev)
  {
    hide SnapshotAt, Owned, MergesInto, IsAncestor, IsRevision, EditableFile, StageIsOwn, Canonical;
    if dev.mapping.Some? {
      RevisionPersists(a, store, store', dev.mapping.value, dev.base.value);
    }
    match dev.stage
    case Publishing(snapshot, id, base, origin, _) =>
      if base.Some? {
        SnapshotPersists(a, store, store', id, base.value);
        if origin.Synced? {
          AncestorPersists(a, store, store', id, base.value, origin.base);
        }
      }
    case Restoring(snapshot, proof, _) => RevisionPersists(a, store, store', proof, snapshot);
    case Persisting(snapshot, proof) => RevisionPersists(a, store, store', proof, snapshot);
    case _ =>
  }

  lemma OriginPersists(a: Account, store: Objects<Payload>, store': Objects<Payload>, id: Uuid, r: nat, origin: Origin)
    requires Extends(a, store, store')
    requires OriginOk(store, id, r, origin)
    ensures OriginOk(store', id, r, origin)
  {
    hide SnapshotAt, MergesInto, IsAncestor;
    SnapshotPersists(a, store, store', id, r);
    if origin.Synced? {
      SnapshotPersists(a, store, store', id, r - 1);
      AncestorPersists(a, store, store', id, r - 1, origin.base);
    }
  }

  // ----- steps that touch one device only -----

  lemma DeviceStepOk(s: System, d: nat, dev: Device)
    requires Invariant(s) && d in s.devices
    requires DeviceOk(s.account, s.store, dev)
    ensures Invariant(s.(devices := s.devices[d := dev]))
  {
    hide DeviceOk, Owned, OriginOk;
    var s' := s.(devices := s.devices[d := dev]);
    forall id: Uuid ensures Owned(s'.account, s'.store, id) || Foreign(s', id) {
      assert Owned(s.account, s.store, id) || Foreign(s, id);
    }
    forall id: Uuid ensures HistoryOk(s', id) {
      assert HistoryOk(s, id);
    }
  }

  lemma MergeCanonical(a: Account, base: Option<Snapshot>, local: Snapshot, remote: Snapshot)
    requires Canonical(a, local) && Canonical(a, remote)
    requires base.Some? ==> Canonical(a, base.value)
    ensures MergeBookmarks(base, local, remote).Ok?
    ensures Canonical(a, MergeBookmarks(base, local, remote).value.value)
  {
    hide MergeEntries, UniqueSiblingsIn;
    MergeKeepsWellFormed(BaseRoots(base), local.roots, remote.roots);
  }

  lemma ReadIsCanonical(a: Account, file: RawBookmarks)
    requires EditableFile(file, a.profile)
    requires ReadBookmarks(file, a.profile).Ok?
    ensures Canonical(a, ReadBookmarks(file, a.profile).value)
  {
    ReadIsSorted(file, a.profile);
    SortedHasNoDuplicates(Keys(ReadBookmarks(file, a.profile).value.roots));
  }

  lemma WrittenIsEditable(a: Account, snapshot: Snapshot)
    requires Canonical(a, snapshot)
    ensures EditableFile(WriteBookmarks(snapshot), a.profile)
  {
    WriteThenRead(snapshot);
    var back := ReadBookmarks(WriteBookmarks(snapshot), a.profile).value;
    forall e | e in back.roots ensures UniqueSiblings(e.node) {
      var i :| 0 <= i < |back.roots| && back.roots[i] == e;
      SortedHasNoDuplicates(Keys(back.roots));
      LookupAt(back.roots, i);
      UniqueEntry(snapshot.roots, e.key);
    }
  }

  lemma OwnedHead(s: System, id: Uuid)
    requires Invariant(s) && Ours(s, id)
    ensures Owned(s.account, s.store, id)
    ensures IsRevision(s.account, s.store, Mapping(id, RevisionOf(s.store, id)), Head(s, id))
    ensures Canonical(s.account, Head(s, id))
  {
    var vs := VersionsOf(s.store, id);
    assert vs[|vs| - 1] in vs;
    assert Owned(s.account, s.store, id) || Foreign(s, id);
  }

  lemma RevisionIsCanonical(a: Account, store: Objects<Payload>, proof: Mapping, snapshot: Snapshot)
    requires IsRevision(a, store, proof, snapshot)
    ensures Canonical(a, snapshot)
    ensures 1 <= proof.revision <= RevisionOf(store, proof.id)
  {
    var vs := VersionsOf(store, proof.id);
    assert vs[proof.revision - 1] in vs;
  }

  lemma DecideOk(s: System, dev: Device, local: Snapshot, id: Uuid)
    requires Invariant(s) && DeviceOk(s.account, s.store, dev)
    requires Canonical(s.account, local) && Ours(s, id)
    requires dev.mapping.Some? ==> dev.mapping.value.id == id
    ensures StageIsOwn(dev.(stage := Decide(dev.base, local, Head(s, id), Mapping(id, RevisionOf(s.store, id)))))
    ensures StageOk(s.account, s.store, Decide(dev.base, local, Head(s, id), Mapping(id, RevisionOf(s.store, id))))
  {
    hide MergeBookmarks, Canonical, Owned, Head;
    var a, proof, remote := s.account, Mapping(id, RevisionOf(s.store, id)), Head(s, id);
    OwnedHead(s, id);
    if dev.base.Some? {
      RevisionIsCanonical(a, s.store, dev.mapping.value, dev.base.value);
      assert SnapshotAt(s.store, id, dev.mapping.value.revision) == dev.base;
    }
    MergeCanonical(a, dev.base, local, remote);
    RevisionIsCanonical(a, s.store, proof, remote);
    assert IsAncestor(s.store, id, proof.revision, dev.base);
  }
}
