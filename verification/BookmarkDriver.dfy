/**
 The bookmark leg of a sync as the client runs it, call by call, while nobody else writes. Any call
 may fail. With other devices in between, BookmarkSync and its laws say what holds.
 */
module BookmarkDriver {
  import opened Wrappers
  import opened Bytes
  import opened Crypto
  import opened Bookmarks
  import opened BookmarkMerge
  import opened BookmarkFile
  import opened VersionedObjects
  import opened Payloads
  import opened BookmarkSync
  import opened BookmarkSyncLaws
  import opened BookmarkConvergence
  import opened MergeOutcome
  import MergeProcedures

  datatype SyncError = FileUnreadable | RequestFailed | MergeFailed | RestoreFailed | StateNotSaved

  datatype Report = Report(conflicts: nat, uploaded: bool, restored: bool)

  /** What a sync has to report: the merge of base, file and head, compared with both sides. */
  ghost function Expected(s: System, d: nat, found: Option<Uuid>, newId: Uuid): Report
    requires CanSync(s, d, found, newId)
  {
    var id := TargetOf(s, d, found, newId);
    if Ours(s, id) then
      MergesAlone(s, d, found, newId);
      var local := ReadBookmarks(s.devices[d].file, s.account.profile).value;
      var merge := MergeBookmarks(s.devices[d].base, local, Head(s, id)).value;
      Report(merge.conflicts, merge.value != Head(s, id), merge.value != local)
    else Report(0, true, false)
  }

  /** Zero conflicts are reported exactly when the edits of both sides can stand together. */
  lemma ReportsConflictsExactly(s: System, d: nat, found: Option<Uuid>, newId: Uuid)
    requires CanSync(s, d, found, newId) && Ours(s, TargetOf(s, d, found, newId))
    ensures var local := ReadBookmarks(s.devices[d].file, s.account.profile).value;
            Expected(s, d, found, newId).conflicts == 0 <==>
              Compatible(BaseRoots(s.devices[d].base), local.roots, Head(s, TargetOf(s, d, found, newId)).roots)
  {
    MergesAlone(s, d, found, newId);
    var local := ReadBookmarks(s.devices[d].file, s.account.profile).value;
    ConflictFreeExactly(s.devices[d].base, local, Head(s, TargetOf(s, d, found, newId)));
    hide CanSync, ReadBookmarks, MergeBookmarks, SyncAlone, Ours, Head, Compatible, Append;
  }

  class Profile {
    const account: Account
    /** The server's objects, and on this device the bookmark file and the stored sync state. */
    var objects: Objects<Payload>
    var file: RawBookmarks
    var mapping: Option<Mapping>
    var base: Option<Snapshot>
    const broken: nat -> bool
    var clock: nat

    /** The server and this device are as in the state machine's system. */
    ghost predicate Mirrors(s: System, d: nat)
      reads this
    {
      && s.account == account && s.store == objects
      && d in s.devices && s.devices[d] == Device(file, mapping, base, Idle)
    }

    predicate Holds(id: Uuid)
      reads this
    {
      var versions := VersionsOf(objects, id);
      versions != [] && OursVersion(account, versions[|versions| - 1])
    }

    function Latest(id: Uuid): Snapshot
      reads this
      requires Holds(id)
    {
      var versions := VersionsOf(objects, id);
      versions[|versions| - 1].content.payload.snapshot
    }

    constructor (account: Account, objects: Objects<Payload>, file: RawBookmarks, broken: nat -> bool)
      ensures this.account == account && this.objects == objects && this.file == file && this.broken == broken
      ensures mapping == None && base == None
    {
      this.account, this.objects, this.file, this.broken := account, objects, file, broken;
      mapping, base, clock := None, None, 0;
    }

    /** Every call from some moment on succeeds. */
    ghost predicate UnbrokenFrom(start: nat)
    {
      forall k :: start <= k ==> !broken(k)
    }

    /** How the calls between two moments went: all well, or well until the last. */
    ghost predicate Went(ok: bool, start: nat, end: nat)
    {
      && start <= end
      && (ok ==> forall k :: start <= k < end ==> !broken(k))
      && (!ok ==> start < end && broken(end - 1))
    }

    method Call() returns (ok: bool)
      modifies this`clock
      ensures clock == old(clock) + 1 && ok == !broken(old(clock))
    {
      ok := !broken(clock);
      clock := clock + 1;
    }

    method LoadBookmarks(id: Uuid) returns (r: Option<(Snapshot, Mapping)>)
      modifies this`clock
      ensures r.Some? ==> Holds(id) && r.value == (Latest(id), Mapping(id, RevisionOf(objects, id)))
      ensures old(clock) <= clock && (Holds(id) ==> Went(r.Some?, old(clock), clock))
    {
      var ok := Call();
      return if ok && Holds(id) then Some((Latest(id), Mapping(id, RevisionOf(objects, id)))) else None;
    }

    /** Writes under compare-and-swap and reads back what it wrote. */
    method SaveSnapshot(snapshot: Snapshot, id: Uuid, expected: Option<nat>) returns (r: Option<Mapping>)
      modifies this`objects, this`clock
      ensures r.Some? ==>
                && BaseMatches(old(objects), id, expected)
                && objects == Published(old(objects), snapshot, id)
                && r.value == Mapping(id, RevisionOf(objects, id))
      ensures r.None? ==>
                || objects == old(objects)
                || (BaseMatches(old(objects), id, expected) && objects == Published(old(objects), snapshot, id))
      ensures snapshot.profileDirectory == account.profile && BaseMatches(old(objects), id, expected) ==>
                Went(r.Some?, old(clock), clock)
      ensures old(clock) <= clock
    {
      var sent := Call();
      if !sent || !BaseMatches(objects, id, expected) {
        return None;
      }
      objects := Append(objects, id, BOOKMARK_NAMESPACE, Live(account.master, BookmarkPayload(snapshot)));
      var stored := LoadBookmarks(id);
      if stored.None? || stored.value.0 != snapshot {
        return None;
      }
      return Some(stored.value.1);
    }

    function Published(before: Objects<Payload>, snapshot: Snapshot, id: Uuid): Objects<Payload>
    {
      Append(before, id, BOOKMARK_NAMESPACE, Live(account.master, BookmarkPayload(snapshot)))
    }

    /** Mapping and base change together or not at all. */
    method SaveSyncState(proof: Mapping, snapshot: Snapshot) returns (ok: bool)
      modifies this`mapping, this`base, this`clock
      ensures ok ==> mapping == Some(proof) && base == Some(snapshot)
      ensures !ok ==> mapping == old(mapping) && base == old(base)
      ensures Went(ok, old(clock), clock)
    {
      ok := Call();
      if ok {
        mapping, base := Some(proof), Some(snapshot);
      }
    }

    /** On the way from s to where the lone sync ends: the server before or after its one write. */
    ghost predicate OnTheWay(s: System, t: System, d: nat)
      reads this
    {
      && (objects == s.store || objects == t.store)
      && d in s.devices && d in t.devices
      && (file == s.devices[d].file || file == t.devices[d].file)
      && mapping == s.devices[d].mapping && base == s.devices[d].base
    }

    /** Each error says how far the sync had come. */
    ghost predicate FailedAs(error: SyncError, s: System, t: System, d: nat)
      reads this
    {
      && OnTheWay(s, t, d)
      && (error == FileUnreadable ==> objects == s.store)
      && (error == RequestFailed ==> file == s.devices[d].file)
      && (error == RestoreFailed ==> objects == t.store && file == s.devices[d].file)
      && (error == StateNotSaved ==> objects == t.store && file == t.devices[d].file)
    }

    /**
     Fetch, merge, publish if the server is behind, restore if the file is, then persist. It
     succeeds exactly when the file can be read and no call fails; the server and the device are
     then exactly where the state machine's lone sync ends. When it fails the stored sync state is
     untouched and server and file are as before or as at that end, so the next sync starts over.
     The report is the merge's own conflict count, and whether it differs from either side.
     */
    method Sync(found: Option<Uuid>, newId: Uuid, ghost s: System, ghost d: nat) returns (r: Result<Report, SyncError>)
      requires Mirrors(s, d) && Invariant(s) && Discovers(s, found) && VersionsOf(objects, newId) == []
      modifies this
      ensures r.Ok? ==> CanSync(s, d, found, newId) && Mirrors(SyncAlone(s, d, found, newId), d)
      ensures r.Ok? ==> r.value == Expected(s, d, found, newId)
      ensures r.Ok? ==> (r.value.uploaded <==> objects != old(objects)) && (!r.value.restored ==> file == old(file))
      ensures ReadBookmarks(old(file), account.profile).Ok? ==> Went(r.Ok?, old(clock), clock)
      ensures UnbrokenFrom(old(clock)) && ReadBookmarks(old(file), account.profile).Ok? ==> r.Ok?
      ensures r.Err? ==> FailedAs(r.error, s, SyncAlone(s, d, found, newId), d) && r.error != MergeFailed
      ensures r == Err(FileUnreadable) <==> ReadBookmarks(old(file), account.profile).Err?
    {
      hide Invariant, MergeBookmarks, ReadBookmarks, WriteBookmarks, SyncAlone, Append, BaseMatches, Newest;
      var read := ReadBookmarks(file, account.profile);
      if read.Err? {
        KeepsDevices(s, d, found, newId);
        return Err(FileUnreadable);
      }
      var local := read.value;
      var target := if mapping.Some? then Some(mapping.value.id) else found;
      if target.None? {
        r := Start(local, newId, s, d);
      } else {
        TargetIsOurs(s, d, found, newId);
        r := SyncWith(local, target.value, found, newId, s, d);
      }
    }

    method Start(local: Snapshot, newId: Uuid, ghost s: System, ghost d: nat) returns (r: Result<Report, SyncError>)
      requires Mirrors(s, d) && CanSync(s, d, None, newId) && mapping.None?
      requires ReadBookmarks(file, account.profile) == Ok(local)
      modifies this`objects, this`mapping, this`base, this`clock
      ensures r.Ok? ==> Mirrors(SyncAlone(s, d, None, newId), d)
      ensures r.Ok? ==> r.value == Report(0, true, false) && objects != old(objects)
      ensures r.Err? ==> FailedAs(r.error, s, SyncAlone(s, d, None, newId), d)
      ensures r.Err? ==> r.error == RequestFailed || r.error == StateNotSaved
      ensures Went(r.Ok?, old(clock), clock)
    {
      hide Invariant, ReadBookmarks, WriteBookmarks, SyncAlone, Append, BaseMatches;
      NotYetOurs(s, newId);
      SyncOfNew(s, d, None, newId);
      ReadKeepsProfile(file, account.profile);
      NewMatches(objects, newId);
      AppendChanges(objects, newId, BOOKMARK_NAMESPACE, Live(account.master, BookmarkPayload(local)));
      var proof := SaveSnapshot(local, newId, None);
      if proof.None? {
        return Err(RequestFailed);
      }
      var saved := SaveSyncState(proof.value, local);
      return if saved then Ok(Report(0, true, false)) else Err(StateNotSaved);
    }

    method SyncWith(local: Snapshot, id: Uuid, found: Option<Uuid>, newId: Uuid, ghost s: System, ghost d: nat)
      returns (r: Result<Report, SyncError>)
      requires Mirrors(s, d) && CanSync(s, d, found, newId) && id == TargetOf(s, d, found, newId) && Ours(s, id)
      requires ReadBookmarks(file, account.profile) == Ok(local)
      modifies this
      ensures r.Ok? ==> Mirrors(SyncAlone(s, d, found, newId), d)
      ensures r.Ok? ==> r.value == Expected(s, d, found, newId)
      ensures r.Ok? ==> (r.value.uploaded <==> objects != old(objects)) && (!r.value.restored ==> file == old(file))
      ensures r.Err? ==> FailedAs(r.error, s, SyncAlone(s, d, found, newId), d)
      ensures r.Err? ==> r.error != FileUnreadable && r.error != MergeFailed
      ensures Went(r.Ok?, old(clock), clock)
    {
      hide Invariant, MergeBookmarks, ReadBookmarks, WriteBookmarks, SyncAlone, Append, BaseMatches, OursVersion,
        CanSync;
      var remote := LoadBookmarks(id);
      MergesAlone(s, d, found, newId);
      if remote.None? {
        return Err(RequestFailed);
      }
      var (theirs, proof) := remote.value;
      assert Head(s, id) == theirs;
      HeadMatchesBase(s, id);
      var merge := MergeProcedures.MergeSnapshots(base, local, theirs);
      if merge.Err? {
        return Err(MergeFailed);
      }
      r := Deliver(merge.value, local, theirs, proof, s, SyncAlone(s, d, found, newId), d);
    }

    /** Publishes the merge if the server lacks it, writes it if the file does, and persists. */
    method Deliver(merge: Merged<Snapshot>, local: Snapshot, theirs: Snapshot, fetched: Mapping,
                   ghost s: System, ghost t: System, ghost d: nat)
      returns (r: Result<Report, SyncError>)
      requires Mirrors(s, d) && t.account == account && d in t.devices
      requires merge.value.profileDirectory == account.profile
      requires BaseMatches(objects, fetched.id, Some(fetched.revision))
               && fetched.revision == RevisionOf(objects, fetched.id)
      requires t.store == if merge.value == theirs then objects else Published(objects, merge.value, fetched.id)
      requires var proof := Mapping(fetched.id, RevisionOf(t.store, fetched.id));
               t.devices[d] == Finished(s.devices[d], merge.value, proof, merge.value != local)
      modifies this
      ensures r.Ok? ==> Mirrors(t, d)
      ensures r.Ok? ==> r.value == Report(merge.conflicts, merge.value != theirs, merge.value != local)
      ensures r.Ok? ==> (r.value.uploaded <==> objects != old(objects)) && (!r.value.restored ==> file == old(file))
      ensures r.Err? ==> FailedAs(r.error, s, t, d)
      ensures r.Err? ==> r.error != FileUnreadable && r.error != MergeFailed
      ensures Went(r.Ok?, old(clock), clock)
    {
      hide WriteBookmarks, Append, BaseMatches;
      var merged, proof := merge.value, fetched;
      var uploaded, restored := merged != theirs, merged != local;
      AppendChanges(objects, proof.id, BOOKMARK_NAMESPACE, Live(account.master, BookmarkPayload(merged)));
      if uploaded {
        var published := SaveSnapshot(merged, proof.id, Some(proof.revision));
        if published.None? {
          return Err(RequestFailed);
        }
        proof := published.value;
      }
      if restored {
        var written := Call();
        if !written {
          return Err(RestoreFailed);
        }
        file := WriteBookmarks(merged);
      }
      var saved := SaveSyncState(proof, merged);
      return if saved then Ok(Report(merge.conflicts, uploaded, restored)) else Err(StateNotSaved);
    }
  }

  lemma ReadKeepsProfile(file: RawBookmarks, profile: string)
    requires ReadBookmarks(file, profile).Ok?
    ensures ReadBookmarks(file, profile).value.profileDirectory == profile
  {
  }

  lemma NewMatches(h: Objects<Payload>, id: Uuid)
    requires VersionsOf(h, id) == []
    ensures BaseMatches(h, id, None)
  {
  }

  lemma KeepsDevices(s: System, d: nat, found: Option<Uuid>, newId: Uuid)
    requires d in s.devices
    ensures d in SyncAlone(s, d, found, newId).devices
  {
    hide Step;
    StepKeepsAccount(s, BeginSync(d));
    StepKeepsAccount(Step(s, BeginSync(d)), Fetch(d, found, newId));
    StepKeepsAccount(Begun(s, d, found, newId), Publish(d));
    StepKeepsAccount(BookmarkConvergence.Published(s, d, found, newId), ReadBack(d));
    StepKeepsAccount(Verified(s, d, found, newId), Restore(d));
    StepKeepsAccount(Restored(s, d, found, newId), Persist(d));
  }

  lemma TargetIsOurs(s: System, d: nat, found: Option<Uuid>, newId: Uuid)
    requires Invariant(s) && d in s.devices && Discovers(s, found)
    requires s.devices[d].mapping.Some? || found.Some?
    ensures Ours(s, TargetOf(s, d, found, newId))
  {
    if s.devices[d].mapping.Some? { MappedIsOurs(s, d); }
    hide Invariant, Ours;
  }

  lemma NotYetOurs(s: System, newId: Uuid)
    requires VersionsOf(s.store, newId) == []
    ensures !Ours(s, newId)
  {
  }

  lemma AppendChanges(h: Objects<Payload>, id: Uuid, namespace: Text, content: Content<Payload>)
    ensures Append(h, id, namespace, content) != h
  {
    assert Append(h, id, namespace, content).nextCursor != h.nextCursor;
  }

  lemma MergesAlone(s: System, d: nat, found: Option<Uuid>, newId: Uuid)
    requires CanSync(s, d, found, newId) && Ours(s, TargetOf(s, d, found, newId))
    ensures var t, id := SyncAlone(s, d, found, newId), TargetOf(s, d, found, newId);
            var local := ReadBookmarks(s.devices[d].file, s.account.profile).value;
            var merge := MergeBookmarks(s.devices[d].base, local, Head(s, id));
            && merge.Ok? && merge.value.value.profileDirectory == s.account.profile
            && t.account == s.account
            && (merge.value.value == Head(s, id) ==> t.store == s.store)
            && (merge.value.value != Head(s, id) ==>
                  t.store == Append(s.store, id, BOOKMARK_NAMESPACE,
                                    Live(s.account.master, BookmarkPayload(merge.value.value))))
            && t.devices == s.devices[d := Finished(s.devices[d], merge.value.value,
                                                    Mapping(id, RevisionOf(t.store, id)),
                                                    merge.value.value != local)]
  {
    SyncOfExisting(s, d, found, newId);
    MergeIsCanonical(s, d, TargetOf(s, d, found, newId));
    hide Invariant, SyncAlone, MergeBookmarks, ReadBookmarks, Append, Ours, Head, WriteBookmarks;
  }
}
