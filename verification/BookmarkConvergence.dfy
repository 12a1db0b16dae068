/** Liveness of bookmark synchronization: retries settle, rounds converge, steady states stay. */
module BookmarkConvergence {
  import opened Wrappers
  import opened Bytes
  import opened Crypto
  import opened Bookmarks
  import opened BookmarkMerge
  import opened MergeShape
  import opened MergeLossless
  import opened MergeAbsorption
  import opened KeyOrder
  import opened BookmarkFile
  import opened VersionedObjects
  import opened Payloads
  import opened BookmarkSync
  import opened BookmarkSyncLaws

  // ----- merges that give the remote side back -----

  ghost predicate SameTable(x: Snapshot, y: Snapshot)
  {
    && x.chromiumVersion == y.chromiumVersion
    && forall k :: Lookup(x.roots, k) == Lookup(y.roots, k)
  }

  /** Nothing changed here since the base: the merge is the remote snapshot. */
  lemma UnchangedLocalYields(a: Account, base: Snapshot, local: Snapshot, remote: Snapshot)
    requires Canonical(a, base) && Canonical(a, local) && Canonical(a, remote)
    requires SameTable(local, base)
    requires base.chromiumVersion <= remote.chromiumVersion
    ensures MergeBookmarks(Some(base), local, remote).Ok?
    ensures MergeBookmarks(Some(base), local, remote).value.value == remote
  {
    forall k ensures MergeAt(k, base.roots, local.roots, remote.roots).value == Lookup(remote.roots, k) {
      assert Lookup(local.roots, k) == Lookup(base.roots, k);
    }
    hide MergeOptional, MergeEntries;
    EntriesKeepRemote(base.roots, local.roots, remote.roots);
  }

  /** The server already holds what the file holds: the merge is that, whatever the base. */
  lemma MatchingRemoteYields(a: Account, base: Option<Snapshot>, local: Snapshot, remote: Snapshot)
    requires Canonical(a, local) && Canonical(a, remote)
    requires base.Some? ==> Canonical(a, base.value)
    requires SameTable(local, remote)
    ensures MergeBookmarks(base, local, remote).Ok?
    ensures MergeBookmarks(base, local, remote).value.value == remote
  {
    forall k ensures MergeAt(k, BaseRoots(base), local.roots, remote.roots).value == Lookup(remote.roots, k) {
      assert Lookup(local.roots, k) == Lookup(remote.roots, k);
    }
    hide MergeOptional, MergeEntries;
    EntriesKeepRemote(BaseRoots(base), local.roots, remote.roots);
  }

  // ----- one device syncing alone -----

  /** The place in the log of an object's last change. */
  function LastCursor(s: System, id: Uuid): nat
  {
    var vs := VersionsOf(s.store, id);
    if vs == [] then 0 else vs[|vs| - 1].cursor
  }

  /** The one of the account's objects that was written last. */
  ghost predicate Newest(s: System, id: Uuid)
  {
    Ours(s, id) && forall other: Uuid :: Ours(s, other) ==> LastCursor(s, other) <= LastCursor(s, id)
  }

  /** What discovery returns while nobody writes: the newest of the account's objects, if any. */
  ghost predicate Discovers(s: System, found: Option<Uuid>)
  {
    if found.Some? then Newest(s, found.value) else forall id: Uuid :: !Ours(s, id)
  }

  ghost function Begun(s: System, d: nat, found: Option<Uuid>, newId: Uuid): System
  {
    Step(Step(s, BeginSync(d)), Fetch(d, found, newId))
  }

  ghost function Published(s: System, d: nat, found: Option<Uuid>, newId: Uuid): System
  {
    Step(Begun(s, d, found, newId), Publish(d))
  }

  ghost function Verified(s: System, d: nat, found: Option<Uuid>, newId: Uuid): System
  {
    Step(Published(s, d, found, newId), ReadBack(d))
  }

  ghost function Restored(s: System, d: nat, found: Option<Uuid>, newId: Uuid): System
  {
    Step(Verified(s, d, found, newId), Restore(d))
  }

  /** A whole sync of device d with nobody else at work; steps out of turn change nothing. */
  ghost function SyncAlone(s: System, d: nat, found: Option<Uuid>, newId: Uuid): System
  {
    Step(Restored(s, d, found, newId), Persist(d))
  }

  ghost predicate Ready(s: System, d: nat)
  {
    d in s.devices && s.devices[d].stage.Idle? && ReadBookmarks(s.devices[d].file, s.account.profile).Ok?
  }

  ghost predicate CanSync(s: System, d: nat, found: Option<Uuid>, newId: Uuid)
  {
    Invariant(s) && Ready(s, d) && Discovers(s, found) && VersionsOf(s.store, newId) == []
  }

  /** The object a sync of d works on. */
  ghost function TargetOf(s: System, d: nat, found: Option<Uuid>, newId: Uuid): Uuid
    requires d in s.devices
  {
    if s.devices[d].mapping.Some? then s.devices[d].mapping.value.id
    else if found.Some? then found.value
    else newId
  }

  ghost predicate FileHolds(a: Account, file: RawBookmarks, snapshot: Snapshot)
  {
    ReadBookmarks(file, a.profile) == Ok(snapshot) || file == WriteBookmarks(snapshot)
  }

  lemma HeldFileMatches(a: Account, file: RawBookmarks, snapshot: Snapshot)
    requires Canonical(a, snapshot) && FileHolds(a, file, snapshot)
    ensures ReadBookmarks(file, a.profile).Ok?
    ensures SameTable(ReadBookmarks(file, a.profile).value, snapshot)
  {
    WriteThenRead(snapshot);
  }

  /** The device is done: mapped to the newest revision, which is its base and its file. */
  ghost predicate Current(s: System, d: nat)
  {
    && d in s.devices
    && var dev := s.devices[d];
       && dev.stage.Idle?
       && dev.mapping.Some?
       && Ours(s, dev.mapping.value.id)
       && dev.mapping.value.revision == RevisionOf(s.store, dev.mapping.value.id)
       && dev.base == Some(Head(s, dev.mapping.value.id))
       && FileHolds(s.account, dev.file, Head(s, dev.mapping.value.id))
  }

  /** The device has no edit of its own that the server has not seen. */
  ghost predicate Settled(s: System, d: nat)
  {
    && d in s.devices
    && var dev := s.devices[d];
       && dev.stage.Idle?
       && dev.mapping.Some? && dev.base.Some?
       && Ours(s, dev.mapping.value.id)
       && FileHolds(s.account, dev.file, dev.base.value)
       && dev.base.value.chromiumVersion <= Head(s, dev.mapping.value.id).chromiumVersion
  }

  /** The store a sync leaves: as it was, or with one more revision of the target. */
  ghost predicate OneMoreRevision(s: System, t: System, id: Uuid)
  {
    && Ours(t, id)
    && t.store == Append(s.store, id, BOOKMARK_NAMESPACE, Live(s.account.master, BookmarkPayload(Head(t, id))))
    && (Ours(s, id) ==> Head(s, id).chromiumVersion <= Head(t, id).chromiumVersion)
  }

  /** The sync's decision, from the states before it. */
  ghost function Merge(s: System, d: nat, id: Uuid): Snapshot
    requires Invariant(s) && Ready(s, d) && Ours(s, id)
    requires s.devices[d].mapping.Some? ==> s.devices[d].mapping.value.id == id
  {
    MergeIsCanonical(s, d, id);
    MergeBookmarks(s.devices[d].base, ReadBookmarks(s.devices[d].file, s.account.profile).value,
                   Head(s, id)).value.value
  }

  lemma MergeIsCanonical(s: System, d: nat, id: Uuid)
    requires Invariant(s) && Ready(s, d) && Ours(s, id)
    requires s.devices[d].mapping.Some? ==> s.devices[d].mapping.value.id == id
    ensures var local := ReadBookmarks(s.devices[d].file, s.account.profile).value;
            var m := MergeBookmarks(s.devices[d].base, local, Head(s, id));
            && Canonical(s.account, local)
            && Canonical(s.account, Head(s, id))
            && m.Ok? && Canonical(s.account, m.value.value)
            && Head(s, id).chromiumVersion <= m.value.value.chromiumVersion
    ensures s.devices[d].base.Some? ==> Canonical(s.account, s.devices[d].base.value)
  {
    hide Owned, Canonical, MergeEntries, ReadBookmarks;
    var dev := s.devices[d];
    DeviceIn(s, d);
    ReadIsCanonical(s.account, dev.file);
    OwnedHead(s, id);
    if dev.base.Some? {
      RevisionIsCanonical(s.account, s.store, dev.mapping.value, dev.base.value);
    }
    MergeCanonical(s.account, dev.base, ReadBookmarks(dev.file, s.account.profile).value, Head(s, id));
  }

  // ----- the course of a lone sync, stage by stage -----

  lemma BeginsWithFetch(s: System, d: nat, found: Option<Uuid>, newId: Uuid)
    requires CanSync(s, d, found, newId)
    ensures var t, dev, id := Begun(s, d, found, newId), s.devices[d], TargetOf(s, d, found, newId);
            var local := ReadBookmarks(dev.file, s.account.profile).value;
            && (!Ours(s, id) ==>
                  && id == newId
                  && t == WithStage(s, d, Publishing(local, newId, None, Started(local), false)))
            && (Ours(s, id) ==>
                  t == WithStage(s, d, Decide(dev.base, local, Head(s, id), Mapping(id, RevisionOf(s.store, id)))))
  {
    hide ReadBookmarks, Decide, DeviceOk, HistoryOk, Owned;
    if s.devices[d].mapping.Some? {
      MappedIsOurs(s, d);
    }
    var s1 := Step(s, BeginSync(d));
    assert s1.devices == s.devices[d := s1.devices[d]];
    assert s1.devices[d].(stage := Idle) == s.devices[d];
  }

  lemma MappedIsOurs(s: System, d: nat)
    requires Invariant(s) && d in s.devices && s.devices[d].mapping.Some?
    ensures Ours(s, s.devices[d].mapping.value.id)
  {
    DeviceIn(s, d);
    var vs := VersionsOf(s.store, s.devices[d].mapping.value.id);
    assert vs[|vs| - 1] in vs;
  }

  function Finished(dev: Device, snapshot: Snapshot, proof: Mapping, restore: bool): Device
  {
    Device(if restore then WriteBookmarks(snapshot) else dev.file, Some(proof), Some(snapshot), Idle)
  }

  lemma EndsFromRestoring(s: System, d: nat)
    requires d in s.devices && s.devices[d].stage.Restoring?
    ensures var st := s.devices[d].stage;
            Step(Step(Step(Step(s, Publish(d)), ReadBack(d)), Restore(d)), Persist(d))
              == s.(devices := s.devices[d := Finished(s.devices[d], st.snapshot, st.proof, st.restore)])
  {
    hide WriteBookmarks;
    assert Step(Step(s, Publish(d)), ReadBack(d)) == s;
    var s1 := Step(s, Restore(d));
    var st := s.devices[d].stage;
    assert s1.devices[d].stage == Persisting(st.snapshot, st.proof);
    assert Step(s1, Persist(d)).devices == s.devices[d := Finished(s.devices[d], st.snapshot, st.proof, st.restore)];
  }

  /** After the PUT was accepted, with nobody else writing, the read-back finds the payload. */
  lemma ReadBackFinds(s: System, d: nat)
    requires Invariant(s) && d in s.devices && s.devices[d].stage.Publishing?
    requires BaseMatches(s.store, s.devices[d].stage.id, s.devices[d].stage.base)
    ensures var st := s.devices[d].stage;
            var t := Step(Step(s, Publish(d)), ReadBack(d));
            && t.store == Append(s.store, st.id, BOOKMARK_NAMESPACE,
                                 Live(s.account.master, BookmarkPayload(st.snapshot)))
            && t.store == Step(s, Publish(d)).store
            && Ours(t, st.id) && Head(t, st.id) == st.snapshot
            && RevisionOf(t.store, st.id) == RevisionOf(s.store, st.id) + 1
            && t.account == s.account
            && t.devices == s.devices[d := s.devices[d].(
                 stage := Restoring(st.snapshot, Mapping(st.id, RevisionOf(t.store, st.id)), st.restore))]
  {
    hide MergesInto, WellFormed, ReadBookmarks, HistoryOk;
    DeviceIn(s, d);
    var st := s.devices[d].stage;
    VersionsAfterAppend(s.store, st.id, BOOKMARK_NAMESPACE, Live(s.account.master, BookmarkPayload(st.snapshot)),
                        st.id);
    var s1 := Step(s, Publish(d));
    assert Ours(s1, st.id) && Head(s1, st.id) == st.snapshot;
    assert s1.devices == s.devices[d := s.devices[d].(stage := ReadingBack(st.snapshot, st.id, st.restore))];
  }

  lemma EndsFromPublishing(s: System, d: nat)
    requires Invariant(s) && d in s.devices && s.devices[d].stage.Publishing?
    requires BaseMatches(s.store, s.devices[d].stage.id, s.devices[d].stage.base)
    ensures var st := s.devices[d].stage;
            var t := Step(Step(Step(Step(s, Publish(d)), ReadBack(d)), Restore(d)), Persist(d));
            && t.account == s.account
            && t.store == Append(s.store, st.id, BOOKMARK_NAMESPACE,
                                 Live(s.account.master, BookmarkPayload(st.snapshot)))
            && Ours(t, st.id) && Head(t, st.id) == st.snapshot
            && t.devices == s.devices[d := Finished(s.devices[d], st.snapshot,
                                                    Mapping(st.id, RevisionOf(t.store, st.id)), st.restore)]
  {
    hide Invariant, Append, WriteBookmarks;
    ReadBackFinds(s, d);
    var s2 := Step(Step(s, Publish(d)), ReadBack(d));
    EndsFromRestoring(s2, d);
    assert Step(Step(s2, Publish(d)), ReadBack(d)) == s2;
  }

  /** The whole effect of a lone sync that found an object. */
  lemma SyncOfExisting(s: System, d: nat, found: Option<Uuid>, newId: Uuid)
    requires CanSync(s, d, found, newId)
    requires Ours(s, TargetOf(s, d, found, newId))
    ensures var t, id := SyncAlone(s, d, found, newId), TargetOf(s, d, found, newId);
            var local, m := ReadBookmarks(s.devices[d].file, s.account.profile).value, Merge(s, d, id);
            && t.account == s.account
            && Ours(t, id) && Head(t, id) == m
            && (m == Head(s, id) ==> t.store == s.store)
            && (m != Head(s, id) ==>
                  t.store == Append(s.store, id, BOOKMARK_NAMESPACE, Live(s.account.master, BookmarkPayload(m))))
            && t.devices == s.devices[d := Finished(s.devices[d], m, Mapping(id, RevisionOf(t.store, id)), m != local)]
  {
    hide Append, WriteBookmarks, ReadBookmarks, MergeBookmarks, BaseMatches, Head, Ours;
    var id := TargetOf(s, d, found, newId);
    BeginsWithFetch(s, d, found, newId);
    MergeIsCanonical(s, d, id);
    var s1 := Begun(s, d, found, newId);
    BegunInvariant(s, d, found, newId);
    var m := Merge(s, d, id);
    if m != Head(s, id) {
      HeadMatchesBase(s, id);
      hide Invariant;
      EndsFromPublishing(s1, d);
      assert s1.store == s.store;
    } else {
      hide Invariant;
      EndsFromRestoring(s1, d);
      SameStoreSameHead(s, SyncAlone(s, d, found, newId), id);
    }
  }

  lemma SameStoreSameHead(s: System, t: System, id: Uuid)
    requires t.store == s.store && t.account == s.account && Ours(s, id)
    ensures Ours(t, id) && Head(t, id) == Head(s, id)
  {
  }

  lemma HeadMatchesBase(s: System, id: Uuid)
    requires Ours(s, id)
    ensures BaseMatches(s.store, id, Some(RevisionOf(s.store, id)))
  {
  }

  lemma BegunInvariant(s: System, d: nat, found: Option<Uuid>, newId: Uuid)
    requires Invariant(s)
    ensures Invariant(Begun(s, d, found, newId))
    ensures Invariant(Published(s, d, found, newId))
    ensures Invariant(SyncAlone(s, d, found, newId))
  {
    hide Invariant, Step;
    StepOk(s, BeginSync(d));
    StepOk(Step(s, BeginSync(d)), Fetch(d, found, newId));
    StepOk(Begun(s, d, found, newId), Publish(d));
    StepOk(Published(s, d, found, newId), ReadBack(d));
    StepOk(Verified(s, d, found, newId), Restore(d));
    StepOk(Restored(s, d, found, newId), Persist(d));
  }

  /** The whole effect of the account's first sync. */
  lemma SyncOfNew(s: System, d: nat, found: Option<Uuid>, newId: Uuid)
    requires CanSync(s, d, found, newId)
    requires !Ours(s, TargetOf(s, d, found, newId))
    ensures TargetOf(s, d, found, newId) == newId
    ensures var t, local := SyncAlone(s, d, found, newId), ReadBookmarks(s.devices[d].file, s.account.profile).value;
            && t.account == s.account
            && Ours(t, newId) && Head(t, newId) == local
            && t.store == Append(s.store, newId, BOOKMARK_NAMESPACE, Live(s.account.master, BookmarkPayload(local)))
            && t.devices == s.devices[d := Finished(s.devices[d], local, Mapping(newId, RevisionOf(t.store, newId)),
                                                    false)]
  {
    hide Append, WriteBookmarks, ReadBookmarks, MergeBookmarks, Head;
    BeginsWithFetch(s, d, found, newId);
    BegunInvariant(s, d, found, newId);
    EndsFromPublishing(Begun(s, d, found, newId), d);
  }

  /** However it goes, afterwards the device is current and all the others are as they were. */
  lemma SyncMakesCurrent(s: System, d: nat, found: Option<Uuid>, newId: Uuid)
    requires CanSync(s, d, found, newId)
    ensures var t, id := SyncAlone(s, d, found, newId), TargetOf(s, d, found, newId);
            && Invariant(t)
            && t.account == s.account
            && Current(t, d)
            && t.devices[d].mapping.value.id == id
            && t.devices == s.devices[d := t.devices[d]]
            && (t.store == s.store || OneMoreRevision(s, t, id))
  {
    hide Append, WriteBookmarks, MergeBookmarks, ReadBookmarks;
    var t, id := SyncAlone(s, d, found, newId), TargetOf(s, d, found, newId);
    BegunInvariant(s, d, found, newId);
    hide Invariant;
    if Ours(s, id) {
      SyncOfExisting(s, d, found, newId);
      MergeIsCanonical(s, d, id);
    } else {
      SyncOfNew(s, d, found, newId);
    }
  }

  // ----- retries -----

  /**
   A sync that finds its own merge already published, because an earlier attempt stopped after
   the PUT, writes nothing to the server.
   */
  lemma RetryPublishesNothing(s: System, d: nat, found: Option<Uuid>, newId: Uuid, previous: Snapshot)
    requires CanSync(s, d, found, newId)
    requires var id := TargetOf(s, d, found, newId);
             && Ours(s, id)
             && SnapshotAt(s.store, id, RevisionOf(s.store, id) - 1) == Some(previous)
             && MergesInto(s.devices[d].base, ReadBookmarks(s.devices[d].file, s.account.profile).value, previous,
                           Head(s, id))
    ensures SyncAlone(s, d, found, newId).store == s.store
  {
    var id := TargetOf(s, d, found, newId);
    OwnedHead(s, id);
    var vs := VersionsOf(s.store, id);
    assert vs[|vs| - 2] in vs;
    Absorption(s.devices[d].base, ReadBookmarks(s.devices[d].file, s.account.profile).value, previous);
    hide ReadBookmarks, MergeBookmarks, Append, Invariant;
    SyncOfExisting(s, d, found, newId);
  }

  /** The same when the earlier attempt got as far as replacing the local file. */
  lemma RestoredRetryPublishesNothing(s: System, d: nat, found: Option<Uuid>, newId: Uuid)
    requires CanSync(s, d, found, newId)
    requires Ours(s, TargetOf(s, d, found, newId))
    requires FileHolds(s.account, s.devices[d].file, Head(s, TargetOf(s, d, found, newId)))
    ensures SyncAlone(s, d, found, newId).store == s.store
  {
    var id := TargetOf(s, d, found, newId);
    hide ReadBookmarks, MergeBookmarks, Append, SameTable, Canonical, WriteBookmarks;
    MergeIsCanonical(s, d, id);
    HeldFileMatches(s.account, s.devices[d].file, Head(s, id));
    MatchingRemoteYields(s.account, s.devices[d].base, ReadBookmarks(s.devices[d].file, s.account.profile).value,
                         Head(s, id));
    SyncOfExisting(s, d, found, newId);
  }

  /** Device d stopping after the PUT, after the read-back, or after replacing its file. */
  ghost predicate StoppedAfterPublishing(s: System, d: nat, found: Option<Uuid>, newId: Uuid, u: System)
  {
    || u == Step(Published(s, d, found, newId), Abort(d))
    || u == Step(Verified(s, d, found, newId), Abort(d))
    || u == Step(Restored(s, d, found, newId), Abort(d))
  }

  /** From the PUT on, only the file of d still changes, and only at the very end. */
  lemma StagesAfterPublish(s: System, d: nat)
    requires Invariant(s) && d in s.devices
    requires s.devices[d].stage.Restoring?
          || (s.devices[d].stage.Publishing? && BaseMatches(s.store, s.devices[d].stage.id, s.devices[d].stage.base))
    ensures var t1 := Step(s, Publish(d));
            var t2 := Step(t1, ReadBack(d));
            var t3 := Step(t2, Restore(d));
            var t4 := Step(t3, Persist(d));
            && t1.account == t2.account == t3.account == s.account
            && t1.store == t2.store == t3.store == t4.store
            && d in t1.devices && d in t2.devices && d in t3.devices && d in t4.devices
            && SameState(t1.devices[d], s.devices[d]) && SameState(t2.devices[d], s.devices[d])
            && t3.devices[d].mapping == s.devices[d].mapping && t3.devices[d].base == s.devices[d].base
            && t3.devices[d].file == t4.devices[d].file
  {
    hide ReadBookmarks, WriteBookmarks, Head, Append, DeviceOk, HistoryOk, Owned, Foreign;
    var t2 := Step(Step(s, Publish(d)), ReadBack(d));
    if s.devices[d].stage.Publishing? {
      ReadBackFinds(s, d);
    }
    var t3 := Step(t2, Restore(d));
    assert t3.devices[d].stage.Persisting?;
  }

  lemma BegunStage(s: System, d: nat, found: Option<Uuid>, newId: Uuid)
    requires CanSync(s, d, found, newId)
    ensures var t := Begun(s, d, found, newId);
            && t.account == s.account && t.store == s.store && d in t.devices
            && SameState(t.devices[d], s.devices[d])
            && (|| t.devices[d].stage.Restoring?
                || (t.devices[d].stage.Publishing?
                    && BaseMatches(t.store, t.devices[d].stage.id, t.devices[d].stage.base)))
  {
    hide ReadBookmarks, MergeBookmarks, Head, DeviceOk, HistoryOk, Owned, Foreign, Canonical;
    var id := TargetOf(s, d, found, newId);
    BeginsWithFetch(s, d, found, newId);
    if Ours(s, id) {
      if s.devices[d].mapping.Some? { MappedIsOurs(s, d); }
      MergeIsCanonical(s, d, id);
      HeadMatchesBase(s, id);
    }
  }

  lemma StoppedState(s: System, d: nat, found: Option<Uuid>, newId: Uuid, u: System)
    requires CanSync(s, d, found, newId)
    requires StoppedAfterPublishing(s, d, found, newId, u)
    ensures var t := SyncAlone(s, d, found, newId);
            && u.account == s.account && u.store == t.store && d in u.devices && d in t.devices
            && u.devices[d].mapping == s.devices[d].mapping && u.devices[d].base == s.devices[d].base
            && (u.devices[d].file == s.devices[d].file || u.devices[d].file == t.devices[d].file)
  {
    hide Invariant, BaseMatches, CanSync, Step, Begun;
    AssertInvariant(s, d, found, newId);
    BegunStage(s, d, found, newId);
    BegunInvariant(s, d, found, newId);
    StoppedFrom(Begun(s, d, found, newId), d, u);
  }

  lemma StoppedFrom(s: System, d: nat, u: System)
    requires Invariant(s) && d in s.devices
    requires s.devices[d].stage.Restoring?
          || (s.devices[d].stage.Publishing? && BaseMatches(s.store, s.devices[d].stage.id, s.devices[d].stage.base))
    requires || u == Step(Step(s, Publish(d)), Abort(d))
             || u == Step(Step(Step(s, Publish(d)), ReadBack(d)), Abort(d))
             || u == Step(Step(Step(Step(s, Publish(d)), ReadBack(d)), Restore(d)), Abort(d))
    ensures var t := Step(Step(Step(Step(s, Publish(d)), ReadBack(d)), Restore(d)), Persist(d));
            && u.account == s.account && u.store == t.store && d in u.devices && d in t.devices
            && u.devices[d].mapping == s.devices[d].mapping && u.devices[d].base == s.devices[d].base
            && (u.devices[d].file == s.devices[d].file || u.devices[d].file == t.devices[d].file)
  {
    hide Invariant, BaseMatches, Step;
    StagesAfterPublish(s, d);
    var t1 := Step(s, Publish(d));
    var t2 := Step(t1, ReadBack(d));
    var t3 := Step(t2, Restore(d));
    if u == Step(t1, Abort(d)) {
      StopsIdle(t1, d, u);
    } else if u == Step(t2, Abort(d)) {
      StopsIdle(t2, d, u);
    } else {
      StopsIdle(t3, d, u);
    }
  }

  lemma StopsIdle(s: System, d: nat, u: System)
    requires d in s.devices && u == Step(s, Abort(d))
    ensures u.account == s.account && u.store == s.store && d in u.devices
    ensures SameState(u.devices[d], s.devices[d])
  {
  }

  predicate SameState(x: Device, y: Device)
  {
    x.mapping == y.mapping && x.base == y.base && x.file == y.file
  }

  lemma StoppedInvariant(s: System, d: nat, found: Option<Uuid>, newId: Uuid, u: System)
    requires Invariant(s)
    requires StoppedAfterPublishing(s, d, found, newId, u)
    ensures Invariant(u)
  {
    hide Invariant, Step;
    BegunInvariant(s, d, found, newId);
    StepOk(Published(s, d, found, newId), ReadBack(d));
    StepOk(Verified(s, d, found, newId), Restore(d));
    StepOk(Published(s, d, found, newId), Abort(d));
    StepOk(Verified(s, d, found, newId), Abort(d));
    StepOk(Restored(s, d, found, newId), Abort(d));
  }

  /**
   Wherever a lone sync stops after its PUT, the next attempt on the same object uploads nothing
   new. Discovery may answer afresh; a mapped device goes back to its object anyway.
   */
  lemma RetryAfterCrash(s: System, d: nat, found: Option<Uuid>, newId: Uuid,
                        u: System, found': Option<Uuid>, newId': Uuid)
    requires CanSync(s, d, found, newId)
    requires StoppedAfterPublishing(s, d, found, newId, u)
    requires CanSync(u, d, found', newId')
    requires TargetOf(u, d, found', newId') == TargetOf(s, d, found, newId)
    ensures SyncAlone(u, d, found', newId').store == u.store
  {
    hide ReadBookmarks, WriteBookmarks, MergeBookmarks, Append, SyncAlone, Step, Invariant, Head, Ours, OneMoreRevision,
         MergesInto, SnapshotAt;
    var t, id := SyncAlone(s, d, found, newId), TargetOf(s, d, found, newId);
    StoppedState(s, d, found, newId, u);
    TargetAfterSync(s, d, found, newId);
    SameStoreSameHead(t, u, id);
    if FileHolds(u.account, u.devices[d].file, Head(u, id)) {
      RestoredRetryPublishesNothing(u, d, found', newId');
    } else if t.store == s.store {
      SameStoreSameHead(s, t, id);
      RetryAfterNothing(s, d, found, newId, u, found', newId');
    } else {
      PreviousRevision(s, t, id);
      SyncedFrom(s, d, found, newId);
      RetryPublishesNothing(u, d, found', newId', Head(s, id));
    }
  }

  lemma TargetAfterSync(s: System, d: nat, found: Option<Uuid>, newId: Uuid)
    requires CanSync(s, d, found, newId)
    ensures var t, id := SyncAlone(s, d, found, newId), TargetOf(s, d, found, newId);
            && t.account == s.account && d in t.devices
            && Ours(t, id) && FileHolds(s.account, t.devices[d].file, Head(t, id))
            && (t.store == s.store || OneMoreRevision(s, t, id))
            && (!Ours(s, id) ==> FileHolds(s.account, s.devices[d].file, Head(t, id)))
  {
    hide ReadBookmarks, WriteBookmarks, Append, SyncAlone, Invariant, Head, Ours, OneMoreRevision;
    SyncMakesCurrent(s, d, found, newId);
    if !Ours(s, TargetOf(s, d, found, newId)) {
      SyncOfNew(s, d, found, newId);
    }
  }

  lemma SyncedFrom(s: System, d: nat, found: Option<Uuid>, newId: Uuid)
    requires CanSync(s, d, found, newId)
    requires Ours(s, TargetOf(s, d, found, newId))
    ensures var t, id := SyncAlone(s, d, found, newId), TargetOf(s, d, found, newId);
            && Ours(t, id)
            && MergesInto(s.devices[d].base, ReadBookmarks(s.devices[d].file, s.account.profile).value, Head(s, id),
                          Head(t, id))
  {
    hide ReadBookmarks, WriteBookmarks, MergeBookmarks, Append, SyncAlone;
    SyncOfExisting(s, d, found, newId);
    MergeIsCanonical(s, d, TargetOf(s, d, found, newId));
  }

  /** Nothing was uploaded the first time, so the same inputs upload nothing again. */
  lemma RetryAfterNothing(s: System, d: nat, found: Option<Uuid>, newId: Uuid,
                          u: System, found': Option<Uuid>, newId': Uuid)
    requires CanSync(s, d, found, newId) && CanSync(u, d, found', newId')
    requires var id := TargetOf(s, d, found, newId);
             TargetOf(u, d, found', newId') == id && Ours(s, id) && Ours(u, id) && Head(u, id) == Head(s, id)
    requires u.account == s.account
    requires u.devices[d].base == s.devices[d].base && u.devices[d].file == s.devices[d].file
    requires SyncAlone(s, d, found, newId).store == s.store
    ensures SyncAlone(u, d, found', newId').store == u.store
  {
    hide ReadBookmarks, WriteBookmarks, MergeBookmarks, Append, SyncAlone, Invariant, Head, Ours;
    SyncOfExisting(s, d, found, newId);
    SyncOfExisting(u, d, found', newId');
    SameStoreSameHead(s, SyncAlone(s, d, found, newId), TargetOf(s, d, found, newId));
  }

  lemma PreviousRevision(s: System, t: System, id: Uuid)
    requires Ours(s, id) && OneMoreRevision(s, t, id)
    ensures SnapshotAt(t.store, id, RevisionOf(t.store, id) - 1) == Some(Head(s, id))
    ensures RevisionOf(t.store, id) == RevisionOf(s.store, id) + 1
  {
  }

  // ----- rounds -----

  lemma CurrentIsSettled(s: System, d: nat)
    requires Current(s, d)
    ensures Settled(s, d)
  {
  }

  /** A device without edits of its own takes the server's state and adds nothing to it. */
  lemma SettledSyncsQuietly(s: System, d: nat, found: Option<Uuid>, newId: Uuid)
    requires CanSync(s, d, found, newId)
    requires Settled(s, d)
    ensures SyncAlone(s, d, found, newId).store == s.store
  {
    var id := s.devices[d].mapping.value.id;
    var local := ReadBookmarks(s.devices[d].file, s.account.profile).value;
    hide ReadBookmarks, MergeBookmarks, Append, SameTable, Canonical, WriteBookmarks, Invariant;
    MergeIsCanonical(s, d, id);
    HeldFileMatches(s.account, s.devices[d].file, s.devices[d].base.value);
    UnchangedLocalYields(s.account, s.devices[d].base.value, local, Head(s, id));
    SyncOfExisting(s, d, found, newId);
  }

  /** Other devices' syncs leave a settled device settled. */
  lemma SettledStays(s: System, e: nat, found: Option<Uuid>, newId: Uuid, d: nat)
    requires CanSync(s, e, found, newId)
    requires Settled(s, d)
    ensures Settled(SyncAlone(s, e, found, newId), d)
  {
    hide Invariant, ReadBookmarks, WriteBookmarks;
    SyncMakesCurrent(s, e, found, newId);
    var t := SyncAlone(s, e, found, newId);
    if d == e {
      CurrentIsSettled(t, d);
    } else {
      assert t.devices[d] == s.devices[d];
      OthersHeadStays(s, t, TargetOf(s, e, found, newId), s.devices[d].mapping.value.id);
    }
  }

  lemma OthersHeadStays(s: System, t: System, id: Uuid, other: Uuid)
    requires t.account == s.account && (t.store == s.store || OneMoreRevision(s, t, id))
    requires Ours(s, other)
    ensures Ours(t, other)
    ensures Head(s, other).chromiumVersion <= Head(t, other).chromiumVersion
    ensures other != id ==> Head(t, other) == Head(s, other)
  {
  }

  ghost predicate SyncsAlone(s: System, d: nat, t: System)
  {
    exists found, newId :: CanSync(s, d, found, newId) && t == SyncAlone(s, d, found, newId)
  }

  /** The devices of `order` sync one after another, nobody interfering. */
  ghost predicate Syncs(states: seq<System>, order: seq<nat>)
  {
    && |states| == |order| + 1
    && forall i :: 0 <= i < |order| ==> SyncsAlone(states[i], order[i], states[i + 1])
  }

  /** After a device's turn it is settled, and stays so. */
  lemma {:induction false} TurnSettles(states: seq<System>, order: seq<nat>, i: nat, d: nat)
    requires Syncs(states, order) && i <= |order| && d in order[..i]
    ensures Settled(states[i], d)
  {
    hide Settled, Current, CanSync, SyncAlone;
    var j := i - 1;
    assert SyncsAlone(states[j], order[j], states[j + 1]);
    var found, newId :| CanSync(states[j], order[j], found, newId)
      && states[i] == SyncAlone(states[j], order[j], found, newId);
    if order[j] == d {
      assert Current(states[i], d) by { MakesCurrent(states[j], d, found, newId); }
      CurrentIsSettled(states[i], d);
    } else {
      assert order[..i] == order[..j] + [order[j]];
      TurnSettles(states, order, j, d);
      SettledStays(states[j], order[j], found, newId, d);
    }
  }

  lemma MakesCurrent(s: System, d: nat, found: Option<Uuid>, newId: Uuid)
    requires CanSync(s, d, found, newId)
    ensures Current(SyncAlone(s, d, found, newId), d)
  {
    hide Invariant, Current;
    SyncMakesCurrent(s, d, found, newId);
  }

  /** In the second round nothing is uploaded, and each device ends on the newest revision. */
  lemma {:induction false} SecondRound(states: seq<System>, order: seq<nat>, n: nat, i: nat, d: nat)
    requires Syncs(states, order) && n <= i <= |order|
    requires forall e :: e in order[n..] ==> e in order[..n]
    ensures states[i].store == states[n].store
    ensures states[i].account == states[n].account
    ensures d in order[n..i] ==> Current(states[i], d)
    decreases i
  {
    hide Settled, CanSync, Current, SyncAlone;
    if i > n {
      var j := i - 1;
      SecondRound(states, order, n, j, d);
      assert SyncsAlone(states[j], order[j], states[j + 1]);
      var found, newId :| CanSync(states[j], order[j], found, newId)
        && states[i] == SyncAlone(states[j], order[j], found, newId);
      assert order[j] in order[n..];
      assert order[..j] == order[..n] + order[n..j];
      TurnSettles(states, order, j, order[j]);
      SettledSyncsQuietly(states[j], order[j], found, newId);
      SyncMakesCurrentQuietly(states[j], order[j], found, newId);
      if d in order[n..i] && d != order[j] {
        assert order[n..i] == order[n..j] + [order[j]];
        CurrentIn(states[j], d);
        UntouchedStaysCurrent(states[j], states[i], d);
      }
    }
  }

  lemma SyncMakesCurrentQuietly(s: System, d: nat, found: Option<Uuid>, newId: Uuid)
    requires CanSync(s, d, found, newId)
    ensures var t := SyncAlone(s, d, found, newId);
            t.account == s.account && Current(t, d) && t.devices == s.devices[d := t.devices[d]]
  {
    hide Invariant, Current;
    SyncMakesCurrent(s, d, found, newId);
  }

  lemma CurrentIn(s: System, d: nat)
    requires Current(s, d)
    ensures d in s.devices
  {
  }

  lemma UntouchedStaysCurrent(s: System, t: System, d: nat)
    requires Current(s, d)
    requires t.store == s.store && t.account == s.account
    requires d in t.devices && t.devices[d] == s.devices[d]
    ensures Current(t, d)
  {
    hide ReadBookmarks, WriteBookmarks;
  }

  /**
   Convergence. From any state, let every device take two turns, in any order within a round and
   with no edits or failures. Then the second round uploads nothing, and every device's mapping,
   stored base and bookmark file are at the newest revision of its object, so devices that share
   an object agree with each other and with the server.
   */
  lemma Convergence(states: seq<System>, round1: seq<nat>, round2: seq<nat>, d: nat)
    requires Syncs(states, round1 + round2)
    requires forall e :: e in round2 ==> e in round1
    requires d in round2
    ensures var end := states[|round1| + |round2|];
            && end.store == states[|round1|].store
            && Current(end, d)
  {
    hide Current, SyncsAlone;
    var order := round1 + round2;
    assert order[|round1|..] == round2 && order[..|round1|] == round1;
    assert order[|round1|..|order|] == round2;
    SecondRound(states, order, |round1|, |order|, d);
  }

  /** What a current device shows: newest revision, base and file, all the same snapshot. */
  lemma CurrentShowsHead(s: System, d: nat)
    requires Invariant(s) && Current(s, d)
    ensures var dev, id := s.devices[d], s.devices[d].mapping.value.id;
            && dev.mapping == Some(Mapping(id, RevisionOf(s.store, id)))
            && dev.base == Some(Head(s, id))
            && ReadBookmarks(dev.file, s.account.profile).Ok?
            && SameTable(ReadBookmarks(dev.file, s.account.profile).value, Head(s, id))
  {
    OwnedHead(s, s.devices[d].mapping.value.id);
    hide ReadBookmarks, WriteBookmarks, Invariant, Canonical;
    HeldFileMatches(s.account, s.devices[d].file, Head(s, s.devices[d].mapping.value.id));
  }

  /** Two current devices on one object hold the same snapshot everywhere. */
  lemma CurrentDevicesAgree(s: System, d: nat, e: nat)
    requires Invariant(s) && Current(s, d) && Current(s, e)
    requires s.devices[d].mapping.value.id == s.devices[e].mapping.value.id
    ensures s.devices[d].mapping == s.devices[e].mapping
    ensures s.devices[d].base == s.devices[e].base == Some(Head(s, s.devices[d].mapping.value.id))
    ensures ReadBookmarks(s.devices[d].file, s.account.profile).Ok?
    ensures ReadBookmarks(s.devices[e].file, s.account.profile).Ok?
    ensures SameTable(ReadBookmarks(s.devices[d].file, s.account.profile).value,
                      ReadBookmarks(s.devices[e].file, s.account.profile).value)
  {
    hide Invariant, ReadBookmarks;
    CurrentShowsHead(s, d);
    CurrentShowsHead(s, e);
  }

  // ----- which object -----

  /** A sync never moves a device from the object it is mapped to. */
  lemma MappingStays(s: System, d: nat, found: Option<Uuid>, newId: Uuid, e: nat)
    requires CanSync(s, d, found, newId)
    requires e in s.devices && s.devices[e].mapping.Some?
    ensures var t := SyncAlone(s, d, found, newId);
            e in t.devices && t.devices[e].mapping.Some?
              && t.devices[e].mapping.value.id == s.devices[e].mapping.value.id
  {
    hide Invariant, ReadBookmarks, WriteBookmarks;
    SyncMakesCurrent(s, d, found, newId);
  }

  ghost predicate OnlyObject(s: System, id: Uuid)
  {
    forall other: Uuid :: Ours(s, other) ==> other == id
  }

  /**
   Where the account has at most one bookmark object to begin with, everyone ends up on it: the
   two-round result is then one snapshot for all.
   */
  lemma {:induction false} OneObjectThroughout(states: seq<System>, order: seq<nat>, i: nat) returns (id: Uuid)
    requires Syncs(states, order) && i <= |order|
    requires exists id :: OnlyObject(states[0], id)
    ensures OnlyObject(states[i], id)
    ensures i > 0 ==> Ours(states[i], id)
    ensures forall d :: d in order[..i] ==>
              d in states[i].devices && states[i].devices[d].mapping.Some?
                && states[i].devices[d].mapping.value.id == id
  {
    hide CanSync, Current, Ours;
    if i == 0 {
      id :| OnlyObject(states[0], id);
    } else {
      var j := i - 1;
      var before := OneObjectThroughout(states, order, j);
      assert SyncsAlone(states[j], order[j], states[i]);
      var found, newId :| CanSync(states[j], order[j], found, newId)
        && states[i] == SyncAlone(states[j], order[j], found, newId);
      id := OneObjectStep(states[j], order[j], found, newId, before);
      forall d | d in order[..i]
        ensures d in states[i].devices && states[i].devices[d].mapping.Some?
                && states[i].devices[d].mapping.value.id == id {
        assert order[..i] == order[..j] + [order[j]];
        if d != order[j] {
          assert d in states[j].devices && states[j].devices[d].mapping.Some?;
          MappingStays(states[j], order[j], found, newId, d);
          MappedIsOurs(states[j], d) by { AssertInvariant(states[j], order[j], found, newId); }
          assert states[j].devices[d].mapping.value.id == id;
        }
      }
    }
  }

  lemma AssertInvariant(s: System, d: nat, found: Option<Uuid>, newId: Uuid)
    requires CanSync(s, d, found, newId)
    ensures Invariant(s) && d in s.devices
  {
  }

  lemma OneObjectStep(s: System, d: nat, found: Option<Uuid>, newId: Uuid, before: Uuid) returns (id: Uuid)
    requires CanSync(s, d, found, newId)
    requires OnlyObject(s, before)
    ensures var t := SyncAlone(s, d, found, newId);
            && OnlyObject(t, id) && Ours(t, id)
            && d in t.devices && t.devices[d].mapping.Some? && t.devices[d].mapping.value.id == id
    ensures forall other: Uuid :: Ours(s, other) ==> other == id
  {
    var t := SyncAlone(s, d, found, newId);
    id := TargetOf(s, d, found, newId);
    if s.devices[d].mapping.Some? {
      MappedIsOurs(s, d);
    }
    hide Invariant, ReadBookmarks, WriteBookmarks;
    SyncMakesCurrent(s, d, found, newId);
    forall other: Uuid | Ours(t, other) ensures other == id {
      if other != id {
        NotOursBefore(s, t, id, other);
      }
    }
  }

  lemma NotOursBefore(s: System, t: System, id: Uuid, other: Uuid)
    requires t.account == s.account && (t.store == s.store || OneMoreRevision(s, t, id))
    requires other != id && Ours(t, other)
    ensures Ours(s, other)
  {
  }

  /** Both devices look for an object before either has created one. */
  ghost function BothBegun(s: System, d: nat, e: nat, id: Uuid, id': Uuid): System
  {
    Begun(Begun(s, d, None, id), e, None, id')
  }

  ghost function Concluded(s: System, d: nat): System
  {
    Step(Step(Step(Step(s, Publish(d)), ReadBack(d)), Restore(d)), Persist(d))
  }

  /**
   Convergence needs the single object. From an empty server, two devices whose first syncs
   overlap both create one; both end current, each on its own, and SteadyState keeps them there.
   */
  lemma OverlappingFirstSyncsSplit(s: System, d: nat, e: nat, id: Uuid, id': Uuid)
    requires Initial(s) && d != e && id != id'
    requires Ready(s, d) && Ready(s, e)
    ensures var t := Concluded(Concluded(BothBegun(s, d, e, id, id'), d), e);
            && Current(t, d) && Current(t, e)
            && t.devices[d].mapping.value.id == id && t.devices[e].mapping.value.id == id'
            && Ok(Head(t, id)) == ReadBookmarks(s.devices[d].file, s.account.profile)
            && Ok(Head(t, id')) == ReadBookmarks(s.devices[e].file, s.account.profile)
  {
    hide ReadBookmarks, WriteBookmarks, MergeBookmarks, DeviceOk, HistoryOk, Canonical;
    InitialOk(s);
    assert forall other: Uuid :: VersionsOf(s.store, other) == [];
    BeginsWithFetch(s, d, None, id);
    BegunInvariant(s, d, None, id);
    var s1 := Begun(s, d, None, id);
    BeginsWithFetch(s1, e, None, id');
    BegunInvariant(s1, e, None, id');
    var s2 := Begun(s1, e, None, id');
    SplitFrom(s2, d, e);
  }

  lemma SplitFrom(s: System, d: nat, e: nat)
    requires Invariant(s) && d != e && d in s.devices && e in s.devices
    requires s.devices[d].stage.Publishing? && s.devices[e].stage.Publishing?
    requires var x, y := s.devices[d].stage, s.devices[e].stage;
             && x.base.None? && y.base.None? && !x.restore && !y.restore && x.id != y.id
             && VersionsOf(s.store, x.id) == [] && VersionsOf(s.store, y.id) == []
             && ReadBookmarks(s.devices[d].file, s.account.profile) == Ok(x.snapshot)
             && ReadBookmarks(s.devices[e].file, s.account.profile) == Ok(y.snapshot)
    ensures var x, y := s.devices[d].stage, s.devices[e].stage;
            var t := Concluded(Concluded(s, d), e);
            && Current(t, d) && Current(t, e)
            && t.devices[d].mapping.value.id == x.id && t.devices[e].mapping.value.id == y.id
            && Ours(t, x.id) && Head(t, x.id) == x.snapshot
            && Ours(t, y.id) && Head(t, y.id) == y.snapshot
  {
    hide ReadBookmarks, WriteBookmarks, DeviceOk, HistoryOk, Step;
    var x, y := s.devices[d].stage, s.devices[e].stage;
    EndsFromPublishing(s, d);
    var s1 := Concluded(s, d);
    assert Invariant(s1) by {
      StepOk(s, Publish(d));
      StepOk(Step(s, Publish(d)), ReadBack(d));
      StepOk(Step(Step(s, Publish(d)), ReadBack(d)), Restore(d));
      StepOk(Step(Step(Step(s, Publish(d)), ReadBack(d)), Restore(d)), Persist(d));
    }
    EndsFromPublishing(s1, e);
  }

  // ----- steady states -----

  /** Once current, a further sync changes nothing at all, however often it runs. */
  lemma SteadyState(s: System, d: nat, found: Option<Uuid>, newId: Uuid)
    requires CanSync(s, d, found, newId)
    requires Current(s, d)
    ensures SyncAlone(s, d, found, newId).store == s.store
    ensures SyncAlone(s, d, found, newId).devices == s.devices
  {
    var id := s.devices[d].mapping.value.id;
    hide ReadBookmarks, WriteBookmarks, MergeBookmarks, Append, Invariant;
    CurrentIsSettled(s, d);
    SettledSyncsQuietly(s, d, found, newId);
    SyncOfExisting(s, d, found, newId);
    SameStoreSameHead(s, SyncAlone(s, d, found, newId), id);
  }

  /**
   Yet it may still replace the local file, and back it up, on every turn: exactly when the
   newest revision lists its roots out of key order, which reading the file back never does.
   */
  lemma RewritesForever(s: System, d: nat, found: Option<Uuid>, newId: Uuid)
    requires CanSync(s, d, found, newId)
    requires Current(s, d)
    ensures var head, stage := Head(s, s.devices[d].mapping.value.id), Begun(s, d, found, newId).devices[d].stage;
            && stage.Restoring?
            && (stage.restore <==> !Sorted(Keys(head.roots)))
  {
    var id := s.devices[d].mapping.value.id;
    var local, head := ReadBookmarks(s.devices[d].file, s.account.profile).value, Head(s, id);
    MergeIsCanonical(s, d, id);
    HeldFileMatches(s.account, s.devices[d].file, head);
    MatchingRemoteYields(s.account, s.devices[d].base, local, head);
    RoundTripExactly(head);
    ReadIsSorted(s.devices[d].file, s.account.profile);
    hide ReadBookmarks, MergeBookmarks, Invariant, WriteBookmarks;
    BeginsWithFetch(s, d, found, newId);
  }
}
