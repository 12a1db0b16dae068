/**
 The explicit commands beside sync: replacing the server's copy by the local file, and the local
 file by the server's copy. And what any step leaves alone, or does when it is refused.
 */
module BookmarkRecovery {
  import opened Wrappers
  import opened Bytes
  import opened Crypto
  import opened Bookmarks
  import opened BookmarkMerge
  import opened BookmarkFile
  import opened VersionedObjects
  import opened Payloads
  import opened BookmarkSync
  import opened BookmarkSyncLaws
  import opened BookmarkConvergence

  // ----- loading -----

  ghost function LoadAlone(s: System, d: nat): System
  {
    Step(Step(Step(Step(s, BeginLoad(d)), FetchLoad(d)), Restore(d)), Persist(d))
  }

  /**
   An explicit load, undisturbed: the file is replaced by the newest revision of the mapped object,
   whatever it held, and that revision becomes mapping and base. The server and the other devices
   are as they were, and the device is current.
   */
  lemma UndisturbedLoad(s: System, d: nat)
    requires Invariant(s) && d in s.devices && s.devices[d].stage.Idle? && s.devices[d].mapping.Some?
    ensures var t, id := LoadAlone(s, d), s.devices[d].mapping.value.id;
            && Ours(s, id)
            && t.account == s.account && t.store == s.store && t.origins == s.origins
            && t.devices == s.devices[d := Device(WriteBookmarks(Head(s, id)),
                                                  Some(Mapping(id, RevisionOf(s.store, id))),
                                                  Some(Head(s, id)), Idle)]
            && ReadBookmarks(t.devices[d].file, s.account.profile).Ok?
            && SameTable(ReadBookmarks(t.devices[d].file, s.account.profile).value, Head(s, id))
            && Current(t, d)
  {
    var id := s.devices[d].mapping.value.id;
    MappedIsOurs(s, d);
    OwnedHead(s, id);
    hide Invariant, Canonical, ReadBookmarks, WriteBookmarks, SameTable;
    HeldFileMatches(s.account, WriteBookmarks(Head(s, id)), Head(s, id));
    LoadSteps(s, d);
    SameStoreSameHead(s, LoadAlone(s, d), id);
  }

  lemma LoadSteps(s: System, d: nat)
    requires d in s.devices && s.devices[d].stage.Idle? && s.devices[d].mapping.Some?
    requires Ours(s, s.devices[d].mapping.value.id)
    ensures var t, id := LoadAlone(s, d), s.devices[d].mapping.value.id;
            && t.account == s.account && t.store == s.store && t.origins == s.origins
            && t.devices == s.devices[d := Device(WriteBookmarks(Head(s, id)),
                                                  Some(Mapping(id, RevisionOf(s.store, id))),
                                                  Some(Head(s, id)), Idle)]
  {
    hide WriteBookmarks, OursVersion;
    var id := s.devices[d].mapping.value.id;
    var s1 := Step(s, BeginLoad(d));
    var s2 := Step(s1, FetchLoad(d));
    assert s2.devices == s.devices[d := s.devices[d].(stage := Restoring(Head(s, id),
                                                                         Mapping(id, RevisionOf(s.store, id)), true))];
    var s3 := Step(s2, Restore(d));
    assert s3.devices[d].stage == Persisting(Head(s, id), Mapping(id, RevisionOf(s.store, id)));
  }

  // ----- saving -----

  ghost function SaveAlone(s: System, d: nat, newId: Uuid): System
  {
    Step(Step(Step(Step(Step(s, BeginSave(d, newId)), Publish(d)), ReadBack(d)), Restore(d)), Persist(d))
  }

  /**
   An explicit save, undisturbed, over a mapping that is current or over none: exactly what the file
   holds is appended, with nothing merged into it, and becomes mapping and base. The file and the
   other devices are as they were.
   */
  lemma UndisturbedSave(s: System, d: nat, newId: Uuid)
    requires Invariant(s) && Ready(s, d)
    requires s.devices[d].mapping.Some? ==>
               s.devices[d].mapping.value.revision == RevisionOf(s.store, s.devices[d].mapping.value.id)
    requires s.devices[d].mapping.None? ==> VersionsOf(s.store, newId) == []
    ensures var t, dev := SaveAlone(s, d, newId), s.devices[d];
            var id := if dev.mapping.Some? then dev.mapping.value.id else newId;
            var local := ReadBookmarks(dev.file, s.account.profile).value;
            && t.account == s.account
            && t.store == Append(s.store, id, BOOKMARK_NAMESPACE, Live(s.account.master, BookmarkPayload(local)))
            && t.devices == s.devices[d := Device(dev.file, Some(Mapping(id, RevisionOf(t.store, id))), Some(local),
                                                  Idle)]
            && Current(t, d)
  {
    SaveBegins(s, d, newId);
    var s1 := Step(s, BeginSave(d, newId));
    var st := s1.devices[d].stage;
    hide Invariant, OursVersion, ReadBookmarks, WriteBookmarks, Append, Head, BaseMatches, Step, Current;
    EndsFromPublishing(s1, d);
    assert Step(Step(Step(Step(s1, Publish(d)), ReadBack(d)), Restore(d)), Persist(d)) == SaveAlone(s, d, newId);
    hide SaveAlone, Ours, Finished;
    SaveEnds(s, d, st, SaveAlone(s, d, newId));
  }

  lemma SaveEnds(s: System, d: nat, st: Stage, t: System)
    requires d in s.devices && st.Publishing? && t.account == s.account
    requires ReadBookmarks(s.devices[d].file, s.account.profile) == Ok(st.snapshot)
    requires Ours(t, st.id) && Head(t, st.id) == st.snapshot
    requires t.devices == WithStage(s, d, st).devices[d := Finished(WithStage(s, d, st).devices[d], st.snapshot,
                                                                    Mapping(st.id, RevisionOf(t.store, st.id)), false)]
    ensures t.devices == s.devices[d := Device(s.devices[d].file, Some(Mapping(st.id, RevisionOf(t.store, st.id))),
                                               Some(st.snapshot), Idle)]
    ensures Current(t, d)
  {
    hide Ours, Head, ReadBookmarks;
  }

  lemma SaveBegins(s: System, d: nat, newId: Uuid)
    requires Invariant(s) && Ready(s, d)
    requires s.devices[d].mapping.Some? ==>
               s.devices[d].mapping.value.revision == RevisionOf(s.store, s.devices[d].mapping.value.id)
    requires s.devices[d].mapping.None? ==> VersionsOf(s.store, newId) == []
    ensures var s1, dev := Step(s, BeginSave(d, newId)), s.devices[d];
            var id := if dev.mapping.Some? then dev.mapping.value.id else newId;
            var base := if dev.mapping.Some? then Some(dev.mapping.value.revision) else None;
            var local := ReadBookmarks(dev.file, s.account.profile).value;
            && Invariant(s1) && s1 == WithStage(s, d, Publishing(local, id, base, Replaced(local, base), false))
            && BaseMatches(s.store, id, base)
  {
    if s.devices[d].mapping.Some? { MappedIsOurs(s, d); }
    hide OursVersion, ReadBookmarks, WriteBookmarks, DeviceOk, HistoryOk, Owned, Foreign, Canonical;
    StepOk(s, BeginSave(d, newId));
    hide Invariant;
  }

  /** Over a mapping that is behind, an explicit save is refused and nothing has happened. */
  lemma StaleSaveRefused(s: System, d: nat, newId: Uuid)
    requires Invariant(s) && Ready(s, d) && s.devices[d].mapping.Some?
    requires s.devices[d].mapping.value.revision != RevisionOf(s.store, s.devices[d].mapping.value.id)
    ensures Step(Step(s, BeginSave(d, newId)), Publish(d)) == s
  {
    MappedIsOurs(s, d);
    hide Invariant, OursVersion, ReadBookmarks, Append, Head;
    var t := Step(Step(s, BeginSave(d, newId)), Publish(d));
    assert t.devices[d] == s.devices[d];
    assert t.devices == s.devices;
  }

  // ----- what a step leaves alone -----

  /** A bookmark file changes by the browser's hand, or by a restore to what is being restored. */
  lemma FilesChangeOnly(s: System, a: Action, d: nat)
    requires d in s.devices
    ensures d in Step(s, a).devices
    ensures Step(s, a).devices[d].file != s.devices[d].file ==>
              || a == EditFile(d, Step(s, a).devices[d].file)
              || (a == Restore(d) && s.devices[d].stage.Restoring? && s.devices[d].stage.restore
                  && Step(s, a).devices[d].file == WriteBookmarks(s.devices[d].stage.snapshot))
  {
    hide ReadBookmarks, WriteBookmarks, Decide, Append, Ours, EditableFile;
  }

  /** Mapping and base change together, when the device persists, to what it has just seen. */
  lemma StateChangesOnly(s: System, a: Action, d: nat)
    requires d in s.devices
    ensures d in Step(s, a).devices
    ensures var dev, dev' := s.devices[d], Step(s, a).devices[d];
            dev'.mapping != dev.mapping || dev'.base != dev.base ==>
              && a == Persist(d) && dev.stage.Persisting?
              && dev'.mapping == Some(dev.stage.proof) && dev'.base == Some(dev.stage.snapshot)
  {
    hide ReadBookmarks, WriteBookmarks, Decide, Append, Ours, EditableFile;
  }

  /** The server changes by a publication of the publishing device, or by others' hands elsewhere. */
  lemma ServerChangesOnly(s: System, a: Action)
    ensures Step(s, a).store != s.store ==>
              || (a.Elsewhere? && Step(s, a).store == Append(s.store, a.id, a.namespace, a.content))
              || (&& a.Publish? && a.d in s.devices && s.devices[a.d].stage.Publishing?
                  && BaseMatches(s.store, s.devices[a.d].stage.id, s.devices[a.d].stage.base)
                  && Step(s, a).store == Append(s.store, s.devices[a.d].stage.id, BOOKMARK_NAMESPACE,
                                                Live(s.account.master, BookmarkPayload(s.devices[a.d].stage.snapshot))))
  {
    hide ReadBookmarks, WriteBookmarks, Decide, Append, Ours, EditableFile;
  }

  /** Nobody's step touches another device. */
  lemma OthersUntouched(s: System, a: Action, e: nat)
    requires a.Elsewhere? || a.d != e
    ensures e in Step(s, a).devices <==> e in s.devices
    ensures e in s.devices ==> Step(s, a).devices[e] == s.devices[e]
  {
    hide ReadBookmarks, WriteBookmarks, Decide, Append, Ours, EditableFile;
  }

  // ----- refusals -----

  /** What sends a device back to rest with everything else as it was: the errors of a sync. */
  ghost predicate Refused(s: System, a: Action)
  {
    match a
    case Fetch(d, found, _) =>
      && d in s.devices && s.devices[d].stage.Fetching?
      && (s.devices[d].mapping.Some? || found.Some?)
      && !Ours(s, if s.devices[d].mapping.Some? then s.devices[d].mapping.value.id else found.value)
    case FetchLoad(d) =>
      && d in s.devices && s.devices[d].stage.FetchingToLoad? && s.devices[d].mapping.Some?
      && !Ours(s, s.devices[d].mapping.value.id)
    case Publish(d) =>
      && d in s.devices && s.devices[d].stage.Publishing?
      && !BaseMatches(s.store, s.devices[d].stage.id, s.devices[d].stage.base)
    case ReadBack(d) =>
      && d in s.devices && s.devices[d].stage.ReadingBack?
      && !(Ours(s, s.devices[d].stage.id) && Head(s, s.devices[d].stage.id) == s.devices[d].stage.snapshot)
    case Abort(d) => d in s.devices
    case _ => false
  }

  lemma RefusedStops(s: System, a: Action)
    requires Refused(s, a)
    ensures Step(s, a) == WithStage(s, a.d, Idle)
  {
    hide ReadBookmarks, WriteBookmarks, Decide, Append;
  }

  /** Whether the device stands where the action starts from. */
  ghost predicate InTurn(s: System, a: Action)
  {
    match a
    case EditFile(d, file) => d in s.devices && EditableFile(file, s.account.profile)
    case BeginSync(d) => Ready(s, d)
    case Fetch(d, _, _) => d in s.devices && s.devices[d].stage.Fetching?
    case BeginSave(d, _) => Ready(s, d)
    case BeginLoad(d) => d in s.devices && s.devices[d].stage.Idle? && s.devices[d].mapping.Some?
    case FetchLoad(d) => d in s.devices && s.devices[d].stage.FetchingToLoad? && s.devices[d].mapping.Some?
    case Publish(d) => d in s.devices && s.devices[d].stage.Publishing?
    case ReadBack(d) => d in s.devices && s.devices[d].stage.ReadingBack?
    case Restore(d) => d in s.devices && s.devices[d].stage.Restoring?
    case Persist(d) => d in s.devices && s.devices[d].stage.Persisting?
    case Abort(d) => d in s.devices
    case Elsewhere(id, namespace, content) =>
      Foreign(s, id) && !OursVersion(s.account, Version(namespace, s.store.nextCursor, content))
  }

  lemma OutOfTurnChangesNothing(s: System, a: Action)
    requires !InTurn(s, a)
    ensures Step(s, a) == s
  {
    hide ReadBookmarks, WriteBookmarks, Decide, Append, Ours, EditableFile;
  }
}
