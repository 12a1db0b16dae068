/** Safety of bookmark synchronization over every run. */
module BookmarkSyncLaws {
  import opened Wrappers
  import opened Bytes
  import opened Crypto
  import opened Bookmarks
  import opened BookmarkMerge
  import opened MergeLossless
  import opened BookmarkFile
  import opened VersionedObjects
  import opened Payloads
  import opened BookmarkSync

  // ----- writes -----

  lemma VersionsAfterAppend<T>(h: Objects<T>, id: Uuid, namespace: Text, content: Content<T>, other: Uuid)
    ensures VersionsOf(Append(h, id, namespace, content), other)
         == if other == id then VersionsOf(h, id) + [Version(namespace, h.nextCursor, content)]
            else VersionsOf(h, other)
  {
  }

  lemma PublishExtends(s: System, snapshot: Snapshot, id: Uuid)
    requires Invariant(s)
    requires Canonical(s.account, snapshot)
    requires VersionsOf(s.store, id) == [] || Owned(s.account, s.store, id)
    ensures var store' := Append(s.store, id, BOOKMARK_NAMESPACE, Live(s.account.master, BookmarkPayload(snapshot)));
            && Extends(s.account, s.store, store')
            && Owned(s.account, store', id)
            && RevisionOf(store', id) == RevisionOf(s.store, id) + 1
            && SnapshotAt(store', id, RevisionOf(store', id)) == Some(snapshot)
  {
    hide Invariant, WellFormed;
    var content := Live(s.account.master, BookmarkPayload(snapshot));
    var store' := Append(s.store, id, BOOKMARK_NAMESPACE, content);
    forall other: Uuid
      ensures VersionsOf(s.store, other) <= VersionsOf(store', other)
      ensures Owned(s.account, s.store, other) ==> Owned(s.account, store', other) {
      VersionsAfterAppend(s.store, id, BOOKMARK_NAMESPACE, content, other);
    }
    VersionsAfterAppend(s.store, id, BOOKMARK_NAMESPACE, content, id);
  }

  lemma PublishOriginOk(s: System, d: nat)
    requires Invariant(s) && d in s.devices && s.devices[d].stage.Publishing?
    requires BaseMatches(s.store, s.devices[d].stage.id, s.devices[d].stage.base)
    ensures var st := s.devices[d].stage;
            var store' := Append(s.store, st.id, BOOKMARK_NAMESPACE,
                                 Live(s.account.master, BookmarkPayload(st.snapshot)));
            && Extends(s.account, s.store, store')
            && Owned(s.account, store', st.id)
            && OriginOk(store', st.id, RevisionOf(store', st.id), st.origin)
  {
    hide SnapshotAt, Owned, MergesInto, IsAncestor, Canonical, EditableFile, BaseIsHistory, Append, HistoryOk,
      Foreign, Extends;
    var st := s.devices[d].stage;
    var r := RevisionOf(s.store, st.id);
    assert StageOk(s.account, s.store, st);
    PublishExtends(s, st.snapshot, st.id);
    var store' := Append(s.store, st.id, BOOKMARK_NAMESPACE, Live(s.account.master, BookmarkPayload(st.snapshot)));
    SnapshotPersists(s.account, s.store, store', st.id, r);
    if st.origin.Synced? {
      AncestorPersists(s.account, s.store, store', st.id, r, st.origin.base);
    }
  }

  lemma PublishOk(s: System, d: nat)
    requires Invariant(s)
    ensures Invariant(Step(s, Publish(d)))
  {
    if d in s.devices && s.devices[d].stage.Publishing? {
      var st := s.devices[d].stage;
      if !BaseMatches(s.store, st.id, st.base) {
        DeviceStepOk(s, d, s.devices[d].(stage := Idle));
      } else {
        PublishOriginOk(s, d);
        var s' := Step(s, Publish(d));
        hide Owned, OriginOk, Extends;
        forall id: Uuid ensures Owned(s'.account, s'.store, id) || Foreign(s', id) {
          PublishKeepsKind(s, d, id);
        }
        forall id: Uuid ensures HistoryOk(s', id) {
          PublishKeepsHistory(s, d, id);
        }
        forall e | e in s'.devices ensures DeviceOk(s'.account, s'.store, s'.devices[e]) {
          hide DeviceOk;
          PublishKeepsDevice(s, d, e);
        }
      }
    }
  }

  lemma PublishKeepsKind(s: System, d: nat, id: Uuid)
    requires Invariant(s) && d in s.devices && s.devices[d].stage.Publishing?
    requires BaseMatches(s.store, s.devices[d].stage.id, s.devices[d].stage.base)
    requires Owned(s.account, Step(s, Publish(d)).store, s.devices[d].stage.id)
    ensures var s' := Step(s, Publish(d)); Owned(s'.account, s'.store, id) || Foreign(s', id)
  {
    var st, s' := s.devices[d].stage, Step(s, Publish(d));
    assert Owned(s.account, s.store, id) || Foreign(s, id);
    PublishElsewhere(s, d, id);
    hide Invariant, OursVersion, Canonical, Step, Owned, Foreign;
    if id != st.id { SameKind(s, s', id); }
  }

  lemma PublishElsewhere(s: System, d: nat, id: Uuid)
    requires d in s.devices && s.devices[d].stage.Publishing?
    ensures var s' := Step(s, Publish(d));
            && s'.account == s.account
            && (id != s.devices[d].stage.id ==> VersionsOf(s'.store, id) == VersionsOf(s.store, id))
  {
  }

  lemma SameKind(s: System, s': System, id: Uuid)
    requires s'.account == s.account && VersionsOf(s'.store, id) == VersionsOf(s.store, id)
    ensures Owned(s'.account, s'.store, id) <==> Owned(s.account, s.store, id)
    ensures Foreign(s', id) <==> Foreign(s, id)
  {
    hide OursVersion, Canonical, VersionsOf;
  }

  lemma PublishKeepsHistory(s: System, d: nat, id: Uuid)
    requires Invariant(s) && d in s.devices && s.devices[d].stage.Publishing?
    requires BaseMatches(s.store, s.devices[d].stage.id, s.devices[d].stage.base)
    requires Extends(s.account, s.store, Step(s, Publish(d)).store)
    requires var st, store' := s.devices[d].stage, Step(s, Publish(d)).store;
             OriginOk(store', st.id, RevisionOf(store', st.id), st.origin)
    ensures HistoryOk(Step(s, Publish(d)), id)
  {
    hide OriginOk, Extends, DeviceOk, Canonical, OursVersion;
    var st, s' := s.devices[d].stage, Step(s, Publish(d));
    VersionsAfterAppend(s.store, st.id, BOOKMARK_NAMESPACE, Live(s.account.master, BookmarkPayload(st.snapshot)), id);
    assert HistoryOk(s, id) && (Owned(s.account, s.store, id) || Foreign(s, id));
    if Owned(s'.account, s'.store, id) {
      WasOwnedOrNew(s, s'.store, id);
      forall r: nat | 1 <= r <= RevisionOf(s'.store, id)
        ensures (id, r) in s'.origins && OriginOk(s'.store, id, r, s'.origins[(id, r)]) {
        if r <= RevisionOf(s.store, id) {
          OriginPersists(s.account, s.store, s'.store, id, r, s.origins[(id, r)]);
        }
      }
    }
  }

  lemma WasOwnedOrNew(s: System, store': Objects<Payload>, id: Uuid)
    requires Invariant(s) && VersionsOf(s.store, id) <= VersionsOf(store', id)
    requires Owned(s.account, store', id)
    ensures Owned(s.account, s.store, id) || VersionsOf(s.store, id) == []
  {
    var vs := VersionsOf(s.store, id);
    if vs != [] {
      assert vs[0] in vs && vs[0] == VersionsOf(store', id)[0];
      assert Owned(s.account, s.store, id) || Foreign(s, id);
    }
  }

  lemma PublishKeepsDevice(s: System, d: nat, e: nat)
    requires Invariant(s) && d in s.devices && s.devices[d].stage.Publishing?
    requires BaseMatches(s.store, s.devices[d].stage.id, s.devices[d].stage.base)
    requires Extends(s.account, s.store, Step(s, Publish(d)).store)
    requires e in s.devices && e in Step(s, Publish(d)).devices
    ensures var s' := Step(s, Publish(d)); DeviceOk(s'.account, s'.store, s'.devices[e])
  {
    hide Extends, IsRevision, EditableFile;
    var s' := Step(s, Publish(d));
    assert DeviceOk(s.account, s.store, s.devices[e]);
    DevicePersists(s.account, s.store, s'.store, s.devices[e]);
  }

  lemma NeverBoth(s: System, id: Uuid)
    requires Foreign(s, id)
    ensures !Owned(s.account, s.store, id)
  {
    var vs := VersionsOf(s.store, id);
    if vs != [] {
      assert vs[0] in vs;
    }
  }

  lemma ElsewhereOk(s: System, id: Uuid, namespace: Text, content: Content<Payload>)
    requires Invariant(s)
    requires Foreign(s, id)
    requires !OursVersion(s.account, Version(namespace, s.store.nextCursor, content))
    ensures Invariant(s.(store := Append(s.store, id, namespace, content)))
  {
    var s' := s.(store := Append(s.store, id, namespace, content));
    forall other: Uuid
      ensures VersionsOf(s.store, other) <= VersionsOf(s'.store, other)
      ensures Owned(s.account, s.store, other) ==> other != id
      ensures other != id ==> VersionsOf(s'.store, other) == VersionsOf(s.store, other) {
      VersionsAfterAppend(s.store, id, namespace, content, other);
      if other == id && VersionsOf(s.store, id) != [] {
        assert VersionsOf(s.store, id)[0] in VersionsOf(s.store, id);
      }
    }
    assert Foreign(s', id);
    assert Extends(s.account, s.store, s'.store);
    hide OriginOk, DeviceOk, Extends;
    forall other: Uuid ensures Owned(s'.account, s'.store, other) || Foreign(s', other) {
      assert Owned(s.account, s.store, other) || Foreign(s, other);
    }
    forall other: Uuid ensures HistoryOk(s', other) {
      assert HistoryOk(s, other);
      if other != id {
        forall r: nat | 1 <= r <= RevisionOf(s.store, other) && Owned(s.account, s.store, other)
          ensures OriginOk(s'.store, other, r, s'.origins[(other, r)]) {
          OriginPersists(s.account, s.store, s'.store, other, r, s.origins[(other, r)]);
        }
      } else {
        NeverBoth(s', id);
      }
    }
    forall e | e in s'.devices ensures DeviceOk(s'.account, s'.store, s'.devices[e]) {
      DevicePersists(s.account, s.store, s'.store, s.devices[e]);
    }
  }

  /**
   The one step that changes a bookmark object. A sync that replaces revision r writes the merge
   of the device's stored base, of the local snapshot it started from, and of revision r itself.
   */
  lemma PublishIsMerge(s: System, d: nat)
    requires Invariant(s) && d in s.devices
    requires s.devices[d].stage.Publishing? && s.devices[d].stage.origin.Synced?
    requires Step(s, Publish(d)).store != s.store
    ensures var dev, id := s.devices[d], s.devices[d].stage.id;
            var s' := Step(s, Publish(d));
            && Ours(s, id) && Ours(s', id)
            && RevisionOf(s'.store, id) == RevisionOf(s.store, id) + 1
            && MergesInto(dev.base, dev.stage.origin.local, Head(s, id), Head(s', id))
  {
    hide MergesInto, WellFormed, ReadBookmarks;
    var dev, st := s.devices[d], s.devices[d].stage;
    var content := Live(s.account.master, BookmarkPayload(st.snapshot));
    DeviceIn(s, d);
    var vs := VersionsOf(s.store, st.id);
    assert vs[|vs| - 1] in vs;
    assert StageOk(s.account, s.store, st);
    VersionsAfterAppend(s.store, st.id, BOOKMARK_NAMESPACE, content, st.id);
  }

  // ----- every step -----

  lemma FetchOk(s: System, d: nat, found: Option<Uuid>, newId: Uuid)
    requires Invariant(s)
    ensures Invariant(Step(s, Fetch(d, found, newId)))
  {
    hide Invariant, Owned, MergeBookmarks, Canonical, EditableFile, IsRevision, Decide, Head;
    if d in s.devices && s.devices[d].stage.Fetching? {
      var dev := s.devices[d];
      assert DeviceOk(s.account, s.store, dev) by { DeviceIn(s, d); }
      var local := dev.stage.local;
      var target := if dev.mapping.Some? then Some(dev.mapping.value.id) else found;
      if target.None? {
        DeviceStepOk(s, d, dev.(stage := Publishing(local, newId, None, Started(local), false)));
      } else if !Ours(s, target.value) {
        DeviceStepOk(s, d, dev.(stage := Idle));
      } else {
        var id := target.value;
        DecideOk(s, dev, local, id);
        DeviceStepOk(s, d, dev.(stage := Decide(dev.base, local, Head(s, id), Mapping(id, RevisionOf(s.store, id)))));
      }
    }
  }

  lemma DeviceIn(s: System, d: nat)
    requires Invariant(s) && d in s.devices
    ensures DeviceOk(s.account, s.store, s.devices[d])
  {
  }

  /** Every action, in any state that satisfies the invariant, leads to one that does. */
  lemma StepOk(s: System, a: Action)
    requires Invariant(s)
    ensures Invariant(Step(s, a))
  {
    match a
    case Fetch(d, found, newId) => FetchOk(s, d, found, newId);
    case Publish(d) => PublishOk(s, d);
    case Elsewhere(id, namespace, content) =>
      if Foreign(s, id) && !OursVersion(s.account, Version(namespace, s.store.nextCursor, content)) {
        ElsewhereOk(s, id, namespace, content);
      }
    case EditFile(d, file) =>
      if Step(s, a) != s { OneDeviceStepOk(s, a, d); }
    case BeginSync(d) => if Step(s, a) != s { OneDeviceStepOk(s, a, d); }
    case BeginSave(d, newId) => if Step(s, a) != s { OneDeviceStepOk(s, a, d); }
    case BeginLoad(d) => if Step(s, a) != s { OneDeviceStepOk(s, a, d); }
    case FetchLoad(d) => if Step(s, a) != s { OneDeviceStepOk(s, a, d); }
    case ReadBack(d) => if Step(s, a) != s { OneDeviceStepOk(s, a, d); }
    case Restore(d) => if Step(s, a) != s { OneDeviceStepOk(s, a, d); }
    case Persist(d) => if Step(s, a) != s { OneDeviceStepOk(s, a, d); }
    case Abort(d) => if Step(s, a) != s { OneDeviceStepOk(s, a, d); }
  }

  lemma OneDeviceStepOk(s: System, a: Action, d: nat)
    requires Invariant(s) && Step(s, a) != s
    requires !a.Fetch? && !a.Publish? && !a.Elsewhere? && a.d == d
    ensures Invariant(Step(s, a))
  {
    var dev := s.devices[d];
    DeviceIn(s, d);
    var dev' := Step(s, a).devices[d];
    assert Step(s, a) == s.(devices := s.devices[d := dev']);
    assert DeviceOk(s.account, s.store, dev') by { OneDeviceOk(s, a, d); }
    hide Invariant, DeviceOk, Step;
    DeviceStepOk(s, d, dev');
  }

  lemma OneDeviceOk(s: System, a: Action, d: nat)
    requires Invariant(s) && Step(s, a) != s
    requires !a.Fetch? && !a.Publish? && !a.Elsewhere? && a.d == d
    requires d in s.devices && d in Step(s, a).devices
    ensures DeviceOk(s.account, s.store, Step(s, a).devices[d])
  {
    hide Owned, SnapshotAt, MergesInto, IsAncestor, ReadBookmarks, Canonical, Head, HistoryOk;
    var dev := s.devices[d];
    assert DeviceOk(s.account, s.store, dev);
    match a
    case BeginSync(_) => ReadIsCanonical(s.account, dev.file);
    case BeginSave(_, newId) =>
      ReadIsCanonical(s.account, dev.file);
      if dev.mapping.Some? {
        RevisionIsCanonical(s.account, s.store, dev.mapping.value, dev.base.value);
      }
    case FetchLoad(_) =>
      if Ours(s, dev.mapping.value.id) { OwnedHead(s, dev.mapping.value.id); }
    case ReadBack(_) =>
      if Ours(s, dev.stage.id) { OwnedHead(s, dev.stage.id); }
    case Restore(_) =>
      RevisionIsCanonical(s.account, s.store, dev.stage.proof, dev.stage.snapshot);
      WrittenIsEditable(s.account, dev.stage.snapshot);
    case _ =>
  }

  lemma {:induction false} EveryRunOk(s: System, actions: seq<Action>)
    requires Invariant(s)
    ensures Invariant(RunAll(s, actions))
  {
    hide Invariant, Step;
    if actions != [] {
      EveryRunOk(s, actions[..|actions| - 1]);
      StepOk(RunAll(s, actions[..|actions| - 1]), actions[|actions| - 1]);
    }
  }

  /**
   In every interleaving of any number of devices: a revision published by a sync is the merge
   of an earlier revision of the same object as base (or of none), the device's local snapshot,
   and exactly the revision it replaces; a deliberate replacement had seen that revision too.
   */
  lemma LinearHistory(s: System, actions: seq<Action>, id: Uuid, r: nat)
    requires Initial(s)
    requires Owned(s.account, RunAll(s, actions).store, id)
    requires 1 <= r <= RevisionOf(RunAll(s, actions).store, id)
    ensures var t := RunAll(s, actions);
            (id, r) in t.origins && OriginOk(t.store, id, r, t.origins[(id, r)])
  {
    hide OriginOk, Owned, DeviceOk;
    InitialOk(s);
    EveryRunOk(s, actions);
    AccountKept(s, actions);
    assert HistoryOk(RunAll(s, actions), id);
  }

  lemma {:induction false} AccountKept(s: System, actions: seq<Action>)
    ensures RunAll(s, actions).account == s.account
    ensures RunAll(s, actions).devices.Keys == s.devices.Keys
  {
    if actions != [] {
      AccountKept(s, actions[..|actions| - 1]);
      StepKeepsAccount(RunAll(s, actions[..|actions| - 1]), actions[|actions| - 1]);
    }
  }

  lemma StepKeepsAccount(s: System, a: Action)
    ensures Step(s, a).account == s.account
    ensures Step(s, a).devices.Keys == s.devices.Keys
  {
    hide ReadBookmarks, Decide, WriteBookmarks, Append;
  }

  /**
   In every reachable state, each device's stored base is exactly the content of its mapped
   object at its mapped revision, and that revision has been reached.
   */
  lemma BaseIsAlwaysHistory(s: System, actions: seq<Action>, d: nat)
    requires Initial(s)
    requires d in RunAll(s, actions).devices
    ensures var t := RunAll(s, actions);
            var dev := t.devices[d];
            && (dev.mapping.Some? <==> dev.base.Some?)
            && (dev.mapping.Some? ==>
                  && SnapshotAt(t.store, dev.mapping.value.id, dev.mapping.value.revision) == dev.base
                  && 1 <= dev.mapping.value.revision <= RevisionOf(t.store, dev.mapping.value.id))
  {
    InitialOk(s);
    EveryRunOk(s, actions);
    hide Owned;
    var t := RunAll(s, actions);
    DeviceIn(t, d);
    if t.devices[d].mapping.Some? {
      RevisionIsCanonical(t.account, t.store, t.devices[d].mapping.value, t.devices[d].base.value);
    }
  }

  // ----- where local snapshots come from -----

  /** The local snapshot a device is working with. */
  function LocalOf(stage: Stage): Option<Snapshot>
  {
    match stage
    case Fetching(local) => Some(local)
    case Publishing(_, _, _, origin, _) => Some(origin.local)
    case _ => None
  }

  /** At some point of the run the device was idle and its file read as this. */
  ghost predicate WasRead(s: System, actions: seq<Action>, d: nat, local: Snapshot)
  {
    exists i :: 0 <= i <= |actions| && FileReads(RunAll(s, actions[..i]), d, local)
  }

  ghost predicate FileReads(s: System, d: nat, local: Snapshot)
  {
    d in s.devices && s.devices[d].stage.Idle? && ReadBookmarks(s.devices[d].file, s.account.profile) == Ok(local)
  }

  lemma WasReadLater(s: System, actions: seq<Action>, d: nat, local: Snapshot)
    requires actions != [] && WasRead(s, actions[..|actions| - 1], d, local)
    ensures WasRead(s, actions, d, local)
  {
    hide FileReads, RunAll;
    var rest := actions[..|actions| - 1];
    var i :| 0 <= i <= |rest| && FileReads(RunAll(s, rest[..i]), d, local);
    assert rest[..i] == actions[..i];
  }

  /** One step starts from a snapshot only by reading it, and otherwise keeps what it had. */
  lemma StepReads(s: System, a: Action, d: nat)
    requires d in s.devices && d in Step(s, a).devices
    ensures var local := LocalOf(Step(s, a).devices[d].stage);
            local.Some? ==> local == LocalOf(s.devices[d].stage) || FileReads(s, d, local.value)
  {
    hide MergeBookmarks, ReadBookmarks, WriteBookmarks, Append, Head, Ours, BaseMatches, EditableFile;
  }

  /** One step records an origin only for what the publishing device worked with. */
  lemma StepRecords(s: System, a: Action, p: (Uuid, nat))
    requires p in Step(s, a).origins
    ensures || (p in s.origins && Step(s, a).origins[p] == s.origins[p])
            || (a.Publish? && a.d in s.devices && LocalOf(s.devices[a.d].stage) == Some(Step(s, a).origins[p].local))
  {
    hide MergeBookmarks, ReadBookmarks, WriteBookmarks, Append, Head, Ours, BaseMatches, EditableFile;
  }

  ghost predicate EveryLocalRead(s: System, actions: seq<Action>)
  {
    var t := RunAll(s, actions);
    && (forall d :: d in t.devices && LocalOf(t.devices[d].stage).Some? ==>
          WasRead(s, actions, d, LocalOf(t.devices[d].stage).value))
    && forall p :: p in t.origins ==> exists d :: WasRead(s, actions, d, t.origins[p].local)
  }

  /**
   In every run, edits in the middle of a sync included, the local side of each published revision
   is what the bookmark file of some device held when that sync or save began.
   */
  lemma {:induction false} LocalSidesWereRead(s: System, actions: seq<Action>)
    requires Initial(s) && s.origins == map[]
    ensures EveryLocalRead(s, actions)
  {
    if actions == [] {
      hide Step;
    } else {
      hide Step, WasRead;
      LocalSidesWereRead(s, actions[..|actions| - 1]);
      OneMoreRead(s, actions);
    }
  }

  lemma OneMoreRead(s: System, actions: seq<Action>)
    requires actions != [] && EveryLocalRead(s, actions[..|actions| - 1])
    ensures EveryLocalRead(s, actions)
  {
    hide Step, WasRead, FileReads, LocalOf;
    var rest, last := actions[..|actions| - 1], actions[|actions| - 1];
    var before, t := RunAll(s, rest), RunAll(s, actions);
    StepKeepsAccount(before, last);
    forall d | d in t.devices && LocalOf(t.devices[d].stage).Some?
      ensures WasRead(s, actions, d, LocalOf(t.devices[d].stage).value) {
      var local := LocalOf(t.devices[d].stage).value;
      StepReads(before, last, d);
      if FileReads(before, d, local) { ReadNow(s, actions, d, local); } else { WasReadLater(s, actions, d, local); }
    }
    forall p | p in t.origins ensures exists d :: WasRead(s, actions, d, t.origins[p].local) {
      StepRecords(before, last, p);
      if p in before.origins && t.origins[p] == before.origins[p] {
        var d :| WasRead(s, rest, d, before.origins[p].local);
        WasReadLater(s, actions, d, t.origins[p].local);
      } else {
        WasReadLater(s, actions, last.d, t.origins[p].local);
      }
    }
  }

  lemma ReadNow(s: System, actions: seq<Action>, d: nat, local: Snapshot)
    requires actions != [] && FileReads(RunAll(s, actions[..|actions| - 1]), d, local)
    ensures WasRead(s, actions, d, local)
  {
    hide FileReads, RunAll;
  }
}
