/**
 Which object each device ends up on, when all of them agree, and for how long. Turns are
 undisturbed here, as in BookmarkConvergence.
 */
module BookmarkAgreement {
  import opened Wrappers
  import opened Bytes
  import opened Crypto
  import opened Bookmarks
  import opened BookmarkFile
  import opened VersionedObjects
  import opened Payloads
  import opened BookmarkSync
  import opened BookmarkSyncLaws
  import opened BookmarkConvergence

  // ----- cursors tell objects apart -----

  /** The log numbers its entries one by one, so no two last changes share a cursor. */
  ghost predicate CursorsApart(h: Objects<Payload>)
  {
    && (forall id: Uuid, v :: v in VersionsOf(h, id) ==> v.cursor < h.nextCursor)
    && forall id: Uuid, other: Uuid, v, w ::
         id != other && v in VersionsOf(h, id) && w in VersionsOf(h, other) ==> v.cursor != w.cursor
  }

  lemma AppendApart(h: Objects<Payload>, id: Uuid, namespace: Text, content: Content<Payload>)
    requires CursorsApart(h)
    ensures CursorsApart(Append(h, id, namespace, content))
  {
    var h' := Append(h, id, namespace, content);
    forall other: Uuid ensures VersionsOf(h', other)
                            == if other == id then VersionsOf(h, id) + [Version(namespace, h.nextCursor, content)]
                               else VersionsOf(h, other) {
      VersionsAfterAppend(h, id, namespace, content, other);
    }
    hide Append;
  }

  /** Every step of the protocol keeps cursors apart, so every run from an empty server does. */
  lemma {:induction false} EveryRunApart(s: System, actions: seq<Action>)
    requires CursorsApart(s.store)
    ensures CursorsApart(RunAll(s, actions).store)
  {
    hide Step, CursorsApart;
    if actions != [] {
      EveryRunApart(s, actions[..|actions| - 1]);
      StepApart(RunAll(s, actions[..|actions| - 1]), actions[|actions| - 1]);
    }
  }

  lemma InitialApart(s: System)
    requires Initial(s)
    ensures CursorsApart(s.store)
  {
  }

  lemma StepApart(s: System, a: Action)
    requires CursorsApart(s.store)
    ensures CursorsApart(Step(s, a).store)
  {
    hide CursorsApart, Append, ReadBookmarks, WriteBookmarks, Decide, EditableFile;
    match a
    case Publish(d) =>
      if d in s.devices && s.devices[d].stage.Publishing? {
        var st := s.devices[d].stage;
        AppendApart(s.store, st.id, BOOKMARK_NAMESPACE, Live(s.account.master, BookmarkPayload(st.snapshot)));
      }
    case Elsewhere(id, namespace, content) => AppendApart(s.store, id, namespace, content);
    case _ =>
  }

  lemma NewestIsUnique(s: System, x: Uuid, y: Uuid)
    requires CursorsApart(s.store) && Newest(s, x) && Newest(s, y)
    ensures x == y
  {
    var vs, ws := VersionsOf(s.store, x), VersionsOf(s.store, y);
    assert vs[|vs| - 1] in vs && ws[|ws| - 1] in ws;
  }

  // ----- one turn -----

  /** The object a device is mapped to. */
  function ObjectOf(s: System, d: nat): Option<Uuid>
  {
    if d in s.devices && s.devices[d].mapping.Some? then Some(s.devices[d].mapping.value.id) else None
  }

  ghost predicate NoObject(s: System)
  {
    forall id: Uuid :: !Ours(s, id)
  }

  /** What a turn of d does to mappings and to the newest object. */
  ghost predicate Turned(s: System, d: nat, t: System)
  {
    && ObjectOf(t, d).Some?
    && (ObjectOf(s, d).Some? ==> ObjectOf(t, d) == ObjectOf(s, d) && Ours(s, ObjectOf(s, d).value))
    && (ObjectOf(s, d).None? ==> Newest(t, ObjectOf(t, d).value))
    && (ObjectOf(s, d).None? && !NoObject(s) ==> Newest(s, ObjectOf(t, d).value))
    && (forall e :: e != d ==> ObjectOf(t, e) == ObjectOf(s, e))
    && (Newest(s, ObjectOf(t, d).value) ==> Newest(t, ObjectOf(t, d).value))
    && (CursorsApart(s.store) ==> CursorsApart(t.store))
  }

  /** Writing an object makes it the newest; not writing changes nothing. */
  lemma WrittenIsNewest(s: System, t: System, id: Uuid)
    requires CursorsBelow(s) && t.account == s.account
    requires OneMoreRevision(s, t, id)
    ensures Newest(t, id)
  {
    forall other: Uuid | Ours(t, other) ensures LastCursor(t, other) <= LastCursor(t, id) {
      if other != id {
        assert VersionsOf(t.store, other) == VersionsOf(s.store, other);
        var vs := VersionsOf(s.store, other);
        assert vs[|vs| - 1] in vs;
      }
    }
  }

  ghost predicate CursorsBelow(s: System)
  {
    forall id: Uuid, v :: v in VersionsOf(s.store, id) ==> v.cursor < s.store.nextCursor
  }

  lemma ApartIsBelow(s: System)
    requires CursorsApart(s.store)
    ensures CursorsBelow(s)
  {
  }

  lemma SameStoreOurs(s: System, t: System, id: Uuid)
    requires t.store == s.store && t.account == s.account
    ensures Ours(t, id) <==> Ours(s, id)
    ensures LastCursor(t, id) == LastCursor(s, id)
  {
  }

  lemma SameStoreNewest(s: System, t: System, id: Uuid)
    requires t.store == s.store && t.account == s.account
    ensures Newest(t, id) <==> Newest(s, id)
  {
    hide Ours, LastCursor;
    forall other: Uuid ensures (Ours(t, other) <==> Ours(s, other)) && LastCursor(t, other) == LastCursor(s, other) {
      SameStoreOurs(s, t, other);
    }
  }

  lemma SyncTurns(s: System, d: nat, found: Option<Uuid>, newId: Uuid)
    requires CanSync(s, d, found, newId) && CursorsApart(s.store)
    ensures Turned(s, d, SyncAlone(s, d, found, newId))
    ensures Invariant(SyncAlone(s, d, found, newId))
  {
    var t, id := SyncAlone(s, d, found, newId), TargetOf(s, d, found, newId);
    SyncFacts(s, d, found, newId);
    hide CanSync, SyncAlone, Invariant, Newest, Ours, CursorsApart, OneMoreRevision, CursorsBelow;
    if t.store == s.store {
      SameStoreNewest(s, t, id);
      SameStoreOurs(s, t, id);
    } else {
      ApartIsBelow(s);
      WrittenIsNewest(s, t, id);
      WrittenApart(s, t, id);
    }
  }

  lemma WrittenApart(s: System, t: System, id: Uuid)
    requires CursorsApart(s.store) && OneMoreRevision(s, t, id)
    ensures CursorsApart(t.store)
  {
    AppendApart(s.store, id, BOOKMARK_NAMESPACE, Live(s.account.master, BookmarkPayload(Head(t, id))));
  }

  /** A lone sync, reduced to mappings and the store. */
  lemma SyncFacts(s: System, d: nat, found: Option<Uuid>, newId: Uuid)
    requires CanSync(s, d, found, newId)
    ensures var t, id := SyncAlone(s, d, found, newId), TargetOf(s, d, found, newId);
            && Invariant(t) && t.account == s.account
            && ObjectOf(t, d) == Some(id) && Ours(t, id)
            && (ObjectOf(s, d).Some? ==> ObjectOf(s, d) == Some(id) && Ours(s, id))
            && (ObjectOf(s, d).None? && found.Some? ==> Newest(s, id))
            && (ObjectOf(s, d).None? && found.None? ==> NoObject(s))
            && (forall e :: e != d ==> ObjectOf(t, e) == ObjectOf(s, e))
            && (t.store == s.store || OneMoreRevision(s, t, id))
  {
    if s.devices[d].mapping.Some? { MappedIsOurs(s, d); }
    SyncMakesCurrent(s, d, found, newId);
    hide Invariant, Newest, SyncAlone, OneMoreRevision, Ours, ReadBookmarks, WriteBookmarks;
  }

  // ----- turns in a row -----

  lemma TurnIn(states: seq<System>, order: seq<nat>, j: nat)
    requires Syncs(states, order) && j < |order| && CursorsApart(states[j].store)
    ensures Turned(states[j], order[j], states[j + 1])
    ensures Invariant(states[j]) && Invariant(states[j + 1])
  {
    hide Invariant, CursorsApart, Turned, SyncAlone;
    assert SyncsAlone(states[j], order[j], states[j + 1]);
    var found, newId :| CanSync(states[j], order[j], found, newId)
                     && states[j + 1] == SyncAlone(states[j], order[j], found, newId);
    SyncTurns(states[j], order[j], found, newId);
  }

  lemma {:induction false} AllApart(states: seq<System>, order: seq<nat>, i: nat)
    requires Syncs(states, order) && i <= |order| && CursorsApart(states[0].store)
    ensures CursorsApart(states[i].store)
  {
    hide CursorsApart, Syncs, Invariant;
    if i > 0 {
      AllApart(states, order, i - 1);
      TurnIn(states, order, i - 1);
    }
  }

  /** A mapping, once made, stays through any number of turns. */
  lemma {:induction false} ObjectStays(states: seq<System>, order: seq<nat>, j: nat, i: nat, d: nat)
    requires Syncs(states, order) && j <= i <= |order| && CursorsApart(states[0].store)
    requires ObjectOf(states[j], d).Some?
    ensures ObjectOf(states[i], d) == ObjectOf(states[j], d)
    decreases i
  {
    hide CursorsApart, Syncs, Invariant, ObjectOf, Newest;
    if j < i {
      ObjectStays(states, order, j, i - 1, d);
      AllApart(states, order, i - 1);
      TurnIn(states, order, i - 1);
    }
  }

  /** And a device without one gets none but in its own turn. */
  lemma {:induction false} ObjectAppears(states: seq<System>, order: seq<nat>, i: nat, d: nat)
    requires Syncs(states, order) && i <= |order| && CursorsApart(states[0].store)
    requires d !in order[..i]
    ensures ObjectOf(states[i], d) == ObjectOf(states[0], d)
  {
    hide CursorsApart, Syncs, Invariant, ObjectOf, Newest;
    if i > 0 {
      assert order[..i] == order[..i - 1] + [order[i - 1]];
      ObjectAppears(states, order, i - 1, d);
      AllApart(states, order, i - 1);
      TurnIn(states, order, i - 1);
    }
  }

  // ----- two devices -----

  /**
   Two devices end on one object exactly when they do already, or, if one of them is only about to
   make its first turn, exactly when the other's object is then the newest.
   */
  lemma ShareAnObjectExactly(states: seq<System>, order: seq<nat>, j: nat, d: nat, e: nat)
    requires Syncs(states, order) && j <= |order| && CursorsApart(states[0].store)
    requires ObjectOf(states[j], d).Some? && (ObjectOf(states[j], e).Some? || (j < |order| && order[j] == e))
    ensures var end := states[|order|];
            && ObjectOf(end, d).Some? && ObjectOf(end, e).Some?
            && (ObjectOf(end, d) == ObjectOf(end, e) <==>
                  if ObjectOf(states[j], e).Some? then ObjectOf(states[j], d) == ObjectOf(states[j], e)
                  else Newest(states[j], ObjectOf(states[j], d).value))
  {
    hide SyncsAlone, CursorsApart, Newest, Ours, Invariant, NoObject, ObjectOf, Turned;
    assert |states| == |order| + 1;
    hide Syncs;
    ObjectStays(states, order, j, |order|, d);
    if ObjectOf(states[j], e).Some? {
      ObjectStays(states, order, j, |order|, e);
    } else {
      AllApart(states, order, j);
      TurnIn(states, order, j);
      ObjectExists(states[j], d);
      HasObject(states[j], e, states[j + 1]);
      ObjectStays(states, order, j + 1, |order|, e);
      JoinsExactly(states[j], e, states[j + 1], ObjectOf(states[j], d).value);
    }
  }

  lemma HasObject(s: System, d: nat, t: System)
    requires Turned(s, d, t)
    ensures ObjectOf(t, d).Some?
  {
    hide ObjectOf, Newest, NoObject, Ours, CursorsApart;
  }

  /** A first turn joins an object exactly when that is the newest. */
  lemma JoinsExactly(s: System, d: nat, t: System, id: Uuid)
    requires Turned(s, d, t) && CursorsApart(s.store) && ObjectOf(s, d).None? && !NoObject(s)
    ensures ObjectOf(t, d) == Some(id) <==> Newest(s, id)
  {
    hide CursorsApart, Newest, NoObject, ObjectOf;
    if Newest(s, id) { NewestIsUnique(s, id, ObjectOf(t, d).value); }
  }

  // ----- all devices -----

  ghost predicate AllOn(s: System, devices: seq<nat>, id: Uuid)
  {
    forall d :: d in devices ==> ObjectOf(s, d) == Some(id)
  }

  /** The i-th turn is the first by a device that has no object yet. */
  ghost predicate FirstNew(s: System, order: seq<nat>, i: nat)
  {
    && i < |order| && ObjectOf(s, order[i]).None?
    && forall k :: 0 <= k < i ==> ObjectOf(s, order[k]).Some?
  }

  /**
   The devices that have an object all have this one; and when the first one without makes its
   turn, this one is the newest there is, or there is none.
   */
  ghost predicate AllTowards(states: seq<System>, order: seq<nat>, id: Uuid)
    requires |states| > |order|
  {
    && (forall d :: d in order && ObjectOf(states[0], d).Some? ==> ObjectOf(states[0], d) == Some(id))
    && forall i: nat :: FirstNew(states[0], order, i) ==> Newest(states[i], id) || NoObject(states[i])
  }

  /** From turn i on, everyone is on the object or will join it. */
  ghost predicate Gathered(states: seq<System>, order: seq<nat>, i: nat, id: Uuid)
    requires i <= |order| < |states|
  {
    && (forall d :: d in order && ObjectOf(states[i], d).Some? ==> ObjectOf(states[i], d) == Some(id))
    && (forall d :: d in order[..i] ==> ObjectOf(states[i], d).Some?)
    && (Newest(states[i], id) || forall k :: 0 <= k < i ==> ObjectOf(states[0], order[k]).Some?)
  }

  lemma GatheredStep(states: seq<System>, order: seq<nat>, i: nat, id: Uuid)
    requires Syncs(states, order) && i < |order| && CursorsApart(states[0].store)
    requires Gathered(states, order, i, id)
    requires FirstNew(states[0], order, i) ==> Newest(states[i], id)
    ensures Gathered(states, order, i + 1, id)
  {
    hide SyncsAlone, CursorsApart;
    assert |states| == |order| + 1;
    hide Syncs, Newest, Invariant, ObjectOf, Ours, NoObject;
    var s, d := states[i], order[i];
    AllApart(states, order, i);
    TurnIn(states, order, i);
    if d !in order[..i] { ObjectAppears(states, order, i, d); }
    if ObjectOf(s, d).None? {
      assert Newest(s, id);
      NewestExists(s, id);
      JoinsExactly(s, d, states[i + 1], id);
    } else {
      assert Newest(s, id) || ObjectOf(states[0], d).Some?;
    }
    assert ObjectOf(states[i + 1], d) == Some(id);
    assert Newest(s, id) ==> Newest(states[i + 1], id);
    GatheredAfter(states, order, i, id);
  }

  lemma GatheredAfter(states: seq<System>, order: seq<nat>, i: nat, id: Uuid)
    requires i < |order| < |states| && Gathered(states, order, i, id)
    requires ObjectOf(states[i + 1], order[i]) == Some(id)
    requires forall e :: e != order[i] ==> ObjectOf(states[i + 1], e) == ObjectOf(states[i], e)
    requires Newest(states[i], id) ==> Newest(states[i + 1], id)
    requires Newest(states[i], id) || ObjectOf(states[0], order[i]).Some?
    ensures Gathered(states, order, i + 1, id)
  {
    hide Newest, ObjectOf;
    assert order[..i + 1] == order[..i] + [order[i]];
  }

  lemma NewestExists(s: System, id: Uuid)
    requires Newest(s, id)
    ensures !NoObject(s)
  {
  }

  lemma {:induction false} GathersFrom(states: seq<System>, order: seq<nat>, start: nat, i: nat, id: Uuid)
    requires Syncs(states, order) && start <= i <= |order| && CursorsApart(states[0].store)
    requires Gathered(states, order, start, id)
    requires forall k: nat :: start <= k < |order| && FirstNew(states[0], order, k) ==> Newest(states[k], id)
    ensures Gathered(states, order, i, id)
  {
    hide CursorsApart, Syncs, Gathered, FirstNew, Newest;
    if i > start {
      GathersFrom(states, order, start, i - 1, id);
      GatheredStep(states, order, i - 1, id);
    }
  }

  lemma GatheredIsAllOn(states: seq<System>, order: seq<nat>, id: Uuid)
    requires |states| > |order| && Gathered(states, order, |order|, id)
    ensures AllOn(states[|order|], order, id)
  {
    assert order[..|order|] == order;
    hide ObjectOf;
  }

  /** Somebody has the object already, so it exists at every turn. */
  lemma GathersOnOld(states: seq<System>, order: seq<nat>, id: Uuid, e: nat)
    requires Syncs(states, order) && CursorsApart(states[0].store) && AllTowards(states, order, id)
    requires e in order && ObjectOf(states[0], e).Some?
    ensures AllOn(states[|order|], order, id)
  {
    hide SyncsAlone, CursorsApart;
    assert |states| == |order| + 1;
    hide Syncs, Newest, ObjectOf, Invariant;
    forall k: nat | k < |order| && FirstNew(states[0], order, k) ensures Newest(states[k], id) {
      ObjectStays(states, order, 0, k, e);
      AllApart(states, order, k);
      TurnIn(states, order, k);
      ObjectExists(states[k], e);
    }
    GathersFrom(states, order, 0, |order|, id);
    GatheredIsAllOn(states, order, id);
  }

  lemma ObjectExists(s: System, d: nat)
    requires Invariant(s) && ObjectOf(s, d).Some?
    ensures !NoObject(s)
  {
    MappedIsOurs(s, d);
    hide Ours, Invariant;
  }

  /** Nobody has one: the first turn settles it for everyone. */
  lemma GathersOnNew(states: seq<System>, order: seq<nat>) returns (id: Uuid)
    requires Syncs(states, order) && CursorsApart(states[0].store) && order != []
    requires forall d :: d in order ==> ObjectOf(states[0], d).None?
    ensures AllOn(states[|order|], order, id)
  {
    hide SyncsAlone, CursorsApart;
    assert |states| == |order| + 1;
    hide Syncs, Newest, ObjectOf, Invariant, NoObject, Turned, Gathered, FirstNew, AllOn;
    TurnIn(states, order, 0);
    HasObject(states[0], order[0], states[1]);
    id := ObjectOf(states[1], order[0]).value;
    FirstGathered(states, order, id);
    GathersFrom(states, order, 1, |order|, id);
    GatheredIsAllOn(states, order, id);
  }

  lemma FirstGathered(states: seq<System>, order: seq<nat>, id: Uuid)
    requires 0 < |order| < |states| && Turned(states[0], order[0], states[1])
    requires forall d :: d in order ==> ObjectOf(states[0], d).None?
    requires ObjectOf(states[1], order[0]) == Some(id)
    ensures Gathered(states, order, 1, id)
    ensures forall k: nat :: 1 <= k < |order| ==> !FirstNew(states[0], order, k)
  {
    hide Newest, ObjectOf, NoObject, CursorsApart;
    assert order[..1] == [order[0]];
    assert order[0] in order;
  }

  lemma AllOnMeansTowards(states: seq<System>, order: seq<nat>, id: Uuid)
    requires Syncs(states, order) && CursorsApart(states[0].store)
    requires AllOn(states[|order|], order, id)
    ensures AllTowards(states, order, id)
  {
    hide SyncsAlone, CursorsApart;
    assert |states| == |order| + 1;
    hide Syncs, Newest, ObjectOf, Invariant, NoObject;
    forall d | d in order && ObjectOf(states[0], d).Some? ensures ObjectOf(states[0], d) == Some(id) {
      ObjectStays(states, order, 0, |order|, d);
    }
    forall i: nat | FirstNew(states[0], order, i) ensures Newest(states[i], id) || NoObject(states[i]) {
      var d := order[i];
      ObjectAppears(states, order, i, d);
      AllApart(states, order, i);
      TurnIn(states, order, i);
      ObjectStays(states, order, i + 1, |order|, d);
    }
  }

  /**
   After any turns, all the devices that had one are on a single object if and only if the mapped
   ones were on one before, and the first unmapped one found exactly that one to be the newest.
   */
  lemma AllShareExactly(states: seq<System>, order: seq<nat>)
    requires Syncs(states, order) && CursorsApart(states[0].store)
    ensures (exists id :: AllOn(states[|order|], order, id)) <==> (exists id :: AllTowards(states, order, id))
  {
    hide SyncsAlone, CursorsApart;
    assert |states| == |order| + 1;
    hide Syncs, AllOn, AllTowards, ObjectOf;
    if id :| AllOn(states[|order|], order, id) {
      AllOnMeansTowards(states, order, id);
    }
    if id :| AllTowards(states, order, id) {
      if e :| e in order && ObjectOf(states[0], e).Some? {
        GathersOnOld(states, order, id, e);
      } else if order != [] {
        var joined := GathersOnNew(states, order);
      } else {
        NobodyOn(states[0], id);
      }
    }
  }

  lemma NobodyOn(s: System, id: Uuid)
    ensures AllOn(s, [], id)
  {
  }

  // ----- convergence of all devices -----

  /** Mapping, stored base, bookmark file and server all show the newest revision of the object. */
  ghost predicate ShowsNewest(s: System, d: nat, id: Uuid)
  {
    && d in s.devices && Ours(s, id)
    && s.devices[d].mapping == Some(Mapping(id, RevisionOf(s.store, id)))
    && s.devices[d].base == Some(Head(s, id))
    && ReadBookmarks(s.devices[d].file, s.account.profile).Ok?
    && SameTable(ReadBookmarks(s.devices[d].file, s.account.profile).value, Head(s, id))
  }

  ghost predicate AllShow(s: System, devices: seq<nat>, id: Uuid)
  {
    forall d :: d in devices ==> ShowsNewest(s, d, id)
  }

  lemma CurrentShows(s: System, d: nat, id: Uuid)
    requires Invariant(s) && Current(s, d) && ObjectOf(s, d) == Some(id)
    ensures ShowsNewest(s, d, id)
  {
    hide Invariant, ReadBookmarks, SameTable;
    CurrentShowsHead(s, d);
  }

  lemma LastInvariant(states: seq<System>, order: seq<nat>)
    requires Syncs(states, order) && order != []
    ensures Invariant(states[|order|])
  {
    var j := |order| - 1;
    assert SyncsAlone(states[j], order[j], states[j + 1]);
    hide Invariant;
    var found, newId :| CanSync(states[j], order[j], found, newId)
                     && states[j + 1] == SyncAlone(states[j], order[j], found, newId);
    BegunInvariant(states[j], order[j], found, newId);
  }

  lemma OnMeansShown(states: seq<System>, round1: seq<nat>, round2: seq<nat>, id: Uuid)
    requires Syncs(states, round1 + round2) && forall e :: e in round2 ==> e in round1
    requires AllOn(states[|round1| + |round2|], round2, id)
    ensures AllShow(states[|round1| + |round2|], round2, id)
  {
    assert |states| == |round1| + |round2| + 1;
    hide Syncs, ShowsNewest, Current, ObjectOf, Invariant;
    forall d | d in round2 ensures ShowsNewest(states[|round1| + |round2|], d, id) {
      Convergence(states, round1, round2, d);
      LastInvariant(states, round1 + round2);
      CurrentShows(states[|round1| + |round2|], d, id);
    }
  }

  /**
   Convergence of all devices, where the account has at most one bookmark object to begin with:
   after two undisturbed rounds one object is everyone's, and every mapping, stored base and
   bookmark file shows its newest revision.
   */
  lemma AllConverge(states: seq<System>, round1: seq<nat>, round2: seq<nat>) returns (id: Uuid)
    requires Syncs(states, round1 + round2) && forall e :: e in round2 ==> e in round1
    requires exists x :: OnlyObject(states[0], x)
    ensures AllShow(states[|round1| + |round2|], round2, id)
  {
    hide Syncs, OnlyObject, Ours;
    id := OneObjectThroughout(states, round1 + round2, |round1| + |round2|);
    var order := round1 + round2;
    assert order[..|order|] == order;
    OnMeansShown(states, round1, round2, id);
  }

  /** And in general, exactly when the devices head for one object. */
  lemma AllConvergeExactly(states: seq<System>, round1: seq<nat>, round2: seq<nat>)
    requires Syncs(states, round1 + round2) && (forall e :: e in round2 <==> e in round1)
    requires CursorsApart(states[0].store)
    ensures var end := states[|round1| + |round2|];
            (exists id :: AllShow(end, round2, id)) <==> (exists id :: AllTowards(states, round1 + round2, id))
  {
    var order := round1 + round2;
    assert |states| == |order| + 1;
    hide Syncs, AllShow, AllTowards, CursorsApart;
    AllShareExactly(states, order);
    var end := states[|round1| + |round2|];
    if id :| AllShow(end, round2, id) {
      ShownMeansOn(end, round1, round2, id);
    }
    if id :| AllOn(end, order, id) {
      assert AllOn(end, round2, id);
      OnMeansShown(states, round1, round2, id);
    }
  }

  lemma ShownMeansOn(s: System, round1: seq<nat>, round2: seq<nat>, id: Uuid)
    requires AllShow(s, round2, id) && forall e :: e in round2 <==> e in round1
    ensures AllOn(s, round1 + round2, id)
  {
    forall d | d in round1 + round2 ensures ObjectOf(s, d) == Some(id) {
      assert ShowsNewest(s, d, id);
    }
  }

  /** From then on, any number of further turns by these devices changes nothing at all. */
  lemma {:induction false} LaterRoundsChangeNothing(states: seq<System>, order: seq<nat>, i: nat)
    requires Syncs(states, order) && i <= |order|
    requires forall d :: d in order ==> Current(states[0], d)
    ensures states[i].store == states[0].store && states[i].devices == states[0].devices
    ensures states[i].account == states[0].account
  {
    hide Current, CanSync, SyncAlone;
    if i > 0 {
      var j := i - 1;
      LaterRoundsChangeNothing(states, order, j);
      assert SyncsAlone(states[j], order[j], states[i]);
      var found, newId :| CanSync(states[j], order[j], found, newId)
                       && states[i] == SyncAlone(states[j], order[j], found, newId);
      CurrentIn(states[0], order[j]);
      UntouchedStaysCurrent(states[0], states[j], order[j]);
      SteadyState(states[j], order[j], found, newId);
      SyncMakesCurrentQuietly(states[j], order[j], found, newId);
    }
  }

  /**
   Convergence for good: two undisturbed rounds, then any further turns by the same devices leave
   store and devices as they were after the second round.
   */
  lemma ConvergedForGood(states: seq<System>, round1: seq<nat>, round2: seq<nat>, later: seq<System>, more: seq<nat>,
                         i: nat)
    requires Syncs(states, round1 + round2) && forall e :: e in round2 ==> e in round1
    requires Syncs(later, more) && later[0] == states[|round1| + |round2|] && forall e :: e in more ==> e in round2
    requires i <= |more|
    ensures later[i].store == states[|round1|].store
    ensures later[i].devices == states[|round1| + |round2|].devices
  {
    assert |states| == |round1| + |round2| + 1 && |later| == |more| + 1;
    hide Syncs, Current;
    forall d | d in more ensures Current(later[0], d) {
      Convergence(states, round1, round2, d);
    }
    LaterRoundsChangeNothing(later, more, i);
    if round2 != [] { Convergence(states, round1, round2, round2[0]); }
  }
}
