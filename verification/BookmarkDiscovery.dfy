/**
 Discovery of the account's bookmark object: candidates come from the log, and each is downloaded
 and opened with the recovery key, from whatever row the server holds at that moment.
 */
module BookmarkDiscovery {
  import opened Wrappers
  import opened Bytes
  import opened Crypto
  import opened Bookmarks
  import opened ObjectStore
  import opened VersionedObjects
  import opened Payloads
  import opened Discovery
  import opened BookmarkSync
  import opened BookmarkConvergence

  datatype LoadError = NotFound | UnexpectedNamespace | CannotOpen(error: CryptoError) | NotASnapshot

  /** Only a failed authentication marks a candidate as somebody else's; every other error counts. */
  function OpenBookmarks(t: Tables<Payload>, master: MasterKey, id: Uuid): Load<(Snapshot, Mapping), LoadError>
  {
    if id !in t.objects then Failed(NotFound)
    else if t.objects[id].namespace != BOOKMARK_NAMESPACE then Failed(UnexpectedNamespace)
    else
      match Decrypt(master, t.objects[id])
      case Err(AuthenticationFailed) => Undecryptable
      case Err(e) => Failed(CannotOpen(e))
      case Ok(payload) =>
        if payload.BookmarkPayload?
        then Loaded(payload.snapshot.profileDirectory, (payload.snapshot, Mapping(id, t.objects[id].revision)))
        else Failed(NotASnapshot)
  }

  /** The row opens to a bookmark snapshot of the profile, at this revision. */
  ghost predicate OpensTo(t: Tables<Payload>, master: MasterKey, profile: string, id: Uuid, snapshot: Snapshot,
                          proof: Mapping)
  {
    && id in t.objects && t.objects[id].namespace == BOOKMARK_NAMESPACE
    && Decrypt(master, t.objects[id]) == Ok(BookmarkPayload(snapshot))
    && snapshot.profileDirectory == profile
    && proof == Mapping(id, t.objects[id].revision)
  }

  /** The row is sealed with another key, or opens to another profile's snapshot. */
  ghost predicate OpensElsewhere(t: Tables<Payload>, master: MasterKey, profile: string, id: Uuid)
  {
    && id in t.objects && t.objects[id].namespace == BOOKMARK_NAMESPACE
    && match Decrypt(master, t.objects[id]) {
         case Err(e) => e == AuthenticationFailed
         case Ok(payload) => payload.BookmarkPayload? && payload.snapshot.profileDirectory != profile
       }
  }

  lemma PassedOverExactly(t: Tables<Payload>, master: MasterKey, profile: string, id: Uuid)
    ensures PassedOver(OpenBookmarks(t, master, id), profile) <==> OpensElsewhere(t, master, profile, id)
  {
    hide Decrypt;
  }

  lemma LoadedExactly(t: Tables<Payload>, master: MasterKey, profile: string, id: Uuid, snapshot: Snapshot,
                      proof: Mapping)
    ensures OpenBookmarks(t, master, id) == Loaded(profile, (snapshot, proof))
            <==> OpensTo(t, master, profile, id, snapshot, proof)
  {
    hide Decrypt;
  }

  /** What each error says of the row; authentication failing is none of them. */
  ghost predicate FailsFor(t: Tables<Payload>, master: MasterKey, id: Uuid, error: LoadError)
  {
    match error
    case NotFound => id !in t.objects
    case UnexpectedNamespace => id in t.objects && t.objects[id].namespace != BOOKMARK_NAMESPACE
    case CannotOpen(e) =>
      && id in t.objects && t.objects[id].namespace == BOOKMARK_NAMESPACE
      && Decrypt(master, t.objects[id]) == Err(e) && e != AuthenticationFailed
    case NotASnapshot =>
      && id in t.objects && t.objects[id].namespace == BOOKMARK_NAMESPACE
      && exists payload :: Decrypt(master, t.objects[id]) == Ok(payload) && !payload.BookmarkPayload?
  }

  lemma FailsExactly(t: Tables<Payload>, master: MasterKey, id: Uuid, error: LoadError)
    ensures OpenBookmarks(t, master, id) == Failed(error) <==> FailsFor(t, master, id, error)
  {
    hide Decrypt;
  }

  /**
   A candidate deleted between the page that listed it and its download is not passed over: it has
   no envelope to open, and the discovery that comes to it fails.
   */
  lemma DeletedInBetweenFails(t: Tables<Payload>, master: MasterKey, profile: string, id: Uuid)
    requires Agrees(t) && id in t.objects && t.objects[id].deleted && t.objects[id].namespace == BOOKMARK_NAMESPACE
    ensures OpenBookmarks(t, master, id) == Failed(CannotOpen(Deleted))
    ensures !PassedOver(OpenBookmarks(t, master, id), profile)
  {
    assert ObjectAgrees(t, id);
    hide Agrees, LogOf;
  }

  /**
   Discovery while others write. `moment` says how far the server had come when each candidate was
   downloaded. The answer opened for the profile then, and every newer live candidate was somebody
   else's or another profile's when it was opened; or there is none; or the newest candidate that
   is neither could not be opened.
   */
  method DiscoverBookmarks(tablesAt: nat -> Tables<Payload>, ghost settled: nat, moment: Uuid -> nat,
                           master: MasterKey, profile: string)
    returns (r: Result<Option<(Uuid, (Snapshot, Mapping))>, DiscoveryError<LoadError>>, last: nat)
    requires forall k :: Agrees(tablesAt(k)) && KeepsNamespaces(tablesAt(k).changes)
    requires Growing((k: nat) => tablesAt(k).changes, settled)
    ensures r.Ok? && r.value.Some? ==>
              var (id, (snapshot, proof)) := r.value.value;
              && LiveIn(tablesAt(last), BOOKMARK_NAMESPACE, id)
              && OpensTo(tablesAt(moment(id)), master, profile, id, snapshot, proof)
              && forall other :: NewerLive(tablesAt(last), other, id) ==>
                   OpensElsewhere(tablesAt(moment(other)), master, profile, other)
    ensures r.Ok? && r.value.None? ==>
              forall id :: LiveIn(tablesAt(last), BOOKMARK_NAMESPACE, id) ==>
                       OpensElsewhere(tablesAt(moment(id)), master, profile, id)
    ensures r.Err? ==>
              exists id, error ::
                           && LiveIn(tablesAt(last), BOOKMARK_NAMESPACE, id)
                           && FailsFor(tablesAt(moment(id)), master, id, error) && r.error == LoadFailed(error)
                           && forall other :: NewerLive(tablesAt(last), other, id) ==>
                                OpensElsewhere(tablesAt(moment(other)), master, profile, other)
  {
    hide Agrees, KeepsNamespaces, Growing, OpenBookmarks, OpensTo, OpensElsewhere, PassedOver, LiveIn, FailsFor;
    var load := (id: Uuid) => OpenBookmarks(tablesAt(moment(id)), master, id);
    r, last := Discover(tablesAt, settled, BOOKMARK_NAMESPACE, load, profile);
    forall id ensures PassedOver(load(id), profile) <==> OpensElsewhere(tablesAt(moment(id)), master, profile, id) {
      PassedOverExactly(tablesAt(moment(id)), master, profile, id);
    }
    if r.Ok? && r.value.Some? {
      var (id, (snapshot, proof)) := r.value.value;
      LoadedExactly(tablesAt(moment(id)), master, profile, id, snapshot, proof);
    }
    if r.Err? {
      forall id, error
        ensures OpenBookmarks(tablesAt(moment(id)), master, id) == Failed(error) <==>
                FailsFor(tablesAt(moment(id)), master, id, error) {
        FailsExactly(tablesAt(moment(id)), master, id, error);
      }
    }
  }

  predicate NewerLive(t: Tables<Payload>, other: Uuid, id: Uuid)
  {
    id in t.objects && LiveIn(t, BOOKMARK_NAMESPACE, other) && t.objects[other].cursor > t.objects[id].cursor
  }

  // ----- with nobody writing -----

  /** What a row says of its object in the state machine. */
  lemma RowIsOurs(t: Tables<Payload>, s: System, id: Uuid)
    requires Represents(t, s.store) && Agrees(t)
    ensures Ours(s, id) <==>
              && LiveIn(t, BOOKMARK_NAMESPACE, id)
              && exists snapshot, proof :: OpensTo(t, s.account.master, s.account.profile, id, snapshot, proof)
    ensures id in t.objects ==> LastCursor(s, id) == t.objects[id].cursor
    ensures Ours(s, id) ==> !OpensElsewhere(t, s.account.master, s.account.profile, id)
    ensures forall snapshot, proof ::
              Ours(s, id) && OpensTo(t, s.account.master, s.account.profile, id, snapshot, proof) ==>
              snapshot == Head(s, id) && proof == Mapping(id, RevisionOf(s.store, id))
  {
    hide Decrypt, LogOf, Agrees;
    assert id in t.objects <==> VersionsOf(s.store, id) != [];
    if id in t.objects {
      var row, v := t.objects[id], VersionsOf(s.store, id)[RevisionOf(s.store, id) - 1];
      assert Holds(row, v);
      if Ours(s, id) {
        assert OpensTo(t, s.account.master, s.account.profile, id, v.content.payload.snapshot,
                       Mapping(id, row.revision));
      }
    }
  }

  lemma QuietGrowing(tablesAt: nat -> Tables<Payload>, t: Tables<Payload>)
    requires Agrees(t) && Bounded(t.changes) && forall k :: tablesAt(k) == t
    ensures Growing((k: nat) => tablesAt(k).changes, 0)
  {
    AgreesMeansGrow(t);
    hide Agrees;
  }

  /**
   With nobody writing, what discovery answers is what BookmarkConvergence takes it to: the newest
   of the account's objects, at its newest revision, or none if there is none.
   */
  method DiscoverQuietly(t: Tables<Payload>, ghost s: System, master: MasterKey, profile: string)
    returns (r: Result<Option<(Uuid, (Snapshot, Mapping))>, DiscoveryError<LoadError>>)
    requires Agrees(t) && Bounded(t.changes) && KeepsNamespaces(t.changes)
    requires Represents(t, s.store) && s.account == Account(master, profile)
    ensures r.Ok? ==> Discovers(s, if r.value.Some? then Some(r.value.value.0) else None)
    ensures r.Ok? && r.value.Some? ==>
              var (id, (snapshot, proof)) := r.value.value;
              Ours(s, id) && snapshot == Head(s, id) && proof == Mapping(id, RevisionOf(s.store, id))
    ensures r.Err? ==>
              exists id, error :: LiveIn(t, BOOKMARK_NAMESPACE, id) && FailsFor(t, master, id, error)
                                  && r.error == LoadFailed(error)
  {
    hide Agrees, Bounded, KeepsNamespaces, Growing, OpensTo, OpensElsewhere, Represents, Ours, LastCursor, LiveIn,
      FailsFor;
    var tablesAt, moment := (k: nat) => t, (id: Uuid) => 0;
    QuietGrowing(tablesAt, t);
    var last;
    r, last := DiscoverBookmarks(tablesAt, 0, moment, master, profile);
    assert tablesAt(last) == t && forall id: Uuid :: tablesAt(moment(id)) == t;
    if r.Ok? {
      forall id: Uuid ensures Ours(s, id) ==>
               LiveIn(t, BOOKMARK_NAMESPACE, id) && !OpensElsewhere(t, master, profile, id) {
        RowIsOurs(t, s, id);
      }
      if r.value.Some? {
        var (id, (snapshot, proof)) := r.value.value;
        RowIsOurs(t, s, id);
        forall other: Uuid | Ours(s, other) ensures LastCursor(s, other) <= LastCursor(s, id) {
          RowIsOurs(t, s, other);
          LiveIsRow(t, id);
          LiveIsRow(t, other);
          assert !NewerLive(t, other, id);
        }
      }
    }
  }

  lemma LiveIsRow(t: Tables<Payload>, id: Uuid)
    requires LiveIn(t, BOOKMARK_NAMESPACE, id)
    ensures id in t.objects
  {
  }
}
