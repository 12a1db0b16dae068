/**
 What encrypted uploads make of the server: every object is a list of versions, written one
 after another under compare-and-swap. The tables and their ciphertexts refine these lists.
 */
module VersionedObjects {
  import opened Wrappers
  import opened Bytes
  import opened Crypto
  import opened ObjectStore

  datatype Content<+T> = Live(author: MasterKey, payload: T) | Tombstone

  datatype Version<+T> = Version(namespace: Text, cursor: nat, content: Content<T>)

  /** Revision r of an object is the r-th version of its list. */
  datatype Objects<T> = Objects(versions: map<Uuid, seq<Version<T>>>, nextCursor: nat)

  function VersionsOf<T>(h: Objects<T>, id: Uuid): seq<Version<T>>
  {
    if id in h.versions then h.versions[id] else []
  }

  function RevisionOf<T>(h: Objects<T>, id: Uuid): nat
  {
    |VersionsOf(h, id)|
  }

  /** The precondition of a write: create only what is absent, replace only what was read. */
  predicate BaseMatches<T>(h: Objects<T>, id: Uuid, base: Option<nat>)
  {
    if VersionsOf(h, id) == [] then base.None? else base == Some(RevisionOf(h, id))
  }

  function Append<T>(h: Objects<T>, id: Uuid, namespace: Text, content: Content<T>): Objects<T>
  {
    Objects(h.versions[id := VersionsOf(h, id) + [Version(namespace, h.nextCursor, content)]], h.nextCursor + 1)
  }

  // ----- the client's requests -----

  datatype Upload<+T> = Upload(
    master: MasterKey, deviceId: Uuid, namespace: Text, id: Uuid, base: Option<U64>,
    modifiedAt: Timestamp, nonce: seq<Byte>, payload: T, size: nat)

  /** The revision the client authenticates before the server has assigned any. */
  function ExpectedRevision(base: Option<U64>): U64
  {
    match base
    case None => 1
    case Some(r) => if r == 0xFFFF_FFFF_FFFF_FFFF then r else r + 1
  }

  function MetadataFor<T>(u: Upload<T>): Metadata
  {
    Metadata(PROTOCOL, u.id, u.namespace, u.deviceId, ExpectedRevision(u.base), u.modifiedAt)
  }

  predicate Sealable<T>(u: Upload<T>)
  {
    |u.nonce| == NONCE_BYTES && Encrypt(u.master, MetadataFor(u), u.nonce, u.payload, u.size).Ok?
  }

  function RequestFor<T>(u: Upload<T>): PutRequest<T>
    requires Sealable(u)
  {
    PutRequest(u.namespace, u.base, u.deviceId, u.modifiedAt,
               Encrypt(u.master, MetadataFor(u), u.nonce, u.payload, u.size).value)
  }

  // ----- refinement -----

  /** The row holds the version: its place in the log, and a ciphertext only its author opens. */
  ghost predicate Holds<T>(row: SyncObject<T>, v: Version<T>)
  {
    && row.namespace == v.namespace
    && row.cursor == v.cursor
    && (row.deleted <==> v.content.Tombstone?)
    && (row.envelope.None? <==> v.content.Tombstone?)
    && (v.content.Live? ==>
          && Decrypt(v.content.author, row) == Ok(v.content.payload)
          && forall m :: m != v.content.author ==> Decrypt(m, row) == Err(AuthenticationFailed))
  }

  ghost predicate Represents<T>(t: Tables<T>, h: Objects<T>)
  {
    && h.nextCursor == NextCursor(t.changes)
    && (forall id: Uuid :: id in t.objects <==> VersionsOf(h, id) != [])
    && forall id: Uuid :: id in t.objects ==>
         && t.objects[id].revision == RevisionOf(h, id)
         && Holds(t.objects[id], VersionsOf(h, id)[RevisionOf(h, id) - 1])
  }

  lemma RecordRefines<T>(t: Tables<T>, h: Objects<T>, row: SyncObject<T>, content: Content<T>)
    requires Represents(t, h)
    requires Record(t, row).Ok?
    requires row.revision == RevisionOf(h, row.id) + 1
    requires Holds(Record(t, row).value.reply, Version(row.namespace, h.nextCursor, content))
    ensures Represents(Record(t, row).value.tables, Append(h, row.id, row.namespace, content))
  {
    hide Holds;
    var t', h' := Record(t, row).value.tables, Append(h, row.id, row.namespace, content);
    forall id: Uuid ensures id in t'.objects <==> VersionsOf(h', id) != [] {
      assert id in t.objects <==> VersionsOf(h, id) != [];
    }
    forall id: Uuid | id in t'.objects
      ensures t'.objects[id].revision == RevisionOf(h', id)
           && Holds(t'.objects[id], VersionsOf(h', id)[RevisionOf(h', id) - 1]) {
      assert id in t.objects <==> VersionsOf(h, id) != [];
      if id != row.id {
        assert VersionsOf(h', id) == VersionsOf(h, id);
      }
    }
  }

  /**
   An accepted upload had the right base, and appends exactly its payload as the next version:
   the revision its author authenticated is the one the server assigned, so it decrypts.
   */
  lemma UploadRefines<T>(t: Tables<T>, h: Objects<T>, u: Upload<T>)
    requires Represents(t, h)
    requires Sealable(u)
    requires PutObject(t, u.id, RequestFor(u)).Ok?
    ensures BaseMatches(h, u.id, u.base)
    ensures Represents(PutObject(t, u.id, RequestFor(u)).value.tables,
                       Append(h, u.id, u.namespace, Live(u.master, u.payload)))
  {
    hide Decrypt, AssociatedData, DeriveKey;
    assert u.id in t.objects <==> VersionsOf(h, u.id) != [];
    var row := PutObject(t, u.id, RequestFor(u)).value.reply;
    assert MetadataOf(row) == MetadataFor(u);
    DecryptsExactly(u.master, MetadataFor(u), u.nonce, u.payload, u.size, u.master, row);
    forall m | m != u.master ensures Decrypt(m, row) == Err(AuthenticationFailed) {
      DecryptsExactly(u.master, MetadataFor(u), u.nonce, u.payload, u.size, m, row);
    }
    RecordRefines(t, h, row.(cursor := 0), Live(u.master, u.payload));
  }

  /** The server refuses an upload over a stale or invented base, whatever else is right. */
  lemma StaleUploadRefused<T>(t: Tables<T>, h: Objects<T>, u: Upload<T>)
    requires Represents(t, h)
    requires Sealable(u)
    requires !BaseMatches(h, u.id, u.base)
    ensures PutObject(t, u.id, RequestFor(u)).Err?
  {
    assert u.id in t.objects <==> VersionsOf(h, u.id) != [];
  }

  /** And with the right base it refuses only for the reasons listed here. */
  lemma MatchingUploadAccepted<T>(t: Tables<T>, h: Objects<T>, u: Upload<T>)
    requires Represents(t, h)
    requires Sealable(u)
    requires BaseMatches(h, u.id, u.base)
    ensures PutObject(t, u.id, RequestFor(u)).Ok? <==>
              && CheckDevice(t, u.deviceId).None?
              && 0 < |u.namespace| <= 128
              && u.size + TAG_BYTES <= MAX_PAYLOAD_BYTES
              && RevisionOf(h, u.id) < I64_MAX
              && h.nextCursor <= I64_MAX
  {
    assert u.id in t.objects <==> VersionsOf(h, u.id) != [];
  }

  lemma DeleteRefines<T>(t: Tables<T>, h: Objects<T>, id: Uuid, request: DeleteRequest)
    requires Represents(t, h)
    requires DeleteObject(t, id, request).Ok?
    ensures VersionsOf(h, id) != [] && RevisionOf(h, id) == request.baseRevision
    ensures Represents(DeleteObject(t, id, request).value.tables,
                       Append(h, id, VersionsOf(h, id)[RevisionOf(h, id) - 1].namespace, Tombstone))
  {
    assert id in t.objects <==> VersionsOf(h, id) != [];
    RecordRefines(t, h, DeleteObject(t, id, request).value.reply.(cursor := 0), Tombstone);
  }

  // ----- whole runs of clients -----

  datatype Call<+T> = Send(u: Upload<T>) | Remove(id: Uuid, request: DeleteRequest)

  /** One call of some client, as it leaves the tables and, in step, the version lists. */
  ghost function Perform<T>(t: Tables<T>, h: Objects<T>, call: Call<T>): (Tables<T>, Objects<T>)
  {
    match call
    case Send(u) =>
      if Sealable(u) && PutObject(t, u.id, RequestFor(u)).Ok? then
        (PutObject(t, u.id, RequestFor(u)).value.tables, Append(h, u.id, u.namespace, Live(u.master, u.payload)))
      else (t, h)
    case Remove(id, request) =>
      if DeleteObject(t, id, request).Ok? && VersionsOf(h, id) != [] then
        (DeleteObject(t, id, request).value.tables,
         Append(h, id, VersionsOf(h, id)[RevisionOf(h, id) - 1].namespace, Tombstone))
      else (t, h)
  }

  ghost function PerformAll<T>(t: Tables<T>, h: Objects<T>, calls: seq<Call<T>>): (Tables<T>, Objects<T>)
  {
    if calls == [] then (t, h)
    else
      var before := PerformAll(t, h, calls[..|calls| - 1]);
      Perform(before.0, before.1, calls[|calls| - 1])
  }

  /**
   Over every run of uploads and deletions by any clients with any keys: each live row opens
   for its author under the metadata the server returns, to the payload last uploaded, and for
   nobody else.
   */
  lemma {:induction false} AcceptedWritesDecrypt<T>(t: Tables<T>, h: Objects<T>, calls: seq<Call<T>>)
    requires Represents(t, h)
    ensures Represents(PerformAll(t, h, calls).0, PerformAll(t, h, calls).1)
  {
    hide Represents, Perform;
    if calls != [] {
      AcceptedWritesDecrypt(t, h, calls[..|calls| - 1]);
      var before := PerformAll(t, h, calls[..|calls| - 1]);
      PerformRefines(before.0, before.1, calls[|calls| - 1]);
    }
  }

  lemma PerformRefines<T>(t: Tables<T>, h: Objects<T>, call: Call<T>)
    requires Represents(t, h)
    ensures Represents(Perform(t, h, call).0, Perform(t, h, call).1)
  {
    hide Represents, PutObject, DeleteObject, Sealable, Append, RequestFor;
    match call
    case Send(u) => if Sealable(u) && PutObject(t, u.id, RequestFor(u)).Ok? { UploadRefines(t, h, u); }
    case Remove(id, request) => if DeleteObject(t, id, request).Ok? { DeleteRefines(t, h, id, request); }
  }

  lemma NothingRepresented<T>(devices: map<Uuid, DeviceState>)
    ensures Represents(Tables<T>.Tables(map[], [], devices), Objects(map[], 1))
  {
  }
}
