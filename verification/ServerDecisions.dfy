/**
 When the server accepts a request, what it then answers and stores, and which refusal any other
 request meets.
 */
module ServerDecisions {
  import opened Wrappers
  import opened Bytes
  import opened Crypto
  import opened ObjectStore
  import opened VersionedObjects
  import Discovery

  // ----- puts -----

  predicate IsActive<T>(t: Tables<T>, device: Uuid)
  {
    device in t.devices && t.devices[device] == Active
  }

  predicate WellFormedPut<T>(request: PutRequest<T>)
  {
    && 1 <= |request.namespace| <= 128
    && request.envelope.version == 1 && request.envelope.algorithm == ALGORITHM
    && |request.envelope.nonce| == NONCE_BYTES
    && request.envelope.ciphertext.length <= MAX_PAYLOAD_BYTES
  }

  /** The revision and cursor that a write over this row would be given fit the database. */
  predicate HasRoom<T>(t: Tables<T>, id: Uuid)
  {
    (id in t.objects ==> t.objects[id].revision < I64_MAX) && NextCursor(t.changes) <= I64_MAX
  }

  /** The row that a put leaves, and the answer to it. */
  function PutRow<T>(t: Tables<T>, id: Uuid, request: PutRequest<T>): SyncObject<T>
    requires HasRoom(t, id)
  {
    SyncObject(id, request.namespace, if id in t.objects then t.objects[id].revision + 1 else 1, NextCursor(t.changes),
               request.deviceId, request.modifiedAt, false, Some(request.envelope))
  }

  function ChangeOf<T>(row: SyncObject<T>): Change
  {
    Change(row.cursor, row.id, row.namespace, row.revision, row.deviceId, row.modifiedAt, row.deleted)
  }

  /** What a committed write does: the row, one more line in the log, and nothing else. */
  ghost predicate Stores<T>(t: Tables<T>, row: SyncObject<T>, t': Tables<T>)
  {
    && t'.objects == t.objects[row.id := row]
    && t'.changes == t.changes + [ChangeOf(row)]
    && t'.devices == t.devices
  }

  /** A put is accepted exactly for a well-formed request of an active device over the right base. */
  lemma PutAcceptedExactly<T>(t: Tables<T>, id: Uuid, request: PutRequest<T>)
    ensures PutObject(t, id, request).Ok? <==>
              && WellFormedPut(request) && IsActive(t, request.deviceId) && HasRoom(t, id)
              && request.baseRevision == if id in t.objects then Some(t.objects[id].revision) else None
    ensures PutObject(t, id, request).Ok? ==>
              && PutObject(t, id, request).value.reply == PutRow(t, id, request)
              && Stores(t, PutRow(t, id, request), PutObject(t, id, request).value.tables)
  {
  }

  /** Every refusal, in the order in which the server looks for it. */
  lemma PutRefusedAs<T>(t: Tables<T>, id: Uuid, request: PutRequest<T>)
    requires PutObject(t, id, request).Err?
    ensures var e := PutObject(t, id, request).error;
            if !(1 <= |request.namespace| <= 128) then e == InvalidNamespace
            else if request.envelope.version != 1 || request.envelope.algorithm != ALGORITHM
                    || |request.envelope.nonce| != NONCE_BYTES then e == InvalidEnvelope
            else if request.envelope.ciphertext.length > MAX_PAYLOAD_BYTES then e == PayloadTooLarge
            else if request.deviceId !in t.devices then e == DeviceUnregistered
            else if t.devices[request.deviceId] == Revoked then e == DeviceRevoked
            else if id !in t.objects && request.baseRevision.Some? then e == ObjectMissing
            else if id in t.objects && request.baseRevision != Some(t.objects[id].revision) then
              e == RevisionConflict(t.objects[id].revision, t.objects[id].cursor)
            else e in {RevisionExhausted, NumericRange, DatabaseFull} && !HasRoom(t, id)
  {
  }

  // ----- deletions -----

  function Tombstone<T>(t: Tables<T>, id: Uuid, request: DeleteRequest): SyncObject<T>
    requires id in t.objects && HasRoom(t, id)
  {
    SyncObject(id, t.objects[id].namespace, t.objects[id].revision + 1, NextCursor(t.changes), request.deviceId,
               request.modifiedAt, true, None)
  }

  /** A deletion is accepted exactly from an active device over the object's current revision. */
  lemma DeleteAcceptedExactly<T>(t: Tables<T>, id: Uuid, request: DeleteRequest)
    ensures DeleteObject(t, id, request).Ok? <==>
              && IsActive(t, request.deviceId) && HasRoom(t, id)
              && id in t.objects && t.objects[id].revision == request.baseRevision
    ensures DeleteObject(t, id, request).Ok? ==>
              var c := DeleteObject(t, id, request).value;
              c.reply == Tombstone(t, id, request) && Stores(t, c.reply, c.tables)
  {
  }

  lemma DeleteRefusedAs<T>(t: Tables<T>, id: Uuid, request: DeleteRequest)
    requires DeleteObject(t, id, request).Err?
    ensures var e := DeleteObject(t, id, request).error;
            if request.deviceId !in t.devices then e == DeviceUnregistered
            else if t.devices[request.deviceId] == Revoked then e == DeviceRevoked
            else if id !in t.objects then e == ObjectNotFound
            else if t.objects[id].revision != request.baseRevision then
              e == RevisionConflict(t.objects[id].revision, t.objects[id].cursor)
            else e in {RevisionExhausted, NumericRange, DatabaseFull} && !HasRoom(t, id)
  {
  }

  /**
   The same over version lists: with the current revision as its base, a deletion is accepted exactly
   for an active device and while there is room; with any other base it is refused.
   */
  lemma MatchingDeleteAccepted<T>(t: Tables<T>, h: Objects<T>, id: Uuid, request: DeleteRequest)
    requires Represents(t, h) && VersionsOf(h, id) != []
    ensures DeleteObject(t, id, request).Ok? <==>
              && RevisionOf(h, id) == request.baseRevision
              && CheckDevice(t, request.deviceId).None?
              && RevisionOf(h, id) < I64_MAX
              && h.nextCursor <= I64_MAX
  {
    assert id in t.objects <==> VersionsOf(h, id) != [];
    DeleteAcceptedExactly(t, id, request);
    hide DeleteObject;
  }

  // ----- batches -----

  function ReplyTo<T>(t: Tables<T>, ops: seq<Operation<T>>, i: nat): Result<Committed<T, SyncObject<T>>, ApiError>
    requires i < |ops| && ApplyAll(t, ops[..i]).Ok?
  {
    Apply(ApplyAll(t, ops[..i]).value.tables, ops[i])
  }

  lemma {:induction false} PrefixesApply<T>(t: Tables<T>, ops: seq<Operation<T>>, i: nat)
    requires ApplyAll(t, ops).Ok? && i <= |ops|
    ensures ApplyAll(t, ops[..i]).Ok?
    decreases |ops|
  {
    hide Apply;
    if i < |ops| {
      assert ops[..|ops| - 1][..i] == ops[..i];
      PrefixesApply(t, ops[..|ops| - 1], i);
    } else {
      assert ops[..i] == ops;
    }
  }

  /** The replies of a committed batch are those of its operations, in order. */
  lemma {:induction false} BatchReplies<T>(t: Tables<T>, ops: seq<Operation<T>>, i: nat)
    requires ApplyAll(t, ops).Ok? && i < |ops|
    ensures ApplyAll(t, ops[..i]).Ok? && ReplyTo(t, ops, i).Ok?
    ensures |ApplyAll(t, ops).value.reply| == |ops|
    ensures ApplyAll(t, ops).value.reply[i] == ReplyTo(t, ops, i).value.reply
    decreases |ops|
  {
    hide Apply;
    var n := |ops| - 1;
    PrefixesApply(t, ops, i);
    ReplyCount(t, ops);
    ReplyCount(t, ops[..n]);
    if i < n {
      assert ops[..n][..i] == ops[..i];
      BatchReplies(t, ops[..n], i);
    }
  }

  lemma {:induction false} ReplyCount<T>(t: Tables<T>, ops: seq<Operation<T>>)
    requires ApplyAll(t, ops).Ok?
    ensures |ApplyAll(t, ops).value.reply| == |ops|
  {
    hide Apply;
    if ops != [] { ReplyCount(t, ops[..|ops| - 1]); }
  }

  /** A failed batch answers with the error of the first operation that fails in its turn. */
  lemma {:induction false} FirstErrorDecides<T>(t: Tables<T>, ops: seq<Operation<T>>) returns (i: nat)
    requires ApplyAll(t, ops).Err?
    ensures i < |ops| && ApplyAll(t, ops[..i]).Ok? && ReplyTo(t, ops, i).Err?
    ensures ApplyAll(t, ops).error == ReplyTo(t, ops, i).error
  {
    hide Apply;
    var n := |ops| - 1;
    if ApplyAll(t, ops[..n]).Err? {
      i := FirstErrorDecides(t, ops[..n]);
      assert ops[..n][..i] == ops[..i];
    } else {
      i := n;
    }
  }

  /** From one to a hundred operations are taken; then the operations decide. */
  lemma BatchSizes<T>(t: Tables<T>, ops: seq<Operation<T>>)
    ensures !(1 <= |ops| <= 100) ==> Batch(t, ops) == Err(InvalidBatchSize)
    ensures 1 <= |ops| <= 100 ==> Batch(t, ops) == ApplyAll(t, ops)
  {
  }

  // ----- devices -----

  /** A new device may write at once; a known one is left as it is; revoking only ever revokes. */
  lemma DevicesChangeOnly<T>(t: Tables<T>, request: Request<T>, device: Uuid)
    ensures IsActive(Handle(t, request), device) <==>
              (IsActive(t, device) && request != Revoke(device))
                || (device !in t.devices && request == Register(device))
    ensures device in Handle(t, request).devices <==> device in t.devices || request == Register(device)
  {
    match request
    case Single(op) => if Apply(t, op).Ok? { ApplyNamesDevice(t, op); }
    case Several(ops) => if Batch(t, ops).Ok? { ApplyAllKeepsDevices(t, ops); }
    case _ =>
  }

  lemma {:induction false} ApplyAllKeepsDevices<T>(t: Tables<T>, ops: seq<Operation<T>>)
    requires ApplyAll(t, ops).Ok?
    ensures ApplyAll(t, ops).value.tables.devices == t.devices
  {
    hide Apply;
    if ops != [] {
      ApplyAllKeepsDevices(t, ops[..|ops| - 1]);
      ApplyNamesDevice(ApplyAll(t, ops[..|ops| - 1]).value.tables, ops[|ops| - 1]);
    }
  }

  // ----- pages -----

  /** The entries behind the cursor, up to the limit, and where the next request goes on. */
  lemma PagesExactly(changes: seq<Change>, after: nat, limit: nat)
    requires CursorsGrow(changes)
    ensures ChangesPage(changes, after, limit).Ok? <==> 1 <= limit <= 1000 && after <= I64_MAX
    ensures ChangesPage(changes, after, limit).Ok? ==>
              var page := ChangesPage(changes, after, limit).value;
              exists n: nat, m: nat ::
                && n <= m <= |changes| && page.changes == changes[n..m]
                && (forall i :: 0 <= i < n ==> changes[i].cursor <= after)
                && (forall i :: n <= i < |changes| ==> changes[i].cursor > after)
                && (page.hasMore <==> m < |changes|) && (page.hasMore ==> m - n == limit) && m - n <= limit
                && page.nextCursor == if n == m then after else changes[m - 1].cursor
  {
    if ChangesPage(changes, after, limit).Ok? {
      var n := FirstBehind(changes, after);
      Discovery.AfterSplit(changes, n, after);
      var m := if |changes| - n <= limit then |changes| else n + limit;
      var page := ChangesPage(changes, after, limit).value;
      assert page.changes == changes[n..m];
      hide After;
    }
  }

  /** Cursors grow, so the entries up to a cursor are a prefix. */
  lemma {:induction false} FirstBehind(changes: seq<Change>, after: nat) returns (n: nat)
    requires CursorsGrow(changes)
    ensures Discovery.SplitAt(changes, n, after)
  {
    if changes == [] {
      n := 0;
    } else if changes[|changes| - 1].cursor <= after {
      n := |changes|;
    } else {
      n := FirstBehind(changes[..|changes| - 1], after);
    }
  }
}
