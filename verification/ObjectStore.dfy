/**
 The server's tables and the transactions on them: compare-and-swap revisions, an append-only
 change log with growing cursors, tombstones and all-or-nothing batches.
 */
module ObjectStore {
  import opened Wrappers
  import opened Bytes
  import opened Crypto

  const MAX_BATCH_OPERATIONS := 100
  const MAX_PAYLOAD_BYTES := 4 * 1024 * 1024
  const MAX_CHANGES_LIMIT := 1000
  /** SQLite stores integers signed; larger values are refused. */
  const I64_MAX := 0x7FFF_FFFF_FFFF_FFFF

  datatype Change = Change(
    cursor: nat, objectId: Uuid, namespace: Text, revision: U64, deviceId: Uuid,
    modifiedAt: Timestamp, deleted: bool)

  datatype Tables<T> = Tables(
    objects: map<Uuid, SyncObject<T>>, changes: seq<Change>, devices: map<Uuid, DeviceState>)

  datatype DeviceState = Active | Revoked

  datatype PutRequest<T> = PutRequest(
    namespace: Text, baseRevision: Option<U64>, deviceId: Uuid, modifiedAt: Timestamp, envelope: Envelope<T>)

  datatype DeleteRequest = DeleteRequest(baseRevision: U64, deviceId: Uuid, modifiedAt: Timestamp)

  datatype Operation<T> = Put(id: Uuid, put: PutRequest<T>) | Delete(id: Uuid, delete: DeleteRequest)

  datatype ApiError =
    | InvalidNamespace | InvalidEnvelope | PayloadTooLarge
    | DeviceRevoked | DeviceUnregistered
    | RevisionConflict(currentRevision: nat, currentCursor: nat)
    | ObjectMissing | ObjectNotFound | RevisionExhausted | NumericRange | DatabaseFull
    | InvalidBatchSize | InvalidLimit

  datatype Committed<T, R> = Committed(tables: Tables<T>, reply: R)

  // ----- single transactions -----

  function ValidatePut<T>(request: PutRequest<T>): Option<ApiError>
  {
    if request.namespace == [] || |request.namespace| > 128 then Some(InvalidNamespace)
    else if request.envelope.version != 1 || request.envelope.algorithm != ALGORITHM
         || |request.envelope.nonce| != NONCE_BYTES then Some(InvalidEnvelope)
    else if request.envelope.ciphertext.length > MAX_PAYLOAD_BYTES then Some(PayloadTooLarge)
    else None
  }

  function CheckDevice<T>(t: Tables<T>, id: Uuid): Option<ApiError>
  {
    if id !in t.devices then Some(DeviceUnregistered)
    else if t.devices[id] == Revoked then Some(DeviceRevoked)
    else None
  }

  /** Row ids are never reused, so the next one is above every earlier one. */
  function NextCursor(changes: seq<Change>): nat
  {
    if changes == [] then 1 else changes[|changes| - 1].cursor + 1
  }

  /** Appends the change and stores the row it describes, under one new cursor. */
  function Record<T>(t: Tables<T>, row: SyncObject<T>): Result<Committed<T, SyncObject<T>>, ApiError>
  {
    var cursor := NextCursor(t.changes);
    if row.revision > I64_MAX then Err(NumericRange)
    else if cursor > I64_MAX then Err(DatabaseFull)
    else
      var row := row.(cursor := cursor);
      var change := Change(cursor, row.id, row.namespace, row.revision, row.deviceId, row.modifiedAt, row.deleted);
      Ok(Committed(t.(changes := t.changes + [change], objects := t.objects[row.id := row]), row))
  }

  function PutObject<T>(t: Tables<T>, id: Uuid, request: PutRequest<T>): Result<Committed<T, SyncObject<T>>, ApiError>
  {
    if ValidatePut(request).Some? then Err(ValidatePut(request).value)
    else if CheckDevice(t, request.deviceId).Some? then Err(CheckDevice(t, request.deviceId).value)
    else
      var row := (revision: U64) => SyncObject(id, request.namespace, revision, 0, request.deviceId,
                                               request.modifiedAt, false, Some(request.envelope));
      if id !in t.objects then
        if request.baseRevision.None? then Record(t, row(1)) else Err(ObjectMissing)
      else
        var current := t.objects[id];
        if request.baseRevision != Some(current.revision) then
          Err(RevisionConflict(current.revision, current.cursor))
        else if current.revision == 0xFFFF_FFFF_FFFF_FFFF then Err(RevisionExhausted)
        else Record(t, row(current.revision + 1))
  }

  function DeleteObject<T>(t: Tables<T>, id: Uuid, request: DeleteRequest)
    : Result<Committed<T, SyncObject<T>>, ApiError>
  {
    if CheckDevice(t, request.deviceId).Some? then Err(CheckDevice(t, request.deviceId).value)
    else if id !in t.objects then Err(ObjectNotFound)
    else
      var current := t.objects[id];
      if current.revision != request.baseRevision then Err(RevisionConflict(current.revision, current.cursor))
      else if current.revision == 0xFFFF_FFFF_FFFF_FFFF then Err(RevisionExhausted)
      else Record(t, SyncObject(id, current.namespace, current.revision + 1, 0, request.deviceId,
                                request.modifiedAt, true, None))
  }

  function Apply<T>(t: Tables<T>, op: Operation<T>): Result<Committed<T, SyncObject<T>>, ApiError>
  {
    match op
    case Put(id, request) => PutObject(t, id, request)
    case Delete(id, request) => DeleteObject(t, id, request)
  }

  // ----- batches -----

  /** The operations of one transaction, in order; the first error decides. */
  function ApplyAll<T>(t: Tables<T>, ops: seq<Operation<T>>): Result<Committed<T, seq<SyncObject<T>>>, ApiError>
  {
    if ops == [] then Ok(Committed(t, []))
    else
      match ApplyAll(t, ops[..|ops| - 1])
      case Err(e) => Err(e)
      case Ok(Committed(t', replies)) =>
        match Apply(t', ops[|ops| - 1])
        case Err(e) => Err(e)
        case Ok(Committed(t'', reply)) => Ok(Committed(t'', replies + [reply]))
  }

  function Batch<T>(t: Tables<T>, ops: seq<Operation<T>>): Result<Committed<T, seq<SyncObject<T>>>, ApiError>
  {
    if ops == [] || |ops| > MAX_BATCH_OPERATIONS then Err(InvalidBatchSize) else ApplyAll(t, ops)
  }

  // ----- paged reads -----

  datatype Page = Page(changes: seq<Change>, nextCursor: nat, hasMore: bool)

  function After(changes: seq<Change>, after: nat): seq<Change>
  {
    if changes == [] then []
    else
      var rest := After(changes[..|changes| - 1], after);
      var last := changes[|changes| - 1];
      if last.cursor > after then rest + [last] else rest
  }

  function ChangesPage(changes: seq<Change>, after: nat, limit: nat): Result<Page, ApiError>
  {
    if limit == 0 || limit > MAX_CHANGES_LIMIT then Err(InvalidLimit)
    else if after > I64_MAX then Err(NumericRange)
    else
      var rows := After(changes, after);
      var page := if |rows| <= limit then rows else rows[..limit];
      Ok(Page(page, if page == [] then after else page[|page| - 1].cursor, |rows| > limit))
  }

  // ----- the agreement of rows and log -----

  function LogOf(changes: seq<Change>, id: Uuid): seq<Change>
  {
    if changes == [] then []
    else
      var rest := LogOf(changes[..|changes| - 1], id);
      var last := changes[|changes| - 1];
      if last.objectId == id then rest + [last] else rest
  }

  predicate CursorsGrow(changes: seq<Change>)
  {
    && (forall i :: 0 <= i < |changes| ==> changes[i].cursor > 0)
    && forall i, j :: 0 <= i < j < |changes| ==> changes[i].cursor < changes[j].cursor
  }

  /** The row is what the change says, with an envelope exactly when it is not a tombstone. */
  predicate Describes<T>(change: Change, row: SyncObject<T>)
  {
    && change == Change(row.cursor, row.id, row.namespace, row.revision, row.deviceId, row.modifiedAt, row.deleted)
    && (row.deleted <==> row.envelope.None?)
  }

  predicate RevisionsFromOne(log: seq<Change>)
  {
    forall i :: 0 <= i < |log| ==> log[i].revision == i + 1
  }

  /** One object: revisions 1, 2, ... in log order, and its row is the last of them. */
  predicate ObjectAgrees<T>(t: Tables<T>, id: Uuid)
  {
    var log := LogOf(t.changes, id);
    && RevisionsFromOne(log)
    && (id in t.objects <==> log != [])
    && (id in t.objects ==> t.objects[id].id == id && Describes(log[|log| - 1], t.objects[id]))
  }

  ghost predicate Agrees<T>(t: Tables<T>)
  {
    && CursorsGrow(t.changes)
    && forall id: Uuid :: ObjectAgrees(t, id)
  }

  lemma LogOfAppend(changes: seq<Change>, change: Change, id: Uuid)
    ensures LogOf(changes + [change], id)
         == if change.objectId == id then LogOf(changes, id) + [change] else LogOf(changes, id)
  {
    assert (changes + [change])[..|changes|] == changes;
  }

  lemma RecordAgrees<T>(t: Tables<T>, row: SyncObject<T>)
    requires Agrees(t)
    requires Record(t, row).Ok?
    requires row.revision == (if row.id in t.objects then t.objects[row.id].revision + 1 else 1)
    requires row.deleted <==> row.envelope.None?
    ensures Agrees(Record(t, row).value.tables)
  {
    hide LogOf;
    var t' := Record(t, row).value.tables;
    var change := t'.changes[|t.changes|];
    forall id: Uuid ensures ObjectAgrees(t', id) {
      assert ObjectAgrees(t, id);
      LogOfAppend(t.changes, change, id);
    }
  }

  lemma ApplyAgrees<T>(t: Tables<T>, op: Operation<T>)
    requires Agrees(t)
    requires Apply(t, op).Ok?
    ensures Agrees(Apply(t, op).value.tables)
  {
    hide Agrees;
    match op
    case Put(id, r) =>
      var revision := if id in t.objects then t.objects[id].revision + 1 else 1;
      RecordAgrees(t, SyncObject(id, r.namespace, revision, 0, r.deviceId, r.modifiedAt, false, Some(r.envelope)));
    case Delete(id, r) =>
      RecordAgrees(t, SyncObject(id, t.objects[id].namespace, t.objects[id].revision + 1, 0,
                                 r.deviceId, r.modifiedAt, true, None));
  }

  /** What any transaction may do to the tables: extend the log, keep every row's identity. */
  ghost predicate Grows<T>(t: Tables<T>, t': Tables<T>)
  {
    && t.changes <= t'.changes
    && forall id :: id in t.objects ==> id in t'.objects && t.objects[id].revision <= t'.objects[id].revision
  }

  lemma ApplyGrows<T>(t: Tables<T>, op: Operation<T>)
    requires Apply(t, op).Ok?
    ensures var c := Apply(t, op).value;
            && Grows(t, c.tables)
            && c.tables.devices == t.devices
            && c.tables.objects == t.objects[op.id := c.reply]
            && c.reply.revision == (if op.id in t.objects then t.objects[op.id].revision + 1 else 1)
            && |c.tables.changes| == |t.changes| + 1
  {
  }

  lemma {:induction false} ApplyAllAgrees<T>(t: Tables<T>, ops: seq<Operation<T>>)
    requires Agrees(t)
    requires ApplyAll(t, ops).Ok?
    ensures Agrees(ApplyAll(t, ops).value.tables)
    ensures Grows(t, ApplyAll(t, ops).value.tables)
    ensures |ApplyAll(t, ops).value.reply| == |ops|
  {
    hide Agrees, Apply;
    if ops != [] {
      var rest, last := ops[..|ops| - 1], ops[|ops| - 1];
      ApplyAllAgrees(t, rest);
      ApplyAgrees(ApplyAll(t, rest).value.tables, last);
      ApplyGrows(ApplyAll(t, rest).value.tables, last);
    }
  }

  // ----- whole runs -----

  /** One request as the server receives it, device administration included. */
  datatype Request<T> =
    | Single(op: Operation<T>)
    | Several(ops: seq<Operation<T>>)
    | Register(device: Uuid)
    | Revoke(device: Uuid)

  function Handle<T>(t: Tables<T>, request: Request<T>): Tables<T>
  {
    match request
    case Single(op) => if Apply(t, op).Ok? then Apply(t, op).value.tables else t
    case Several(ops) => if Batch(t, ops).Ok? then Batch(t, ops).value.tables else t
    case Register(device) => if device in t.devices then t else t.(devices := t.devices[device := Active])
    case Revoke(device) => if device in t.devices then t.(devices := t.devices[device := Revoked]) else t
  }

  function Run<T>(t: Tables<T>, requests: seq<Request<T>>): Tables<T>
  {
    if requests == [] then t else Handle(Run(t, requests[..|requests| - 1]), requests[|requests| - 1])
  }

  lemma HandleAgrees<T>(t: Tables<T>, request: Request<T>)
    requires Agrees(t)
    ensures Agrees(Handle(t, request))
    ensures Grows(t, Handle(t, request))
  {
    match request
    case Single(op) =>
      if Apply(t, op).Ok? {
        ApplyAgrees(t, op);
        ApplyGrows(t, op);
      }
    case Several(ops) =>
      if Batch(t, ops).Ok? {
        ApplyAllAgrees(t, ops);
      }
    case Register(device) => SameRowsAgree(t, Handle(t, request));
    case Revoke(device) => SameRowsAgree(t, Handle(t, request));
  }

  lemma SameRowsAgree<T>(t: Tables<T>, t': Tables<T>)
    requires Agrees(t) && t'.objects == t.objects && t'.changes == t.changes
    ensures Agrees(t')
  {
    forall id: Uuid ensures ObjectAgrees(t', id) {
      assert ObjectAgrees(t, id);
    }
  }

  /**
   Over every run of single operations, batches and device changes, failures included: rows and
   log agree object by object, the log only grows, and no row ever disappears or steps back.
   */
  lemma {:induction false} EveryRunAgrees<T>(t: Tables<T>, requests: seq<Request<T>>)
    requires Agrees(t)
    ensures Agrees(Run(t, requests))
    ensures Grows(t, Run(t, requests))
  {
    hide Agrees, Handle;
    if requests != [] {
      EveryRunAgrees(t, requests[..|requests| - 1]);
      HandleAgrees(Run(t, requests[..|requests| - 1]), requests[|requests| - 1]);
    }
  }

  lemma EmptyAgrees<T>(devices: map<Uuid, DeviceState>)
    ensures Agrees(Tables<T>.Tables(map[], [], devices))
  {
  }

  /** Where a log entry of one object stands in the whole log. */
  lemma {:induction false} LogEntry(changes: seq<Change>, id: Uuid, i: nat) returns (n: nat)
    requires i < |changes| && changes[i].objectId == id
    ensures n < |LogOf(changes, id)| && LogOf(changes, id)[n] == changes[i]
    ensures n == |LogOf(changes[..i], id)|
  {
    var rest := changes[..|changes| - 1];
    if i == |changes| - 1 {
      n := |LogOf(rest, id)|;
    } else {
      assert rest[..i] == changes[..i];
      n := LogEntry(rest, id, i);
    }
  }

  lemma {:induction false} LogOfPrefix(changes: seq<Change>, id: Uuid, i: nat, j: nat)
    requires i < j <= |changes| && changes[i].objectId == id
    ensures |LogOf(changes[..i], id)| < |LogOf(changes[..j], id)|
    decreases j
  {
    assert changes[..j][..j - 1] == changes[..j - 1];
    if i < j - 1 {
      LogOfPrefix(changes, id, i, j - 1);
    }
  }

  /** Each revision of an object is written once, and later in the log means higher. */
  lemma RevisionsWrittenOnce<T>(t: Tables<T>, i: nat, j: nat)
    requires Agrees(t)
    requires i < j < |t.changes| && t.changes[i].objectId == t.changes[j].objectId
    ensures t.changes[i].revision < t.changes[j].revision
  {
    var id := t.changes[i].objectId;
    assert ObjectAgrees(t, id);
    var n := LogEntry(t.changes, id, i);
    var m := LogEntry(t.changes, id, j);
    LogOfPrefix(t.changes, id, i, j);
  }

  /** A batch that commits does what its operations do one request at a time. */
  lemma {:induction false} BatchIsItsOperations<T>(t: Tables<T>, ops: seq<Operation<T>>)
    requires ApplyAll(t, ops).Ok?
    ensures ApplyAll(t, ops).value.tables == Run(t, seq(|ops|, i requires 0 <= i < |ops| => Single(ops[i])))
  {
    hide Apply;
    var singles := seq(|ops|, i requires 0 <= i < |ops| => Single(ops[i]));
    if ops != [] {
      var rest := ops[..|ops| - 1];
      BatchIsItsOperations(t, rest);
      assert singles[..|ops| - 1] == seq(|rest|, i requires 0 <= i < |rest| => Single(rest[i]));
    }
  }

  /** A batch fails exactly when its size is refused or some operation fails in its turn. */
  lemma {:induction false} BatchFailsExactly<T>(t: Tables<T>, ops: seq<Operation<T>>)
    ensures ApplyAll(t, ops).Err? <==>
              exists i :: 0 <= i < |ops| && ApplyAll(t, ops[..i]).Ok?
                && Apply(ApplyAll(t, ops[..i]).value.tables, ops[i]).Err?
  {
    hide Apply;
    if ops != [] {
      var n := |ops| - 1;
      var rest := ops[..n];
      BatchFailsExactly(t, rest);
      assert forall i :: 0 <= i < n ==> rest[..i] == ops[..i];
      if ApplyAll(t, rest).Err? {
        var i :| 0 <= i < n && ApplyAll(t, rest[..i]).Ok? && Apply(ApplyAll(t, rest[..i]).value.tables, rest[i]).Err?;
        assert ApplyAll(t, ops[..i]).Ok? && Apply(ApplyAll(t, ops[..i]).value.tables, ops[i]).Err?;
      } else if ApplyAll(t, ops).Err? {
        assert ApplyAll(t, ops[..n]).Ok? && Apply(ApplyAll(t, ops[..n]).value.tables, ops[n]).Err?;
      }
    }
  }

  // ----- revocation -----

  lemma ApplyNamesDevice<T>(t: Tables<T>, op: Operation<T>)
    requires Apply(t, op).Ok?
    ensures var writer := if op.Put? then op.put.deviceId else op.delete.deviceId;
            var t' := Apply(t, op).value.tables;
            && writer in t.devices && t.devices[writer] == Active && t'.devices == t.devices
            && exists change :: t'.changes == t.changes + [change] && change.deviceId == writer
  {
    var t' := Apply(t, op).value.tables;
    var change := t'.changes[|t.changes|];
    assert t'.changes == t.changes + [change];
  }

  /** The later log has nothing new from the device. */
  predicate SilentSince(device: Uuid, before: seq<Change>, after: seq<Change>)
  {
    before <= after && forall i :: |before| <= i < |after| ==> after[i].deviceId != device
  }

  lemma {:induction false} ApplyAllSilent<T>(t: Tables<T>, ops: seq<Operation<T>>, device: Uuid)
    requires device in t.devices && t.devices[device] == Revoked && ApplyAll(t, ops).Ok?
    ensures ApplyAll(t, ops).value.tables.devices == t.devices
    ensures SilentSince(device, t.changes, ApplyAll(t, ops).value.tables.changes)
  {
    hide Apply;
    if ops != [] {
      var rest, last := ops[..|ops| - 1], ops[|ops| - 1];
      ApplyAllSilent(t, rest, device);
      ApplyNamesDevice(ApplyAll(t, rest).value.tables, last);
    }
  }

  /** Once revoked, a device stays revoked and nothing it sends is ever written, in any run. */
  lemma {:induction false} RevokedNeverWrites<T>(t: Tables<T>, requests: seq<Request<T>>, device: Uuid)
    requires device in t.devices && t.devices[device] == Revoked
    ensures device in Run(t, requests).devices && Run(t, requests).devices[device] == Revoked
    ensures SilentSince(device, t.changes, Run(t, requests).changes)
  {
    hide Apply;
    if requests != [] {
      RevokedNeverWrites(t, requests[..|requests| - 1], device);
      var before := Run(t, requests[..|requests| - 1]);
      match requests[|requests| - 1]
      case Single(op) => if Apply(before, op).Ok? { ApplyNamesDevice(before, op); }
      case Several(ops) => if Batch(before, ops).Ok? { ApplyAllSilent(before, ops, device); }
      case _ =>
    }
  }

  // ----- the server -----

  class Server<T(==)> {
    var objects: map<Uuid, SyncObject<T>>
    var changes: seq<Change>
    var devices: map<Uuid, DeviceState>

    ghost function State(): Tables<T>
      reads this
    {
      Tables(objects, changes, devices)
    }

    constructor (devices: map<Uuid, DeviceState>)
      ensures State() == Tables(map[], [], devices)
      ensures Agrees(State())
    {
      this.objects := map[];
      this.changes := [];
      this.devices := devices;
      new;
      EmptyAgrees<T>(devices);
    }

    method Write(row: SyncObject<T>) returns (r: Result<SyncObject<T>, ApiError>)
      modifies this`objects, this`changes
      ensures r.Ok? <==> Record(old(State()), row).Ok?
      ensures r.Ok? ==> r.value == Record(old(State()), row).value.reply
      ensures r.Ok? ==> State() == Record(old(State()), row).value.tables
      ensures r.Err? ==> r.error == Record(old(State()), row).error && State() == old(State())
    {
      var cursor := if changes == [] then 1 else changes[|changes| - 1].cursor + 1;
      if row.revision > I64_MAX {
        return Err(NumericRange);
      }
      if cursor > I64_MAX {
        return Err(DatabaseFull);
      }
      var stored := row.(cursor := cursor);
      changes := changes + [Change(cursor, row.id, row.namespace, row.revision, row.deviceId, row.modifiedAt,
                                   row.deleted)];
      objects := objects[row.id := stored];
      r := Ok(stored);
    }

    method EnsureActiveDevice(id: Uuid) returns (error: Option<ApiError>)
      ensures error == Some(DeviceUnregistered) <==> id !in devices
      ensures error == Some(DeviceRevoked) <==> id in devices && devices[id] == Revoked
      ensures error.None? <==> id in devices && devices[id] == Active
    {
      if id !in devices {
        return Some(DeviceUnregistered);
      }
      if devices[id] == Revoked {
        return Some(DeviceRevoked);
      }
      return None;
    }

    method PutInTransaction(id: Uuid, request: PutRequest<T>) returns (r: Result<SyncObject<T>, ApiError>)
      modifies this`objects, this`changes
      ensures r.Ok? <==> PutObject(old(State()), id, request).Ok?
      ensures r.Ok? ==> r.value == PutObject(old(State()), id, request).value.reply
      ensures r.Ok? ==> State() == PutObject(old(State()), id, request).value.tables
      ensures r.Err? ==> r.error == PutObject(old(State()), id, request).error && State() == old(State())
    {
      var invalid := ValidatePut(request);
      if invalid.Some? {
        return Err(invalid.value);
      }
      var forbidden := EnsureActiveDevice(request.deviceId);
      if forbidden.Some? {
        return Err(forbidden.value);
      }
      var revision: U64 := 1;
      if id in objects {
        var current := objects[id];
        if request.baseRevision != Some(current.revision) {
          return Err(RevisionConflict(current.revision, current.cursor));
        }
        if current.revision == 0xFFFF_FFFF_FFFF_FFFF {
          return Err(RevisionExhausted);
        }
        revision := current.revision + 1;
      } else if request.baseRevision.Some? {
        return Err(ObjectMissing);
      }
      r := Write(SyncObject(id, request.namespace, revision, 0, request.deviceId, request.modifiedAt,
                            false, Some(request.envelope)));
    }

    method DeleteInTransaction(id: Uuid, request: DeleteRequest) returns (r: Result<SyncObject<T>, ApiError>)
      modifies this`objects, this`changes
      ensures r.Ok? <==> DeleteObject(old(State()), id, request).Ok?
      ensures r.Ok? ==> r.value == DeleteObject(old(State()), id, request).value.reply
      ensures r.Ok? ==> State() == DeleteObject(old(State()), id, request).value.tables
      ensures r.Err? ==> r.error == DeleteObject(old(State()), id, request).error && State() == old(State())
    {
      var forbidden := EnsureActiveDevice(request.deviceId);
      if forbidden.Some? {
        return Err(forbidden.value);
      }
      if id !in objects {
        return Err(ObjectNotFound);
      }
      var current := objects[id];
      if current.revision != request.baseRevision {
        return Err(RevisionConflict(current.revision, current.cursor));
      }
      if current.revision == 0xFFFF_FFFF_FFFF_FFFF {
        return Err(RevisionExhausted);
      }
      r := Write(SyncObject(id, current.namespace, current.revision + 1, 0, request.deviceId, request.modifiedAt,
                            true, None));
    }

    /** Runs the operations inside one transaction; the first error rolls all of them back. */
    method RunBatch(ops: seq<Operation<T>>) returns (r: Result<seq<SyncObject<T>>, ApiError>)
      requires Agrees(State())
      modifies this`objects, this`changes
      ensures r.Ok? <==> Batch(old(State()), ops).Ok?
      ensures r.Ok? ==> r.value == Batch(old(State()), ops).value.reply
      ensures r.Ok? ==> State() == Batch(old(State()), ops).value.tables
      ensures r.Err? ==> r.error == Batch(old(State()), ops).error && State() == old(State())
      ensures Agrees(State())
    {
      hide Agrees, PutObject, DeleteObject;
      if ops == [] || |ops| > MAX_BATCH_OPERATIONS {
        return Err(InvalidBatchSize);
      }
      var savedObjects, savedChanges := objects, changes;
      var replies: seq<SyncObject<T>> := [];
      for i := 0 to |ops|
        invariant ApplyAll(old(State()), ops[..i]) == Ok(Committed(State(), replies))
        invariant savedObjects == old(objects) && savedChanges == old(changes) && devices == old(devices)
      {
        assert ops[..i + 1][..i] == ops[..i];
        var reply: Result<SyncObject<T>, ApiError>;
        match ops[i] {
          case Put(id, request) => reply := PutInTransaction(id, request);
          case Delete(id, request) => reply := DeleteInTransaction(id, request);
        }
        if reply.Err? {
          FailurePersists(old(State()), ops, i + 1);
          objects, changes := savedObjects, savedChanges;
          return Err(reply.error);
        }
        replies := replies + [reply.value];
      }
      assert ops[..|ops|] == ops;
      ApplyAllAgrees(old(State()), ops);
      r := Ok(replies);
    }
  }

  lemma {:induction false} FailurePersists<T>(t: Tables<T>, ops: seq<Operation<T>>, i: nat)
    requires i <= |ops| && ApplyAll(t, ops[..i]).Err?
    ensures ApplyAll(t, ops) == ApplyAll(t, ops[..i])
    decreases |ops| - i
  {
    if i == |ops| {
      assert ops[..i] == ops;
    } else {
      assert ops[..i + 1][..i] == ops[..i];
      FailurePersists(t, ops, i + 1);
    }
  }
}
