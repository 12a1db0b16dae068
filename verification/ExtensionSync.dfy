/**
 Publication of extension bundles as a state machine: copy-on-write chunks, a manifest published
 last, cleanup of whatever a publication leaves behind, and readers in between. Any number of
 devices act one request at a time.
 */
module ExtensionSync {
  import opened Wrappers
  import opened Bytes
  import opened Crypto
  import opened ObjectStore
  import opened VersionedObjects
  import opened Payloads

  const CHUNK_BYTES := 2_900_000

  // ----- splitting an archive -----

  function Chunks(archive: seq<Byte>): seq<seq<Byte>>
    decreases |archive|
  {
    if archive == [] then []
    else if |archive| <= CHUNK_BYTES then [archive]
    else [archive[..CHUNK_BYTES]] + Chunks(archive[CHUNK_BYTES..])
  }

  function Flatten(chunks: seq<seq<Byte>>): seq<Byte>
  {
    if chunks == [] then [] else chunks[0] + Flatten(chunks[1..])
  }

  lemma {:induction false} ChunksFlatten(archive: seq<Byte>)
    ensures Flatten(Chunks(archive)) == archive
    ensures forall c :: c in Chunks(archive) ==> 1 <= |c| <= CHUNK_BYTES
    decreases |archive|
  {
    if |archive| > CHUNK_BYTES {
      ChunksFlatten(archive[CHUNK_BYTES..]);
      assert Chunks(archive)[1..] == Chunks(archive[CHUNK_BYTES..]);
    } else if archive != [] {
      assert [archive][1..] == [];
      assert Flatten([archive]) == archive + Flatten([]);
    }
  }

  /** All chunks but the last are full. */
  lemma {:induction false} ChunksFull(archive: seq<Byte>)
    ensures forall i :: 0 <= i < |Chunks(archive)| - 1 ==> |Chunks(archive)[i]| == 2_900_000
    decreases |archive|
  {
    if |archive| > CHUNK_BYTES {
      ChunksFull(archive[CHUNK_BYTES..]);
    }
  }

  /** Characters of n bytes in unpadded base64url, section 5 of RFC 4648. */
  function Base64Length(n: nat): nat
  {
    (4 * n + 2) / 3
  }

  const MAX_BODY_BYTES := MAX_PAYLOAD_BYTES + 64 * 1024
  /** The JSON around the ciphertext: five fixed fields and a namespace of at most 128 bytes. */
  const REQUEST_OVERHEAD := 64 * 1024

  /** Every chunk of every archive passes the server's ciphertext and request limits once sealed. */
  lemma ChunksFit(archive: seq<Byte>, master: MasterKey, m: Metadata, nonce: seq<Byte>, c: seq<Byte>)
    requires c in Chunks(archive)
    requires |nonce| == NONCE_BYTES && Encrypt(master, m, nonce, c, |c|).Ok?
    ensures 0 < Encrypt(master, m, nonce, c, |c|).value.ciphertext.length <= MAX_PAYLOAD_BYTES
    ensures Base64Length(Encrypt(master, m, nonce, c, |c|).value.ciphertext.length) + REQUEST_OVERHEAD <= MAX_BODY_BYTES
  {
    ChunksFlatten(archive);
  }

  // ----- state -----

  datatype Target = Target(id: Uuid, base: nat)

  datatype Job = Job(profile: string, archive: seq<Byte>, target: Option<Target>)

  datatype Loaded = Loaded(manifest: Manifest, revision: nat)

  /** The base a device stores after a sync: an archive hash, and the revision it came from. */
  datatype Base = Base(id: Uuid, revision: nat, archiveSha256: Digest)

  datatype Stage =
    | Idle
    | Loading(job: Job, attempt: nat)
    | Uploading(job: Job, attempt: nat, previous: Option<Loaded>, uploaded: seq<ChunkRef>, pending: seq<seq<Byte>>)
    | VerifyingChunk(job: Job, attempt: nat, previous: Option<Loaded>, uploaded: seq<ChunkRef>,
                     pending: seq<seq<Byte>>, chunkId: Uuid)
    | VerifyingManifest(manifest: Manifest, attempt: nat, id: Uuid, revision: nat, oldChunks: seq<ChunkRef>)
    | Deleting(queue: seq<ChunkRef>, published: Option<Base>)
    | Published(base: Base)
    | Reading(id: Uuid, revision: nat, manifest: Manifest, next: nat, fetched: seq<Byte>)
    | HasRead(id: Uuid, revision: nat, archive: seq<Byte>)

  /**
   The server's objects and the devices' stages. Attempts number the publications; `owner`,
   `committed` and `jobs` record which attempt made a chunk, which one made a manifest
   revision, and what it was asked to publish.
   */
  datatype System = System(
    master: MasterKey, store: Objects<Payload>, stages: map<nat, Stage>, bases: map<nat, Base>,
    owner: map<Uuid, nat>, committed: map<(Uuid, nat), nat>, jobs: map<nat, Job>, nextAttempt: nat)

  function Preparing(stage: Stage): bool
  {
    stage.Loading? || stage.Uploading? || stage.VerifyingChunk?
  }

  // ----- objects -----

  predicate ManifestVersion(master: MasterKey, v: Version<Payload>)
  {
    v.namespace == MANIFEST_NAMESPACE && v.content.Live? && v.content.author == master
      && v.content.payload.ManifestPayload?
  }

  predicate ChunkVersion(master: MasterKey, v: Version<Payload>)
  {
    v.namespace == CHUNK_NAMESPACE && v.content.Live? && v.content.author == master && v.content.payload.ChunkPayload?
  }

  predicate IsManifest(s: System, id: Uuid)
  {
    && VersionsOf(s.store, id) != []
    && forall v :: v in VersionsOf(s.store, id) ==> ManifestVersion(s.master, v)
  }

  /** A chunk object is written once and at most deleted once. */
  predicate IsChunk(s: System, id: Uuid)
  {
    var vs := VersionsOf(s.store, id);
    && 1 <= |vs| <= 2
    && ChunkVersion(s.master, vs[0])
    && (|vs| == 2 ==> vs[1].content.Tombstone?)
  }

  predicate IsForeign(s: System, id: Uuid)
  {
    forall v :: v in VersionsOf(s.store, id) ==> !ManifestVersion(s.master, v) && !ChunkVersion(s.master, v)
  }

  function ManifestAt(s: System, id: Uuid, r: nat): Manifest
    requires IsManifest(s, id) && 1 <= r <= RevisionOf(s.store, id)
  {
    var vs := VersionsOf(s.store, id);
    assert vs[r - 1] in vs;
    vs[r - 1].content.payload.manifest
  }

  function Head(s: System, id: Uuid): Manifest
    requires IsManifest(s, id)
  {
    ManifestAt(s, id, RevisionOf(s.store, id))
  }

  function ChunkContent(s: System, id: Uuid): seq<Byte>
  {
    if IsChunk(s, id) then VersionsOf(s.store, id)[0].content.payload.chunk else []
  }

  /** The concatenation of what the references were made from. */
  function Assembled(s: System, refs: seq<ChunkRef>): seq<Byte>
  {
    if refs == [] then []
    else Assembled(s, refs[..|refs| - 1]) + ChunkContent(s, refs[|refs| - 1].objectId)
  }

  predicate ChunkLive(s: System, id: Uuid)
  {
    IsChunk(s, id) && RevisionOf(s.store, id) == 1
  }

  // ----- steps -----

  datatype Action =
    | BeginSave(d: nat, job: Job)
    | Load(d: nat)
    | PutChunk(d: nat, newId: Uuid)
    | VerifyChunk(d: nat)
    | PutManifest(d: nat, newId: Uuid)
    | VerifyManifest(d: nat)
    | FailBeforeCommit(d: nat)
    | LostReply(d: nat)
    | DeleteNext(d: nat)
    | Persist(d: nat)
    | Crash(d: nat)
    | BeginRead(d: nat, id: Uuid)
    | ReadNext(d: nat)
    | Elsewhere(d: nat, id: Uuid, namespace: Text, content: Content<Payload>)

  function WithStage(s: System, d: nat, stage: Stage): System
  {
    s.(stages := s.stages[d := stage])
  }

  function Stored(s: System, d: nat, base: Base): System
  {
    WithStage(s, d, Idle).(bases := s.bases[d := base])
  }

  function StageOf(s: System, d: nat): Stage
  {
    if d in s.stages then s.stages[d] else Idle
  }

  function ManifestFor(job: Job, uploaded: seq<ChunkRef>): Manifest
  {
    Manifest(job.profile, Sha256(job.archive), |job.archive|, uploaded)
  }

  function Step(s: System, a: Action): System
  {
    match a
    case BeginSave(d, job) =>
      // The target, if any, is some manifest this device has read at its base revision or later.
      if !StageOf(s, d).Idle? then s
      else if job.target.Some?
              && !(IsManifest(s, job.target.value.id)
                   && job.target.value.base <= RevisionOf(s.store, job.target.value.id)) then s
      else
        WithStage(s, d, if job.target.Some? then Loading(job, s.nextAttempt)
                        else Uploading(job, s.nextAttempt, None, [], Chunks(job.archive)))
          .(jobs := s.jobs[s.nextAttempt := job], nextAttempt := s.nextAttempt + 1)
    case Load(d) =>
      if !StageOf(s, d).Loading? then s
      else
        var Loading(job, attempt) := StageOf(s, d);
        if job.target.None? || !IsManifest(s, job.target.value.id) then WithStage(s, d, Idle)
        else
          var id := job.target.value.id;
          WithStage(s, d, Uploading(job, attempt, Some(Loaded(Head(s, id), RevisionOf(s.store, id))), [],
                                    Chunks(job.archive)))
    case PutChunk(d, newId) =>
      if !StageOf(s, d).Uploading? || StageOf(s, d).pending == [] then s
      else
        var Uploading(job, attempt, previous, uploaded, pending) := StageOf(s, d);
        if !BaseMatches(s.store, newId, None) then WithStage(s, d, Deleting(uploaded, None))
        else
          WithStage(s, d, VerifyingChunk(job, attempt, previous, uploaded, pending, newId))
            .(store := Append(s.store, newId, CHUNK_NAMESPACE, Live(s.master, ChunkPayload(pending[0]))),
              owner := s.owner[newId := attempt])
    case VerifyChunk(d) =>
      if !StageOf(s, d).VerifyingChunk? || StageOf(s, d).pending == [] then s
      else
        var VerifyingChunk(job, attempt, previous, uploaded, pending, id) := StageOf(s, d);
        if ChunkLive(s, id) && ChunkContent(s, id) == pending[0] then
          WithStage(s, d, Uploading(job, attempt, previous,
                                    uploaded + [ChunkRef(id, RevisionOf(s.store, id), Sha256(pending[0]),
                                                         |pending[0]|)],
                                    pending[1..]))
        else WithStage(s, d, Deleting(uploaded, None))
    case PutManifest(d, newId) =>
      if !StageOf(s, d).Uploading? || StageOf(s, d).pending != [] then s
      else
        var Uploading(job, attempt, previous, uploaded, _) := StageOf(s, d);
        var id := if job.target.Some? then job.target.value.id else newId;
        var base := if job.target.Some? then Some(job.target.value.base) else None;
        if !BaseMatches(s.store, id, base) then WithStage(s, d, Deleting(uploaded, None))
        else
          var manifest := ManifestFor(job, uploaded);
          var store := Append(s.store, id, MANIFEST_NAMESPACE, Live(s.master, ManifestPayload(manifest)));
          WithStage(s, d, VerifyingManifest(manifest, attempt, id, RevisionOf(store, id),
                                            if previous.Some? then previous.value.manifest.chunks else []))
            .(store := store, committed := s.committed[(id, RevisionOf(store, id)) := attempt])
    case VerifyManifest(d) =>
      if !StageOf(s, d).VerifyingManifest? then s
      else
        var VerifyingManifest(manifest, _, id, _, oldChunks) := StageOf(s, d);
        if IsManifest(s, id) && Head(s, id) == manifest then
          WithStage(s, d, Deleting(oldChunks, Some(Base(id, RevisionOf(s.store, id), manifest.archiveSha256))))
        else WithStage(s, d, Deleting(manifest.chunks, None))
    case FailBeforeCommit(d) =>
      (match StageOf(s, d)
       case Loading(_, _) => WithStage(s, d, Idle)
       case Uploading(_, _, _, uploaded, _) => WithStage(s, d, Deleting(uploaded, None))
       case VerifyingChunk(_, _, _, uploaded, _, _) => WithStage(s, d, Deleting(uploaded, None))
       case _ => s)
    case LostReply(d) =>
      // The manifest is committed, but its reply or its read-back does not arrive.
      if StageOf(s, d).VerifyingManifest? then WithStage(s, d, Deleting(StageOf(s, d).manifest.chunks, None)) else s
    case DeleteNext(d) =>
      if !StageOf(s, d).Deleting? then s
      else
        var Deleting(queue, published) := StageOf(s, d);
        if queue == [] then WithStage(s, d, if published.Some? then Published(published.value) else Idle)
        else if VersionsOf(s.store, queue[0].objectId) != []
                && RevisionOf(s.store, queue[0].objectId) == queue[0].revision then
          var id := queue[0].objectId;
          WithStage(s, d, Deleting(queue[1..], published))
            .(store := Append(s.store, id, VersionsOf(s.store, id)[RevisionOf(s.store, id) - 1].namespace, Tombstone))
        else WithStage(s, d, Idle)
    case Persist(d) =>
      // After a publication, after a verified load, or when the manifest shows nothing to do.
      (match StageOf(s, d)
       case Published(base) => Stored(s, d, base)
       case HasRead(id, revision, archive) => Stored(s, d, Base(id, revision, Sha256(archive)))
       case Reading(id, revision, manifest, _, _) => Stored(s, d, Base(id, revision, manifest.archiveSha256))
       case _ => s)
    case Crash(d) => WithStage(s, d, Idle)
    case BeginRead(d, id) =>
      if !(StageOf(s, d).Idle? || StageOf(s, d).HasRead?) || !IsManifest(s, id) then s
      else WithStage(s, d, Reading(id, RevisionOf(s.store, id), Head(s, id), 0, []))
    case ReadNext(d) =>
      if !StageOf(s, d).Reading? then s
      else
        var Reading(id, revision, manifest, next, fetched) := StageOf(s, d);
        if next < |manifest.chunks| then
          var ref := manifest.chunks[next];
          var content := ChunkContent(s, ref.objectId);
          if ChunkLive(s, ref.objectId) && RevisionOf(s.store, ref.objectId) == ref.revision
             && |content| == ref.bytes && Sha256(content) == ref.sha256
          then WithStage(s, d, Reading(id, revision, manifest, next + 1, fetched + content))
          else WithStage(s, d, Idle)
        else if |fetched| == manifest.archiveBytes && Sha256(fetched) == manifest.archiveSha256
        then WithStage(s, d, HasRead(id, revision, fetched))
        else WithStage(s, d, Idle)
    case Elsewhere(d, id, namespace, content) =>
      // Some client writes an object that is neither a manifest nor a chunk of this key.
      var v := Version(namespace, s.store.nextCursor, content);
      if IsForeign(s, id) && !ManifestVersion(s.master, v) && !ChunkVersion(s.master, v)
      then WithStage(s, d, StageOf(s, d)).(store := Append(s.store, id, namespace, content)) else s
  }

  function RunAll(s: System, actions: seq<Action>): System
  {
    if actions == [] then s else Step(RunAll(s, actions[..|actions| - 1]), actions[|actions| - 1])
  }

  // ----- the property -----

  /** The reference is to a live chunk, at the recorded revision, of the recorded bytes. */
  ghost predicate RefersToLive(s: System, ref: ChunkRef)
  {
    && ChunkLive(s, ref.objectId)
    && ref.revision == 1
    && ref.bytes == |ChunkContent(s, ref.objectId)|
    && ref.sha256 == Sha256(ChunkContent(s, ref.objectId))
  }

  ghost predicate NoDanglingManifest(s: System)
  {
    forall id: Uuid :: IsManifest(s, id) ==> forall ref :: ref in Head(s, id).chunks ==> RefersToLive(s, ref)
  }

  // ----- the invariant -----

  /** The reference was made from that chunk by that attempt; the chunk may be gone by now. */
  ghost predicate MadeBy(s: System, ref: ChunkRef, attempt: nat)
  {
    && ref.objectId in s.owner && s.owner[ref.objectId] == attempt
    && IsChunk(s, ref.objectId)
    && ref.revision == 1
    && ref.bytes == |ChunkContent(s, ref.objectId)|
    && ref.sha256 == Sha256(ChunkContent(s, ref.objectId))
  }

  predicate DistinctChunks(refs: seq<ChunkRef>)
  {
    forall i, j :: 0 <= i < j < |refs| ==> refs[i].objectId != refs[j].objectId
  }

  ghost predicate ManifestOk(s: System, manifest: Manifest, attempt: nat)
  {
    && attempt in s.jobs
    && (forall ref :: ref in manifest.chunks ==> MadeBy(s, ref, attempt))
    && DistinctChunks(manifest.chunks)
    && Assembled(s, manifest.chunks) == s.jobs[attempt].archive
    && manifest.archiveBytes == |s.jobs[attempt].archive|
    && manifest.archiveSha256 == Sha256(s.jobs[attempt].archive)
    && manifest.profileDirectory == s.jobs[attempt].profile
  }

  /** The attempt made the newest revision of some manifest. */
  ghost predicate Leads(s: System, attempt: nat)
  {
    exists id: Uuid :: IsManifest(s, id) && (id, RevisionOf(s.store, id)) in s.committed
                 && s.committed[(id, RevisionOf(s.store, id))] == attempt
  }

  ghost predicate InPreparation(s: System, attempt: nat)
  {
    exists d :: d in s.stages && Preparing(s.stages[d]) && s.stages[d].attempt == attempt
  }

  /** Nobody will ever need the chunk again. */
  ghost predicate Expendable(s: System, ref: ChunkRef)
  {
    && ref.objectId in s.owner
    && ref.revision == 1
    && s.owner[ref.objectId] < s.nextAttempt
    && !Leads(s, s.owner[ref.objectId])
    && !InPreparation(s, s.owner[ref.objectId])
  }

  ghost predicate LoadedOk(s: System, job: Job, previous: Option<Loaded>)
  {
    && (previous.Some? <==> job.target.Some?)
    && (previous.Some? ==>
          && IsManifest(s, job.target.value.id)
          && 1 <= previous.value.revision <= RevisionOf(s.store, job.target.value.id)
          && job.target.value.base <= previous.value.revision
          && ManifestAt(s, job.target.value.id, previous.value.revision) == previous.value.manifest)
  }

  ghost predicate UploadOk(s: System, job: Job, attempt: nat, previous: Option<Loaded>, uploaded: seq<ChunkRef>,
                           pending: seq<seq<Byte>>)
  {
    && LoadedOk(s, job, previous)
    && (forall ref :: ref in uploaded ==> MadeBy(s, ref, attempt) && ChunkLive(s, ref.objectId))
    && DistinctChunks(uploaded)
    && Assembled(s, uploaded) + Flatten(pending) == job.archive
  }

  /** The hash is that of the archive which this very revision publishes. */
  ghost predicate BaseOk(s: System, base: Base)
  {
    && IsManifest(s, base.id)
    && 1 <= base.revision <= RevisionOf(s.store, base.id)
    && ManifestAt(s, base.id, base.revision).archiveSha256 == base.archiveSha256
  }

  ghost predicate BasesOk(s: System)
  {
    forall d :: d in s.bases ==> BaseOk(s, s.bases[d])
  }

  ghost predicate StageOk(s: System, stage: Stage)
  {
    match stage
    case Idle => true
    case Loading(job, attempt) =>
      && job.target.Some?
      && IsManifest(s, job.target.value.id)
      && job.target.value.base <= RevisionOf(s.store, job.target.value.id)
    case Uploading(job, attempt, previous, uploaded, pending) => UploadOk(s, job, attempt, previous, uploaded, pending)
    case VerifyingChunk(job, attempt, previous, uploaded, pending, id) =>
      && UploadOk(s, job, attempt, previous, uploaded, pending)
      && pending != []
      && id in s.owner && s.owner[id] == attempt && ChunkLive(s, id) && ChunkContent(s, id) == pending[0]
      && forall ref :: ref in uploaded ==> ref.objectId != id
    case VerifyingManifest(manifest, attempt, id, revision, oldChunks) =>
      && IsManifest(s, id)
      && 1 <= revision <= RevisionOf(s.store, id)
      && ManifestAt(s, id, revision) == manifest
      && (id, revision) in s.committed && s.committed[(id, revision)] == attempt
      && forall ref :: ref in oldChunks ==> Expendable(s, ref)
    case Deleting(queue, published) =>
      && (forall ref :: ref in queue ==> Expendable(s, ref))
      && (published.Some? ==> BaseOk(s, published.value))
    case Published(base) => BaseOk(s, base)
    case Reading(id, revision, manifest, next, fetched) =>
      && IsManifest(s, id) && 1 <= revision <= RevisionOf(s.store, id)
      && ManifestAt(s, id, revision) == manifest
      && next <= |manifest.chunks|
      && fetched == Assembled(s, manifest.chunks[..next])
    case HasRead(id, revision, archive) =>
      && IsManifest(s, id) && 1 <= revision <= RevisionOf(s.store, id)
      && archive == Assembled(s, ManifestAt(s, id, revision).chunks)
  }

  ghost predicate KindsOk(s: System)
  {
    && (forall id: Uuid :: IsManifest(s, id) || IsChunk(s, id) || IsForeign(s, id))
    && forall id :: id in s.owner ==> IsChunk(s, id) && s.owner[id] < s.nextAttempt
  }

  ghost predicate CommitsOk(s: System)
  {
    && (forall id: Uuid, r: nat :: IsManifest(s, id) && 1 <= r <= RevisionOf(s.store, id) ==>
          (id, r) in s.committed && ManifestOk(s, ManifestAt(s, id, r), s.committed[(id, r)]))
    && (forall p :: p in s.committed ==>
          IsManifest(s, p.0) && 1 <= p.1 <= RevisionOf(s.store, p.0) && s.committed[p] < s.nextAttempt)
    && forall p, q :: p in s.committed && q in s.committed && s.committed[p] == s.committed[q] ==> p == q
  }

  ghost predicate HeadsLive(s: System)
  {
    forall id: Uuid :: IsManifest(s, id) ==> forall ref :: ref in Head(s, id).chunks ==>
             RevisionOf(s.store, ref.objectId) == 1
  }

  ghost predicate AttemptsOk(s: System)
  {
    && (forall n :: n in s.jobs ==> n < s.nextAttempt)
    && (forall d :: d in s.stages && Preparing(s.stages[d]) ==>
          var a := s.stages[d].attempt;
          && a < s.nextAttempt
          && a in s.jobs && s.jobs[a] == s.stages[d].job
          && forall p :: p in s.committed ==> s.committed[p] != a)
    && (forall d, e :: d in s.stages && e in s.stages && d != e && Preparing(s.stages[d]) && Preparing(s.stages[e]) ==>
          s.stages[d].attempt != s.stages[e].attempt)
  }

  ghost predicate StagesOk(s: System)
  {
    forall d :: d in s.stages ==> StageOk(s, s.stages[d])
  }

  ghost predicate Invariant(s: System)
  {
    KindsOk(s) && CommitsOk(s) && HeadsLive(s) && AttemptsOk(s) && StagesOk(s) && BasesOk(s)
  }

  ghost predicate Initial(s: System)
  {
    && s.store.versions == map[] && s.owner == map[] && s.committed == map[] && s.jobs == map[] && s.bases == map[]
    && forall d :: d in s.stages ==> s.stages[d].Idle?
  }

  lemma InitialOk(s: System)
    requires Initial(s)
    ensures Invariant(s)
  {
  }

  /** The invariant is more than the property. */
  lemma InvariantMeansNoDangling(s: System)
    requires Invariant(s)
    ensures NoDanglingManifest(s)
  {
    hide Assembled;
    forall id: Uuid, ref | IsManifest(s, id) && ref in Head(s, id).chunks ensures RefersToLive(s, ref) {
      var r := RevisionOf(s.store, id);
      assert ManifestOk(s, ManifestAt(s, id, r), s.committed[(id, r)]);
      assert MadeBy(s, ref, s.committed[(id, r)]);
    }
  }
}
