/**
 What every interleaving of publishers, cleanups and readers keeps: a live manifest never refers
 to a dead chunk, and a reader sees one publication whole or nothing.
 */
module ExtensionSyncLaws {
  import opened Wrappers
  import opened Bytes
  import opened Crypto
  import opened VersionedObjects
  import opened Payloads
  import opened ExtensionSync

  // ----- histories only grow -----

  ghost predicate Prefix<T(!new)>(a: seq<T>, b: seq<T>)
  {
    |a| <= |b| && b[..|a|] == a
  }

  ghost predicate Grows(s: System, t: System)
  {
    && t.master == s.master
    && (forall id: Uuid :: Prefix(VersionsOf(s.store, id), VersionsOf(t.store, id)))
    && (forall id: Uuid :: IsManifest(s, id) ==> IsManifest(t, id))
    && (forall id: Uuid :: IsChunk(s, id) ==> IsChunk(t, id))
    && (forall id :: id in s.owner ==> id in t.owner && t.owner[id] == s.owner[id])
    && (forall p :: p in s.committed ==> p in t.committed && t.committed[p] == s.committed[p])
    && (forall n :: n in s.jobs ==> n in t.jobs && t.jobs[n] == s.jobs[n])
    && s.nextAttempt <= t.nextAttempt
  }

  lemma ManifestStays(s: System, t: System, id: Uuid, r: nat)
    requires Grows(s, t) && IsManifest(s, id) && 1 <= r <= RevisionOf(s.store, id)
    ensures IsManifest(t, id) && r <= RevisionOf(t.store, id)
    ensures ManifestAt(t, id, r) == ManifestAt(s, id, r)
  {
    assert Prefix(VersionsOf(s.store, id), VersionsOf(t.store, id));
    var n := RevisionOf(s.store, id);
    assert VersionsOf(t.store, id)[r - 1] == VersionsOf(t.store, id)[..n][r - 1];
  }

  lemma ChunkStays(s: System, t: System, id: Uuid)
    requires Grows(s, t) && IsChunk(s, id)
    ensures IsChunk(t, id) && ChunkContent(t, id) == ChunkContent(s, id)
  {
    assert Prefix(VersionsOf(s.store, id), VersionsOf(t.store, id));
    var n := RevisionOf(s.store, id);
    assert VersionsOf(t.store, id)[0] == VersionsOf(t.store, id)[..n][0];
  }

  lemma {:induction false} AssembledStays(s: System, t: System, refs: seq<ChunkRef>)
    requires Grows(s, t)
    requires forall ref :: ref in refs ==> IsChunk(s, ref.objectId)
    ensures Assembled(t, refs) == Assembled(s, refs)
  {
    hide Grows, IsChunk, ChunkContent;
    if refs != [] {
      AssembledStays(s, t, refs[..|refs| - 1]);
      assert refs[|refs| - 1] in refs;
      ChunkStays(s, t, refs[|refs| - 1].objectId);
    }
  }

  lemma MadeByStays(s: System, t: System, ref: ChunkRef, attempt: nat)
    requires Grows(s, t) && MadeBy(s, ref, attempt)
    ensures MadeBy(t, ref, attempt)
  {
    ChunkStays(s, t, ref.objectId);
  }

  lemma ManifestOkStays(s: System, t: System, manifest: Manifest, attempt: nat)
    requires Grows(s, t) && ManifestOk(s, manifest, attempt)
    ensures ManifestOk(t, manifest, attempt)
  {
    hide MadeBy;
    forall ref | ref in manifest.chunks ensures MadeBy(t, ref, attempt) {
      MadeByStays(s, t, ref, attempt);
    }
    forall ref | ref in manifest.chunks ensures IsChunk(s, ref.objectId) {
      ChunkOf(s, ref, attempt);
    }
    AssembledStays(s, t, manifest.chunks);
  }

  lemma ChunkOf(s: System, ref: ChunkRef, attempt: nat)
    requires MadeBy(s, ref, attempt)
    ensures IsChunk(s, ref.objectId)
  {
  }

  // ----- stages of devices that do not act -----

  /** Nothing an attempt in preparation has uploaded is deleted. */
  ghost predicate KeepsChunksOf(s: System, t: System, attempt: nat)
  {
    forall id :: id in s.owner && s.owner[id] == attempt && ChunkLive(s, id) ==> ChunkLive(t, id)
  }

  ghost predicate KeepsExpendable(s: System, t: System)
  {
    forall ref :: Expendable(s, ref) ==> Expendable(t, ref)
  }

  /** What a reference made by a publication needs to be read back. */
  ghost predicate ManifestsMade(s: System)
  {
    forall id: Uuid, r: nat :: IsManifest(s, id) && 1 <= r <= RevisionOf(s.store, id) ==>
                            (id, r) in s.committed && ManifestOk(s, ManifestAt(s, id, r), s.committed[(id, r)])
  }

  lemma UploadOkStays(s: System, t: System, job: Job, attempt: nat, previous: Option<Loaded>,
                      uploaded: seq<ChunkRef>, pending: seq<seq<Byte>>)
    requires Grows(s, t) && KeepsChunksOf(s, t, attempt)
    requires UploadOk(s, job, attempt, previous, uploaded, pending)
    ensures UploadOk(t, job, attempt, previous, uploaded, pending)
  {
    hide IsManifest, IsChunk;
    forall ref | ref in uploaded ensures MadeBy(t, ref, attempt) && ChunkLive(t, ref.objectId) {
      MadeByStays(s, t, ref, attempt);
    }
    AssembledStays(s, t, uploaded);
    if previous.Some? {
      ManifestStays(s, t, job.target.value.id, previous.value.revision);
    }
  }

  lemma ManifestChunksStay(s: System, t: System, id: Uuid, r: nat, n: nat)
    requires Grows(s, t) && ManifestsMade(s)
    requires IsManifest(s, id) && 1 <= r <= RevisionOf(s.store, id)
    requires n <= |ManifestAt(s, id, r).chunks|
    ensures Assembled(t, ManifestAt(s, id, r).chunks[..n]) == Assembled(s, ManifestAt(s, id, r).chunks[..n])
  {
    hide Grows, IsManifest, IsChunk, MadeBy, ManifestAt;
    var refs := ManifestAt(s, id, r).chunks;
    assert ManifestOk(s, ManifestAt(s, id, r), s.committed[(id, r)]);
    forall ref | ref in refs[..n] ensures IsChunk(s, ref.objectId) {
      assert ref in refs;
      ChunkOf(s, ref, s.committed[(id, r)]);
    }
    AssembledStays(s, t, refs[..n]);
  }

  lemma BaseStays(s: System, t: System, base: Base)
    requires Grows(s, t) && BaseOk(s, base)
    ensures BaseOk(t, base)
  {
    ManifestStays(s, t, base.id, base.revision);
  }

  lemma BasesStay(s: System, t: System)
    requires Grows(s, t) && BasesOk(s) && t.bases == s.bases
    ensures BasesOk(t)
  {
    hide Grows, BaseOk;
    forall d | d in t.bases ensures BaseOk(t, t.bases[d]) { BaseStays(s, t, s.bases[d]); }
  }

  lemma StageStays(s: System, t: System, stage: Stage)
    requires Grows(s, t) && KeepsExpendable(s, t) && ManifestsMade(s)
    requires Preparing(stage) ==> KeepsChunksOf(s, t, stage.attempt)
    requires StageOk(s, stage)
    ensures StageOk(t, stage)
  {
    hide IsManifest, IsChunk, ManifestAt, Assembled, UploadOk, Expendable, BaseOk;
    hide ManifestsMade;
    match stage
    case Idle =>
    case Loading(job, attempt) =>
      assert Prefix(VersionsOf(s.store, job.target.value.id), VersionsOf(t.store, job.target.value.id));
    case Uploading(job, attempt, previous, uploaded, pending) =>
      UploadOkStays(s, t, job, attempt, previous, uploaded, pending);
    case VerifyingChunk(job, attempt, previous, uploaded, pending, id) =>
      UploadOkStays(s, t, job, attempt, previous, uploaded, pending);
      LiveIsChunk(s, id);
      ChunkStays(s, t, id);
    case VerifyingManifest(manifest, attempt, id, revision, oldChunks) =>
      ManifestStays(s, t, id, revision);
    case Deleting(queue, published) =>
      if published.Some? { BaseStays(s, t, published.value); }
    case Published(base) => BaseStays(s, t, base);
    case Reading(id, revision, manifest, next, fetched) =>
      ManifestStays(s, t, id, revision);
      ManifestChunksStay(s, t, id, revision, next);
    case HasRead(id, revision, archive) =>
      ManifestStays(s, t, id, revision);
      var refs := ManifestAt(s, id, revision).chunks;
      assert refs[..|refs|] == refs;
      ManifestChunksStay(s, t, id, revision, |refs|);
  }

  lemma LiveIsChunk(s: System, id: Uuid)
    requires ChunkLive(s, id)
    ensures IsChunk(s, id)
  {
  }

  // ----- the parts of the invariant, one by one -----

  /** Only device d moved, and it prepares nothing but its own or a new attempt. */
  ghost predicate Moved(s: System, t: System, d: nat, stage: Stage)
  {
    && t.stages == s.stages[d := stage]
    && (forall n :: n in t.jobs ==> n < t.nextAttempt)
    && (Preparing(stage) ==>
          && stage.attempt < t.nextAttempt
          && stage.attempt in t.jobs && t.jobs[stage.attempt] == stage.job
          && (s.nextAttempt <= stage.attempt || (Preparing(StageOf(s, d)) && StageOf(s, d).attempt == stage.attempt)))
  }

  /** Whatever has been committed since was in device d's preparation, and no longer is. */
  ghost predicate CommittedBy(s: System, t: System, d: nat, stage: Stage)
  {
    forall p :: p in t.committed && p !in s.committed ==>
             Preparing(StageOf(s, d)) && StageOf(s, d).attempt == t.committed[p] && !Preparing(stage)
  }

  lemma AttemptsStay(s: System, t: System, d: nat, stage: Stage)
    requires Grows(s, t) && Moved(s, t, d, stage) && CommittedBy(s, t, d, stage)
    requires AttemptsOk(s) && CommitsOk(s)
    ensures AttemptsOk(t)
  {
    hide IsManifest, IsChunk, ManifestOk, ManifestAt;
    forall e | e in t.stages && Preparing(t.stages[e])
      ensures t.stages[e].attempt < t.nextAttempt
      ensures t.stages[e].attempt in t.jobs && t.jobs[t.stages[e].attempt] == t.stages[e].job
      ensures forall p :: p in t.committed ==> t.committed[p] != t.stages[e].attempt {
    }
  }

  lemma ExpendableStays(s: System, t: System, d: nat, stage: Stage)
    requires Grows(s, t) && Moved(s, t, d, stage)
    requires forall a :: Leads(t, a) ==> Leads(s, a) || InPreparation(s, a)
    ensures KeepsExpendable(s, t)
  {
    hide Grows, Leads;
    forall ref | Expendable(s, ref) ensures Expendable(t, ref) {
      OwnerStays(s, t, ref.objectId);
    }
  }

  lemma OwnerStays(s: System, t: System, id: Uuid)
    requires Grows(s, t) && id in s.owner
    ensures id in t.owner && t.owner[id] == s.owner[id] && s.nextAttempt <= t.nextAttempt
  {
  }

  lemma StagesStay(s: System, t: System, d: nat, stage: Stage)
    requires Grows(s, t) && Moved(s, t, d, stage) && KeepsExpendable(s, t)
    requires forall a :: InPreparation(s, a) ==> KeepsChunksOf(s, t, a)
    requires CommitsOk(s) && StagesOk(s)
    requires StageOk(t, stage)
    ensures StagesOk(t)
  {
    hide StageOk, Grows, KeepsExpendable, KeepsChunksOf;
    assert ManifestsMade(s) by { hide IsManifest, ManifestAt, ManifestOk; }
    forall e | e in t.stages ensures StageOk(t, t.stages[e]) {
      if e != d {
        var other := s.stages[e];
        assert Preparing(other) ==> InPreparation(s, other.attempt);
        StageStays(s, t, other);
      }
    }
  }

  /** No manifest is written: every publication is as it was. */
  ghost predicate SameManifests(s: System, t: System)
  {
    && t.committed == s.committed
    && forall id: Uuid :: IsManifest(t, id) ==> IsManifest(s, id) && VersionsOf(t.store, id) == VersionsOf(s.store, id)
  }

  lemma CommitsStay(s: System, t: System)
    requires Grows(s, t) && SameManifests(s, t)
    requires CommitsOk(s)
    ensures CommitsOk(t)
  {
    hide ManifestOk;
    forall id: Uuid, r: nat | IsManifest(t, id) && 1 <= r <= RevisionOf(t.store, id)
      ensures (id, r) in t.committed && ManifestOk(t, ManifestAt(t, id, r), t.committed[(id, r)]) {
      ManifestOkStays(s, t, ManifestAt(s, id, r), s.committed[(id, r)]);
    }
    forall p | p in t.committed
      ensures IsManifest(t, p.0) && 1 <= p.1 <= RevisionOf(t.store, p.0) && t.committed[p] < t.nextAttempt {
      ManifestStays(s, t, p.0, p.1);
    }
  }

  lemma LeadsStays(s: System, t: System, a: nat)
    requires SameManifests(s, t) && Leads(t, a)
    ensures Leads(s, a)
  {
    var id: Uuid :| IsManifest(t, id) && (id, RevisionOf(t.store, id)) in t.committed
                 && t.committed[(id, RevisionOf(t.store, id))] == a;
    assert IsManifest(s, id);
  }

  /** A chunk in use stays. */
  ghost predicate HeadChunksStay(s: System, t: System)
  {
    forall id :: id in s.owner && Leads(s, s.owner[id]) && RevisionOf(s.store, id) == 1 ==> RevisionOf(t.store, id) == 1
  }

  lemma HeadOwner(s: System, id: Uuid, ref: ChunkRef)
    requires CommitsOk(s) && IsManifest(s, id) && ref in Head(s, id).chunks
    ensures ref.objectId in s.owner && Leads(s, s.owner[ref.objectId])
    ensures MadeBy(s, ref, s.owner[ref.objectId])
  {
    var r := RevisionOf(s.store, id);
    assert ManifestOk(s, ManifestAt(s, id, r), s.committed[(id, r)]);
    assert MadeBy(s, ref, s.committed[(id, r)]);
  }

  lemma HeadsStay(s: System, t: System)
    requires SameManifests(s, t) && HeadChunksStay(s, t)
    requires CommitsOk(s) && HeadsLive(s)
    ensures HeadsLive(t)
  {
    hide CommitsOk;
    forall id: Uuid, ref | IsManifest(t, id) && ref in Head(t, id).chunks
      ensures RevisionOf(t.store, ref.objectId) == 1 {
      assert IsManifest(s, id) && Head(s, id) == Head(t, id);
      HeadOwner(s, id, ref);
    }
  }

  lemma BasesFollow(s: System, t: System)
    requires BasesOk(s) && Grows(s, t) && (t.bases == s.bases || BasesOk(t))
    ensures BasesOk(t)
  {
    hide Grows, BaseOk;
    if t.bases == s.bases { BasesStay(s, t); }
  }

  // ----- steps that publish no manifest -----

  lemma QuietStep(s: System, t: System, d: nat, stage: Stage)
    requires Invariant(s) && Moved(s, t, d, stage)
    requires Grows(s, t) && SameManifests(s, t) && KindsOk(t) && HeadChunksStay(s, t)
    requires forall a :: InPreparation(s, a) ==> KeepsChunksOf(s, t, a)
    requires KeepsExpendable(s, t) ==> StageOk(t, stage)
    requires t.bases == s.bases || BasesOk(t)
    ensures Invariant(t)
  {
    hide BasesOk;
    BasesFollow(s, t);
    assert CommittedBy(s, t, d, stage);
    hide StageOk, Grows, SameManifests, IsManifest, IsChunk, KindsOk, HeadsLive, AttemptsOk, StagesOk, HeadChunksStay;
    AttemptsStay(s, t, d, stage);
    CommitsStay(s, t);
    hide CommitsOk;
    HeadsStay(s, t);
    forall a | Leads(t, a) ensures Leads(s, a) { LeadsStays(s, t, a); }
    ExpendableStays(s, t, d, stage);
    StagesStay(s, t, d, stage);
  }

  /** The objects are as they were. */
  ghost predicate SameObjects(s: System, t: System)
  {
    && t.master == s.master && t.store == s.store && t.owner == s.owner && t.committed == s.committed
    && (forall n :: n in s.jobs ==> n in t.jobs && t.jobs[n] == s.jobs[n])
    && s.nextAttempt <= t.nextAttempt
  }

  lemma LocalStep(s: System, t: System, d: nat, stage: Stage)
    requires Invariant(s) && Moved(s, t, d, stage) && SameObjects(s, t)
    requires StageOk(t, stage)
    requires t.bases == s.bases || BasesOk(t)
    ensures Invariant(t)
  {
    hide StageOk, BasesOk, CommitsOk, HeadsLive, AttemptsOk, StagesOk, Moved;
    assert Grows(s, t) && SameManifests(s, t) && KindsOk(t);
    hide KindsOk, Grows, SameManifests;
    QuietStep(s, t, d, stage);
  }

  /** Whatever a publication had uploaded becomes expendable when the publication ends. */
  lemma AbandonedExpendable(s: System, t: System, d: nat, stage: Stage, refs: seq<ChunkRef>)
    requires AttemptsOk(s) && Preparing(StageOf(s, d)) && !Preparing(stage)
    requires forall ref :: ref in refs ==> MadeBy(s, ref, StageOf(s, d).attempt)
    requires t.stages == s.stages[d := stage]
    requires t.owner == s.owner && t.committed == s.committed && t.nextAttempt == s.nextAttempt
    ensures forall ref :: ref in refs ==> Expendable(t, ref)
  {
    PreparationEnds(s, t, d, stage);
    hide AttemptsOk, Leads, InPreparation, IsManifest, IsChunk, ChunkContent;
  }

  lemma PreparationEnds(s: System, t: System, d: nat, stage: Stage)
    requires AttemptsOk(s) && Preparing(StageOf(s, d)) && !Preparing(stage)
    requires t.stages == s.stages[d := stage] && t.committed == s.committed
    ensures StageOf(s, d).attempt < s.nextAttempt
    ensures !Leads(t, StageOf(s, d).attempt) && !InPreparation(t, StageOf(s, d).attempt)
  {
    NotCommittedNotLeading(t, StageOf(s, d).attempt);
    hide Leads;
  }

  lemma NotCommittedNotLeading(s: System, a: nat)
    requires forall p :: p in s.committed ==> s.committed[p] != a
    ensures !Leads(s, a)
  {
  }

  lemma AbandonStep(s: System, d: nat, refs: seq<ChunkRef>)
    requires Invariant(s) && Preparing(StageOf(s, d))
    requires forall ref :: ref in refs ==> MadeBy(s, ref, StageOf(s, d).attempt)
    ensures Invariant(WithStage(s, d, Deleting(refs, None)))
  {
    hide MadeBy, KindsOk, CommitsOk, HeadsLive, StagesOk;
    var t := WithStage(s, d, Deleting(refs, None));
    AbandonedExpendable(s, t, d, Deleting(refs, None), refs);
    hide Expendable;
    assert StageOk(t, Deleting(refs, None));
    hide StageOk;
    assert Moved(s, t, d, Deleting(refs, None)) && SameObjects(s, t);
    LocalStep(s, t, d, Deleting(refs, None));
  }

  /** A device may stop whatever it does, or start reading. */
  lemma RestStep(s: System, d: nat, stage: Stage)
    requires Invariant(s) && !Preparing(stage) && StageOk(WithStage(s, d, stage), stage)
    ensures Invariant(WithStage(s, d, stage))
  {
    hide StageOk, KindsOk, CommitsOk, HeadsLive, StagesOk;
    var t := WithStage(s, d, stage);
    assert Moved(s, t, d, stage) && SameObjects(s, t);
    LocalStep(s, t, d, stage);
  }

  /** What the stage requires does not depend on other stages, unless it is about to delete. */
  lemma OwnStage(s: System, d: nat)
    requires Invariant(s)
    ensures StageOk(s, StageOf(s, d))
  {
    hide KindsOk, CommitsOk, HeadsLive, AttemptsOk;
  }

  lemma FirstStage(s: System, t: System, job: Job, attempt: nat)
    requires t.store == s.store && t.master == s.master
    requires job.target.Some? ==>
               IsManifest(s, job.target.value.id) && job.target.value.base <= RevisionOf(s.store, job.target.value.id)
    ensures StageOk(t, if job.target.Some? then Loading(job, attempt)
                       else Uploading(job, attempt, None, [], Chunks(job.archive)))
  {
    ChunksFlatten(job.archive);
    hide Chunks, Flatten;
    if job.target.Some? {
      SameManifest(s, t, job.target.value.id);
      hide IsManifest;
    }
  }

  lemma BeginSaveStep(s: System, d: nat, job: Job)
    requires Invariant(s)
    ensures Invariant(Step(s, BeginSave(d, job)))
  {
    hide KindsOk, CommitsOk, HeadsLive, StagesOk, BasesOk, Chunks, IsManifest, StageOk;
    var t := Step(s, BeginSave(d, job));
    if t != s {
      FirstStage(s, t, job, s.nextAttempt);
      assert Moved(s, t, d, t.stages[d]);
      assert SameObjects(s, t);
      hide Step, Moved, AttemptsOk;
      LocalStep(s, t, d, t.stages[d]);
    }
  }

  lemma LoadStep(s: System, d: nat)
    requires Invariant(s)
    ensures Invariant(Step(s, Load(d)))
  {
    hide KindsOk, CommitsOk, HeadsLive, StagesOk;
    if StageOf(s, d).Loading? {
      OwnStage(s, d);
      var t := Step(s, Load(d));
      var Loading(job, attempt) := StageOf(s, d);
      ChunksFlatten(job.archive);
      assert StageOk(t, t.stages[d]) by { hide Chunks, Flatten, AttemptsOk, IsManifest; }
      hide StageOk;
      assert Moved(s, t, d, t.stages[d]) by { hide IsManifest; }
      assert SameObjects(s, t) by { hide IsManifest; }
      LocalStep(s, t, d, t.stages[d]);
    }
  }

  lemma VerifiedUpload(s: System, t: System, stage: Stage)
    requires stage.VerifyingChunk? && StageOk(s, stage)
    requires t.store == s.store && t.master == s.master && t.owner == s.owner
    ensures var VerifyingChunk(job, attempt, previous, uploaded, pending, id) := stage;
            UploadOk(t, job, attempt, previous, uploaded + [ChunkRef(id, 1, Sha256(pending[0]), |pending[0]|)],
                     pending[1..])
  {
    var VerifyingChunk(job, attempt, previous, uploaded, pending, id) := stage;
    var ref := ChunkRef(id, 1, Sha256(pending[0]), |pending[0]|);
    assert Assembled(s, uploaded + [ref]) == Assembled(s, uploaded) + pending[0] by {
      assert (uploaded + [ref])[..|uploaded|] == uploaded;
    }
    assert Flatten(pending) == pending[0] + Flatten(pending[1..]);
    SameStoreAssembled(s, t, uploaded + [ref]);
    hide Assembled, Flatten;
  }

  lemma VerifyChunkResult(s: System, d: nat)
    requires StageOf(s, d).VerifyingChunk? && StageOk(s, StageOf(s, d))
    ensures var VerifyingChunk(job, attempt, previous, uploaded, pending, id) := StageOf(s, d);
            Step(s, VerifyChunk(d)) ==
            WithStage(s, d, Uploading(job, attempt, previous,
                                      uploaded + [ChunkRef(id, 1, Sha256(pending[0]), |pending[0]|)], pending[1..]))
  {
    hide UploadOk, IsChunk, ChunkContent;
  }

  lemma VerifyChunkStep(s: System, d: nat)
    requires Invariant(s)
    ensures Invariant(Step(s, VerifyChunk(d)))
  {
    hide KindsOk, CommitsOk, HeadsLive, StagesOk, BasesOk;
    if StageOf(s, d).VerifyingChunk? {
      OwnStage(s, d);
      var t := Step(s, VerifyChunk(d));
      VerifyChunkResult(s, d);
      VerifiedUpload(s, t, StageOf(s, d));
      hide UploadOk, Step, IsChunk, ChunkContent;
      assert StageOk(t, StageOf(t, d));
      hide StageOk;
      assert Moved(s, t, d, StageOf(t, d)) && SameObjects(s, t);
      hide Invariant, Moved;
      LocalStep(s, t, d, StageOf(t, d));
    }
  }

  lemma {:induction false} SameStoreAssembled(s: System, t: System, refs: seq<ChunkRef>)
    requires t.store == s.store && t.master == s.master
    ensures Assembled(t, refs) == Assembled(s, refs)
  {
    if refs != [] { SameStoreAssembled(s, t, refs[..|refs| - 1]); }
  }

  // ----- a manifest that is no longer the newest -----

  lemma SupersededExpendable(s: System, t: System, d: nat, refs: seq<ChunkRef>)
    requires Invariant(s) && StageOf(s, d).VerifyingManifest?
    requires RevisionOf(s.store, StageOf(s, d).id) != StageOf(s, d).revision
    requires refs == StageOf(s, d).manifest.chunks
    requires t == WithStage(s, d, Deleting(refs, None))
    ensures forall ref :: ref in refs ==> Expendable(t, ref)
  {
    hide KindsOk, HeadsLive;
    OwnStage(s, d);
    hide StagesOk, StageOk;
    var VerifyingManifest(manifest, a, id, revision, _) := StageOf(s, d);
    assert ManifestOk(s, ManifestAt(s, id, revision), s.committed[(id, revision)]);
    assert !Leads(t, a) by { hide IsManifest, ManifestOk, AttemptsOk; }
    assert !InPreparation(t, a) by { hide CommitsOk, IsManifest, ManifestOk; }
    assert a < t.nextAttempt;
    hide IsManifest, IsChunk, CommitsOk, AttemptsOk, Leads, InPreparation, ChunkContent;
  }

  lemma SupersededStep(s: System, d: nat)
    requires Invariant(s) && StageOf(s, d).VerifyingManifest?
    requires RevisionOf(s.store, StageOf(s, d).id) != StageOf(s, d).revision || StageOf(s, d).manifest.chunks == []
    ensures Invariant(WithStage(s, d, Deleting(StageOf(s, d).manifest.chunks, None)))
  {
    hide Invariant;
    var refs := StageOf(s, d).manifest.chunks;
    if refs != [] {
      SupersededExpendable(s, WithStage(s, d, Deleting(refs, None)), d, refs);
    }
    RestStep(s, d, Deleting(refs, None));
  }

  lemma ConfirmedStep(s: System, d: nat)
    requires Invariant(s) && StageOf(s, d).VerifyingManifest?
    requires IsManifest(s, StageOf(s, d).id) && Head(s, StageOf(s, d).id) == StageOf(s, d).manifest
    ensures var VerifyingManifest(manifest, _, id, _, oldChunks) := StageOf(s, d);
            Invariant(WithStage(s, d,
                                Deleting(oldChunks, Some(Base(id, RevisionOf(s.store, id), manifest.archiveSha256)))))
  {
    OwnStage(s, d);
    hide Invariant, Expendable, IsChunk;
    var VerifyingManifest(manifest, _, id, _, oldChunks) := StageOf(s, d);
    var stage := Deleting(oldChunks, Some(Base(id, RevisionOf(s.store, id), manifest.archiveSha256)));
    var t := WithStage(s, d, stage);
    forall ref | ref in oldChunks ensures Expendable(t, ref) {
      QuieterExpendable(s, t, d, stage, ref);
    }
    SameManifest(s, t, id);
    BasePositive(s, id);
    hide IsManifest, ManifestAt;
    RestStep(s, d, stage);
  }

  lemma VerifyManifestStep(s: System, d: nat)
    requires Invariant(s)
    ensures Invariant(Step(s, VerifyManifest(d)))
  {
    if StageOf(s, d).VerifyingManifest? {
      OwnStage(s, d);
      hide Invariant, Expendable, IsChunk, IsManifest, ManifestAt;
      var VerifyingManifest(manifest, a, id, revision, oldChunks) := StageOf(s, d);
      if Head(s, id) == manifest {
        ConfirmedStep(s, d);
      } else {
        SupersededStep(s, d);
      }
    }
  }

  lemma QuieterExpendable(s: System, t: System, d: nat, stage: Stage, ref: ChunkRef)
    requires t == WithStage(s, d, stage) && !Preparing(stage)
    requires Expendable(s, ref)
    ensures Expendable(t, ref)
  {
    assert !Leads(t, s.owner[ref.objectId]);
    hide Leads;
  }

  lemma FailBeforeCommitStep(s: System, d: nat)
    requires Invariant(s)
    ensures Invariant(Step(s, FailBeforeCommit(d)))
  {
    OwnStage(s, d);
    hide Invariant;
    match StageOf(s, d)
    case Loading(_, _) => RestStep(s, d, Idle);
    case Uploading(_, _, _, uploaded, _) => AbandonStep(s, d, uploaded);
    case VerifyingChunk(_, _, _, uploaded, _, _) => AbandonStep(s, d, uploaded);
    case _ =>
  }

  lemma BeginReadStep(s: System, d: nat, id: Uuid)
    requires Invariant(s)
    ensures Invariant(Step(s, BeginRead(d, id)))
  {
    hide Invariant, IsChunk;
    if IsManifest(s, id) {
      RestStep(s, d, Reading(id, RevisionOf(s.store, id), Head(s, id), 0, []));
    }
  }

  lemma ReadChunk(s: System, d: nat)
    requires StageOf(s, d).Reading? && StageOf(s, d).next < |StageOf(s, d).manifest.chunks|
    requires StageOk(s, StageOf(s, d))
    ensures StageOk(Step(s, ReadNext(d)), StageOf(Step(s, ReadNext(d)), d))
  {
    hide IsChunk, IsManifest, ManifestAt;
    var t := Step(s, ReadNext(d));
    var Reading(id, revision, manifest, next, fetched) := StageOf(s, d);
    SameManifest(s, t, id);
    SameStoreAssembled(s, t, manifest.chunks[..next + 1]);
    assert manifest.chunks[..next + 1][..next] == manifest.chunks[..next];
  }

  lemma ReadLast(s: System, d: nat)
    requires StageOf(s, d).Reading? && StageOf(s, d).next == |StageOf(s, d).manifest.chunks|
    requires StageOk(s, StageOf(s, d))
    ensures StageOk(Step(s, ReadNext(d)), StageOf(Step(s, ReadNext(d)), d))
  {
    hide IsChunk, IsManifest, ManifestAt, Assembled;
    var t := Step(s, ReadNext(d));
    var Reading(id, revision, manifest, next, fetched) := StageOf(s, d);
    SameManifest(s, t, id);
    SameStoreAssembled(s, t, manifest.chunks);
    assert manifest.chunks[..next] == manifest.chunks;
  }

  lemma SameManifest(s: System, t: System, id: Uuid)
    requires t.store == s.store && t.master == s.master && IsManifest(s, id)
    ensures IsManifest(t, id)
    ensures forall r :: 1 <= r <= RevisionOf(s.store, id) ==> ManifestAt(t, id, r) == ManifestAt(s, id, r)
  {
  }

  lemma ReadStays(s: System, d: nat)
    requires StageOf(s, d).Reading?
    ensures var t := Step(s, ReadNext(d)); t == WithStage(s, d, StageOf(t, d)) && !Preparing(StageOf(t, d))
  {
    hide IsChunk, ChunkContent;
  }

  lemma ReadNextStep(s: System, d: nat)
    requires Invariant(s)
    ensures Invariant(Step(s, ReadNext(d)))
  {
    if StageOf(s, d).Reading? {
      OwnStage(s, d);
      hide Invariant, IsManifest, IsChunk, Assembled, ManifestAt;
      if StageOf(s, d).next < |StageOf(s, d).manifest.chunks| { ReadChunk(s, d); } else { ReadLast(s, d); }
      ReadStays(s, d);
      hide StageOk, ChunkContent, Step;
      RestStep(s, d, StageOf(Step(s, ReadNext(d)), d));
    }
  }

  // ----- steps that write -----

  lemma FreshChunk(s: System, t: System, newId: Uuid, chunk: seq<Byte>, attempt: nat)
    requires KindsOk(s) && BaseMatches(s.store, newId, None) && attempt < s.nextAttempt
    requires t.master == s.master && t.committed == s.committed && t.jobs == s.jobs
             && t.nextAttempt == s.nextAttempt
    requires t.store == Append(s.store, newId, CHUNK_NAMESPACE, Live(s.master, ChunkPayload(chunk)))
    requires t.owner == s.owner[newId := attempt]
    ensures Grows(s, t) && SameManifests(s, t) && HeadChunksStay(s, t) && KindsOk(t)
    ensures forall a :: KeepsChunksOf(s, t, a)
    ensures ChunkLive(t, newId) && ChunkContent(t, newId) == chunk
  {
    assert forall id: Uuid :: id != newId ==> VersionsOf(t.store, id) == VersionsOf(s.store, id);
    assert VersionsOf(s.store, newId) == [];
    assert VersionsOf(t.store, newId)
        == [Version(CHUNK_NAMESPACE, s.store.nextCursor, Live(s.master, ChunkPayload(chunk)))];
    assert newId !in s.owner;
    assert IsChunk(t, newId) && !IsManifest(t, newId) by {
      assert VersionsOf(t.store, newId)[0] in VersionsOf(t.store, newId);
    }
    forall id: Uuid ensures IsManifest(t, id) || IsChunk(t, id) || IsForeign(t, id) {
      if id != newId {
        assert IsManifest(s, id) || IsChunk(s, id) || IsForeign(s, id);
      }
    }
  }

  lemma PutChunkStep(s: System, d: nat, newId: Uuid)
    requires Invariant(s)
    ensures Invariant(Step(s, PutChunk(d, newId)))
  {
    if StageOf(s, d).Uploading? && StageOf(s, d).pending != [] {
      OwnStage(s, d);
      var Uploading(job, attempt, previous, uploaded, pending) := StageOf(s, d);
      if !BaseMatches(s.store, newId, None) {
        hide Invariant;
        AbandonStep(s, d, uploaded);
      } else {
        hide CommitsOk, StagesOk, HeadsLive;
        var t := Step(s, PutChunk(d, newId));
        var stage := VerifyingChunk(job, attempt, previous, uploaded, pending, newId);
        assert Moved(s, t, d, stage);
        FreshChunk(s, t, newId, pending[0], attempt);
        hide Invariant, KindsOk, Grows, SameManifests, HeadChunksStay, Moved, IsChunk, ChunkContent, IsManifest,
          ChunkLive;
        assert t.owner[newId] == attempt;
        UploadOkStays(s, t, job, attempt, previous, uploaded, pending);
        hide UploadOk;
        assert StageOk(t, stage);
        hide StageOk;
        QuietStep(s, t, d, stage);
      }
    }
  }

  // ----- publishing a manifest -----

  /** The object written is this publication's target, at the base it was read at, or a new one. */
  ghost predicate Publishes(s: System, t: System, id: Uuid, attempt: nat, manifest: Manifest)
  {
    && (IsManifest(s, id) || VersionsOf(s.store, id) == [])
    && t.master == s.master && t.owner == s.owner && t.jobs == s.jobs && t.nextAttempt == s.nextAttempt
    && t.store == Append(s.store, id, MANIFEST_NAMESPACE, Live(s.master, ManifestPayload(manifest)))
    && t.committed == s.committed[(id, RevisionOf(s.store, id) + 1) := attempt]
    && attempt < s.nextAttempt
    && (forall p :: p in s.committed ==> s.committed[p] != attempt)
  }

  lemma PublishedManifest(s: System, t: System, id: Uuid, attempt: nat, manifest: Manifest)
    requires Publishes(s, t, id, attempt, manifest) && KindsOk(s)
    ensures forall other: Uuid :: other != id ==> VersionsOf(t.store, other) == VersionsOf(s.store, other)
    ensures RevisionOf(t.store, id) == RevisionOf(s.store, id) + 1
    ensures IsManifest(t, id) && Head(t, id) == manifest
    ensures !IsChunk(s, id) && id !in s.owner
    ensures Prefix(VersionsOf(s.store, id), VersionsOf(t.store, id))
  {
    var v := Version(MANIFEST_NAMESPACE, s.store.nextCursor, Live(s.master, ManifestPayload(manifest)));
    assert VersionsOf(t.store, id) == VersionsOf(s.store, id) + [v];
    assert ManifestVersion(t.master, v);
    if IsManifest(s, id) {
      assert VersionsOf(s.store, id)[0] in VersionsOf(s.store, id);
    }
  }

  lemma PublishGrows(s: System, t: System, id: Uuid, attempt: nat, manifest: Manifest)
    requires Publishes(s, t, id, attempt, manifest) && KindsOk(s) && CommitsOk(s)
    ensures Grows(s, t) && KindsOk(t)
    ensures forall a :: KeepsChunksOf(s, t, a)
  {
    PublishedManifest(s, t, id, attempt, manifest);
    assert (id, RevisionOf(s.store, id) + 1) !in s.committed by { hide ManifestOk; }
    hide ManifestOk, CommitsOk;
    forall other: Uuid
      ensures IsManifest(t, other) || IsChunk(t, other) || IsForeign(t, other)
      ensures IsManifest(s, other) ==> IsManifest(t, other)
      ensures IsChunk(s, other) ==> IsChunk(t, other)
      ensures Prefix(VersionsOf(s.store, other), VersionsOf(t.store, other)) {
      if other != id {
        assert IsManifest(s, other) || IsChunk(s, other) || IsForeign(s, other);
      }
    }
  }

  lemma PublishCommits(s: System, t: System, id: Uuid, attempt: nat, manifest: Manifest)
    requires Publishes(s, t, id, attempt, manifest) && KindsOk(s) && CommitsOk(s)
    requires ManifestOk(s, manifest, attempt)
    ensures CommitsOk(t)
  {
    PublishedManifest(s, t, id, attempt, manifest);
    PublishGrows(s, t, id, attempt, manifest);
    hide ManifestOk, KindsOk;
    forall other: Uuid, r: nat | IsManifest(t, other) && 1 <= r <= RevisionOf(t.store, other)
      ensures (other, r) in t.committed && ManifestOk(t, ManifestAt(t, other, r), t.committed[(other, r)]) {
      if other == id && r == RevisionOf(t.store, id) {
        ManifestOkStays(s, t, manifest, attempt);
      } else {
        OlderManifest(s, t, id, attempt, manifest, other, r);
        ManifestStays(s, t, other, r);
        ManifestOkStays(s, t, ManifestAt(s, other, r), s.committed[(other, r)]);
      }
    }
    CommittedStay(s, t, id, attempt, manifest);
    hide Grows, IsManifest, Publishes;
  }

  lemma CommittedStay(s: System, t: System, id: Uuid, attempt: nat, manifest: Manifest)
    requires Publishes(s, t, id, attempt, manifest) && KindsOk(s) && CommitsOk(s)
    requires ManifestOk(s, manifest, attempt)
    ensures forall p :: p in t.committed ==>
              IsManifest(t, p.0) && 1 <= p.1 <= RevisionOf(t.store, p.0) && t.committed[p] < t.nextAttempt
  {
    PublishedManifest(s, t, id, attempt, manifest);
    PublishGrows(s, t, id, attempt, manifest);
    hide ManifestOk, KindsOk, Grows, IsManifest;
    forall p | p in t.committed
      ensures IsManifest(t, p.0) && 1 <= p.1 <= RevisionOf(t.store, p.0) && t.committed[p] < t.nextAttempt {
      if p in s.committed { ManifestStays(s, t, p.0, p.1); }
    }
  }

  lemma OlderManifest(s: System, t: System, id: Uuid, attempt: nat, manifest: Manifest, other: Uuid, r: nat)
    requires Publishes(s, t, id, attempt, manifest) && KindsOk(s)
    requires IsManifest(t, other) && 1 <= r <= RevisionOf(t.store, other)
    requires other != id || r < RevisionOf(t.store, id)
    ensures IsManifest(s, other) && r <= RevisionOf(s.store, other)
  {
    PublishedManifest(s, t, id, attempt, manifest);
  }

  lemma PublishHeads(s: System, t: System, id: Uuid, attempt: nat, manifest: Manifest)
    requires Publishes(s, t, id, attempt, manifest) && KindsOk(s) && CommitsOk(s) && HeadsLive(s)
    requires forall ref :: ref in manifest.chunks ==> ChunkLive(s, ref.objectId)
    ensures HeadsLive(t)
  {
    PublishedManifest(s, t, id, attempt, manifest);
    hide KindsOk, CommitsOk, IsChunk;
    forall other: Uuid, ref | IsManifest(t, other) && ref in Head(t, other).chunks
      ensures RevisionOf(t.store, ref.objectId) == 1 {
      if other == id {
        assert ChunkLive(s, ref.objectId);
      } else {
        SameHead(s, t, id, attempt, manifest, other);
        HeadOwner(s, other, ref);
        hide IsManifest, ManifestAt, Publishes;
      }
    }
  }

  lemma SameHead(s: System, t: System, id: Uuid, attempt: nat, manifest: Manifest, other: Uuid)
    requires Publishes(s, t, id, attempt, manifest) && other != id && IsManifest(t, other)
    ensures IsManifest(s, other) && Head(t, other) == Head(s, other)
  {
  }


  /** The manifest loaded before the upload is the very one the accepted upload replaces. */
  lemma ReplacedIsLoaded(s: System, job: Job, previous: Option<Loaded>, id: Uuid)
    requires LoadedOk(s, job, previous) && job.target.Some? && id == job.target.value.id
    requires BaseMatches(s.store, id, Some(job.target.value.base))
    ensures previous.Some? && IsManifest(s, id)
    ensures previous.value.revision == RevisionOf(s.store, id)
    ensures previous.value.manifest == Head(s, id)
  {
  }

  lemma ReplacedExpendable(t: System, id: Uuid, r: nat)
    requires CommitsOk(t) && AttemptsOk(t)
    requires IsManifest(t, id) && 1 <= r < RevisionOf(t.store, id)
    ensures forall ref :: ref in ManifestAt(t, id, r).chunks ==> Expendable(t, ref)
  {
    var refs := ManifestAt(t, id, r).chunks;
    var a := t.committed[(id, r)];
    assert ManifestOk(t, ManifestAt(t, id, r), a);
    assert forall ref :: ref in refs ==> MadeBy(t, ref, a) by { hide IsManifest, MadeBy; }
    assert !Leads(t, a) by { hide IsManifest, ManifestOk, AttemptsOk, MadeBy; }
    assert !InPreparation(t, a) by { hide CommitsOk, IsManifest, ManifestOk, MadeBy; }
    assert a < t.nextAttempt by { hide IsManifest, ManifestOk, MadeBy; }
    hide IsManifest, IsChunk, CommitsOk, AttemptsOk, Leads, InPreparation, ChunkContent, ManifestOk, ManifestAt;
  }

  lemma PublishExpendable(s: System, t: System, d: nat, stage: Stage, id: Uuid, attempt: nat, manifest: Manifest)
    requires Publishes(s, t, id, attempt, manifest) && KindsOk(s) && CommitsOk(s)
    requires Moved(s, t, d, stage)
    requires InPreparation(s, attempt)
    ensures KeepsExpendable(s, t)
  {
    PublishedManifest(s, t, id, attempt, manifest);
    PublishGrows(s, t, id, attempt, manifest);
    forall a | Leads(t, a) ensures Leads(s, a) || InPreparation(s, a) {
      hide KindsOk, CommitsOk, Grows, IsChunk, Moved, InPreparation;
      var other: Uuid :| IsManifest(t, other) && (other, RevisionOf(t.store, other)) in t.committed
                      && t.committed[(other, RevisionOf(t.store, other))] == a;
      if other != id {
        assert IsManifest(s, other);
      }
    }
    hide KindsOk, CommitsOk, Grows, Moved, Publishes;
    ExpendableStays(s, t, d, stage);
  }

  lemma PublishStep(s: System, t: System, d: nat, stage: Stage, id: Uuid, attempt: nat, manifest: Manifest)
    requires Invariant(s) && Publishes(s, t, id, attempt, manifest) && Moved(s, t, d, stage)
    requires ManifestOk(s, manifest, attempt)
    requires forall ref :: ref in manifest.chunks ==> ChunkLive(s, ref.objectId)
    requires Preparing(StageOf(s, d)) && StageOf(s, d).attempt == attempt && !Preparing(stage)
    requires CommitsOk(t) && AttemptsOk(t) && Grows(s, t) ==> StageOk(t, stage)
    requires t.bases == s.bases
    ensures Invariant(t)
  {
    hide BasesOk;
    hide ManifestOk, StageOk, IsManifest, IsChunk, Grows, StagesOk;
    assert CommittedBy(s, t, d, stage) && InPreparation(s, attempt) by { hide CommitsOk, HeadsLive, KindsOk; }
    hide InPreparation;
    PublishGrows(s, t, id, attempt, manifest);
    BasesStay(s, t);
    PublishCommits(s, t, id, attempt, manifest);
    PublishHeads(s, t, id, attempt, manifest);
    PublishExpendable(s, t, d, stage, id, attempt, manifest);
    hide KindsOk, HeadsLive, AttemptsOk, Publishes, KeepsExpendable, CommitsOk, Moved, CommittedBy;
    AttemptsStay(s, t, d, stage);
    StagesStay(s, t, d, stage);
  }

  function TargetOf(job: Job, newId: Uuid): Uuid
  {
    if job.target.Some? then job.target.value.id else newId
  }

  function BaseOf(job: Job): Option<nat>
  {
    if job.target.Some? then Some(job.target.value.base) else None
  }

  ghost predicate Accepted(s: System, d: nat, newId: Uuid)
  {
    && StageOf(s, d).Uploading? && StageOf(s, d).pending == []
    && BaseMatches(s.store, TargetOf(StageOf(s, d).job, newId), BaseOf(StageOf(s, d).job))
  }

  lemma AcceptedTarget(s: System, job: Job, previous: Option<Loaded>, newId: Uuid)
    requires LoadedOk(s, job, previous) && BaseMatches(s.store, TargetOf(job, newId), BaseOf(job))
    ensures IsManifest(s, TargetOf(job, newId)) || VersionsOf(s.store, TargetOf(job, newId)) == []
  {
  }

  lemma OwnAttempt(s: System, d: nat)
    requires AttemptsOk(s) && Preparing(StageOf(s, d))
    ensures StageOf(s, d).attempt < s.nextAttempt
    ensures forall p :: p in s.committed ==> s.committed[p] != StageOf(s, d).attempt
  {
  }

  /** What an accepted manifest changes, spelled out. */
  lemma AcceptedResult(s: System, d: nat, newId: Uuid)
    requires Accepted(s, d, newId)
    ensures var Uploading(job, attempt, previous, uploaded, _) := StageOf(s, d);
            var id := TargetOf(job, newId);
            var r := RevisionOf(s.store, id) + 1;
            var manifest := ManifestFor(job, uploaded);
            var stage := VerifyingManifest(manifest, attempt, id, r,
                                           if previous.Some? then previous.value.manifest.chunks else []);
            Step(s, PutManifest(d, newId)) ==
            s.(store := Append(s.store, id, MANIFEST_NAMESPACE, Live(s.master, ManifestPayload(manifest))),
               stages := s.stages[d := stage],
               committed := s.committed[(id, r) := attempt])
  {
  }

  lemma AcceptedPublishes(s: System, d: nat, newId: Uuid)
    requires Invariant(s) && Accepted(s, d, newId)
    ensures var Uploading(job, attempt, _, uploaded, _) := StageOf(s, d);
            Publishes(s, Step(s, PutManifest(d, newId)), TargetOf(job, newId), attempt, ManifestFor(job, uploaded))
  {
    OwnStage(s, d);
    OwnAttempt(s, d);
    AcceptedResult(s, d, newId);
    var Uploading(job, attempt, previous, uploaded, _) := StageOf(s, d);
    AcceptedTarget(s, job, previous, newId);
    hide Invariant, Step, StageOk, IsManifest, Append, BaseMatches;
  }

  lemma UploadedManifest(s: System, job: Job, attempt: nat, previous: Option<Loaded>, uploaded: seq<ChunkRef>)
    requires UploadOk(s, job, attempt, previous, uploaded, [])
    requires attempt in s.jobs && s.jobs[attempt] == job
    ensures ManifestOk(s, ManifestFor(job, uploaded), attempt)
    ensures forall ref :: ref in uploaded ==> ChunkLive(s, ref.objectId)
  {
    hide MadeBy, IsManifest, ChunkLive, Assembled;
    assert Flatten([]) == [];
  }

  lemma AcceptedStage(s: System, d: nat, newId: Uuid)
    requires Invariant(s) && Accepted(s, d, newId)
    requires var t := Step(s, PutManifest(d, newId)); CommitsOk(t) && AttemptsOk(t) && Grows(s, t)
    ensures StageOk(Step(s, PutManifest(d, newId)), StageOf(Step(s, PutManifest(d, newId)), d))
  {
    hide CommitsOk, AttemptsOk, HeadsLive, StagesOk, IsChunk, Expendable, Grows, ChunkContent, Assembled, MadeBy;
    OwnStage(s, d);
    AcceptedPublishes(s, d, newId);
    AcceptedResult(s, d, newId);
    hide Step;
    var t := Step(s, PutManifest(d, newId));
    var Uploading(job, attempt, previous, uploaded, _) := StageOf(s, d);
    var id := TargetOf(job, newId);
    var r := RevisionOf(s.store, id);
    PublishedManifest(s, t, id, attempt, ManifestFor(job, uploaded));
    hide KindsOk, Publishes, IsManifest, ManifestAt;
    if job.target.Some? {
      ReplacedIsLoaded(s, job, previous, id);
      BasePositive(s, id);
      ManifestStays(s, t, id, r);
      ReplacedExpendable(t, id, r);
    }
  }

  lemma BasePositive(s: System, id: Uuid)
    requires IsManifest(s, id)
    ensures 1 <= RevisionOf(s.store, id)
  {
  }

  lemma AcceptedMoves(s: System, d: nat, newId: Uuid)
    requires AttemptsOk(s) && Accepted(s, d, newId)
    ensures var t := Step(s, PutManifest(d, newId));
            Moved(s, t, d, StageOf(t, d)) && !Preparing(StageOf(t, d)) && t.bases == s.bases
  {
    AcceptedResult(s, d, newId);
    hide Step, Accepted, Append;
  }

  lemma AcceptedStep(s: System, d: nat, newId: Uuid)
    requires Invariant(s) && Accepted(s, d, newId)
    ensures Invariant(Step(s, PutManifest(d, newId)))
  {
    var t := Step(s, PutManifest(d, newId));
    var Uploading(job, attempt, previous, uploaded, pending) := StageOf(s, d);
    OwnStage(s, d);
    assert AttemptsOk(s);
    hide Invariant, Step, KindsOk, CommitsOk, HeadsLive, StagesOk, BasesOk;
    OwnArchive(s, d);
    UploadedManifest(s, job, attempt, previous, uploaded);
    AcceptedMoves(s, d, newId);
    AcceptedPublishes(s, d, newId);
    hide AttemptsOk, StageOk, Publishes, Moved, UploadOk, ManifestOk, ChunkLive, BaseMatches, Grows;
    if CommitsOk(t) && AttemptsOk(t) && Grows(s, t) { AcceptedStage(s, d, newId); }
    PublishStep(s, t, d, StageOf(t, d), TargetOf(job, newId), attempt, ManifestFor(job, uploaded));
  }

  lemma OwnArchive(s: System, d: nat)
    requires AttemptsOk(s) && Preparing(StageOf(s, d))
    ensures StageOf(s, d).attempt in s.jobs && s.jobs[StageOf(s, d).attempt] == StageOf(s, d).job
  {
  }

  lemma PutManifestStep(s: System, d: nat, newId: Uuid)
    requires Invariant(s)
    ensures Invariant(Step(s, PutManifest(d, newId)))
  {
    hide Invariant;
    if StageOf(s, d).Uploading? && StageOf(s, d).pending == [] {
      if Accepted(s, d, newId) {
        AcceptedStep(s, d, newId);
      } else {
        OwnStage(s, d);
        hide MadeBy, IsManifest;
        AbandonStep(s, d, StageOf(s, d).uploaded);
      }
    }
  }

  // ----- deleting -----

  lemma DeletedChunk(s: System, t: System, d: nat, ref: ChunkRef)
    requires KindsOk(s) && Expendable(s, ref) && RevisionOf(s.store, ref.objectId) == 1
    requires t.master == s.master && t.owner == s.owner && t.committed == s.committed && t.jobs == s.jobs
             && t.nextAttempt == s.nextAttempt
    requires t.store == Append(s.store, ref.objectId, VersionsOf(s.store, ref.objectId)[0].namespace, Tombstone)
    ensures Grows(s, t) && SameManifests(s, t) && HeadChunksStay(s, t) && KindsOk(t)
    ensures forall a :: InPreparation(s, a) ==> KeepsChunksOf(s, t, a)
  {
    hide Leads, InPreparation;
    var gone := ref.objectId;
    assert IsChunk(s, gone);
    var v := Version(VersionsOf(s.store, gone)[0].namespace, s.store.nextCursor, Tombstone);
    assert VersionsOf(t.store, gone) == VersionsOf(s.store, gone) + [v];
    assert forall id: Uuid :: id != gone ==> VersionsOf(t.store, id) == VersionsOf(s.store, id);
    assert IsChunk(t, gone) && !IsManifest(t, gone) by {
      assert VersionsOf(t.store, gone)[0] in VersionsOf(t.store, gone);
    }
    assert !IsManifest(s, gone) by {
      assert VersionsOf(s.store, gone)[0] in VersionsOf(s.store, gone);
    }
    forall id: Uuid ensures IsManifest(t, id) || IsChunk(t, id) || IsForeign(t, id) {
      if id != gone {
        assert IsManifest(s, id) || IsChunk(s, id) || IsForeign(s, id);
      }
    }
  }

  lemma SameBase(s: System, t: System, base: Base)
    requires BaseOk(s, base) && t.store == s.store && t.master == s.master
    ensures BaseOk(t, base)
  {
    SameManifest(s, t, base.id);
  }

  /** A stored base is that of the revision the device has published or read. */
  lemma StoredStep(s: System, d: nat, base: Base)
    requires Invariant(s) && BaseOk(s, base)
    ensures Invariant(Stored(s, d, base))
  {
    hide BaseOk, KindsOk, CommitsOk, HeadsLive, StagesOk;
    var t := Stored(s, d, base);
    forall e | e in t.bases ensures BaseOk(t, t.bases[e]) {
      SameBase(s, t, t.bases[e]);
    }
    assert Moved(s, t, d, Idle) && SameObjects(s, t);
    LocalStep(s, t, d, Idle);
  }

  lemma PersistStep(s: System, d: nat)
    requires Invariant(s)
    ensures Invariant(Step(s, Persist(d)))
  {
    OwnStage(s, d);
    assert CommitsOk(s);
    hide Invariant, Expendable, IsChunk, Assembled, CommitsOk;
    match StageOf(s, d)
    case Published(base) => StoredStep(s, d, base);
    case HasRead(id, revision, archive) =>
      PublishedHash(s, id, revision);
      StoredStep(s, d, Base(id, revision, Sha256(archive)));
    case Reading(id, revision, manifest, _, _) => StoredStep(s, d, Base(id, revision, manifest.archiveSha256));
    case _ =>
  }

  lemma PublishedHash(s: System, id: Uuid, r: nat)
    requires CommitsOk(s) && IsManifest(s, id) && 1 <= r <= RevisionOf(s.store, id)
    ensures ManifestAt(s, id, r).archiveSha256 == Sha256(Assembled(s, ManifestAt(s, id, r).chunks))
  {
    hide Assembled, IsManifest, ManifestAt;
    assert ManifestOk(s, ManifestAt(s, id, r), s.committed[(id, r)]);
  }

  /** A queue's tail is no more than the queue. */
  lemma TailExpendable(s: System, t: System, queue: seq<ChunkRef>)
    requires queue != [] && (forall ref :: ref in queue ==> Expendable(s, ref)) && KeepsExpendable(s, t)
    ensures forall ref :: ref in queue[1..] ==> Expendable(t, ref)
  {
    hide Expendable;
  }

  lemma DeletesStage(s: System, t: System, stage: Stage)
    requires stage.Deleting? && stage.queue != [] && StageOk(s, stage)
    requires Grows(s, t) && KeepsExpendable(s, t)
    ensures StageOk(t, Deleting(stage.queue[1..], stage.published))
  {
    hide Expendable, BaseOk, KeepsExpendable, Grows;
    TailExpendable(s, t, stage.queue);
    if stage.published.Some? { BaseStays(s, t, stage.published.value); }
  }

  lemma DeletesOne(s: System, d: nat)
    requires Invariant(s) && StageOf(s, d).Deleting? && StageOf(s, d).queue != []
    requires var ref := StageOf(s, d).queue[0];
             VersionsOf(s.store, ref.objectId) != [] && RevisionOf(s.store, ref.objectId) == ref.revision
    ensures Invariant(Step(s, DeleteNext(d)))
  {
    OwnStage(s, d);
    hide CommitsOk, HeadsLive, StagesOk, BaseOk, BasesOk;
    var Deleting(queue, published) := StageOf(s, d);
    var t := Step(s, DeleteNext(d));
    var stage := Deleting(queue[1..], published);
    assert Expendable(s, queue[0]);
    DeletedChunk(s, t, d, queue[0]);
    DeletionMoves(s, d);
    hide Moved, KindsOk, AttemptsOk, Grows, SameManifests, HeadChunksStay, Expendable, KeepsExpendable, StageOk;
    if KeepsExpendable(s, t) { DeletesStage(s, t, StageOf(s, d)); }
    hide Step, KeepsChunksOf;
    QuietStep(s, t, d, stage);
  }

  lemma DeletionMoves(s: System, d: nat)
    requires AttemptsOk(s) && StageOf(s, d).Deleting? && StageOf(s, d).queue != []
    requires var ref := StageOf(s, d).queue[0];
             VersionsOf(s.store, ref.objectId) != [] && RevisionOf(s.store, ref.objectId) == ref.revision
    ensures var t := Step(s, DeleteNext(d));
            && Moved(s, t, d, Deleting(StageOf(s, d).queue[1..], StageOf(s, d).published))
            && t.bases == s.bases
  {
  }

  lemma DeleteNextStep(s: System, d: nat)
    requires Invariant(s)
    ensures Invariant(Step(s, DeleteNext(d)))
  {
    if StageOf(s, d).Deleting? {
      OwnStage(s, d);
      hide Invariant, Expendable;
      var Deleting(queue, published) := StageOf(s, d);
      if queue != [] && VersionsOf(s.store, queue[0].objectId) != []
         && RevisionOf(s.store, queue[0].objectId) == queue[0].revision {
        DeletesOne(s, d);
      } else if queue == [] && published.Some? {
        SameBase(s, WithStage(s, d, Published(published.value)), published.value);
        RestStep(s, d, Published(published.value));
      } else {
        RestStep(s, d, Idle);
      }
    }
  }

  // ----- other objects -----

  lemma ForeignWrite(s: System, t: System, id: Uuid, namespace: Text, content: Content<Payload>)
    requires KindsOk(s) && IsForeign(s, id)
    requires var v := Version(namespace, s.store.nextCursor, content);
             !ManifestVersion(s.master, v) && !ChunkVersion(s.master, v)
    requires t.master == s.master && t.owner == s.owner && t.committed == s.committed && t.jobs == s.jobs
             && t.nextAttempt == s.nextAttempt
    requires t.store == Append(s.store, id, namespace, content)
    ensures Grows(s, t) && SameManifests(s, t) && HeadChunksStay(s, t) && KindsOk(t)
    ensures forall a :: KeepsChunksOf(s, t, a)
  {
    hide Leads;
    var v := Version(namespace, s.store.nextCursor, content);
    assert VersionsOf(t.store, id) == VersionsOf(s.store, id) + [v];
    assert forall other: Uuid :: other != id ==> VersionsOf(t.store, other) == VersionsOf(s.store, other);
    assert IsForeign(t, id);
    NotForeign(s, id);
    NotForeign(t, id);
    forall other: Uuid ensures IsManifest(t, other) || IsChunk(t, other) || IsForeign(t, other) {
      if other != id {
        assert IsManifest(s, other) || IsChunk(s, other) || IsForeign(s, other);
      }
    }
  }

  lemma NotForeign(s: System, id: Uuid)
    requires IsForeign(s, id)
    ensures !IsManifest(s, id) && !IsChunk(s, id)
  {
    if VersionsOf(s.store, id) != [] {
      assert VersionsOf(s.store, id)[0] in VersionsOf(s.store, id);
    }
  }

  lemma ElsewhereStep(s: System, d: nat, id: Uuid, namespace: Text, content: Content<Payload>)
    requires Invariant(s)
    ensures Invariant(Step(s, Elsewhere(d, id, namespace, content)))
  {
    var t := Step(s, Elsewhere(d, id, namespace, content));
    if t != s {
      OwnStage(s, d);
      var stage := StageOf(s, d);
      ForeignWrite(s, t, id, namespace, content);
      assert Moved(s, t, d, stage) by { hide CommitsOk, HeadsLive, KindsOk, StageOk, IsManifest, IsChunk, IsForeign; }
      assert ManifestsMade(s) by { hide ManifestOk, ManifestAt, IsManifest, HeadsLive, KindsOk, AttemptsOk, StagesOk; }
      hide CommitsOk, HeadsLive, KindsOk, StagesOk, AttemptsOk, Moved, StageOk, IsManifest, IsChunk, IsForeign;
      hide ManifestsMade, SameManifests, HeadChunksStay, Grows, Step, KeepsChunksOf;
      if KeepsExpendable(s, t) { StageStays(s, t, stage); }
      QuietStep(s, t, d, stage);
    }
  }

  // ----- whole runs -----

  /**
   A publisher that never hears of its committed manifest is harmless once the manifest has been
   replaced, or when it has no chunks to clean up.
   */
  predicate Harmless(s: System, a: Action)
  {
    a.LostReply? && StageOf(s, a.d).VerifyingManifest? ==>
      || RevisionOf(s.store, StageOf(s, a.d).id) != StageOf(s, a.d).revision
      || StageOf(s, a.d).manifest.chunks == []
  }

  lemma StepKeepsInvariant(s: System, a: Action)
    requires Invariant(s) && Harmless(s, a)
    ensures Invariant(Step(s, a))
  {
    hide Invariant, BaseMatches, IsManifest, IsChunk, IsForeign, ManifestAt, Flatten, Chunks;
    match a
    case BeginSave(d, job) => BeginSaveStep(s, d, job);
    case Load(d) => LoadStep(s, d);
    case PutChunk(d, newId) => PutChunkStep(s, d, newId);
    case VerifyChunk(d) => VerifyChunkStep(s, d);
    case PutManifest(d, newId) => PutManifestStep(s, d, newId);
    case VerifyManifest(d) => VerifyManifestStep(s, d);
    case FailBeforeCommit(d) => FailBeforeCommitStep(s, d);
    case LostReply(d) => if StageOf(s, d).VerifyingManifest? { SupersededStep(s, d); }
    case DeleteNext(d) => DeleteNextStep(s, d);
    case Persist(d) => PersistStep(s, d);
    case Crash(d) => RestStep(s, d, Idle);
    case BeginRead(d, id) => BeginReadStep(s, d, id);
    case ReadNext(d) => ReadNextStep(s, d);
    case Elsewhere(d, id, namespace, content) => ElsewhereStep(s, d, id, namespace, content);
  }

  ghost predicate AllHarmless(s: System, actions: seq<Action>)
  {
    actions == [] ||
    (AllHarmless(s, actions[..|actions| - 1]) && Harmless(RunAll(s, actions[..|actions| - 1]), actions[|actions| - 1]))
  }

  lemma {:induction false} EveryRunKeepsInvariant(s: System, actions: seq<Action>)
    requires Initial(s) && AllHarmless(s, actions)
    ensures Invariant(RunAll(s, actions))
  {
    hide Invariant, Step, Harmless;
    if actions == [] {
      InitialOk(s);
    } else {
      EveryRunKeepsInvariant(s, actions[..|actions| - 1]);
      StepKeepsInvariant(RunAll(s, actions[..|actions| - 1]), actions[|actions| - 1]);
    }
  }

  /**
   In every interleaving of publishers, cleanups, crashes, lost chunk replies and readers, each
   live manifest refers only to live chunks, at the recorded revision, with the recorded bytes.
   */
  lemma NeverDangling(s: System, actions: seq<Action>)
    requires Initial(s) && AllHarmless(s, actions)
    ensures NoDanglingManifest(RunAll(s, actions))
  {
    hide Invariant, NoDanglingManifest, Initial, AllHarmless;
    EveryRunKeepsInvariant(s, actions);
    InvariantMeansNoDangling(RunAll(s, actions));
  }

  /**
   Exactly when losing the reply to a committed manifest is harmful: its first cleanup request
   leaves a dangling manifest unless the loss was harmless as above.
   */
  lemma LostReplyDanglesExactly(s: System, d: nat)
    requires Invariant(s) && StageOf(s, d).VerifyingManifest?
    ensures NoDanglingManifest(Step(Step(s, LostReply(d)), DeleteNext(d))) <==> Harmless(s, LostReply(d))
  {
    if Harmless(s, LostReply(d)) {
      hide Invariant, Step, NoDanglingManifest;
      StepKeepsInvariant(s, LostReply(d));
      StepKeepsInvariant(Step(s, LostReply(d)), DeleteNext(d));
      InvariantMeansNoDangling(Step(Step(s, LostReply(d)), DeleteNext(d)));
    } else {
      LostReplyDangles(s, d);
    }
  }

  lemma LostReplyDangles(s: System, d: nat)
    requires Invariant(s) && StageOf(s, d).VerifyingManifest? && !Harmless(s, LostReply(d))
    ensures !NoDanglingManifest(Step(Step(s, LostReply(d)), DeleteNext(d)))
  {
    StageOkManifest(s, d);
    InvariantMeansNoDangling(s);
    hide Invariant, IsManifest, ManifestAt;
    var VerifyingManifest(manifest, a, id, revision, _) := StageOf(s, d);
    var first := manifest.chunks[0];
    assert RefersToLive(s, first);
    hide NoDanglingManifest;
    LostReplyDeletes(s, d);
    DanglingAfterDelete(s, Step(Step(s, LostReply(d)), DeleteNext(d)), id, first);
  }

  lemma LostReplyDeletes(s: System, d: nat)
    requires StageOf(s, d).VerifyingManifest? && StageOf(s, d).manifest.chunks != []
    requires var first := StageOf(s, d).manifest.chunks[0]; ChunkLive(s, first.objectId) && first.revision == 1
    ensures var t := Step(Step(s, LostReply(d)), DeleteNext(d));
            var first := StageOf(s, d).manifest.chunks[0];
            t.master == s.master &&
            t.store == Append(s.store, first.objectId, VersionsOf(s.store, first.objectId)[0].namespace, Tombstone)
  {
    hide IsManifest, Append;
  }

  lemma DanglingAfterDelete(s: System, t: System, id: Uuid, ref: ChunkRef)
    requires IsManifest(s, id) && ref in Head(s, id).chunks && ChunkLive(s, ref.objectId)
    requires t.master == s.master
    requires t.store == Append(s.store, ref.objectId, VersionsOf(s.store, ref.objectId)[0].namespace, Tombstone)
    ensures !NoDanglingManifest(t)
  {
    NotChunkAndManifest(s, id);
    assert VersionsOf(t.store, id) == VersionsOf(s.store, id);
    assert IsManifest(t, id) && Head(t, id) == Head(s, id);
    assert RevisionOf(t.store, ref.objectId) == 2;
    assert !RefersToLive(t, ref);
    hide IsManifest, IsChunk, ManifestAt;
  }

  lemma StageOkManifest(s: System, d: nat)
    requires Invariant(s) && StageOf(s, d).VerifyingManifest?
             && RevisionOf(s.store, StageOf(s, d).id) == StageOf(s, d).revision
    ensures IsManifest(s, StageOf(s, d).id) && Head(s, StageOf(s, d).id) == StageOf(s, d).manifest
  {
    hide IsManifest, ManifestAt, Expendable;
    OwnStage(s, d);
    hide Invariant;
  }

  lemma NotChunkAndManifest(s: System, id: Uuid)
    ensures !(IsManifest(s, id) && IsChunk(s, id))
  {
    if IsChunk(s, id) { assert VersionsOf(s.store, id)[0] in VersionsOf(s.store, id); }
  }

  // ----- what is deleted, and what is read -----

  /**
   The chunks a publication deletes once its manifest is accepted are exactly those of the
   revision it replaced: nothing was published between reading the old manifest and replacing it.
   */
  lemma OldChunksAreTheReplacedOnes(s: System, d: nat, newId: Uuid)
    requires Invariant(s) && Accepted(s, d, newId)
    ensures var t := Step(s, PutManifest(d, newId));
            var id := TargetOf(StageOf(s, d).job, newId);
            var r := RevisionOf(s.store, id);
            && StageOf(t, d).VerifyingManifest? && StageOf(t, d).id == id && StageOf(t, d).revision == r + 1
            && (r == 0 ==> StageOf(t, d).oldChunks == [])
            && (r > 0 ==> IsManifest(s, id) && StageOf(t, d).oldChunks == Head(s, id).chunks)
            && IsManifest(t, id) && Head(t, id) == StageOf(t, d).manifest
  {
    OwnStage(s, d);
    AcceptedResult(s, d, newId);
    AcceptedPublishes(s, d, newId);
    assert KindsOk(s);
    hide Invariant, KindsOk, Step, Expendable, IsChunk, Assembled;
    var Uploading(job, attempt, previous, uploaded, _) := StageOf(s, d);
    var id := TargetOf(job, newId);
    PublishedManifest(s, Step(s, PutManifest(d, newId)), id, attempt, ManifestFor(job, uploaded));
    hide Publishes, IsManifest, ManifestAt;
    if job.target.Some? {
      ReplacedIsLoaded(s, job, previous, id);
      BasePositive(s, id);
    }
  }

  /** The archive handed to the save that wrote this revision. */
  function PublishedArchive(s: System, id: Uuid, revision: nat): Option<seq<Byte>>
  {
    if (id, revision) in s.committed && s.committed[(id, revision)] in s.jobs
    then Some(s.jobs[s.committed[(id, revision)]].archive) else None
  }

  /** And the profile it was asked to save. */
  function PublishedProfile(s: System, id: Uuid, revision: nat): Option<string>
  {
    if (id, revision) in s.committed && s.committed[(id, revision)] in s.jobs
    then Some(s.jobs[s.committed[(id, revision)]].profile) else None
  }

  /** In every run each manifest revision names the profile of the save that made it. */
  lemma ManifestNamesItsProfile(s: System, actions: seq<Action>, id: Uuid, r: nat)
    requires Initial(s) && AllHarmless(s, actions)
    requires IsManifest(RunAll(s, actions), id) && 1 <= r <= RevisionOf(RunAll(s, actions).store, id)
    ensures var t := RunAll(s, actions);
            PublishedProfile(t, id, r) == Some(ManifestAt(t, id, r).profileDirectory)
  {
    EveryRunKeepsInvariant(s, actions);
    var t := RunAll(s, actions);
    assert CommitsOk(t);
    hide Invariant, Initial, AllHarmless, RunAll, Assembled, IsManifest, ManifestAt;
    assert ManifestOk(t, ManifestAt(t, id, r), t.committed[(id, r)]);
  }

  lemma WholeArchive(s: System, id: Uuid, r: nat)
    requires CommitsOk(s) && IsManifest(s, id) && 1 <= r <= RevisionOf(s.store, id)
    ensures PublishedArchive(s, id, r) == Some(Assembled(s, ManifestAt(s, id, r).chunks))
  {
    hide Assembled, IsManifest, ManifestAt;
    assert ManifestOk(s, ManifestAt(s, id, r), s.committed[(id, r)]);
  }

  /**
   In every run, whatever writes happened between the requests of a load, the bytes it returns are
   the whole archive given to the save that published the manifest revision it read.
   */
  lemma ReadsAreWhole(s: System, actions: seq<Action>, d: nat)
    requires Initial(s) && AllHarmless(s, actions)
    requires StageOf(RunAll(s, actions), d).HasRead?
    ensures var t := RunAll(s, actions);
            PublishedArchive(t, StageOf(t, d).id, StageOf(t, d).revision) == Some(StageOf(t, d).archive)
  {
    EveryRunKeepsInvariant(s, actions);
    var t := RunAll(s, actions);
    OwnStage(t, d);
    assert CommitsOk(t);
    hide Invariant, Initial, AllHarmless, RunAll, CommitsOk, Assembled, IsManifest, ManifestAt, PublishedArchive;
    WholeArchive(t, StageOf(t, d).id, StageOf(t, d).revision);
  }

  /**
   In every run, each stored extension base is the hash of the whole archive published at exactly
   the mapped revision, and that revision is not ahead of the server.
   */
  lemma ExtensionBaseIsHistory(s: System, actions: seq<Action>, d: nat)
    requires Initial(s) && AllHarmless(s, actions)
    requires d in RunAll(s, actions).bases
    ensures var t := RunAll(s, actions);
            var base := t.bases[d];
            && base.revision <= RevisionOf(t.store, base.id)
            && PublishedArchive(t, base.id, base.revision).Some?
            && base.archiveSha256 == Sha256(PublishedArchive(t, base.id, base.revision).value)
  {
    EveryRunKeepsInvariant(s, actions);
    var t := RunAll(s, actions);
    assert CommitsOk(t) && BaseOk(t, t.bases[d]);
    hide Invariant, Initial, AllHarmless, RunAll, CommitsOk, Assembled, IsManifest, ManifestAt, PublishedArchive;
    WholeArchive(t, t.bases[d].id, t.bases[d].revision);
    PublishedHash(t, t.bases[d].id, t.bases[d].revision);
  }

  /** Reading on for n requests with nobody else stepping. */
  function ReadOn(s: System, d: nat, n: nat): System
  {
    if n == 0 then s else Step(ReadOn(s, d, n - 1), ReadNext(d))
  }

  lemma {:induction false} ReadsChunks(s: System, d: nat, id: Uuid, n: nat)
    requires Invariant(s) && IsManifest(s, id) && n <= |Head(s, id).chunks|
    requires StageOf(s, d) == Reading(id, RevisionOf(s.store, id), Head(s, id), 0, [])
    ensures ReadOn(s, d, n)
         == WithStage(s, d, Reading(id, RevisionOf(s.store, id), Head(s, id), n, Assembled(s, Head(s, id).chunks[..n])))
  {
    hide Invariant, IsManifest, ManifestAt, ChunkContent, RefersToLive, Step;
    var refs := Head(s, id).chunks;
    if n == 0 {
      assert s.stages == s.stages[d := s.stages[d]];
    } else {
      ReadsChunks(s, d, id, n - 1);
      InvariantMeansNoDangling(s);
      assert RefersToLive(s, refs[n - 1]);
      assert refs[..n][..n - 1] == refs[..n - 1];
      ReadsOne(s, d, Reading(id, RevisionOf(s.store, id), Head(s, id), n - 1, Assembled(s, refs[..n - 1])));
    }
  }

  lemma ReadsOne(s: System, d: nat, stage: Stage)
    requires stage.Reading? && stage.next < |stage.manifest.chunks|
             && RefersToLive(s, stage.manifest.chunks[stage.next])
    ensures Step(WithStage(s, d, stage), ReadNext(d))
         == WithStage(s, d, stage.(next := stage.next + 1,
                                   fetched := stage.fetched
                                            + ChunkContent(s, stage.manifest.chunks[stage.next].objectId)))
  {
    var ref := stage.manifest.chunks[stage.next];
    var t := WithStage(s, d, stage);
    SameChunk(s, t, ref.objectId);
    hide IsChunk, ChunkContent;
    var after := stage.(next := stage.next + 1, fetched := stage.fetched + ChunkContent(s, ref.objectId));
    assert s.stages[d := stage][d := after] == s.stages[d := after];
  }

  lemma ReadsLast(s: System, d: nat, stage: Stage)
    requires stage.Reading? && stage.next == |stage.manifest.chunks|
    requires |stage.fetched| == stage.manifest.archiveBytes && Sha256(stage.fetched) == stage.manifest.archiveSha256
    ensures StageOf(Step(WithStage(s, d, stage), ReadNext(d)), d) == HasRead(stage.id, stage.revision, stage.fetched)
  {
  }

  lemma SameChunk(s: System, t: System, id: Uuid)
    requires t.store == s.store && t.master == s.master
    ensures IsChunk(t, id) == IsChunk(s, id) && ChunkContent(t, id) == ChunkContent(s, id)
  {
  }

  /**
   Load after save: in any state a run can reach, a device that reads a manifest with nobody
   stepping in between gets the archive its newest revision was published with.
   */
  lemma LoadAfterSave(s: System, d: nat, id: Uuid)
    requires Invariant(s) && IsManifest(s, id) && (StageOf(s, d).Idle? || StageOf(s, d).HasRead?)
    ensures var n := |Head(s, id).chunks| + 1;
            var t := ReadOn(Step(s, BeginRead(d, id)), d, n);
            && StageOf(t, d).HasRead? && StageOf(t, d).id == id && StageOf(t, d).revision == RevisionOf(s.store, id)
            && Some(StageOf(t, d).archive) == PublishedArchive(s, id, RevisionOf(s.store, id))
  {
    var u := Step(s, BeginRead(d, id));
    BeginReadStep(s, d, id);
    SameManifest(s, u, id);
    BasePositive(s, id);
    WholeArchive(s, id, RevisionOf(s.store, id));
    BeginsReading(s, d, id);
    hide Invariant, IsManifest, ManifestAt, Step, Assembled, PublishedArchive;
    SameStoreAssembled(s, u, Head(s, id).chunks);
    ReadsToTheEnd(u, d, id);
  }

  lemma ReadsToTheEnd(s: System, d: nat, id: Uuid)
    requires Invariant(s) && IsManifest(s, id)
    requires StageOf(s, d) == Reading(id, RevisionOf(s.store, id), Head(s, id), 0, [])
    ensures StageOf(ReadOn(s, d, |Head(s, id).chunks| + 1), d)
         == HasRead(id, RevisionOf(s.store, id), Assembled(s, Head(s, id).chunks))
  {
    HeadOk(s, id);
    hide Invariant, IsManifest, ManifestAt, Step, Assembled;
    var refs := Head(s, id).chunks;
    ReadsChunks(s, d, id, |refs|);
    assert refs[..|refs|] == refs;
    ReadsLast(s, d, Reading(id, RevisionOf(s.store, id), Head(s, id), |refs|, Assembled(s, refs)));
  }

  lemma BeginsReading(s: System, d: nat, id: Uuid)
    requires IsManifest(s, id) && (StageOf(s, d).Idle? || StageOf(s, d).HasRead?)
    ensures Step(s, BeginRead(d, id)) == WithStage(s, d, Reading(id, RevisionOf(s.store, id), Head(s, id), 0, []))
  {
    hide IsManifest, ManifestAt;
  }

  lemma HeadOk(s: System, id: Uuid)
    requires CommitsOk(s) && IsManifest(s, id)
    ensures Head(s, id).archiveBytes == |Assembled(s, Head(s, id).chunks)|
    ensures Head(s, id).archiveSha256 == Sha256(Assembled(s, Head(s, id).chunks))
  {
    BasePositive(s, id);
    var r := RevisionOf(s.store, id);
    assert ManifestOk(s, ManifestAt(s, id, r), s.committed[(id, r)]);
    hide Assembled, IsManifest, ManifestAt, MadeBy;
  }
}
