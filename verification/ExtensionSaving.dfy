/**
 One publication of a bundle from end to end with nobody else stepping, what ends it early, and
 what every step of a device leaves to the others.
 */
module ExtensionSaving {
  import opened Wrappers
  import opened Bytes
  import opened Crypto
  import opened VersionedObjects
  import opened Payloads
  import opened ExtensionSync
  import opened ExtensionSyncLaws

  // ----- what a step leaves alone -----

  /** At most device d's stage is another, and bases are as they were. */
  ghost predicate OnlyStage(s: System, t: System, d: nat)
  {
    t.bases == s.bases && (t.stages == s.stages || (d in t.stages && t.stages == s.stages[d := t.stages[d]]))
  }

  lemma BeginSaveOnly(s: System, d: nat, job: Job)
    ensures OnlyStage(s, Step(s, BeginSave(d, job)), d)
  {
    hide IsManifest, IsChunk, Chunks, ManifestAt, ChunkContent, Append, BaseMatches;
  }

  lemma LoadOnly(s: System, d: nat)
    ensures OnlyStage(s, Step(s, Load(d)), d)
  {
    hide IsManifest, IsChunk, Chunks, ManifestAt, ChunkContent, Append, BaseMatches;
  }

  lemma PutChunkOnly(s: System, d: nat, newId: Uuid)
    ensures OnlyStage(s, Step(s, PutChunk(d, newId)), d)
  {
    hide IsManifest, IsChunk, Chunks, ManifestAt, ChunkContent, Append, BaseMatches;
  }

  lemma VerifyChunkOnly(s: System, d: nat)
    ensures OnlyStage(s, Step(s, VerifyChunk(d)), d)
  {
    hide IsManifest, IsChunk, Chunks, ManifestAt, ChunkContent, Append, BaseMatches;
  }

  lemma PutManifestOnly(s: System, d: nat, newId: Uuid)
    ensures OnlyStage(s, Step(s, PutManifest(d, newId)), d)
  {
    hide IsManifest, IsChunk, Chunks, ManifestAt, ChunkContent, Append, BaseMatches;
  }

  lemma VerifyManifestOnly(s: System, d: nat)
    ensures OnlyStage(s, Step(s, VerifyManifest(d)), d)
  {
    hide IsManifest, IsChunk, Chunks, ManifestAt, ChunkContent, Append, BaseMatches;
  }

  lemma FailBeforeCommitOnly(s: System, d: nat)
    ensures OnlyStage(s, Step(s, FailBeforeCommit(d)), d)
  {
    hide IsManifest, IsChunk, Chunks, ManifestAt, ChunkContent, Append, BaseMatches;
  }

  lemma DeleteNextOnly(s: System, d: nat)
    ensures OnlyStage(s, Step(s, DeleteNext(d)), d)
  {
    hide IsManifest, IsChunk, Chunks, ManifestAt, ChunkContent, Append, BaseMatches;
  }

  lemma ReadNextOnly(s: System, d: nat)
    ensures OnlyStage(s, Step(s, ReadNext(d)), d)
  {
    hide IsManifest, IsChunk, Chunks, ManifestAt, ChunkContent, Append, BaseMatches;
  }

  lemma StepOnly(s: System, a: Action)
    requires !a.Persist?
    ensures OnlyStage(s, Step(s, a), a.d)
  {
    hide OnlyStage;
    match a
    case BeginSave(d, job) => BeginSaveOnly(s, d, job);
    case Load(d) => LoadOnly(s, d);
    case PutChunk(d, newId) => PutChunkOnly(s, d, newId);
    case VerifyChunk(d) => VerifyChunkOnly(s, d);
    case PutManifest(d, newId) => PutManifestOnly(s, d, newId);
    case VerifyManifest(d) => VerifyManifestOnly(s, d);
    case FailBeforeCommit(d) => FailBeforeCommitOnly(s, d);
    case DeleteNext(d) => DeleteNextOnly(s, d);
    case ReadNext(d) => ReadNextOnly(s, d);
    case _ => RestOnly(s, a);
  }

  lemma RestOnly(s: System, a: Action)
    requires a.LostReply? || a.Crash? || a.BeginRead? || a.Elsewhere?
    ensures OnlyStage(s, Step(s, a), a.d)
  {
    hide IsManifest, IsForeign, ManifestAt, Append, ManifestVersion, ChunkVersion;
  }

  /** What a device has for its base once it persists. */
  function BaseOf(stage: Stage): Option<Base>
  {
    match stage
    case Published(base) => Some(base)
    case HasRead(id, revision, archive) => Some(Base(id, revision, Sha256(archive)))
    case Reading(id, revision, manifest, _, _) => Some(Base(id, revision, manifest.archiveSha256))
    case _ => None
  }

  /** Persisting stores what the device has published or read, and brings it to rest. */
  lemma PersistExactly(s: System, d: nat)
    ensures Step(s, Persist(d)) ==
              match BaseOf(StageOf(s, d))
              case None => s
              case Some(base) => s.(stages := s.stages[d := Idle], bases := s.bases[d := base])
  {
  }

  /** Nobody's step touches another device's stage or stored base. */
  lemma OthersUntouched(s: System, a: Action, e: nat)
    requires a.d != e
    ensures StageOf(Step(s, a), e) == StageOf(s, e)
    ensures e in Step(s, a).bases <==> e in s.bases
    ensures e in s.bases ==> Step(s, a).bases[e] == s.bases[e]
  {
    hide Step;
    if a.Persist? { PersistExactly(s, a.d); } else { StepOnly(s, a); }
  }

  /** A stored base changes only when its device persists. */
  lemma BasesChangeOnly(s: System, a: Action)
    requires !a.Persist?
    ensures Step(s, a).bases == s.bases
  {
    hide Step;
    StepOnly(s, a);
  }

  // ----- ends before the end -----

  /** Whatever stops a publication sends it to delete exactly the new chunks it knows of. */
  ghost predicate StopsWith(s: System, a: Action, refs: seq<ChunkRef>)
  {
    var stage := StageOf(s, a.d);
    match a
    case FailBeforeCommit(_) => (stage.Uploading? || stage.VerifyingChunk?) && refs == stage.uploaded
    case PutChunk(_, newId) =>
      stage.Uploading? && stage.pending != [] && !BaseMatches(s.store, newId, None) && refs == stage.uploaded
    case PutManifest(_, newId) =>
      stage.Uploading? && stage.pending == [] && !Accepted(s, a.d, newId) && refs == stage.uploaded
    case VerifyManifest(_) =>
      && stage.VerifyingManifest? && !(IsManifest(s, stage.id) && Head(s, stage.id) == stage.manifest)
      && refs == stage.manifest.chunks
    case LostReply(_) => stage.VerifyingManifest? && refs == stage.manifest.chunks
    case _ => false
  }

  lemma StoppedDeletes(s: System, a: Action, refs: seq<ChunkRef>)
    requires StopsWith(s, a, refs)
    ensures Step(s, a) == WithStage(s, a.d, Deleting(refs, None))
  {
    hide IsManifest, IsChunk, IsForeign, Chunks, ManifestAt, ChunkContent, Append;
  }

  lemma CrashStops(s: System, d: nat)
    ensures Step(s, Crash(d)) == WithStage(s, d, Idle)
  {
  }

  /** n deletions in a row. */
  function DeleteOn(s: System, d: nat, n: nat): System
  {
    if n == 0 then s else Step(DeleteOn(s, d, n - 1), DeleteNext(d))
  }

  /** Each object once, and at its recorded revision. */
  ghost predicate AllDeletable(s: System, refs: seq<ChunkRef>)
  {
    && DistinctChunks(refs)
    && forall ref :: ref in refs ==>
         VersionsOf(s.store, ref.objectId) != [] && RevisionOf(s.store, ref.objectId) == ref.revision
  }

  predicate IsGone(s: System, id: Uuid)
  {
    var vs := VersionsOf(s.store, id);
    vs != [] && vs[|vs| - 1].content.Tombstone?
  }

  /** Left alone, the deletions empty the queue, entomb its objects and touch no other. */
  lemma {:induction false} CleanupDeletes(s: System, d: nat, n: nat)
    requires StageOf(s, d).Deleting? && AllDeletable(s, StageOf(s, d).queue) && n <= |StageOf(s, d).queue|
    ensures var t, queue := DeleteOn(s, d, n), StageOf(s, d).queue;
            && t == WithStage(s, d, Deleting(queue[n..], StageOf(s, d).published)).(store := t.store)
            && (forall i :: 0 <= i < n ==> IsGone(t, queue[i].objectId))
            && (forall id: Uuid :: (forall i :: 0 <= i < n ==> queue[i].objectId != id) ==>
                  VersionsOf(t.store, id) == VersionsOf(s.store, id))
  {
    var queue := StageOf(s, d).queue;
    if n == 0 {
      assert queue[0..] == queue;
      assert s.stages == s.stages[d := s.stages[d]];
    } else {
      CleanupDeletes(s, d, n - 1);
      var u := DeleteOn(s, d, n - 1);
      assert queue[n - 1] in queue;
      assert queue[n - 1..][1..] == queue[n..] && queue[n - 1..][0] == queue[n - 1];
      assert VersionsOf(u.store, queue[n - 1].objectId) == VersionsOf(s.store, queue[n - 1].objectId);
      DeletesFirst(u, d);
    }
  }

  lemma DeletesFirst(s: System, d: nat)
    requires StageOf(s, d).Deleting? && StageOf(s, d).queue != []
    requires var ref := StageOf(s, d).queue[0];
             VersionsOf(s.store, ref.objectId) != [] && RevisionOf(s.store, ref.objectId) == ref.revision
    ensures var t, queue := Step(s, DeleteNext(d)), StageOf(s, d).queue;
            && t == WithStage(s, d, Deleting(queue[1..], StageOf(s, d).published)).(store := t.store)
            && IsGone(t, queue[0].objectId)
            && forall id: Uuid :: id != queue[0].objectId ==> VersionsOf(t.store, id) == VersionsOf(s.store, id)
  {
  }

  /** And a deletion over any other revision ends the cleanup there. */
  lemma CleanupStops(s: System, d: nat)
    requires StageOf(s, d).Deleting? && StageOf(s, d).queue != []
    requires var ref := StageOf(s, d).queue[0];
             VersionsOf(s.store, ref.objectId) == [] || RevisionOf(s.store, ref.objectId) != ref.revision
    ensures Step(s, DeleteNext(d)) == WithStage(s, d, Idle)
  {
  }

  /**
   A publication that fails before its manifest, left alone afterwards, leaves none of the chunks
   it knows of, and has touched nothing else.
   */
  lemma FailedSaveCleansUp(s: System, d: nat)
    requires Invariant(s) && (StageOf(s, d).Uploading? || StageOf(s, d).VerifyingChunk?)
    ensures var refs := StageOf(s, d).uploaded;
            var t := DeleteOn(Step(s, FailBeforeCommit(d)), d, |refs| + 1);
            && StageOf(t, d).Idle?
            && (forall i :: 0 <= i < |refs| ==> IsGone(t, refs[i].objectId))
            && forall id: Uuid :: (forall i :: 0 <= i < |refs| ==> refs[i].objectId != id) ==>
                 VersionsOf(t.store, id) == VersionsOf(s.store, id)
  {
    var refs := StageOf(s, d).uploaded;
    var u := Step(s, FailBeforeCommit(d));
    UploadedDeletable(s, d);
    StoppedDeletes(s, FailBeforeCommit(d), refs);
    hide Invariant, Step;
    assert AllDeletable(u, refs);
    hide AllDeletable, IsGone;
    CleanupDeletes(u, d, |refs|);
    CleanupEnds(DeleteOn(u, d, |refs|), d);
  }

  lemma UploadedDeletable(s: System, d: nat)
    requires Invariant(s) && (StageOf(s, d).Uploading? || StageOf(s, d).VerifyingChunk?)
    ensures AllDeletable(s, StageOf(s, d).uploaded)
  {
    OwnStage(s, d);
    hide Invariant, LoadedOk, Assembled, MadeBy, ChunkLive, ChunkContent;
    forall ref | ref in StageOf(s, d).uploaded
      ensures VersionsOf(s.store, ref.objectId) != [] && RevisionOf(s.store, ref.objectId) == ref.revision {
      LiveAtOne(s, ref, StageOf(s, d).attempt);
    }
  }

  /** With nothing left to delete the publication is over, or was never made. */
  lemma CleanupEnds(s: System, d: nat)
    requires StageOf(s, d).Deleting? && StageOf(s, d).queue == []
    ensures var published := StageOf(s, d).published;
            Step(s, DeleteNext(d)) == WithStage(s, d, if published.Some? then Published(published.value) else Idle)
  {
  }

  lemma LiveAtOne(s: System, ref: ChunkRef, attempt: nat)
    requires MadeBy(s, ref, attempt) && ChunkLive(s, ref.objectId)
    ensures VersionsOf(s.store, ref.objectId) != [] && RevisionOf(s.store, ref.objectId) == ref.revision
  {
  }

  // ----- a whole publication -----

  /** The references made from chunks uploaded under these ids. */
  function Refs(ids: seq<Uuid>, chunks: seq<seq<Byte>>): (refs: seq<ChunkRef>)
    requires |ids| == |chunks|
    ensures |refs| == |ids|
  {
    seq(|ids|, i requires 0 <= i < |ids| => ChunkRef(ids[i], 1, Sha256(chunks[i]), |chunks[i]|))
  }

  ghost predicate FreshIds(s: System, ids: seq<Uuid>)
  {
    && (forall i :: 0 <= i < |ids| ==> VersionsOf(s.store, ids[i]) == [])
    && forall i, j :: 0 <= i < j < |ids| ==> ids[i] != ids[j]
  }

  function UploadOn(s: System, d: nat, ids: seq<Uuid>): System
  {
    if ids == [] then s
    else Step(Step(UploadOn(s, d, ids[..|ids| - 1]), PutChunk(d, ids[|ids| - 1])), VerifyChunk(d))
  }

  /** One chunk, left alone: it is on the server under the new id, and referred to. */
  lemma ChunkGoesUp(s: System, d: nat, newId: Uuid)
    requires StageOf(s, d).Uploading? && StageOf(s, d).pending != [] && VersionsOf(s.store, newId) == []
    ensures var Uploading(job, attempt, previous, uploaded, pending) := StageOf(s, d);
            var t := Step(Step(s, PutChunk(d, newId)), VerifyChunk(d));
            var ref := ChunkRef(newId, 1, Sha256(pending[0]), |pending[0]|);
            && t == WithStage(s, d, Uploading(job, attempt, previous, uploaded + [ref], pending[1..]))
                      .(store := t.store, owner := t.owner)
            && ChunkLive(t, newId) && ChunkContent(t, newId) == pending[0]
            && forall id: Uuid :: id != newId ==> VersionsOf(t.store, id) == VersionsOf(s.store, id)
  {
    var Uploading(job, attempt, previous, uploaded, pending) := StageOf(s, d);
    var u := Step(s, PutChunk(d, newId));
    assert u == WithStage(s, d, VerifyingChunk(job, attempt, previous, uploaded, pending, newId))
                  .(store := u.store, owner := u.owner);
    NewChunkLive(s, u, newId, pending[0]);
    var t := Step(u, VerifyChunk(d));
    assert t == WithStage(u, d, StageOf(t, d));
    SameChunk(u, t, newId);
    hide IsChunk, ChunkContent;
    assert t.stages == s.stages[d := StageOf(t, d)];
  }

  lemma NewChunkLive(s: System, u: System, newId: Uuid, chunk: seq<Byte>)
    requires VersionsOf(s.store, newId) == [] && u.master == s.master
    requires u.store == Append(s.store, newId, CHUNK_NAMESPACE, Live(s.master, ChunkPayload(chunk)))
    ensures ChunkLive(u, newId) && ChunkContent(u, newId) == chunk
    ensures forall id: Uuid :: id != newId ==> VersionsOf(u.store, id) == VersionsOf(s.store, id)
  {
    assert VersionsOf(u.store, newId)
        == [Version(CHUNK_NAMESPACE, s.store.nextCursor, Live(s.master, ChunkPayload(chunk)))];
  }

  /** The first n chunks are up, and nothing else is different. */
  ghost predicate UpTo(s: System, d: nat, ids: seq<Uuid>, n: nat, t: System)
    requires StageOf(s, d).Uploading? && n <= |ids| && n <= |StageOf(s, d).pending|
  {
    && t == WithStage(s, d, StageUpTo(StageOf(s, d), ids, n)).(store := t.store, owner := t.owner)
    && AllUp(t, ids, StageOf(s, d).pending, n)
    && Untouched(s, t, ids[..n])
  }

  function StageUpTo(stage: Stage, ids: seq<Uuid>, n: nat): Stage
    requires stage.Uploading? && n <= |ids| && n <= |stage.pending|
  {
    var Uploading(job, attempt, previous, uploaded, pending) := stage;
    Uploading(job, attempt, previous, uploaded + Refs(ids[..n], pending[..n]), pending[n..])
  }

  ghost predicate AllUp(t: System, ids: seq<Uuid>, chunks: seq<seq<Byte>>, n: nat)
    requires n <= |ids| && n <= |chunks|
  {
    forall i :: 0 <= i < n ==> ChunkLive(t, ids[i]) && ChunkContent(t, ids[i]) == chunks[i]
  }

  ghost predicate Untouched(s: System, t: System, ids: seq<Uuid>)
  {
    forall id: Uuid :: id !in ids ==> VersionsOf(t.store, id) == VersionsOf(s.store, id)
  }

  lemma NextStage(stage: Stage, ids: seq<Uuid>, n: nat)
    requires stage.Uploading? && n < |ids| && n < |stage.pending|
    ensures var now, chunk := StageUpTo(stage, ids, n), stage.pending[n];
            && now.pending != [] && now.pending[0] == chunk
            && StageUpTo(stage, ids, n + 1)
               == Uploading(now.job, now.attempt, now.previous,
                            now.uploaded + [ChunkRef(ids[n], 1, Sha256(chunk), |chunk|)], now.pending[1..])
  {
    var chunk := stage.pending[n];
    assert Refs(ids[..n + 1], stage.pending[..n + 1])
        == Refs(ids[..n], stage.pending[..n]) + [ChunkRef(ids[n], 1, Sha256(chunk), |chunk|)];
    assert stage.pending[n..][1..] == stage.pending[n + 1..];
  }

  lemma NextUp(u: System, t: System, ids: seq<Uuid>, chunks: seq<seq<Byte>>, n: nat)
    requires n < |ids| && n < |chunks| && AllUp(u, ids, chunks, n) && t.master == u.master
    requires ChunkLive(t, ids[n]) && ChunkContent(t, ids[n]) == chunks[n]
    requires forall i, j :: 0 <= i < j < |ids| ==> ids[i] != ids[j]
    requires Untouched(u, t, [ids[n]])
    ensures AllUp(t, ids, chunks, n + 1)
  {
    hide ChunkLive, ChunkContent;
    forall i | 0 <= i < n ensures ChunkLive(t, ids[i]) && ChunkContent(t, ids[i]) == chunks[i] {
      KeptChunk(u, t, ids[i]);
    }
  }

  lemma {:induction false} ChunksGoUp(s: System, d: nat, ids: seq<Uuid>, n: nat)
    requires StageOf(s, d).Uploading? && FreshIds(s, ids) && n <= |ids| && n <= |StageOf(s, d).pending|
    ensures UpTo(s, d, ids, n, UploadOn(s, d, ids[..n]))
  {
    hide Step, ChunkLive, ChunkContent;
    if n == 0 {
      NothingUp(s, d, ids);
    } else {
      ChunksGoUp(s, d, ids, n - 1);
      var u := UploadOn(s, d, ids[..n - 1]);
      assert ids[..n][..n - 1] == ids[..n - 1] && ids[..n] == ids[..n - 1] + [ids[n - 1]];
      assert ids[n - 1] !in ids[..n - 1];
      NextStage(StageOf(s, d), ids, n - 1);
      assert StageOf(u, d) == StageUpTo(StageOf(s, d), ids, n - 1);
      ChunkGoesUp(u, d, ids[n - 1]);
      var t := UploadOn(s, d, ids[..n]);
      hide StageUpTo, UploadOn;
      NextUp(u, t, ids, StageOf(s, d).pending, n - 1);
      assert t.stages == s.stages[d := StageOf(t, d)];
    }
  }

  lemma NothingUp(s: System, d: nat, ids: seq<Uuid>)
    requires StageOf(s, d).Uploading?
    ensures UpTo(s, d, ids, 0, UploadOn(s, d, ids[..0]))
  {
    var stage := StageOf(s, d);
    assert ids[..0] == [] && stage.pending[0..] == stage.pending;
    assert stage.uploaded + Refs(ids[..0], stage.pending[..0]) == stage.uploaded;
    assert s.stages == s.stages[d := s.stages[d]];
  }

  lemma KeptChunk(s: System, t: System, id: Uuid)
    requires t.master == s.master && VersionsOf(t.store, id) == VersionsOf(s.store, id)
    ensures ChunkLive(t, id) == ChunkLive(s, id) && ChunkContent(t, id) == ChunkContent(s, id)
  {
  }

  lemma {:induction false} UploadsKeepInvariant(s: System, d: nat, ids: seq<Uuid>)
    requires Invariant(s)
    ensures Invariant(UploadOn(s, d, ids))
  {
    hide Invariant, Step;
    if ids != [] {
      UploadsKeepInvariant(s, d, ids[..|ids| - 1]);
      var before := UploadOn(s, d, ids[..|ids| - 1]);
      StepKeepsInvariant(before, PutChunk(d, ids[|ids| - 1]));
      StepKeepsInvariant(Step(before, PutChunk(d, ids[|ids| - 1])), VerifyChunk(d));
    }
  }

  /** The device is about to upload the archive's chunks, having read what it is to replace. */
  ghost function Begun(s: System, d: nat, job: Job): System
  {
    var t := Step(s, BeginSave(d, job));
    if job.target.Some? then Step(t, Load(d)) else t
  }

  lemma BeginsUpload(s: System, d: nat, job: Job)
    requires Invariant(s) && StageOf(s, d).Idle?
    requires job.target.Some? ==>
               IsManifest(s, job.target.value.id) && job.target.value.base == RevisionOf(s.store, job.target.value.id)
    ensures var t := Begun(s, d, job);
            && Invariant(t) && t.store == s.store && t.master == s.master && t.bases == s.bases
            && StageOf(t, d).Uploading? && StageOf(t, d).job == job && StageOf(t, d).uploaded == []
            && StageOf(t, d).pending == Chunks(job.archive)
  {
    StepKeepsInvariant(s, BeginSave(d, job));
    var t := Step(s, BeginSave(d, job));
    StepKeepsInvariant(t, Load(d));
    hide Invariant, Chunks;
    if job.target.Some? { SameManifest(s, t, job.target.value.id); }
    hide IsManifest, ManifestAt;
  }

  /** From the last chunk to the stored base. */
  ghost function Concluded(s: System, d: nat, newId: Uuid): System
  {
    var accepted := Step(s, PutManifest(d, newId));
    var confirmed := Step(accepted, VerifyManifest(d));
    var emptied := if StageOf(confirmed, d).Deleting? then DeleteOn(confirmed, d,
                                                                    |StageOf(confirmed, d).queue| + 1) else confirmed;
    Step(emptied, Persist(d))
  }

  ghost function SaveAlone(s: System, d: nat, job: Job, ids: seq<Uuid>): System
    requires ids != []
  {
    Concluded(UploadOn(Begun(s, d, job), d, ids[..|ids| - 1]), d, ids[|ids| - 1])
  }

  /** What the conclusion has done, seen from the state in which all the chunks are up. */
  ghost predicate ConcludedAs(s: System, d: nat, newId: Uuid, t: System)
    requires StageOf(s, d).Uploading?
  {
    var Uploading(job, _, _, uploaded, _) := StageOf(s, d);
    var id := TargetOf(job, newId);
    var r := RevisionOf(s.store, id);
    var replaced := OldChunks(s, id);
    && t.master == s.master && StageOf(t, d).Idle?
    && IsManifest(t, id) && RevisionOf(t.store, id) == r + 1 && Head(t, id) == ManifestFor(job, uploaded)
    && t.bases == s.bases[d := Base(id, r + 1, Sha256(job.archive))]
    && (forall ref :: ref in replaced ==> IsGone(t, ref.objectId))
    && forall other: Uuid :: other != id && (forall ref :: ref in replaced ==> ref.objectId != other) ==>
         VersionsOf(t.store, other) == VersionsOf(s.store, other)
  }

  /** The chunks of the revision that is about to be replaced, if there is one. */
  ghost function OldChunks(s: System, id: Uuid): seq<ChunkRef>
  {
    if IsManifest(s, id) then Head(s, id).chunks else []
  }

  lemma AcceptedAndConfirmed(s: System, d: nat, newId: Uuid)
    requires Invariant(s) && Accepted(s, d, newId)
    ensures var Uploading(job, _, _, uploaded, _) := StageOf(s, d);
            var id := TargetOf(job, newId);
            var r := RevisionOf(s.store, id);
            var t := Step(Step(s, PutManifest(d, newId)), VerifyManifest(d));
            && StageOf(t, d) == Deleting(OldChunks(s, id), Some(Base(id, r + 1, Sha256(job.archive))))
            && t.master == s.master && t.bases == s.bases
            && IsManifest(t, id) && RevisionOf(t.store, id) == r + 1 && Head(t, id) == ManifestFor(job, uploaded)
            && forall other: Uuid :: other != id ==> VersionsOf(t.store, other) == VersionsOf(s.store, other)
  {
    var Uploading(job, attempt, _, uploaded, _) := StageOf(s, d);
    var id := TargetOf(job, newId);
    var u := Step(s, PutManifest(d, newId));
    OldChunksAreTheReplacedOnes(s, d, newId);
    AcceptedResult(s, d, newId);
    AcceptedPublishes(s, d, newId);
    assert KindsOk(s);
    hide Invariant, KindsOk;
    PublishedManifest(s, u, id, attempt, ManifestFor(job, uploaded));
    NoRevisionNoManifest(s, id);
    hide Publishes, Accepted, IsChunk, Append;
    var t := Step(u, VerifyManifest(d));
    assert t == WithStage(u, d,
                          Deleting(OldChunks(s, id), Some(Base(id, RevisionOf(u.store, id), Sha256(job.archive)))));
    SameManifest(u, t, id);
    hide IsManifest, ManifestAt;
  }

  lemma NoRevisionNoManifest(s: System, id: Uuid)
    ensures RevisionOf(s.store, id) == 0 ==> !IsManifest(s, id)
  {
  }

  /** The chunks of a live manifest can all be deleted. */
  lemma HeadDeletable(s: System, id: Uuid)
    requires CommitsOk(s) && HeadsLive(s) && IsManifest(s, id)
    ensures AllDeletable(s, Head(s, id).chunks)
    ensures forall ref :: ref in Head(s, id).chunks ==> ref.objectId != id
  {
    BasePositive(s, id);
    var r := RevisionOf(s.store, id);
    assert ManifestOk(s, ManifestAt(s, id, r), s.committed[(id, r)]);
    hide CommitsOk;
    forall ref | ref in Head(s, id).chunks
      ensures VersionsOf(s.store, ref.objectId) != [] && RevisionOf(s.store, ref.objectId) == ref.revision
      ensures ref.objectId != id {
      assert MadeBy(s, ref, s.committed[(id, r)]);
      NotChunkAndManifest(s, id);
    }
  }

  lemma OldDeletable(s: System, t: System, id: Uuid)
    requires CommitsOk(s) && HeadsLive(s)
    requires forall other: Uuid :: other != id ==> VersionsOf(t.store, other) == VersionsOf(s.store, other)
    ensures AllDeletable(t, OldChunks(s, id))
    ensures forall ref :: ref in OldChunks(s, id) ==> ref.objectId != id
  {
    hide CommitsOk, HeadsLive, IsManifest, ManifestAt;
    if IsManifest(s, id) { HeadDeletable(s, id); }
  }

  /** Left alone, a confirmed publication cleans up and stores its base. */
  lemma CleansAndPersists(s: System, d: nat)
    requires StageOf(s, d).Deleting? && StageOf(s, d).published.Some? && AllDeletable(s, StageOf(s, d).queue)
    ensures var queue := StageOf(s, d).queue;
            var t := Step(DeleteOn(s, d, |queue| + 1), Persist(d));
            && t.master == s.master && StageOf(t, d).Idle?
            && t.bases == s.bases[d := StageOf(s, d).published.value]
            && (forall ref :: ref in queue ==> IsGone(t, ref.objectId))
            && forall other: Uuid :: (forall ref :: ref in queue ==> ref.objectId != other) ==>
                 VersionsOf(t.store, other) == VersionsOf(s.store, other)
  {
    hide AllDeletable, IsGone, Step;
    var queue := StageOf(s, d).queue;
    CleanupDeletes(s, d, |queue|);
    var emptied := DeleteOn(s, d, |queue|);
    assert queue[|queue|..] == [];
    CleanupEnds(emptied, d);
    var ended := Step(emptied, DeleteNext(d));
    PersistExactly(ended, d);
    var t := Step(ended, Persist(d));
    assert t == Step(DeleteOn(s, d, |queue| + 1), Persist(d));
    hide DeleteOn;
    forall ref | ref in queue ensures IsGone(t, ref.objectId) {
      var i :| 0 <= i < |queue| && queue[i] == ref;
      SameStoreGone(emptied, t, queue[i].objectId);
    }
    forall other: Uuid | (forall ref :: ref in queue ==> ref.objectId != other)
      ensures VersionsOf(t.store, other) == VersionsOf(s.store, other) {
      assert forall i :: 0 <= i < |queue| ==> queue[i] in queue;
      assert VersionsOf(emptied.store, other) == VersionsOf(s.store, other);
    }
  }

  lemma Concludes(s: System, d: nat, newId: Uuid)
    requires Invariant(s) && Accepted(s, d, newId)
    ensures ConcludedAs(s, d, newId, Concluded(s, d, newId))
  {
    var id := TargetOf(StageOf(s, d).job, newId);
    AcceptedAndConfirmed(s, d, newId);
    var confirmed := Step(Step(s, PutManifest(d, newId)), VerifyManifest(d));
    assert CommitsOk(s) && HeadsLive(s);
    hide Invariant, CommitsOk, HeadsLive, Step, OldChunks, Accepted, AllDeletable, IsGone, DeleteOn, IsManifest,
      ManifestAt;
    hide ManifestFor;
    OldDeletable(s, confirmed, id);
    CleansAndPersists(confirmed, d);
    SameVersionsSameManifest(confirmed, Concluded(s, d, newId), id);
  }

  lemma SameStoreGone(s: System, t: System, id: Uuid)
    requires t.store == s.store
    ensures IsGone(t, id) == IsGone(s, id)
  {
  }

  lemma SameVersionsSameManifest(s: System, t: System, id: Uuid)
    requires t.master == s.master && VersionsOf(t.store, id) == VersionsOf(s.store, id) && IsManifest(s, id)
    ensures IsManifest(t, id) && Head(t, id) == Head(s, id)
  {
  }

  /** What a publication may touch: its target, its new ids, and the chunks it replaces. */
  ghost predicate Involved(s: System, id: Uuid, ids: seq<Uuid>, other: Uuid)
  {
    other in ids || other == id || exists ref :: ref in OldChunks(s, id) && ref.objectId == other
  }

  /**
   A whole publication, left alone: from any reachable state the object ends one revision on with
   the manifest of exactly this archive and profile, its chunks are the archive's under the new ids,
   the replaced chunks are gone, nothing else has changed, and the device has stored the base.
   */
  lemma UndisturbedSave(s: System, d: nat, job: Job, ids: seq<Uuid>)
    requires Invariant(s) && StageOf(s, d).Idle?
    requires FreshIds(s, ids) && |ids| == |Chunks(job.archive)| + 1
    requires job.target.Some? ==>
               IsManifest(s, job.target.value.id) && job.target.value.base == RevisionOf(s.store, job.target.value.id)
    ensures var t, n := SaveAlone(s, d, job, ids), |ids| - 1;
            var id := TargetOf(job, ids[n]);
            var r := RevisionOf(s.store, id);
            && StageOf(t, d).Idle?
            && IsManifest(t, id) && RevisionOf(t.store, id) == r + 1
            && Head(t, id) == ManifestFor(job, Refs(ids[..n], Chunks(job.archive)))
            && AllUp(t, ids, Chunks(job.archive), n)
            && t.bases == s.bases[d := Base(id, r + 1, Sha256(job.archive))]
            && (forall ref :: ref in OldChunks(s, id) ==> IsGone(t, ref.objectId))
            && forall other: Uuid :: !Involved(s, id, ids, other) ==>
                 VersionsOf(t.store, other) == VersionsOf(s.store, other)
  {
    var n := |ids| - 1;
    var u, id := UploadOn(Begun(s, d, job), d, ids[..n]), TargetOf(job, ids[n]);
    UploadedAll(s, d, job, ids);
    assert CommitsOk(s) && HeadsLive(s);
    assert StageOf(u, d).Uploading?;
    hide Invariant, CommitsOk, HeadsLive, Accepted, UploadOn, Begun, Concluded, Chunks, ManifestFor, ConcludedAs, AllUp;
    Concludes(u, d, ids[n]);
    OldApartFromNew(s, id, ids);
    assert Concluded(u, d, ids[n]) == SaveAlone(s, d, job, ids);
    hide OldChunks, IsManifest, ManifestAt, IsGone, FreshIds, SaveAlone;
    WholeSave(s, d, job, ids, u, Concluded(u, d, ids[n]));
  }

  /** From the beginning to the upload, and from the upload to the end. */
  lemma WholeSave(s: System, d: nat, job: Job, ids: seq<Uuid>, u: System, t: System)
    requires |ids| == |Chunks(job.archive)| + 1
    requires var n := |ids| - 1;
             var id := TargetOf(job, ids[n]);
             && u.master == s.master && u.bases == s.bases
             && StageOf(u, d).Uploading? && StageOf(u, d).job == job
             && StageOf(u, d).uploaded == Refs(ids[..n], Chunks(job.archive))
             && AllUp(u, ids, Chunks(job.archive), n) && Untouched(s, u, ids[..n])
             && id !in ids[..n] && (forall i :: 0 <= i < n ==> ids[i] != id)
             && (forall ref :: ref in OldChunks(s, id) ==> ref.objectId !in ids)
             && ConcludedAs(u, d, ids[n], t)
    ensures var n := |ids| - 1;
            var id := TargetOf(job, ids[n]);
            var r := RevisionOf(s.store, id);
            && StageOf(t, d).Idle?
            && IsManifest(t, id) && RevisionOf(t.store, id) == r + 1
            && Head(t, id) == ManifestFor(job, Refs(ids[..n], Chunks(job.archive)))
            && AllUp(t, ids, Chunks(job.archive), n)
            && t.bases == s.bases[d := Base(id, r + 1, Sha256(job.archive))]
            && (forall ref :: ref in OldChunks(s, id) ==> IsGone(t, ref.objectId))
            && forall other: Uuid :: !Involved(s, id, ids, other) ==>
                 VersionsOf(t.store, other) == VersionsOf(s.store, other)
  {
    var n, id := |ids| - 1, TargetOf(job, ids[|ids| - 1]);
    SameOldChunks(s, u, id);
    hide OldChunks, IsManifest, ManifestAt, IsGone, ManifestFor, Refs, Chunks;
    forall i | 0 <= i < n ensures ChunkLive(t, ids[i]) && ChunkContent(t, ids[i]) == Chunks(job.archive)[i] {
      assert ids[i] in ids;
      KeptChunk(u, t, ids[i]);
    }
    hide ChunkLive, ChunkContent;
  }

  /** Everything is up, and the manifest will be accepted. */
  lemma UploadedAll(s: System, d: nat, job: Job, ids: seq<Uuid>)
    requires Invariant(s) && StageOf(s, d).Idle?
    requires FreshIds(s, ids) && |ids| == |Chunks(job.archive)| + 1
    requires job.target.Some? ==>
               IsManifest(s, job.target.value.id) && job.target.value.base == RevisionOf(s.store, job.target.value.id)
    ensures var n := |ids| - 1;
            var u, id := UploadOn(Begun(s, d, job), d, ids[..n]), TargetOf(job, ids[n]);
            && Invariant(u) && Accepted(u, d, ids[n]) && u.master == s.master && u.bases == s.bases
            && StageOf(u, d).job == job && StageOf(u, d).uploaded == Refs(ids[..n], Chunks(job.archive))
            && AllUp(u, ids, Chunks(job.archive), n) && Untouched(s, u, ids[..n])
            && id !in ids[..n] && (forall i :: 0 <= i < n ==> ids[i] != id)
  {
    hide Invariant, Chunks, Begun, IsManifest, Accepted, AllUp, UploadOn;
    AllChunksUp(s, d, job, ids);
    TargetIsNotNew(s, job, ids);
    var n := |ids| - 1;
    var u := UploadOn(Begun(s, d, job), d, ids[..n]);
    BaseIsCurrent(s, job, ids[n]);
    BaseStaysCurrent(s, u, job, ids[n]);
    hide BaseMatches, FreshIds;
    PendingNone(u, d, ids[n]);
  }

  lemma PendingNone(s: System, d: nat, newId: Uuid)
    requires StageOf(s, d).Uploading? && StageOf(s, d).pending == []
    requires BaseMatches(s.store, TargetOf(StageOf(s, d).job, newId), ExtensionSyncLaws.BaseOf(StageOf(s, d).job))
    ensures Accepted(s, d, newId)
  {
  }

  lemma AllChunksUp(s: System, d: nat, job: Job, ids: seq<Uuid>)
    requires Invariant(s) && StageOf(s, d).Idle?
    requires FreshIds(s, ids) && |ids| == |Chunks(job.archive)| + 1
    requires job.target.Some? ==>
               IsManifest(s, job.target.value.id) && job.target.value.base == RevisionOf(s.store, job.target.value.id)
    ensures var n := |ids| - 1;
            var u := UploadOn(Begun(s, d, job), d, ids[..n]);
            && Invariant(u) && u.master == s.master && u.bases == s.bases
            && StageOf(u, d).Uploading? && StageOf(u, d).job == job && StageOf(u, d).pending == []
            && StageOf(u, d).uploaded == Refs(ids[..n], Chunks(job.archive))
            && AllUp(u, ids, Chunks(job.archive), n) && Untouched(s, u, ids[..n])
  {
    var n := |ids| - 1;
    var s2 := Begun(s, d, job);
    BeginsUpload(s, d, job);
    hide Invariant, Chunks, Begun, IsManifest, UploadOn, AllUp, UpTo, FreshIds;
    SameFresh(s, s2, ids);
    ChunksGoUp(s2, d, ids, n);
    UploadsKeepInvariant(s2, d, ids[..n]);
    NothingPending(s2, d, ids, n, UploadOn(s2, d, ids[..n]));
  }

  lemma SameFresh(s: System, t: System, ids: seq<Uuid>)
    requires FreshIds(s, ids) && t.store == s.store
    ensures FreshIds(t, ids)
  {
  }

  lemma NothingPending(s: System, d: nat, ids: seq<Uuid>, n: nat, u: System)
    requires StageOf(s, d).Uploading? && StageOf(s, d).uploaded == [] && n <= |ids| && n == |StageOf(s, d).pending|
    requires UpTo(s, d, ids, n, u)
    ensures var pending := StageOf(s, d).pending;
            && StageOf(u, d) == Uploading(StageOf(s, d).job, StageOf(s, d).attempt, StageOf(s, d).previous,
                                          Refs(ids[..n], pending), [])
            && AllUp(u, ids, pending, n) && Untouched(s, u, ids[..n]) && u.master == s.master && u.bases == s.bases
  {
    hide AllUp, Untouched;
    var pending := StageOf(s, d).pending;
    assert pending[..n] == pending && pending[n..] == [];
    assert [] + Refs(ids[..n], pending) == Refs(ids[..n], pending);
  }

  lemma TargetIsNotNew(s: System, job: Job, ids: seq<Uuid>)
    requires FreshIds(s, ids) && ids != []
    requires job.target.Some? ==> IsManifest(s, job.target.value.id)
    ensures var n := |ids| - 1;
            var id := TargetOf(job, ids[n]);
            id !in ids[..n] && forall i :: 0 <= i < n ==> ids[i] != id
  {
  }

  lemma BaseIsCurrent(s: System, job: Job, newId: Uuid)
    requires job.target.None? ==> VersionsOf(s.store, newId) == []
    requires job.target.Some? ==>
               IsManifest(s, job.target.value.id) && job.target.value.base == RevisionOf(s.store, job.target.value.id)
    ensures BaseMatches(s.store, TargetOf(job, newId), ExtensionSyncLaws.BaseOf(job))
  {
  }

  lemma BaseStaysCurrent(s: System, u: System, job: Job, newId: Uuid)
    requires BaseMatches(s.store, TargetOf(job, newId), ExtensionSyncLaws.BaseOf(job))
    requires VersionsOf(u.store, TargetOf(job, newId)) == VersionsOf(s.store, TargetOf(job, newId))
    ensures BaseMatches(u.store, TargetOf(job, newId), ExtensionSyncLaws.BaseOf(job))
  {
  }

  lemma SameOldChunks(s: System, u: System, id: Uuid)
    requires u.master == s.master && VersionsOf(u.store, id) == VersionsOf(s.store, id)
    ensures OldChunks(u, id) == OldChunks(s, id)
  {
    if IsManifest(s, id) { SameVersionsSameManifest(s, u, id); }
    if IsManifest(u, id) { SameVersionsSameManifest(u, s, id); }
    hide IsManifest, ManifestAt;
  }

  lemma OldApartFromNew(s: System, id: Uuid, ids: seq<Uuid>)
    requires CommitsOk(s) && HeadsLive(s) && FreshIds(s, ids)
    ensures forall ref :: ref in OldChunks(s, id) ==> ref.objectId !in ids
  {
    OldDeletable(s, s, id);
    hide CommitsOk, HeadsLive, OldChunks;
  }
}
