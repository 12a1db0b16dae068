/**
 The client's side of saving and loading one bundle, request by request, on a server nobody else
 writes to meanwhile; requests may fail and replies may be lost. With other devices in between
 it is ExtensionSync that says what holds.
 */
module ExtensionTransfer {
  import opened Wrappers
  import opened Bytes
  import opened Crypto
  import opened VersionedObjects
  import opened Payloads
  import opened ExtensionSync

  /** Not started; stopped and cleaned up; stopped and not; published, but old chunks remain. */
  datatype TransferError = NotFound | UploadFailed | CleanupFailed | OldChunksRemain | VerificationFailed

  // ----- requests -----

  class Connection {
    var objects: Objects<Payload>
    const master: MasterKey
    /** Requests that never arrive, and requests whose reply never does, by number. */
    const down: nat -> bool
    const lost: nat -> bool
    var clock: nat

    constructor (objects: Objects<Payload>, master: MasterKey, down: nat -> bool, lost: nat -> bool)
      ensures this.objects == objects && this.master == master && this.down == down && this.lost == lost && clock == 0
    {
      this.objects, this.master, this.down, this.lost, clock := objects, master, down, lost, 0;
    }

    /** No request of these was lost, and no reply. */
    ghost predicate Quiet(start: nat, end: nat)
    {
      forall k :: start <= k < end ==> !down(k) && !lost(k)
    }

    method Put(id: Uuid, base: Option<nat>, namespace: Text, payload: Payload) returns (ok: bool)
      modifies this`objects, this`clock
      ensures old(clock) < clock
      ensures ok ==>
                BaseMatches(old(objects), id, base)
                  && objects == Append(old(objects), id, namespace, Live(master, payload))
      ensures !ok ==>
                || objects == old(objects)
                || (BaseMatches(old(objects), id, base)
                    && objects == Append(old(objects), id, namespace, Live(master, payload)))
      ensures Quiet(old(clock), clock) && BaseMatches(old(objects), id, base) ==> ok
    {
      ok := !down(clock) && BaseMatches(objects, id, base);
      if ok {
        objects := Append(objects, id, namespace, Live(master, payload));
        ok := !lost(clock);
      }
      clock := clock + 1;
    }

    method Get(id: Uuid) returns (r: Option<Version<Payload>>)
      modifies this`clock
      ensures old(clock) < clock
      ensures r.Some? ==>
                VersionsOf(objects, id) != [] && r.value == VersionsOf(objects, id)[RevisionOf(objects, id) - 1]
      ensures Quiet(old(clock), clock) && VersionsOf(objects, id) != [] ==> r.Some?
    {
      var versions := VersionsOf(objects, id);
      r := if down(clock) || lost(clock) || versions == [] then None else Some(versions[|versions| - 1]);
      clock := clock + 1;
    }

    method Delete(id: Uuid, revision: nat) returns (ok: bool)
      modifies this`objects, this`clock
      ensures old(clock) < clock
      ensures ok ==> Deletable(old(objects), id, revision) && objects == Entombed(old(objects), id)
      ensures !ok ==>
                objects == old(objects)
                  || (Deletable(old(objects), id, revision) && objects == Entombed(old(objects), id))
      ensures Quiet(old(clock), clock) && Deletable(old(objects), id, revision) ==> ok
    {
      ok := !down(clock) && Deletable(objects, id, revision);
      if ok {
        objects := Entombed(objects, id);
        ok := !lost(clock);
      }
      clock := clock + 1;
    }

    /** Writes and reads back; a success has been seen to be what was written. */
    method Upload(namespace: Text, payload: Payload, id: Uuid, base: Option<nat>) returns (revision: Option<nat>)
      modifies this`objects, this`clock
      ensures old(clock) < clock
      ensures revision.Some? ==>
                && BaseMatches(old(objects), id, base)
                && objects == Append(old(objects), id, namespace, Live(master, payload))
                && revision.value == RevisionOf(objects, id)
      ensures revision.None? ==>
                || objects == old(objects)
                || (BaseMatches(old(objects), id, base)
                    && objects == Append(old(objects), id, namespace, Live(master, payload)))
      ensures Quiet(old(clock), clock) && BaseMatches(old(objects), id, base) ==> revision.Some?
    {
      var written := Put(id, base, namespace, payload);
      if !written {
        return None;
      }
      var stored := Get(id);
      if stored.None? || stored.value.content != Live(master, payload) {
        return None;
      }
      return Some(RevisionOf(objects, id));
    }
  }

  predicate Deletable(h: Objects<Payload>, id: Uuid, revision: nat)
  {
    VersionsOf(h, id) != [] && RevisionOf(h, id) == revision
  }

  function Entombed(h: Objects<Payload>, id: Uuid): Objects<Payload>
    requires VersionsOf(h, id) != []
  {
    Append(h, id, VersionsOf(h, id)[RevisionOf(h, id) - 1].namespace, Tombstone)
  }

  // ----- what the objects hold -----

  predicate HoldsChunk(h: Objects<Payload>, master: MasterKey, ref: ChunkRef, chunk: seq<Byte>)
  {
    && VersionsOf(h, ref.objectId) != []
    && RevisionOf(h, ref.objectId) == ref.revision
    && VersionsOf(h, ref.objectId)[ref.revision - 1].namespace == CHUNK_NAMESPACE
    && VersionsOf(h, ref.objectId)[ref.revision - 1].content == Live(master, ChunkPayload(chunk))
    && ref.bytes == |chunk|
    && ref.sha256 == Sha256(chunk)
  }

  predicate HoldsChunks(h: Objects<Payload>, master: MasterKey, refs: seq<ChunkRef>, chunks: seq<seq<Byte>>)
  {
    |refs| == |chunks| && forall i :: 0 <= i < |refs| ==> HoldsChunk(h, master, refs[i], chunks[i])
  }

  predicate HoldsManifest(h: Objects<Payload>, master: MasterKey, id: Uuid, manifest: Manifest)
  {
    && VersionsOf(h, id) != []
    && VersionsOf(h, id)[RevisionOf(h, id) - 1].namespace == MANIFEST_NAMESPACE
    && VersionsOf(h, id)[RevisionOf(h, id) - 1].content == Live(master, ManifestPayload(manifest))
  }

  /** The object's newest version is a manifest whose chunks make up the archive. */
  ghost predicate HoldsBundle(h: Objects<Payload>, master: MasterKey, id: Uuid, manifest: Manifest, archive: seq<Byte>)
  {
    && HoldsManifest(h, master, id, manifest)
    && manifest.archiveBytes == |archive|
    && manifest.archiveSha256 == Sha256(archive)
    && HoldsChunks(h, master, manifest.chunks, Chunks(archive))
  }

  ghost predicate Untouched(before: Objects<Payload>, after: Objects<Payload>, except: set<Uuid>)
  {
    forall id: Uuid :: id !in except ==> VersionsOf(after, id) == VersionsOf(before, id)
  }

  function Ids(refs: seq<ChunkRef>): set<Uuid>
  {
    set i | 0 <= i < |refs| :: refs[i].objectId
  }

  predicate FreshIds(h: Objects<Payload>, ids: seq<Uuid>)
  {
    && (forall i :: 0 <= i < |ids| ==> VersionsOf(h, ids[i]) == [])
    && forall i, j :: 0 <= i < j < |ids| ==> ids[i] != ids[j]
  }

  // ----- saving -----

  /** Never written, or deleted. */
  predicate Gone(h: Objects<Payload>, id: Uuid)
  {
    VersionsOf(h, id) != [] ==> VersionsOf(h, id)[RevisionOf(h, id) - 1].content.Tombstone?
  }

  /** All but at most one: a chunk whose own reply was lost is not known to have been written. */
  ghost predicate AllGoneButOne(h: Objects<Payload>, ids: seq<Uuid>)
  {
    exists n: int :: AllGoneBut(h, ids, n)
  }

  ghost predicate AllGoneBut(h: Objects<Payload>, ids: seq<Uuid>, n: int)
  {
    forall i :: 0 <= i < |ids| && i != n ==> Gone(h, ids[i])
  }

  /** Each object once, and at the revision recorded for it. */
  predicate AllDeletable(h: Objects<Payload>, refs: seq<ChunkRef>)
  {
    && (forall i :: 0 <= i < |refs| ==> Deletable(h, refs[i].objectId, refs[i].revision))
    && forall i, j :: 0 <= i < j < |refs| ==> refs[i].objectId != refs[j].objectId
  }

  method DeleteAll(c: Connection, refs: seq<ChunkRef>) returns (ok: bool)
    modifies c`objects, c`clock
    ensures old(c.clock) <= c.clock
    ensures Untouched(old(c.objects), c.objects, Ids(refs))
    ensures ok ==> forall i :: 0 <= i < |refs| ==>
                     RevisionOf(c.objects, refs[i].objectId) > refs[i].revision && Gone(c.objects, refs[i].objectId)
    ensures c.Quiet(old(c.clock), c.clock) && AllDeletable(old(c.objects), refs) ==> ok
  {
    hide Append;
    for i := 0 to |refs|
      invariant Untouched(old(c.objects), c.objects, Ids(refs)) && old(c.clock) <= c.clock
      invariant forall j :: 0 <= j < i ==>
                  RevisionOf(c.objects, refs[j].objectId) > refs[j].revision && Gone(c.objects, refs[j].objectId)
      invariant AllDeletable(old(c.objects), refs) ==> forall j :: i <= j < |refs| ==>
                  Deletable(c.objects, refs[j].objectId, refs[j].revision)
    {
      DeletedVersions(c.objects, refs[i].objectId);
      assert refs[i].objectId in Ids(refs);
      var done := c.Delete(refs[i].objectId, refs[i].revision);
      if !done {
        return false;
      }
    }
    return true;
  }

  lemma DeletedVersions(h: Objects<Payload>, id: Uuid)
    ensures VersionsOf(h, id) != [] ==>
              && RevisionOf(Entombed(h, id), id) == RevisionOf(h, id) + 1
              && Gone(Entombed(h, id), id)
              && forall other: Uuid :: other != id ==> VersionsOf(Entombed(h, id), other) == VersionsOf(h, other)
  {
  }

  lemma AppendedVersions(h: Objects<Payload>, id: Uuid, namespace: Text, content: Content<Payload>)
    ensures var h' := Append(h, id, namespace, content);
            && VersionsOf(h', id) == VersionsOf(h, id) + [Version(namespace, h.nextCursor, content)]
            && forall other: Uuid :: other != id ==> VersionsOf(h', other) == VersionsOf(h, other)
  {
  }

  lemma ChunkUntouched(before: Objects<Payload>, after: Objects<Payload>, master: MasterKey, refs: seq<ChunkRef>,
                       chunks: seq<seq<Byte>>, except: set<Uuid>)
    requires HoldsChunks(before, master, refs, chunks) && Untouched(before, after, except)
    requires Ids(refs) !! except
    ensures HoldsChunks(after, master, refs, chunks)
  {
    forall i | 0 <= i < |refs| ensures HoldsChunk(after, master, refs[i], chunks[i]) {
      assert refs[i].objectId in Ids(refs);
    }
  }

  lemma UntouchedTwice(a: Objects<Payload>, b: Objects<Payload>, c: Objects<Payload>, ab: set<Uuid>, bc: set<Uuid>)
    requires Untouched(a, b, ab) && Untouched(b, c, bc)
    ensures Untouched(a, c, ab + bc)
  {
  }

  function Range(ids: seq<Uuid>, n: nat): set<Uuid>
    requires n <= |ids|
  {
    set i | 0 <= i < n :: ids[i]
  }

  /** After i chunks: these are held under the first i ids, and nothing else has changed. */
  ghost predicate Uploaded(before: Objects<Payload>, now: Objects<Payload>, master: MasterKey, ids: seq<Uuid>,
                           uploaded: seq<ChunkRef>, chunks: seq<seq<Byte>>)
  {
    && |uploaded| <= |ids| && |uploaded| <= |chunks|
    && HoldsChunks(now, master, uploaded, chunks[..|uploaded|])
    && Ids(uploaded) == Range(ids, |uploaded|)
    && Untouched(before, now, Ids(uploaded))
  }

  lemma UploadedOne(before: Objects<Payload>, now: Objects<Payload>, master: MasterKey, ids: seq<Uuid>,
                    uploaded: seq<ChunkRef>, chunks: seq<seq<Byte>>)
    requires Uploaded(before, now, master, ids, uploaded, chunks) && FreshIds(before, ids)
    requires |uploaded| < |ids| && |uploaded| < |chunks|
    ensures BaseMatches(now, ids[|uploaded|], None)
    ensures var id, chunk := ids[|uploaded|], chunks[|uploaded|];
            Uploaded(before, Append(now, id, CHUNK_NAMESPACE, Live(master, ChunkPayload(chunk))), master, ids,
                     uploaded + [ChunkRef(id, 1, Sha256(chunk), |chunk|)], chunks)
  {
    var n := |uploaded|;
    var id, chunk := ids[n], chunks[n];
    var ref := ChunkRef(id, 1, Sha256(chunk), |chunk|);
    var after := Append(now, id, CHUNK_NAMESPACE, Live(master, ChunkPayload(chunk)));
    assert id !in Ids(uploaded);
    AppendedVersions(now, id, CHUNK_NAMESPACE, Live(master, ChunkPayload(chunk)));
    assert VersionsOf(now, id) == [];
    assert Untouched(now, after, {id});
    ChunkUntouched(now, after, master, uploaded, chunks[..n], {id});
    assert HoldsChunk(after, master, ref, chunk);
    hide HoldsChunk, Append;
    assert chunks[..n + 1] == chunks[..n] + [chunk];
    assert Ids(uploaded + [ref]) == Ids(uploaded) + {id} by {
      forall x | x in Ids(uploaded) + {id} ensures x in Ids(uploaded + [ref]) {
        if x == id {
          assert (uploaded + [ref])[n].objectId == id;
        } else {
          var i :| 0 <= i < n && uploaded[i].objectId == x;
          assert (uploaded + [ref])[i].objectId == x;
        }
      }
    }
    assert Range(ids, n + 1) == Range(ids, n) + {id};
    UntouchedTwice(before, now, after, Ids(uploaded), {id});
  }

  /** What an old manifest may refer to: objects that exist, and not itself. */
  ghost predicate RefersElsewhere(h: Objects<Payload>, id: Uuid, manifest: Manifest)
  {
    forall i :: 0 <= i < |manifest.chunks| ==>
      manifest.chunks[i].objectId != id && VersionsOf(h, manifest.chunks[i].objectId) != []
  }

  datatype Saved = Saved(id: Uuid, revision: nat, manifest: Manifest)

  method LoadManifest(c: Connection, id: Uuid) returns (manifest: Option<Manifest>)
    modifies c`clock
    ensures old(c.clock) <= c.clock
    ensures manifest.Some? ==> HoldsManifest(c.objects, c.master, id, manifest.value)
    ensures forall m :: c.Quiet(old(c.clock), c.clock) && HoldsManifest(c.objects, c.master, id, m) ==>
              manifest == Some(m)
  {
    var stored := c.Get(id);
    if stored.Some? && stored.value.namespace == MANIFEST_NAMESPACE && stored.value.content.Live?
       && stored.value.content.author == c.master && stored.value.content.payload.ManifestPayload? {
      return Some(stored.value.content.payload.manifest);
    }
    return None;
  }

  /** Uploads the chunks one by one; a failure takes the uploaded ones away again. */
  method UploadChunks(c: Connection, chunks: seq<seq<Byte>>, ids: seq<Uuid>)
    returns (r: Result<seq<ChunkRef>, TransferError>)
    requires FreshIds(c.objects, ids) && |chunks| <= |ids|
    modifies c`objects, c`clock
    ensures r.Ok? ==> |r.value| == |chunks| && Uploaded(old(c.objects), c.objects, c.master, ids, r.value, chunks)
    ensures r.Ok? ==> forall j :: 0 <= j < |r.value| ==> r.value[j].objectId == ids[j]
    ensures old(c.clock) <= c.clock
    ensures r.Err? ==> Untouched(old(c.objects), c.objects, Range(ids, |ids|))
    ensures r.Err? ==> r.error == CleanupFailed || (r.error == UploadFailed && AllGoneButOne(c.objects, ids))
    ensures c.Quiet(old(c.clock), c.clock) ==> r.Ok?
  {
    hide Append, FreshIds, HoldsChunks, BaseMatches;
    var uploaded: seq<ChunkRef> := [];
    NothingUploaded(c.objects, c.master, ids, chunks);
    ghost var before := c.objects;
    for i := 0 to |chunks|
      invariant |uploaded| == i && Uploaded(before, c.objects, c.master, ids, uploaded, chunks)
      invariant old(c.clock) <= c.clock
      invariant forall j :: 0 <= j < i ==> uploaded[j].objectId == ids[j]
    {
      ghost var now := c.objects;
      UploadedOne(before, now, c.master, ids, uploaded, chunks);
      AppendedVersions(now, ids[i], CHUNK_NAMESPACE, Live(c.master, ChunkPayload(chunks[i])));
      var revision := c.Upload(CHUNK_NAMESPACE, ChunkPayload(chunks[i]), ids[i], None);
      assert ids[i] in Range(ids, |ids|);
      if revision.None? {
        assert Untouched(before, c.objects, Range(ids, |ids|));
        assert Ids(uploaded) <= Range(ids, |ids|);
        ghost var stopped := c.objects;
        var cleaned := DeleteAll(c, uploaded);
        if cleaned {
          UnusedGone(before, stopped, c.objects, ids, uploaded, i);
          assert AllGoneBut(c.objects, ids, i);
        }
        return Err(if cleaned then UploadFailed else CleanupFailed);
      }
      FirstRevision(now, ids[i], CHUNK_NAMESPACE, Live(c.master, ChunkPayload(chunks[i])));
      uploaded := uploaded + [ChunkRef(ids[i], revision.value, Sha256(chunks[i]), |chunks[i]|)];
    }
    return Ok(uploaded);
  }

  /** Under the ids after the failing one nothing was written, under those before it all is deleted. */
  lemma UnusedGone(before: Objects<Payload>, stopped: Objects<Payload>, after: Objects<Payload>, ids: seq<Uuid>,
                   uploaded: seq<ChunkRef>, n: nat)
    requires FreshIds(before, ids) && n == |uploaded| < |ids|
    requires forall j :: 0 <= j < n ==> uploaded[j].objectId == ids[j] && Gone(after, ids[j])
    requires Untouched(before, stopped, Ids(uploaded) + {ids[n]}) && Untouched(stopped, after, Ids(uploaded))
    ensures AllGoneBut(after, ids, n)
  {
    forall i | n < i < |ids| ensures Gone(after, ids[i]) {
      assert ids[i] !in Ids(uploaded) && ids[i] != ids[n];
    }
  }

  lemma FirstRevision(h: Objects<Payload>, id: Uuid, namespace: Text, content: Content<Payload>)
    requires BaseMatches(h, id, None)
    ensures RevisionOf(Append(h, id, namespace, content), id) == 1
  {
  }

  lemma NothingUploaded(h: Objects<Payload>, master: MasterKey, ids: seq<Uuid>, chunks: seq<seq<Byte>>)
    ensures Uploaded(h, h, master, ids, [], chunks)
  {
    assert Ids([]) == {} == Range(ids, 0);
  }

  /** A manifest at the revision the caller names, with all its chunks where it says they are. */
  ghost predicate Replaceable(h: Objects<Payload>, master: MasterKey, target: Target, manifest: Manifest)
  {
    && HoldsManifest(h, master, target.id, manifest)
    && target.base == RevisionOf(h, target.id)
    && AllDeletable(h, manifest.chunks)
  }

  lemma ReplaceableMatches(before: Objects<Payload>, now: Objects<Payload>, master: MasterKey, target: Target,
                           manifest: Manifest)
    requires Replaceable(before, master, target, manifest)
    requires VersionsOf(now, target.id) == VersionsOf(before, target.id)
    ensures BaseMatches(now, target.id, Some(target.base))
  {
    hide AllDeletable;
  }

  lemma SameManifestHeld(h: Objects<Payload>, master: MasterKey, id: Uuid, m: Manifest, n: Manifest)
    requires HoldsManifest(h, master, id, m) && HoldsManifest(h, master, id, n)
    ensures m == n
  {
  }

  lemma StillDeletable(before: Objects<Payload>, after: Objects<Payload>, refs: seq<ChunkRef>, except: set<Uuid>)
    requires AllDeletable(before, refs) && Untouched(before, after, except) && Ids(refs) !! except
    ensures AllDeletable(after, refs)
  {
    forall i | 0 <= i < |refs| ensures Deletable(after, refs[i].objectId, refs[i].revision) {
      assert refs[i].objectId in Ids(refs);
    }
  }

  /**
   Chunks first, manifest last, old chunks away at the end. After a success the object holds the
   bundle, as one new version on the revision the caller named, the chunks of the manifest it
   replaced are gone, and nothing else has changed.
   */
  method Save(c: Connection, profile: string, archive: seq<Byte>, target: Option<Target>, ids: seq<Uuid>)
    returns (r: Result<Saved, TransferError>)
    requires FreshIds(c.objects, ids) && |ids| == |Chunks(archive)| + 1
    requires target.Some? ==> target.value.id !in ids
    requires target.Some? ==> forall m :: HoldsManifest(c.objects, c.master, target.value.id, m) ==>
               RefersElsewhere(c.objects, target.value.id, m)
    modifies c`objects, c`clock
    ensures old(c.clock) <= c.clock
    ensures r.Ok? ==>
              && r.value.id == (if target.Some? then target.value.id else ids[|ids| - 1])
              && r.value.revision == RevisionOf(old(c.objects), r.value.id) + 1 == RevisionOf(c.objects, r.value.id)
              && (target.Some? ==> target.value.base == RevisionOf(old(c.objects), r.value.id))
              && VersionsOf(old(c.objects), r.value.id) <= VersionsOf(c.objects, r.value.id)
              && HoldsBundle(c.objects, c.master, r.value.id, r.value.manifest, archive)
              && r.value.manifest.profileDirectory == profile
    ensures r.Ok? && target.Some? ==>
              exists m :: && HoldsManifest(old(c.objects), c.master, target.value.id, m)
                          && (forall i :: 0 <= i < |m.chunks| ==>
                              RevisionOf(c.objects, m.chunks[i].objectId) > m.chunks[i].revision)
                          && Untouched(old(c.objects), c.objects,
                                       {r.value.id} + Ids(r.value.manifest.chunks) + Ids(m.chunks))
    ensures r.Ok? && target.None? ==> Untouched(old(c.objects), c.objects, {r.value.id} + Ids(r.value.manifest.chunks))
    ensures r.Err? && r.error == NotFound ==> c.objects == old(c.objects)
    ensures r.Err? && (r.error == UploadFailed || r.error == CleanupFailed) ==>
              Untouched(old(c.objects), c.objects, Range(ids, |ids|) + TargetId(target))
    ensures r.Err? && r.error == UploadFailed ==> AllGoneButOne(c.objects, ids)
    ensures r.Err? && r.error == UploadFailed && target.Some? ==>
              var id := target.value.id;
              && VersionsOf(old(c.objects), id) <= VersionsOf(c.objects, id)
              && RevisionOf(c.objects, id) <= RevisionOf(old(c.objects), id) + 1
    ensures r.Err? && r.error == OldChunksRemain ==>
              target.Some? && exists m :: HoldsBundle(c.objects, c.master, target.value.id, m, archive)
                                       && m.profileDirectory == profile
    ensures r.Err? ==> r.error != VerificationFailed
    ensures c.Quiet(old(c.clock), c.clock) && target.None? ==> r.Ok?
    ensures c.Quiet(old(c.clock), c.clock) && target.Some? ==>
              forall m :: Replaceable(old(c.objects), c.master, target.value, m) ==> r.Ok?
  {
    hide Append, FreshIds, HoldsChunks, HoldsManifest, BaseMatches, Chunks, Untouched, Ids, Range, Uploaded;
    ghost var before := c.objects;
    var previous: Option<Manifest> := None;
    if target.Some? {
      previous := LoadManifest(c, target.value.id);
      if previous.None? {
        return Err(NotFound);
      }
    }
    var uploaded := UploadChunks(c, Chunks(archive), ids);
    if uploaded.Err? {
      WiderUntouched(before, c.objects, Range(ids, |ids|), Range(ids, |ids|) + TargetId(target));
      if target.Some? { NotInRange(before, c.objects, ids, target.value.id); }
      return Err(uploaded.error);
    }
    var refs := uploaded.value;
    ghost var middle := c.objects;
    var manifest := Manifest(profile, Sha256(archive), |archive|, refs);
    var id := if target.Some? then target.value.id else ids[|ids| - 1];
    var base := if target.Some? then Some(target.value.base) else None;
    NewManifest(before, middle, c.master, ids, refs, archive, id, manifest);
    forall m | target.Some? && Replaceable(before, c.master, target.value, m)
      ensures BaseMatches(middle, id, base) && previous == Some(m) {
      ReplaceableMatches(before, middle, c.master, target.value, m);
      SameManifestHeld(before, c.master, id, m, previous.value);
    }
    var revision := c.Upload(MANIFEST_NAMESPACE, ManifestPayload(manifest), id, base);
    if revision.None? {
      ghost var stopped := c.objects;
      OnlyManifest(middle, stopped, c.master, id, manifest);
      var cleaned := DeleteAll(c, refs);
      StoppedUntouched(before, middle, stopped, c.objects, c.master, ids, refs, Chunks(archive), id);
      InRange(ids, |ids| - 1);
      WiderUntouched(before, c.objects, Range(ids, |ids|) + {id}, Range(ids, |ids|) + TargetId(target));
      if cleaned {
        AllChunksGone(c.objects, ids, refs);
      }
      return Err(if cleaned then UploadFailed else CleanupFailed);
    }
    if target.Some? { MatchedBase(middle, id, target.value.base); }
    if previous.Some? {
      ghost var published := c.objects;
      OldChunksApart(before, published, ids, refs, Chunks(archive), c.master, middle, id, previous.value);
      forall m | target.Some? && Replaceable(before, c.master, target.value, m)
        ensures AllDeletable(published, previous.value.chunks) {
        StillDeletable(before, published, m.chunks, {id} + Ids(refs));
      }
      var cleaned := DeleteAll(c, previous.value.chunks);
      StillHeld(published, c.objects, c.master, id, manifest, archive, Ids(previous.value.chunks));
      UntouchedTwice(before, published, c.objects, {id} + Ids(refs), Ids(previous.value.chunks));
      if !cleaned {
        return Err(OldChunksRemain);
      }
    }
    return Ok(Saved(id, revision.value, manifest));
  }

  function TargetId(target: Option<Target>): set<Uuid>
  {
    if target.Some? then {target.value.id} else {}
  }

  /** A failed manifest upload has written its manifest or nothing. */
  lemma OnlyManifest(middle: Objects<Payload>, stopped: Objects<Payload>, master: MasterKey, id: Uuid,
                     manifest: Manifest)
    requires || stopped == middle
             || stopped == Append(middle, id, MANIFEST_NAMESPACE, Live(master, ManifestPayload(manifest)))
    ensures Untouched(middle, stopped, {id})
    ensures VersionsOf(middle, id) <= VersionsOf(stopped, id) && RevisionOf(stopped, id) <= RevisionOf(middle, id) + 1
  {
    AppendedVersions(middle, id, MANIFEST_NAMESPACE, Live(master, ManifestPayload(manifest)));
  }

  lemma StoppedUntouched(before: Objects<Payload>, middle: Objects<Payload>, stopped: Objects<Payload>,
                         after: Objects<Payload>, master: MasterKey, ids: seq<Uuid>, refs: seq<ChunkRef>,
                         chunks: seq<seq<Byte>>, id: Uuid)
    requires Uploaded(before, middle, master, ids, refs, chunks) && id !in Ids(refs)
    requires Untouched(middle, stopped, {id}) && Untouched(stopped, after, Ids(refs))
    ensures Untouched(before, after, Range(ids, |ids|) + {id})
    ensures VersionsOf(after, id) == VersionsOf(stopped, id) && VersionsOf(middle, id) == VersionsOf(before, id)
  {
    hide HoldsChunks;
    forall other: Uuid | other !in Range(ids, |ids|) && other != id
      ensures VersionsOf(after, other) == VersionsOf(before, other) {
      assert other !in Range(ids, |refs|);
    }
  }

  lemma AllChunksGone(after: Objects<Payload>, ids: seq<Uuid>, refs: seq<ChunkRef>)
    requires |refs| == |ids| - 1
    requires forall j :: 0 <= j < |refs| ==> refs[j].objectId == ids[j] && Gone(after, refs[j].objectId)
    ensures AllGoneButOne(after, ids)
  {
    assert AllGoneBut(after, ids, |refs|);
  }

  lemma WiderUntouched(before: Objects<Payload>, after: Objects<Payload>, some: set<Uuid>, more: set<Uuid>)
    requires Untouched(before, after, some) && some <= more
    ensures Untouched(before, after, more)
  {
  }

  lemma NotInRange(before: Objects<Payload>, after: Objects<Payload>, ids: seq<Uuid>, id: Uuid)
    requires Untouched(before, after, Range(ids, |ids|)) && id !in ids
    ensures VersionsOf(after, id) == VersionsOf(before, id)
  {
  }

  lemma InRange(ids: seq<Uuid>, i: nat)
    requires i < |ids|
    ensures ids[i] in Range(ids, |ids|)
  {
  }

  lemma NewManifest(before: Objects<Payload>, now: Objects<Payload>, master: MasterKey, ids: seq<Uuid>,
                    refs: seq<ChunkRef>, archive: seq<Byte>, id: Uuid, manifest: Manifest)
    requires Uploaded(before, now, master, ids, refs, Chunks(archive)) && |refs| == |Chunks(archive)| == |ids| - 1
    requires FreshIds(before, ids) && (id !in ids || id == ids[|ids| - 1])
    requires manifest.archiveBytes == |archive| && manifest.archiveSha256 == Sha256(archive) && manifest.chunks == refs
    ensures id !in Ids(refs) && VersionsOf(now, id) == VersionsOf(before, id)
    ensures id in ids ==> BaseMatches(now, id, None)
    ensures var after := Append(now, id, MANIFEST_NAMESPACE, Live(master, ManifestPayload(manifest)));
            && HoldsBundle(after, master, id, manifest, archive)
            && Untouched(before, after, {id} + Ids(refs))
            && VersionsOf(before, id) <= VersionsOf(after, id)
            && RevisionOf(after, id) == RevisionOf(before, id) + 1
  {
    hide Chunks;
    var after := Append(now, id, MANIFEST_NAMESPACE, Live(master, ManifestPayload(manifest)));
    AppendedVersions(now, id, MANIFEST_NAMESPACE, Live(master, ManifestPayload(manifest)));
    hide Append, HoldsChunks;
    assert Untouched(now, after, {id});
    UntouchedTwice(before, now, after, Ids(refs), {id});
    assert Chunks(archive)[..|refs|] == Chunks(archive);
    ChunkUntouched(now, after, master, refs, Chunks(archive), {id});
  }

  lemma OldChunksApart(before: Objects<Payload>, published: Objects<Payload>, ids: seq<Uuid>, refs: seq<ChunkRef>,
                       chunks: seq<seq<Byte>>, master: MasterKey, middle: Objects<Payload>, id: Uuid,
                       previous: Manifest)
    requires FreshIds(before, ids) && RefersElsewhere(before, id, previous)
    requires Uploaded(before, middle, master, ids, refs, chunks)
    ensures Ids(previous.chunks) !! {id} + Ids(refs)
  {
    hide HoldsChunks, Untouched;
  }

  lemma MatchedBase(h: Objects<Payload>, id: Uuid, base: nat)
    requires BaseMatches(h, id, Some(base))
    ensures base == RevisionOf(h, id)
  {
  }

  lemma StillHeld(before: Objects<Payload>, after: Objects<Payload>, master: MasterKey, id: Uuid, manifest: Manifest,
                  archive: seq<Byte>, except: set<Uuid>)
    requires HoldsBundle(before, master, id, manifest, archive) && Untouched(before, after, except)
    requires except !! {id} + Ids(manifest.chunks)
    ensures HoldsBundle(after, master, id, manifest, archive) && VersionsOf(after, id) == VersionsOf(before, id)
  {
    ChunkUntouched(before, after, master, manifest.chunks, Chunks(archive), except);
    hide HoldsChunks, Chunks;
  }

  // ----- loading -----

  lemma {:induction false} FlattenAppend(chunks: seq<seq<Byte>>, chunk: seq<Byte>)
    ensures Flatten(chunks + [chunk]) == Flatten(chunks) + chunk
  {
    if chunks == [] {
      assert [chunk][1..] == [];
    } else {
      FlattenAppend(chunks[1..], chunk);
      assert (chunks + [chunk])[1..] == chunks[1..] + [chunk];
    }
  }

  /** A load's result: what was found, and the revision it was found at. */
  datatype Fetched = Fetched(manifest: Manifest, archive: seq<Byte>, revision: nat)

  /** Every reference is to a chunk as recorded, and together they are what the manifest promises. */
  ghost predicate Assembles(h: Objects<Payload>, master: MasterKey, m: Manifest, chunks: seq<seq<Byte>>)
  {
    HoldsChunks(h, master, m.chunks, chunks) && Whole(m, Flatten(chunks))
  }

  lemma OneAssembly(h: Objects<Payload>, master: MasterKey, refs: seq<ChunkRef>, a: seq<seq<Byte>>, b: seq<seq<Byte>>)
    requires HoldsChunks(h, master, refs, a) && HoldsChunks(h, master, refs, b)
    ensures a == b
  {
    forall i | 0 <= i < |refs| ensures a[i] == b[i] {
      assert HoldsChunk(h, master, refs[i], a[i]) && HoldsChunk(h, master, refs[i], b[i]);
    }
  }

  lemma BundleAssembles(h: Objects<Payload>, master: MasterKey, id: Uuid, m: Manifest, archive: seq<Byte>)
    requires HoldsBundle(h, master, id, m, archive)
    ensures HoldsManifest(h, master, id, m) && Assembles(h, master, m, Chunks(archive))
    ensures Flatten(Chunks(archive)) == archive
  {
    ChunksFlatten(archive);
  }

  lemma OneMoreHeld(h: Objects<Payload>, master: MasterKey, refs: seq<ChunkRef>, i: nat, fetched: seq<seq<Byte>>,
                    chunk: seq<Byte>)
    requires i < |refs| && HoldsChunks(h, master, refs[..i], fetched) && HoldsChunk(h, master, refs[i], chunk)
    ensures HoldsChunks(h, master, refs[..i + 1], fetched + [chunk])
  {
    hide HoldsChunk;
  }

  /** One chunk: the newest version of its object, if it is what the manifest says. */
  method LoadChunk(c: Connection, ref: ChunkRef) returns (r: Result<seq<Byte>, TransferError>)
    modifies c`clock
    ensures old(c.clock) <= c.clock
    ensures r.Ok? ==> HoldsChunk(c.objects, c.master, ref, r.value)
    ensures forall chunk :: c.Quiet(old(c.clock), c.clock) && HoldsChunk(c.objects, c.master, ref, chunk) ==>
              r == Ok(chunk)
    ensures r.Err? ==> r.error == NotFound || r.error == VerificationFailed
    ensures r == Err(VerificationFailed) ==> forall chunk :: !HoldsChunk(c.objects, c.master, ref, chunk)
  {
    var stored := c.Get(ref.objectId);
    if stored.None? || stored.value.namespace != CHUNK_NAMESPACE || !stored.value.content.Live?
       || stored.value.content.author != c.master || !stored.value.content.payload.ChunkPayload? {
      return Err(NotFound);
    }
    var chunk := stored.value.content.payload.chunk;
    if RevisionOf(c.objects, ref.objectId) != ref.revision || |chunk| != ref.bytes || Sha256(chunk) != ref.sha256 {
      return Err(VerificationFailed);
    }
    return Ok(chunk);
  }

  /** The chunks in order, joined; the first one that fails decides. */
  method LoadChunks(c: Connection, refs: seq<ChunkRef>)
    returns (r: Result<seq<Byte>, TransferError>, ghost fetched: seq<seq<Byte>>)
    modifies c`clock
    ensures old(c.clock) <= c.clock
    ensures r.Ok? ==> HoldsChunks(c.objects, c.master, refs, fetched) && r.value == Flatten(fetched)
    ensures forall chunks :: c.Quiet(old(c.clock), c.clock) && HoldsChunks(c.objects, c.master, refs, chunks) ==> r.Ok?
    ensures r.Err? ==> r.error == NotFound || r.error == VerificationFailed
    ensures r == Err(VerificationFailed) ==> forall chunks :: !HoldsChunks(c.objects, c.master, refs, chunks)
  {
    hide HoldsChunk, HoldsChunks, Flatten;
    var archive: seq<Byte> := [];
    fetched := [];
    EmptyFlatten();
    NothingHeld(c.objects, c.master);
    assert refs[..0] == [];
    for i := 0 to |refs|
      invariant old(c.clock) <= c.clock
      invariant archive == Flatten(fetched) && HoldsChunks(c.objects, c.master, refs[..i], fetched)
    {
      forall chunks | HoldsChunks(c.objects, c.master, refs, chunks)
        ensures i < |chunks| && HoldsChunk(c.objects, c.master, refs[i], chunks[i]) {
        HeldChunk(c.objects, c.master, refs, chunks, i);
      }
      var chunk := LoadChunk(c, refs[i]);
      if chunk.Err? {
        r := Err(chunk.error);
        return;
      }
      FlattenAppend(fetched, chunk.value);
      OneMoreHeld(c.objects, c.master, refs, i, fetched, chunk.value);
      archive := archive + chunk.value;
      fetched := fetched + [chunk.value];
    }
    assert refs[..|refs|] == refs;
    r := Ok(archive);
  }

  /**
   Fetches the manifest and then each chunk, checking every piece and the whole: what comes back
   is the newest manifest with exactly the bytes its references hold, and undisturbed it comes
   back whenever these pass every check. So for a bundle it is the bundle's archive or an error,
   and undisturbed no error.
   */
  method Load(c: Connection, id: Uuid) returns (r: Result<Fetched, TransferError>)
    modifies c`clock
    ensures old(c.clock) <= c.clock
    ensures r.Ok? ==>
              && HoldsManifest(c.objects, c.master, id, r.value.manifest)
              && r.value.revision == RevisionOf(c.objects, id)
              && exists chunks ::
                   Assembles(c.objects, c.master, r.value.manifest, chunks) && r.value.archive == Flatten(chunks)
    ensures forall m, chunks ::
              c.Quiet(old(c.clock), c.clock) && HoldsManifest(c.objects, c.master, id, m)
              && Assembles(c.objects, c.master, m, chunks) ==>
                r == Ok(Fetched(m, Flatten(chunks), RevisionOf(c.objects, id)))
    ensures r.Err? ==> r.error == NotFound || r.error == VerificationFailed
    ensures r == Err(VerificationFailed) ==>
              exists m :: HoldsManifest(c.objects, c.master, id, m)
                          && forall chunks :: !Assembles(c.objects, c.master, m, chunks)
    ensures forall m, archive ::
              r.Ok? && HoldsBundle(c.objects, c.master, id, m, archive) ==>
                r.value == Fetched(m, archive, RevisionOf(c.objects, id))
    ensures forall m, archive :: c.Quiet(old(c.clock), c.clock) && HoldsBundle(c.objects, c.master, id, m, archive) ==>
              r.Ok?
  {
    hide Chunks, HoldsManifest, HoldsBundle, HoldsChunk, HoldsChunks, Flatten;
    forall m, archive | HoldsBundle(c.objects, c.master, id, m, archive)
      ensures HoldsManifest(c.objects, c.master, id, m) && Assembles(c.objects, c.master, m, Chunks(archive))
              && Flatten(Chunks(archive)) == archive {
      BundleAssembles(c.objects, c.master, id, m, archive);
    }
    var manifest := LoadManifest(c, id);
    if manifest.None? {
      return Err(NotFound);
    }
    forall m | HoldsManifest(c.objects, c.master, id, m) ensures m == manifest.value {
      OneManifest(c.objects, c.master, id, m, manifest.value);
    }
    var archive, fetched := LoadChunks(c, manifest.value.chunks);
    if archive.Err? {
      return Err(archive.error);
    }
    forall chunks | HoldsChunks(c.objects, c.master, manifest.value.chunks, chunks) ensures chunks == fetched {
      OneAssembly(c.objects, c.master, manifest.value.chunks, chunks, fetched);
    }
    if |archive.value| != manifest.value.archiveBytes || Sha256(archive.value) != manifest.value.archiveSha256 {
      return Err(VerificationFailed);
    }
    return Ok(Fetched(manifest.value, archive.value, RevisionOf(c.objects, id)));
  }

  lemma HeldChunk(h: Objects<Payload>, master: MasterKey, refs: seq<ChunkRef>, chunks: seq<seq<Byte>>, i: nat)
    requires HoldsChunks(h, master, refs, chunks) && i < |refs|
    ensures i < |chunks| && HoldsChunk(h, master, refs[i], chunks[i])
  {
  }

  lemma NothingHeld(h: Objects<Payload>, master: MasterKey)
    ensures HoldsChunks(h, master, [], [])
  {
  }

  lemma OneManifest(h: Objects<Payload>, master: MasterKey, id: Uuid, a: Manifest, b: Manifest)
    requires HoldsManifest(h, master, id, a) && HoldsManifest(h, master, id, b)
    ensures a == b
  {
  }

  predicate Whole(m: Manifest, archive: seq<Byte>)
  {
    m.archiveBytes == |archive| && m.archiveSha256 == Sha256(archive)
  }

  lemma EmptyFlatten()
    ensures Flatten([]) == []
  {
  }

  /** Load after save: the same bytes or an error, and undisturbed no error, for every archive. */
  method SaveThenLoad(c: Connection, profile: string, archive: seq<Byte>, ids: seq<Uuid>)
    returns (r: Result<Fetched, TransferError>)
    requires FreshIds(c.objects, ids) && |ids| == |Chunks(archive)| + 1
    modifies c`objects, c`clock
    ensures r.Ok? ==> r.value.archive == archive && r.value.manifest.profileDirectory == profile
    ensures c.Quiet(old(c.clock), c.clock) ==> r.Ok?
  {
    hide FreshIds, Chunks;
    var saved := Save(c, profile, archive, None, ids);
    if saved.Err? {
      return Err(saved.error);
    }
    r := Load(c, saved.value.id);
    assert HoldsBundle(c.objects, c.master, saved.value.id, saved.value.manifest, archive);
  }
}
