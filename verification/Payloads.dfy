/** What clients seal into objects, and the namespaces they keep it under. */
module Payloads {
  import opened Bytes
  import opened Bookmarks

  const BOOKMARK_NAMESPACE: Text := Ascii("helium.bookmarks.v1")
  const MANIFEST_NAMESPACE: Text := Ascii("helium.extensions.manifest.v1")
  const CHUNK_NAMESPACE: Text := Ascii("helium.extensions.chunk.v1")

  /** A hash without collisions: it is its preimage. */
  datatype Digest = Sha256(preimage: seq<Byte>)

  datatype ChunkRef = ChunkRef(objectId: Uuid, revision: nat, sha256: Digest, bytes: nat)

  datatype Manifest = Manifest(
    profileDirectory: string, archiveSha256: Digest, archiveBytes: nat, chunks: seq<ChunkRef>)

  datatype Payload =
    | BookmarkPayload(snapshot: Snapshot)
    | ManifestPayload(manifest: Manifest)
    | ChunkPayload(chunk: seq<Byte>)
}
