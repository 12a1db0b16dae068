# Helium Sync: a verified model

Helium Sync keeps browser profiles in step across devices through an encrypted object server. This
project models its merge, its server, its client protocols and the file operations around them in
Dafny, and proves what they keep.

- **Merging bookmarks** (`Bookmarks`, `BookmarkMerge`, `MergeShape`, `MergeAbsorption`,
  `MergeSymmetry`, `MergeLossless`, `MergeOutcome`, `MergeDetermined`, `MergeConflicts`,
  `MergeProcedures`). The three-way merge as
  functions over trees, the same with its loops and its mutable conflict counter, the algebra of the
  merge, and the laws that determine its result and its conflict count.
- **The bookmark file** (`KeyOrder`, `BookmarkFile`). Reading, writing and their round trips.
- **Encryption envelopes** (`Bytes`, `Crypto`). The associated data byte by byte; the cipher is
  abstract and opens exactly for the key and associated data it was sealed with.
- **The server** (`ObjectStore`, `ServerDecisions`). Tables, compare-and-swap transactions, batches, the change log,
  and what is accepted and refused.
  `VersionedObjects` shows that encrypted uploads turn it into lists of versions, which is what the
  protocols below are stated over.
- **Finding objects** (`Discovery`, `BookmarkDiscovery`). The paging loop under concurrent writers, and
  the opening of what it finds.
- **Bookmark sync** (`BookmarkSync`, `BookmarkSyncLaws`, `BookmarkConvergence`, `BookmarkAgreement`,
  `BookmarkRecovery`, `BookmarkDriver`).
  Any number of devices, one request at a time, any interleaving and failure; then what undisturbed
  turns converge to, the explicit load and save, and the driver as sequential code.
- **Extension bundles** (`Payloads`, `ExtensionSync`, `ExtensionSyncLaws`, `ExtensionSaving`,
  `ExtensionTransfer`).
  Copy-on-write chunks, a manifest published last, cleanup, readers; and the save and load loops.
- **Extensions on disk** (`FileTree`, `ExtensionRestore`, `ExtensionBundle`, `ExtensionReload`).
  Capture, staging, guarded replacement with rollback under failing file-system calls.
- **Profiles** (`ProfileLifecycle`, `ProfileOutcomes`). Creating, archiving, restoring and deleting
  them.

`dafny verify dfyconfig.toml` checks everything.

## Results that qualify the program's promises

- Absorption, on which safe retries rest, needs unique sibling ids on the remote side;
  `MergeAbsorption.RepeatedIdDoesNotAbsorb` is an input without them for which it fails, and
  `MergeAbsorption.AbsorptionExactly` is the exact condition.
- Devices converge per object. Two devices whose first syncs overlap create two objects and stay
  apart: `BookmarkConvergence.OverlappingFirstSyncsSplit`. `BookmarkAgreement.AllConvergeExactly`
  says when all devices agree.
- A merge lists remote root keys first, a read lists them sorted. When the published order is not
  the sorted one, every later sync replaces the local file again: `BookmarkConvergence.RewritesForever`.
- If the reply to a committed manifest, or its read-back, is lost, the cleanup deletes the chunks of
  the live manifest: `ExtensionSyncLaws.LostReplyDanglesExactly`.
- If the directory to move old extension data into cannot be created, the restore returns without
  its rollback; whatever had been moved aside goes with the temporary directory:
  `ExtensionRestore.Workspace.Replace`, `ExtensionRestore.AbandonedUnchangedExactly`.
- A profile command whose database write and rollback rename both fail leaves names inconsistent,
  though no profile is lost: `ProfileLifecycle.StaysConsistentExactly`.

## Model

| member | source | states |
|---|---|---|
| `MergeShape.ExactShape` | crates/helium-sync-profile/src/lib.rs:934-968 | The merged children have distinct ids; an id is there exactly when both sides have it, or one side has it with a node other than the base's; they are listed in remote order, then local-only order |
| `Bookmarks.LookupIsLast` | crates/helium-sync-profile/src/lib.rs:966-968 | Under a repeated id or key the last entry is the one that is merged |
| `MergeShape.LastArmUnreachable` | crates/helium-sync-profile/src/lib.rs:802-818 | The catch-all arm of the node merge is never taken |
| `MergeShape.ChildrenKeyed` | crates/helium-sync-profile/src/lib.rs:934-970 | Merging child lists by id is the same as merging keyed entries: the rebuilt list is indexed under the ids it was merged by |
| `MergeAbsorption.Absorption` | crates/helium-sync-profile/src/lib.rs:485-548 | With unique sibling ids and root keys on the remote side, merging the base and the local side with the merged result gives the merged result again, for every base, local and remote |
| `MergeAbsorption.AbsorptionExactly` | crates/helium-sync-profile/src/lib.rs:792-964 | For arbitrary inputs, repeated ids included, a second merge absorbs if and only if no node is changed on both sides by nothing but reordering and repeating child ids |
| `MergeAbsorption.OptionalIsBaseExactly` | crates/helium-sync-profile/src/lib.rs:792-964 | A merge gives back the base exactly when both sides equal it, or all three are folders alike but for children, the remote ids at their first occurrences are the base ids in order, the local ids are the same set, and so on below |
| `MergeAbsorption.OptionalFixesBase` | crates/helium-sync-profile/src/lib.rs:792-819 | With unique sibling ids, a merge can give back the base only if the remote side was the base |
| `MergeAbsorption.UniqueSettles` | crates/helium-sync-profile/src/lib.rs:792-964 | Unique remote sibling ids are enough for absorption at every depth |
| `MergeAbsorption.RepeatedIdDoesNotAbsorb` | crates/helium-sync-profile/src/lib.rs:966-968 | A concrete folder with a repeated child id for which a second merge differs from the first: uniqueness is needed |
| `MergeSymmetry.Symmetry` | crates/helium-sync-profile/src/lib.rs:485-993 | Swapping local and remote never changes the conflict count, and when it is zero the two results agree up to sibling order at every depth |
| `MergeSymmetry.OptionalSymmetric` | crates/helium-sync-profile/src/lib.rs:792-932 | The same for any one node, absent sides included |
| `MergeLossless.NoSilentLoss` | crates/helium-sync-profile/src/lib.rs:485-548 | When no conflict is reported, every addition, deletion and scalar edit that either side made relative to the base is in the result, at every depth |
| `MergeLossless.MergeKeepsWellFormed` | crates/helium-sync-profile/src/lib.rs:934-964 | Merging two sides with unique sibling ids gives unique sibling ids again |
| `MergeOutcome.ConflictFreeExactly` | crates/helium-sync-profile/src/lib.rs:485-548 | No conflict is reported if and only if some tree keeps every edit of both sides, for every base, local and remote |
| `MergeOutcome.RemoteEditsStand` | crates/helium-sync-profile/src/lib.rs:792-993 | Conflicts or not, every remote edit is in the result, except that a remote deletion yields to a local change of the deleted node |
| `MergeOutcome.LocalEditsStand` | crates/helium-sync-profile/src/lib.rs:792-993 | Conflicts or not, every local edit is in the result wherever the remote side made none: a field, node or deletion the remote left alone comes out as the local one, and a node the remote deleted and the local side changed stays as the local one, at every depth |
| `MergeOutcome.NothingInvented` | crates/helium-sync-profile/src/lib.rs:792-993 | At every place of the result each node and field is the local or the remote one of that place |
| `MergeDetermined.MergeDeterminedExactly` | crates/helium-sync-profile/src/lib.rs:485-993 | The merge is refused exactly when the headers differ; otherwise a snapshot is its result if and only if remote edits stand, local edits stand where the remote made none, what both changed is resolved as stated, siblings are in remote-then-local order, and the header is the shared one with the later browser version |
| `MergeConflicts.ConflictsCounted` | crates/helium-sync-profile/src/lib.rs:485-993 | The reported count is the number of places, a field or a whole node under its path of ids, where both sides changed the base differently |
| `MergeProcedures.MergeSnapshots` | crates/helium-sync-profile/src/lib.rs:485-548 | The loop with the running `seen` set and the mutable conflict counter computes exactly the functional merge or its error |
| `MergeProcedures.MergeOptionalInto` | crates/helium-sync-profile/src/lib.rs:792-819 | The procedure adds exactly the conflicts of the functional node merge to the counter it is given |
| `MergeProcedures.MergePresentInto` | crates/helium-sync-profile/src/lib.rs:821-932 | The same for two present nodes, field by field and children, each field resolved on its own |
| `MergeProcedures.MergeChildrenInto` | crates/helium-sync-profile/src/lib.rs:934-964 | The same for child lists, with the loop that collects ids in first-seen order |
| `MergeProcedures.MergeEntriesInto` | crates/helium-sync-profile/src/lib.rs:512-543 | The same for the loop over root keys |
| `MergeProcedures.MergeValueInto` | crates/helium-sync-profile/src/lib.rs:976-993 | The same for one scalar field |
| `BookmarkFile.WriteThenRead` | crates/helium-sync-profile/src/lib.rs:1524-1534 | Writing any snapshot and reading it back keeps every node under its key, with roots sorted by key |
| `BookmarkFile.WriteThenReadPermutes` | crates/helium-sync-profile/src/lib.rs:1524-1559 | With unique root keys the snapshot read back has the same roots, as a multiset |
| `BookmarkFile.RoundTripExactly` | crates/helium-sync-profile/src/lib.rs:422-443 | Reading back gives the identical snapshot if and only if its roots are in key order |
| `BookmarkFile.ReadIsSorted` | crates/helium-sync-profile/src/lib.rs:422-443 | What is read has its roots strictly sorted by key |
| `BookmarkFile.ReadWriteRead` | crates/helium-sync-profile/src/lib.rs:399-445 | Read, write and read again gives what the first read gave |
| `BookmarkFile.NodeRoundTrip` | crates/helium-sync-profile/src/lib.rs:1536-1559 | Converting a written node gives the node back, at any depth |
| `BookmarkFile.ConvertsExactly` | crates/helium-sync-profile/src/lib.rs:1536-1559 | A raw node converts if and only if it and every node below it is a folder or a url with an address, and the result shows exactly its fields and its children in order |
| `BookmarkFile.ReadExactly` | crates/helium-sync-profile/src/lib.rs:399-445 | A file can be read if and only if all its root nodes convert, and what is read shows exactly its roots in key order |
| `Crypto.AssociatedDataRoundTrip` | crates/helium-sync-client-core/src/crypto.rs:250-276 | A total decoder recovers every metadata field and the envelope version from the associated data |
| `Crypto.AssociatedDataInjective` | crates/helium-sync-client-core/src/crypto.rs:250-276 | Different metadata or envelope version give different associated data |
| `Crypto.AssociatedDataLayout` | crates/helium-sync-client-core/src/crypto.rs:250-276 | Every field stands at its place with its width, numbers big-endian, texts behind four-byte lengths |
| `Crypto.BuildAssociatedData` | crates/helium-sync-client-core/src/crypto.rs:250-276 | The byte vector extended in place ends as the specified encoding, or fails exactly when a field is too long for its length prefix |
| `Crypto.ByteVector.AppendField` | crates/helium-sync-client-core/src/crypto.rs:270-276 | Appends the four-byte length and the field, or refuses and leaves the vector alone |
| `Crypto.DecryptsExactly` | crates/helium-sync-client-core/src/crypto.rs:75-140 | A sealed object opens if and only if key, namespace, object, revision, device, time and the rest of the metadata are those it was sealed under |
| `Crypto.EncryptsExactly` | crates/helium-sync-client-core/src/crypto.rs:74-101 | Sealing fails exactly for texts too long for their length prefix; the envelope is version 1 with the given nonce and a ciphertext sixteen bytes longer than the plaintext |
| `Crypto.DecryptFailsAs` | crates/helium-sync-client-core/src/crypto.rs:103-147 | Which error a row that does not open meets, in the order of the checks |
| `Crypto.KeysApart` | crates/helium-sync-client-core/src/crypto.rs:215-229 | Another master key, object, namespace or key version derives another object key |
| `ObjectStore.EveryRunAgrees` | crates/helium-sync-server/src/api.rs:342-513 | Over every run of puts, deletes, batches and device changes, failures included: each object's log carries revisions 1, 2, ... under growing cursors, its row is the last of them, it is deleted exactly when it has no envelope, and no row disappears or steps back |
| `ObjectStore.RevisionsWrittenOnce` | crates/helium-sync-server/migrations/0001_initial.sql:21-29 | In the log, a later change of an object has a higher revision |
| `ObjectStore.BatchIsItsOperations` | crates/helium-sync-server/src/api.rs:342-368 | A committed batch leaves the tables as its operations would one request at a time |
| `ObjectStore.BatchFailsExactly` | crates/helium-sync-server/src/api.rs:342-368 | A batch fails if and only if some operation fails in its turn |
| `ObjectStore.Server.RunBatch` | crates/helium-sync-server/src/api.rs:342-368 | The loop over operations commits all of them with their replies, or restores the tables and reports the first error |
| `ObjectStore.Server.PutInTransaction` | crates/helium-sync-server/src/api.rs:370-446 | Same tables, reply and error as the specified compare-and-swap put |
| `ObjectStore.Server.DeleteInTransaction` | crates/helium-sync-server/src/api.rs:448-513 | Same tables, reply and error as the specified delete, whose acceptance ServerDecisions.DeleteAcceptedExactly and MatchingDeleteAccepted decide |
| `ObjectStore.RevokedNeverWrites` | crates/helium-sync-server/src/api.rs:515-537 | Once revoked a device stays revoked, and over every run no change in the log is its own |
| `ServerDecisions.PutAcceptedExactly` | crates/helium-sync-server/src/api.rs:370-446 | A put is accepted if and only if it is well formed, its device active, the revision and cursor fit and the base is the current one; it then stores exactly the row it describes, one line of log and nothing else |
| `ServerDecisions.PutRefusedAs` | crates/helium-sync-server/src/api.rs:370-446 | Every refusal of a put, in the order in which it is looked for |
| `ServerDecisions.DeleteAcceptedExactly` | crates/helium-sync-server/src/api.rs:448-513 | A deletion is accepted if and only if its device is active, the object exists at the named revision and the next revision and cursor fit; it then stores exactly the tombstone, one line of log and nothing else |
| `ServerDecisions.DeleteRefusedAs` | crates/helium-sync-server/src/api.rs:448-513 | Every refusal of a deletion, in the order in which it is looked for |
| `ServerDecisions.BatchReplies` | crates/helium-sync-server/src/api.rs:342-368 | The i-th reply of a committed batch is that of the i-th operation in its turn |
| `ServerDecisions.FirstErrorDecides` | crates/helium-sync-server/src/api.rs:342-368 | A failed batch answers with the error of the first operation that fails in its turn |
| `ServerDecisions.BatchSizes` | crates/helium-sync-server/src/api.rs:342-368 | A batch is refused for its size when it is empty or has more than a hundred operations, and otherwise its operations decide |
| `ServerDecisions.DevicesChangeOnly` | crates/helium-sync-server/src/api.rs:515-537 | Registering lets a new device write and leaves a known one as it is; revoking only revokes; no other request changes a device |
| `ServerDecisions.PagesExactly` | crates/helium-sync-server/src/api.rs:311-340 | A page holds exactly the entries behind the cursor up to the limit, ends where the next request goes on, and says whether more follow |
| `VersionedObjects.UploadRefines` | crates/helium-sync-client-core/src/orchestration.rs:491-537 | An accepted upload had the current base and appends exactly its payload; the revision its author authenticated is the one the server assigned |
| `VersionedObjects.StaleUploadRefused` | crates/helium-sync-server/src/api.rs:383-407 | An upload over any other base is refused |
| `VersionedObjects.MatchingUploadAccepted` | crates/helium-sync-server/src/api.rs:370-446 | Over the right base an upload is refused exactly for device, namespace length, size, revision or cursor exhaustion |
| `VersionedObjects.DeleteRefines` | crates/helium-sync-server/src/api.rs:448-513 | An accepted delete named the current revision and appends a tombstone in the same namespace |
| `ServerDecisions.MatchingDeleteAccepted` | crates/helium-sync-server/src/api.rs:448-513 | Over the current revision of an existing object a deletion is accepted if and only if the device is active and revision and cursor fit; over any other base it is refused |
| `VersionedObjects.AcceptedWritesDecrypt` | crates/helium-sync-client-core/src/orchestration.rs:498-523 | Over every run of uploads and deletions by any clients: each live row opens for its author under the metadata the server returns, to the payload last uploaded, and for no other key |
| `Discovery.GatherCandidates` | crates/helium-sync-client-core/src/orchestration.rs:206-232 | With arbitrary writes between pages the loop ends once the log rests, the standing-cursor error never fires, and the candidates are the last change per object in the whole log at the final page |
| `Discovery.RecordPage` | crates/helium-sync-client-core/src/orchestration.rs:214-219 | One page's changes, applied in order, extend the candidates of the log before it to those of the log with it |
| `Discovery.PageIs` | crates/helium-sync-server/src/api.rs:311-340 | A page is the next hundred changes behind the cursor, and says whether more follow |
| `Discovery.RunsGrow` | crates/helium-sync-server/src/api.rs:311-340 | Every run of server requests, observed at any moments, is a growing log with growing bounded cursors |
| `Discovery.CandidatesAreRows` | crates/helium-sync-client-core/src/orchestration.rs:391-415 | If objects keep their namespace, the candidates are exactly the rows of that namespace, with their cursors and tombstones |
| `Discovery.NewestFirst` | crates/helium-sync-client-core/src/orchestration.rs:234-238 | The live candidates, each once, in strictly descending cursor order |
| `Discovery.LoadNewest` | crates/helium-sync-client-core/src/orchestration.rs:239-246 | The first candidate that opens for the profile, all newer ones having been undecryptable or of another profile; none only if all were; an error only from a failing candidate not preceded by an answer |
| `Discovery.Discover` | crates/helium-sync-client-core/src/orchestration.rs:391-433 | The whole discovery, for any way a download may turn out: its answer is the newest live object for the profile in the tables as of the final page |
| `BookmarkDiscovery.DiscoverBookmarks` | crates/helium-sync-client-core/src/orchestration.rs:180-246 | With rows downloaded at any later moments and opened with the recovery key: the answer opened for the profile, every newer live candidate was sealed with another key or for another profile when it was opened; an error comes only from a candidate that is neither |
| `BookmarkDiscovery.DeletedInBetweenFails` | crates/helium-sync-client-core/src/crypto.rs:103-107 | A candidate deleted between its page and its download is not passed over but fails the discovery |
| `BookmarkDiscovery.FailsExactly` | crates/helium-sync-client-core/src/orchestration.rs:444-465 | Which rows fail a discovery, and with which error: missing, another namespace, an envelope refused for anything but authentication, or not a snapshot |
| `BookmarkDiscovery.DiscoverQuietly` | crates/helium-sync-client-core/src/orchestration.rs:206-246 | With nobody writing the answer is the newest of the account objects at its newest revision, or none exactly when there is none; an error comes only from a live row that fails to open |
| `BookmarkSyncLaws.StepOk` | crates/helium-sync-client/src-tauri/src/main.rs:1176-1313 | Every step of any device or foreign writer keeps the invariant: histories are merges, bases are history, stages know what they read |
| `BookmarkSyncLaws.EveryRunOk` | crates/helium-sync-client/src-tauri/src/main.rs:1176-1313 | The invariant holds over all runs of any number of devices with any interleaving, edit, abort or crash |
| `BookmarkSyncLaws.LinearHistory` | crates/helium-sync-client/src-tauri/src/main.rs:1192-1254 | In every run, each revision v+1 published by a sync is the merge of that device's base, its local snapshot and exactly the content of revision v |
| `BookmarkSyncLaws.BaseIsAlwaysHistory` | crates/helium-sync-client-core/src/state.rs:150-188 | In every run, each stored base is the plaintext of the mapped object at the mapped revision, which is at most the current one |
| `BookmarkSyncLaws.PublishIsMerge` | crates/helium-sync-client/src-tauri/src/main.rs:1240-1254 | What a sync publishes is the merge of the stored base, the local snapshot it started from and the very revision its compare-and-swap names |
| `BookmarkSyncLaws.LocalSidesWereRead` | crates/helium-sync-client/src-tauri/src/main.rs:1186-1190 | In every run, edits of the file in mid-sync included, the local side of each published revision is what some device's file held when that sync began |
| `BookmarkConvergence.SyncOfExisting` | crates/helium-sync-client/src-tauri/src/main.rs:1186-1262 | The whole effect of an undisturbed sync on an existing object: store, mapping, base and file |
| `BookmarkConvergence.SyncOfNew` | crates/helium-sync-client/src-tauri/src/main.rs:1205-1231 | The whole effect of a first sync that creates the object |
| `BookmarkRecovery.UndisturbedLoad` | crates/helium-sync-client/src-tauri/src/main.rs:1133-1159 | An undisturbed explicit load writes the newest revision of the mapped object to the file, which then reads back to it, and stores it as mapping and base; server and other devices are as before |
| `BookmarkRecovery.UndisturbedSave` | crates/helium-sync-client/src-tauri/src/main.rs:1093-1131 | An undisturbed explicit save over a current mapping, or none, appends exactly what the file holds and stores it as mapping and base; file and other devices are as before |
| `BookmarkRecovery.StaleSaveRefused` | crates/helium-sync-client/src-tauri/src/main.rs:1093-1131 | Over a mapping that is behind, an explicit save is refused and changes nothing |
| `BookmarkRecovery.FilesChangeOnly` | crates/helium-sync-client/src-tauri/src/main.rs:1256-1262 | A step changes a bookmark file only by the browser's hand or by a restore, to what is being restored |
| `BookmarkRecovery.StateChangesOnly` | crates/helium-sync-client-core/src/state.rs:150-188 | Mapping and base change only together, when a device persists, to what it has just seen |
| `BookmarkRecovery.ServerChangesOnly` | crates/helium-sync-client/src-tauri/src/main.rs:1240-1254 | The server changes only by a publication over the matching base, or by others on other objects |
| `BookmarkRecovery.OthersUntouched` | crates/helium-sync-client/src-tauri/src/main.rs:1176-1313 | No step touches another device |
| `BookmarkRecovery.RefusedStops` | crates/helium-sync-client/src-tauri/src/main.rs:1176-1287 | A refused step sends the device back to rest with everything else as it was |
| `BookmarkRecovery.OutOfTurnChangesNothing` | crates/helium-sync-client/src-tauri/src/main.rs:1176-1313 | A step its device does not stand ready for changes nothing |
| `BookmarkConvergence.SyncMakesCurrent` | crates/helium-sync-client/src-tauri/src/main.rs:1186-1262 | Afterwards the device is current and every other device is as it was |
| `BookmarkConvergence.RetryPublishesNothing` | crates/helium-sync-client/src-tauri/src/main.rs:1240-1262 | A sync that finds its own merge already published uploads nothing new |
| `BookmarkConvergence.RetryAfterCrash` | crates/helium-sync-client/src-tauri/src/main.rs:1240-1262 | Wherever a sync stops after its PUT, before or after restoring the file, the retry uploads nothing new |
| `BookmarkConvergence.SecondRound` | crates/helium-sync-client/src-tauri/src/main.rs:1186-1262 | In a second round of turns nothing is uploaded and each device ends on the newest revision |
| `BookmarkConvergence.Convergence` | crates/helium-sync-client/src-tauri/src/main.rs:1186-1262 | From any reachable state, after two undisturbed turns each, in any order per round, each device is current on its own object and the second round has uploaded nothing |
| `BookmarkAgreement.AllConverge` | crates/helium-sync-client/src-tauri/src/main.rs:1186-1262 | If the account starts with at most one bookmark object, then after two undisturbed rounds one object is everyone's, and all mappings, stored bases and bookmark files show its newest revision |
| `BookmarkAgreement.AllConvergeExactly` | crates/helium-sync-client/src-tauri/src/main.rs:1192-1203 | With any number of objects, all devices end like that if and only if the mapped ones were on one object and the first unmapped one found that object newest, or none at all |
| `BookmarkAgreement.AllShareExactly` | crates/helium-sync-client/src-tauri/src/main.rs:1192-1203 | After any turns the devices that had one are on one object under exactly that condition |
| `BookmarkAgreement.LaterRoundsChangeNothing` | crates/helium-sync-client/src-tauri/src/main.rs:1233-1262 | Any number of further turns by current devices leave the server and every device as they were |
| `BookmarkAgreement.ConvergedForGood` | crates/helium-sync-client/src-tauri/src/main.rs:1186-1262 | After the two rounds, any number of further turns by the same devices change nothing |
| `BookmarkAgreement.EveryRunApart` | crates/helium-sync-server/migrations/0001_initial.sql:21-29 | In every run no two objects' versions share a cursor, so the newest object is unique |
| `BookmarkConvergence.CurrentDevicesAgree` | crates/helium-sync-client/src-tauri/src/main.rs:1289-1313 | In every reachable state current devices on one object have equal mappings and bases, readable files and equal bookmarks up to root order |
| `BookmarkConvergence.OneObjectThroughout` | crates/helium-sync-client-core/src/orchestration.rs:206-246 | If the account starts with at most one bookmark object, every device ends up on that one |
| `BookmarkAgreement.ShareAnObjectExactly` | crates/helium-sync-client-core/src/orchestration.rs:206-246 | Two devices share an object after any number of turns if and only if they do now, or, for a device at its first turn, if and only if the other's object is then the newest |
| `BookmarkConvergence.OverlappingFirstSyncsSplit` | crates/helium-sync-client/src-tauri/src/main.rs:1192-1231 | Two devices whose first syncs overlap on an empty server end current on two different objects: convergence needs the single object |
| `BookmarkConvergence.SteadyState` | crates/helium-sync-client/src-tauri/src/main.rs:1233-1262 | A further sync of a current device changes neither the server nor the device |
| `BookmarkConvergence.RewritesForever` | crates/helium-sync-profile/src/lib.rs:512-523 | A current device replaces its file again on every sync if and only if the newest revision's roots are out of key order |
| `BookmarkDriver.Profile.Sync` | crates/helium-sync-client/src-tauri/src/main.rs:1176-1287 | The sequential bookmark leg: it succeeds exactly when the file can be read and none of its calls fails, and then ends where the state machine's lone sync ends, reporting the merge's own conflict count, whether it published and whether it restored; each error says how far server and file had come, the stored sync state being untouched |
| `BookmarkDriver.Profile.Deliver` | crates/helium-sync-client/src-tauri/src/main.rs:1240-1262 | Publishes only if the server lacks the merge, replaces the file only if it differs, then persists; reports exactly the conflicts of the merge and which of the two it did; fails exactly at the first failing call |
| `BookmarkDriver.ReportsConflictsExactly` | crates/helium-sync-client/src-tauri/src/main.rs:1265-1287 | A sync that reports no conflict over an existing object does so if and only if some snapshot keeps every edit of the stored base, the file and the head |
| `BookmarkDriver.Profile.SaveSnapshot` | crates/helium-sync-client-core/src/orchestration.rs:491-537 | Publishes by compare-and-swap and reports success only after reading the same snapshot back; over the right base it fails exactly when a call fails |
| `BookmarkDriver.Profile.SaveSyncState` | crates/helium-sync-client-core/src/state.rs:150-188 | Mapping and base are replaced together or not at all |
| `ExtensionSync.ChunksFlatten` | crates/helium-sync-client-core/src/orchestration.rs:23 | The chunks concatenate to the archive and each has 1 to 2,900,000 bytes |
| `ExtensionSync.ChunksFull` | crates/helium-sync-client-core/src/orchestration.rs:23 | All chunks but the last have exactly 2,900,000 bytes |
| `ExtensionSync.ChunksFit` | crates/helium-sync-server/src/api.rs:22 | Each sealed chunk fits the 4 MiB ciphertext limit and, as unpadded base64url with its request around it, the body limit |
| `ExtensionSyncLaws.StepKeepsInvariant` | crates/helium-sync-client-core/src/orchestration.rs:248-356 | Every request of publishers, cleanups and readers, every crash and lost chunk reply keeps the invariant, provided a lost manifest reply is harmless |
| `ExtensionSyncLaws.NeverDangling` | crates/helium-sync-client-core/src/orchestration.rs:270-356 | In every interleaving, each live manifest refers only to live chunks, at the recorded revision, size and hash |
| `ExtensionSyncLaws.LostReplyDanglesExactly` | crates/helium-sync-client-core/src/orchestration.rs:318-341 | After a committed manifest whose reply is lost, the first cleanup request leaves a dangling manifest if and only if that manifest is still the newest revision and has chunks |
| `ExtensionSyncLaws.OldChunksAreTheReplacedOnes` | crates/helium-sync-client-core/src/orchestration.rs:342-354 | The chunks deleted after an accepted manifest are exactly those of the revision it replaced, and none for a new object |
| `ExtensionSyncLaws.ReadsAreWhole` | crates/helium-sync-client-core/src/orchestration.rs:360-389 | In every interleaving, a completed load returns the whole archive of the save that published the revision it read, never a mixture |
| `ExtensionSyncLaws.LoadAfterSave` | crates/helium-sync-client-core/src/orchestration.rs:360-389 | From any reachable state an undisturbed load succeeds with the archive of the newest revision |
| `ExtensionSyncLaws.ExtensionBaseIsHistory` | crates/helium-sync-client/src-tauri/src/main.rs:909-931 | In every run each stored extension base is the hash of the archive published at the mapped revision, which is at most the current one |
| `ExtensionSyncLaws.ManifestNamesItsProfile` | crates/helium-sync-client-core/src/orchestration.rs:304-317 | In every run each manifest revision carries the profile directory of the save that made it |
| `ExtensionSaving.UndisturbedSave` | crates/helium-sync-client-core/src/orchestration.rs:248-356 | A whole publication left alone, from any reachable state: the object is one revision on with the manifest of exactly this archive and profile, its chunks are up under the new ids, the replaced ones are gone, the base is stored, and nothing else has changed |
| `ExtensionSaving.ChunksGoUp` | crates/helium-sync-client-core/src/orchestration.rs:276-303 | After n chunks left alone exactly these are live under the first n ids and referred to in order, and nothing else is different |
| `ExtensionSaving.FailedSaveCleansUp` | crates/helium-sync-client-core/src/orchestration.rs:276-303 | A publication that fails before its manifest and is then left alone ends at rest, with the chunks it knows of gone and all else as it was |
| `ExtensionSaving.CleanupDeletes` | crates/helium-sync-client-core/src/orchestration.rs:467-481 | Left alone, n deletions empty the queue, entomb its objects and touch no other |
| `ExtensionSaving.CleanupStops` | crates/helium-sync-client-core/src/orchestration.rs:467-481 | A deletion over another revision ends the cleanup there |
| `ExtensionSaving.StoppedDeletes` | crates/helium-sync-client-core/src/orchestration.rs:276-341 | Whatever stops a publication sends it to delete exactly its own new chunks |
| `ExtensionSaving.OthersUntouched` | crates/helium-sync-client-core/src/orchestration.rs:248-356 | No step touches another device's stage or stored base |
| `ExtensionSaving.BasesChangeOnly` | crates/helium-sync-client/src-tauri/src/main.rs:909-931 | A stored base changes only when its device persists |
| `ExtensionSaving.PersistExactly` | crates/helium-sync-client/src-tauri/src/main.rs:909-931 | What is stored is the published revision, the one read whole, or the one whose manifest was found up to date |
| `ExtensionTransfer.Save` | crates/helium-sync-client-core/src/orchestration.rs:248-356 | The sequential save with failing requests and lost replies: success means the object holds the bundle for this profile one revision on, the replaced manifest's chunks are gone and nothing else changed; each error says what is left on the server; undisturbed it succeeds for a new object and for a manifest at the named revision with its chunks in place |
| `ExtensionTransfer.UploadChunks` | crates/helium-sync-client-core/src/orchestration.rs:276-303 | The chunk loop uploads each chunk under its own new id and refers to them in order, or takes away what it had uploaded, its error saying whether all is gone |
| `ExtensionTransfer.Load` | crates/helium-sync-client-core/src/orchestration.rs:360-389 | What comes back is the newest manifest with exactly the bytes its references hold, every piece and the whole checked; undisturbed it comes back whenever these pass, so a bundle loads as its own archive; a verification error means that they do not |
| `ExtensionTransfer.SaveThenLoad` | crates/helium-sync-client-core/src/orchestration.rs:248-389 | Load after save returns the same bytes under the same profile or an error, and undisturbed no error, for every archive |
| `ExtensionRestore.Workspace.Replace` | crates/helium-sync-profile/src/lib.rs:1066-1129 | All or nothing: success means every target is as staged and nothing else changed; a failure has an obstructed call or an unfitting target as its first cause, and leaves the profile as it was exactly when no call of the rollback fails, in particular with a single obstructed call; the early return is characterized by the very call that fails; unobstructed, it succeeds if and only if every staged target fits |
| `ExtensionRestore.Workspace.MoveAllAway` | crates/helium-sync-profile/src/lib.rs:1066-1093 | The first loop fails exactly at its first obstructed call, abandoning if that call makes a directory and rolling back if it is a rename |
| `ExtensionRestore.Workspace.MoveAllIn` | crates/helium-sync-profile/src/lib.rs:1095-1124 | The second loop, which never abandons, fails first at an obstructed call or at a staged target that does not fit, and rolls back |
| `ExtensionRestore.Workspace.RollBack` | crates/helium-sync-profile/src/lib.rs:1307-1343 | A failing call is reported and the others are still made: every target that is not reported has its original content and nothing else changed but parent directories; it reports something if and only if one of its own calls fails |
| `ExtensionRestore.AbandonedUnchangedExactly` | crates/helium-sync-profile/src/lib.rs:1075-1078 | The early return leaves the profile unchanged if and only if nothing had been moved aside yet |
| `ExtensionBundle.ArchiveWriter.AddTree` | crates/helium-sync-profile/src/lib.rs:680-719 | The recursive walk adds each entry at or below the path exactly once and counts its files |
| `ExtensionBundle.Capture` | crates/helium-sync-profile/src/lib.rs:561-657 | Capture succeeds exactly when both preference files can be read, every captured path is on the allowlist, and the bundle holds all extension data, sections and statistics; a failure names the unreadable file |
| `ExtensionBundle.SectionExactly` | crates/helium-sync-profile/src/lib.rs:561-657 | A preference file is unreadable exactly when it is not JSON, and its section is what stands under `extensions` of an object, or null |
| `ExtensionBundle.ExtractPayload` | crates/helium-sync-profile/src/lib.rs:1137-1186 | The extraction loop stages the specified tree or stops, naming it, at the first entry that is unsafe or collides |
| `ExtensionBundle.ExtractShape` | crates/helium-sync-profile/src/lib.rs:1188-1210 | Whatever an archive contains, only allowlisted paths and the directories above them are staged |
| `ExtensionReload.ExtractsExactly` | crates/helium-sync-profile/src/lib.rs:1137-1210 | Whatever an archive contains, it is accepted if and only if all its paths are on the allowlist and only directories stand above or twice, and then exactly its entries and the directories above them are staged |
| `ExtensionReload.ExtractUndoesCapture` | crates/helium-sync-profile/src/lib.rs:1137-1186 | Extracting a captured payload gives back every captured root, entry for entry |
| `ExtensionReload.StagePreferences` | crates/helium-sync-profile/src/lib.rs:1212-1274 | Stages each preference file with only its extension section replaced, or fails exactly when a section is missing or the live file is not a JSON object, with the error of the first such file |
| `ExtensionReload.ListTargets` | crates/helium-sync-profile/src/lib.rs:1276-1305 | The targets are the extension directories, the extension databases of either side, and the preference files, each once |
| `ExtensionReload.RestoreBundle` | crates/helium-sync-profile/src/lib.rs:996-1135 | A whole restore is refused exactly when format, profile, payload or preference checks fail, with the first one's error and nothing touched; otherwise the backup is a capture of the profile as it was and the replacement decides, undisturbed ending restored exactly when the targets fit |
| `ExtensionReload.CapturedIsRestorable` | crates/helium-sync-profile/src/lib.rs:996-1045 | A captured bundle is refused only for the preference files of the profile it is restored into |
| `ExtensionReload.AllFitExactly` | crates/helium-sync-profile/src/lib.rs:1095-1112 | The targets fit unless a live file stands where extension databases are to be restored |
| `ExtensionReload.TransferExtensions` | crates/helium-sync-profile/src/lib.rs:561-1135 | A captured bundle restored undisturbed into such a profile ends restored and is then a capture of it |
| `ExtensionReload.CaptureUndoesRestore` | crates/helium-sync-profile/src/lib.rs:561-745 | A bundle captured from any profile and restored into any profile is afterwards a capture of that profile too: same entries, sections and statistics |
| `ExtensionReload.RestoreKeepsTheRest` | crates/helium-sync-profile/src/lib.rs:1212-1305 | For any restorable bundle, files that are not extension data keep their content, other preferences keep their values, a preference file is new only where the bundle has a section for it, and otherwise at most the directory above extension databases is new |
| `ExtensionReload.RestoredWellFormed` | crates/helium-sync-profile/src/lib.rs:1095-1124 | The profile after a restore is a tree again |
| `ProfileLifecycle.EveryRunConserves` | crates/helium-sync-client/src-tauri/src/main.rs:550-682 | Over every run of create, archive, restore and delete, failed rollbacks included, each profile ever created is live, archived or deleted, in exactly one place |
| `ProfileLifecycle.StaysConsistentExactly` | crates/helium-sync-client/src-tauri/src/main.rs:584-640 | A command keeps live and archived names disjoint, archived names distinct and archives registered if and only if it does not end with a failed rollback |
| `ProfileLifecycle.EveryRunConsistent` | crates/helium-sync-client/src-tauri/src/main.rs:550-682 | So do all runs without a failed rollback |
| `ProfileLifecycle.RestoreHasRoom` | crates/helium-sync-client/src-tauri/src/main.rs:618-624 | In such runs a restore never finds its destination taken |
| `ProfileLifecycle.ArchivedComesBack` | crates/helium-sync-client/src-tauri/src/main.rs:550-641 | An archived profile left alone by later commands can be restored under its old name, unchanged |
| `ProfileLifecycle.DeletedStaysGone` | crates/helium-sync-client/src-tauri/src/main.rs:643-682 | A successful deletion unregisters the archive and removes its profile for good, whatever commands follow, and moves no other profile |
| `ProfileLifecycle.FirstFreeIsFree` | crates/helium-sync-profile/src/lib.rs:353-389 | The name chosen for a new profile is the first that is neither taken nor reserved |
| `ProfileOutcomes.SucceedsExactly` | crates/helium-sync-client/src-tauri/src/main.rs:165-682 | In a consistent library a command succeeds if and only if its profile is in its place and none of its calls fails |
| `ProfileOutcomes.SuccessDoes` | crates/helium-sync-client/src-tauri/src/main.rs:165-682 | A successful command moves exactly one profile, to the lowest free name, its archive, the name its row holds, or out of existence; it writes or removes exactly that row |
| `ProfileOutcomes.FailureMeans` | crates/helium-sync-client/src-tauri/src/main.rs:165-682 | What each error says of the library or of the calls made |
| `ProfileOutcomes.FailureLeaves` | crates/helium-sync-client/src-tauri/src/main.rs:165-682 | An error leaves the library as it was, but for a failed rollback, an unrecorded creation and an unrecorded deletion, which leave exactly the one move made |
| `ProfileOutcomes.DeletionResumes` | crates/helium-sync-client/src-tauri/src/main.rs:643-682 | A deletion that could not be recorded is finished by the next one |
| `ProfileOutcomes.NoneFreeExactly` | crates/helium-sync-profile/src/lib.rs:353-389 | No name is left exactly when every number from the first on is taken or reserved |
| `ProfileOutcomes.NamesApart` | crates/helium-sync-profile/src/lib.rs:366-389 | No two numbers share a profile name |
| `ProfileOutcomes.DecimalIsValue` | crates/helium-sync-profile/src/lib.rs:366-368 | The number in a name is written in decimal digits without a leading zero |
| `ProfileLifecycle.ProfileManager.Create` | crates/helium-sync-client/src-tauri/src/main.rs:165-190 | The numbering loop creates the directory the specification names, or reports its error |
| `ProfileLifecycle.ProfileManager.Archive` | crates/helium-sync-client/src-tauri/src/main.rs:550-601 | Moves, records and, when recording fails, moves back, exactly as specified |
| `ProfileLifecycle.ProfileManager.Restore` | crates/helium-sync-client/src-tauri/src/main.rs:603-641 | The same in the other direction |
| `ProfileLifecycle.ProfileManager.Delete` | crates/helium-sync-client/src-tauri/src/main.rs:643-682 | Removes directory and row, tolerating a directory that is gone already |

## Left out

- Text and binary formats below the model: JSON text, ZIP and Zstandard, recovery codes, timestamps
  (opaque texts), UUID generation (fresh ids are parameters). JSON values, entry lists and bytes are
  modelled instead.
- The cipher, the key derivation function and SHA-256: sealing is a record of key, nonce and
  associated data, derivation is injective, a digest stands for its preimage. The AEAD tag of 16
  bytes is accounted for in sizes.
- SQLite: each transaction is one atomic step, its integers are signed 64-bit, the cursor grows.
- HTTP, TLS, SSH, protocol negotiation, tokens, device registration details, the user interface,
  browser discovery, process and lock checks, launching.
- Overflow of the 64-bit conflict counter, which would need that many conflicting nodes.
- MergeSymmetry.Symmetry: sibling order is not part of the conclusion; the merge takes remote order,
  so a local reordering can vanish without a conflict.
- MergeLossless.NoSilentLoss: sibling order is excluded for the same reason, and a node moved between
  folders counts as a deletion and an addition, so its id can end up in two folders.
- BookmarkConvergence.Convergence: turns are undisturbed. Edits of the file and other devices' requests
  inside a turn are steps of the safety results only; an edit made after the file was read and before
  it is replaced is overwritten there, as in the program, which keeps a backup. Equality of files is
  up to root order.
- BookmarkSyncLaws.LinearHistory: revisions written by the explicit replacing save are recorded as
  such and are not merges; sync revisions are.
- Backup archives and the staged file of a bookmark restore: replacing the file is one step that
  happens or does not.
- `LocalState::save_mapping`, which only its own tests call, bookmark statistics, default profile
  selection and display names.
- ExtensionSyncLaws.NeverDangling: losing the reply to a committed manifest is excluded while that
  manifest is the newest and has chunks, since then the property is false. Chunk objects
  whose own reply was lost are never deleted, so freedom from garbage is not claimed.
- The decision table for extensions (up to date, upload, restore, conflict), and the statistics in
  the manifest: the table is one reading of the code, the statistics are carried along unused.
- ExtensionTransfer.Save: nobody else writes during the run, and a loaded old manifest refers to
  existing objects other than itself, which the interleaved model proves of every reachable state.
- ExtensionRestore.Workspace.RollBack: a recursive removal that fails removes nothing in the model,
  in the program perhaps a part; it is reported as an error in both. After a reported rollback error,
  what remains in the temporary directory is dropped with it.
- ExtensionBundle.Capture: entries are listed in some order, not in the file-name order that makes
  the archive deterministic; total bytes are not counted; symbolic links and special files, which
  are refused or skipped, do not occur in a tree.
- ExtensionBundle.ExtractPayload: paths are sequences of names already; the unpacking of unsafe ZIP
  names is not part of this model.
- Tombstones are not permanent: a put over a tombstone's revision revives the object, as in the code.
- Profile directories that the browser itself creates under a reserved name are outside the runs
  of ProfileLifecycle.
- BookmarkDriver.Profile.Sync: the extension leg that precedes the bookmark leg is not called, and
  the result of discovery is a parameter, described by BookmarkDiscovery.DiscoverQuietly.
- Discovery of extension manifests: the same loop as for bookmarks under another namespace; only the
  bookmark instance is opened against rows.
