# rmtx: a verified model of the sync and run core

rmtx keeps a client's project tree and a host's workspace in step, runs commands on the host and
brings changes back. This project models the parts of it in which a mistake loses or mixes up
files, and proves what they promise. `dafny verify dfyconfig.toml` checks all of it.

## What is modelled

**Transactional apply** (`FileTree`, `Entries`, `RollbackSteps`, the modules whose names begin with `Apply`).
A workspace is a finite map from paths to files, directories and links; each mutating filesystem call
may be the first to fail, and rollback follows links wherever they lead. `ApplySpec` says what commit and rollback do,
`ApplyTransaction` has their loops and is proved against it. The comment at
`internal/syncfs/apply.go:35` promises that every replaced path is restored when commit fails. That is
not true of the code in general: `ApplyWitness.FileLost` gives a change set of one entry for which the
rollback deletes a file that commit only moved aside. `ApplyGuard.RollbackIffGuard` states exactly when
the promise holds, as a condition that can be checked before commit starts, and
`SyncTheorem.SyncPromise` shows that for the difference of two manifests it holds exactly when no
file or link becomes a directory. `ApplyLookups` lets the lookups that record missing parents fail too,
and says exactly when all original nodes are still put back. `RollbackSteps.RollbackLosesLittle` bounds
the loss in all other cases; `ApplyWitness.FileBehindLinkLost` shows that a link which rollback puts back can
lead one of its removals to a file that the change set never named.

**Manifests** (`Manifest`, `PathOrder`, `SyncTheorem`, `ManifestAlgebra`, `PathMatch`). The difference
of two manifests, its effect on disk, path filters, mode normalisation, and the client's update of its
cached manifest.

**Chunked transfer** (`BlobChunks`, `BlobReceiver`, `BlobReceiverObject`, `BlobCommits`,
`BlobHonest`, `BlobComplete`, `ReceiverRuns`, `DownloadPipeline`, `DownloadTransfer`, `BlobSendSession`, `BlobSources`). The
chunk plan with its 64-bit loop, the checks at both ends, the receiver as a machine whose mutex regions
interleave freely over a network that reorders, repeats and breaks off, one download worker with its
window and retries, and the host's send session. `DownloadTransfer.DownloadComplete` puts the workers
and the receiver together: each worker keeps a record of the ReceiveChunk calls it made and of what
they returned, and the calls of a receiver run are those of the workers. `BlobComplete` is the other direction:
an honest transfer without faults always succeeds.

**Host state** (`BlobStore`, `BlobGC`, `ContextWorkspace`, `WorkspaceLeases`, `WorkspaceLeaseServer`).
The blob store and its cache, garbage collection against syncs under the read-write lock, the clean
marker over crashes, and reusable workspace leases over restarts and concurrent deletions.

**Queues and text** (`LogStream`, `PipeInput`, `CommandLog`, `Decimals`, `ReleaseVersion`, `ReleaseGrammar`, `Text`,
`SectionConfig`, `ConfigText`, `ConfigUpdate`, `Options`). The log queue that drops with a notice, the stdin
pipe that blocks, line logging that does not depend on how output is cut, release versions, and the
INI section update against its parser.

## How to read it

Where the source changes state, a class with the same fields has a method for each operation, and the
method's contract equates the new state with a function of the old one. The theorems are about those
functions, over every run: a run is a list of events, an event that is not possible yet does nothing,
and an invariant is proved for the state after any list. A mutex region is one step. A read or call
whose result the model cannot know is a parameter or an arbitrary choice.

The content digest is a parameter; nothing assumes more about it than the code checks, except that
honest-sender results compare bytes. Paths are lists of segments that are already clean.

## Model

| member | source | states |
|---|---|---|
| `ApplyChangesFlow.CleanApplyChanges` | internal/syncfs/apply.go:79-134 | Accepts exactly the change sets whose names stay inside the workspace and whose entries have distinct paths, known kinds and no entry below a file or link; keeps the entries as they are and drops the root and repeats from the deletions |
| `ApplyChangesFlow.StageChanges` | internal/syncfs/apply.go:146-196 | Every file entry is staged with the bytes stored under its hash and with its own mode or 0o644, every link with its target; it succeeds exactly when no call fails and no blob is missing |
| `ApplyChangesFlow.ApplyChanges` | internal/syncfs/apply.go:36-77 | Refusal and failed staging leave the workspace alone; success leaves exactly the applied tree, every entry with its bytes, link target and its own mode or the default; a failed commit loses at most nodes that become directories and nodes that a removal of rollback reached through a link, and under the guard it leaves no trace; without faults only a target below something that is no directory stops it |
| `ApplyTransactions.ApplyTransaction.RejectSymlinkParents` | internal/syncfs/apply.go:355-372 | The upward walk refuses exactly as its specification says, whose meaning is RejectsMeaning |
| `ApplyBackup.RejectsMeaning` | internal/syncfs/apply.go:355-372 | A path is refused exactly when it or something above it is a link, or something above it is a file |
| `ApplyTransactions.ApplyTransaction.CoveredByChangeBackup` | internal/syncfs/apply.go:374-383 | True exactly when the path is at or below a path that was backed up |
| `ApplyTransactions.ApplyTransaction.BackUpTargets` | internal/syncfs/apply.go:226-260 | The first phase moves the tree, the stash and the backup list as the specification does, up to the first call that fails |
| `ApplyBackup.BackupPhase` | internal/syncfs/apply.go:224-260 | After any number of targets in depth order the backups existed, are pairwise not nested, hold exactly the original subtrees, and cover what is deleted or replaced so far; a refusal means that a target lies below something that is no directory |
| `ApplyBackup.BackedUpIsDisplaced` | internal/syncfs/apply.go:224-260 | When the phase is through, a path is at or below a backup exactly when it is at or below a deleted or replaced node of the original tree |
| `ApplyTransactions.ApplyTransaction.MkdirAll` | internal/syncfs/apply.go:276 | Makes the missing directories from the top, one call each, as its specification says |
| `ApplyDirs.MkdirAllEffect` | internal/syncfs/apply.go:276 | Only adds directories at or above the path, all with the default mode, keeps the tree closed, and on success the path is a directory |
| `ApplyTransactions.ApplyTransaction.MakeEntryDirs` | internal/syncfs/apply.go:262-279 | The second phase records missing directories and known modes and makes every listed directory |
| `ApplyDirs.DirPhase` | internal/syncfs/apply.go:262-279 | Whatever call fails, the transaction invariant holds and the records are those the change set accounts for; if parents are listed before children every directory made is recorded |
| `ApplyTransactions.ApplyTransaction.NoteMissingParents` | internal/syncfs/apply.go:289-296 | Appends exactly the missing parents, from the entry upwards |
| `ApplyInstall.MissingParentsExact` | internal/syncfs/apply.go:289-296 | The parents recorded are exactly the missing ones, from the parent of the entry up |
| `ApplyTransactions.ApplyTransaction.InstallAll` | internal/syncfs/apply.go:281-307 | The third phase makes parents and renames every staged node into place, up to the first failure |
| `ApplyInstall.InstallPhase` | internal/syncfs/apply.go:281-307 | Every prefix of the phase keeps the transaction invariant and has placed exactly the staged nodes of the entries so far |
| `ApplyTransactions.ApplyTransaction.ChmodEntryDirs` | internal/syncfs/apply.go:309-316 | The last phase gives each listed directory its mode, up to the first failure |
| `ApplyInstall.ChmodPhase` | internal/syncfs/apply.go:309-316 | Only modes of listed directories change, and the transaction invariant stays |
| `ApplyTransactions.ApplyTransaction.Commit` | internal/syncfs/apply.go:199-319 | The loops of commit compute the specified outcome for some depth order of the targets and any position of the first failing call |
| `ApplyTransactions.ApplyTransaction.RestoreBackups` | internal/syncfs/apply.go:327-335 | Once installed nodes are removed, putting the backups back gives the tree that has the stash at and below backups and the workspace elsewhere |
| `ApplyTransactions.ApplyTransaction.ResetModes` | internal/syncfs/apply.go:337-339 | Sets every recorded mode, in any order; a chmod that a link leads away acts on whatever node is there, and is then known to have left its path |
| `ApplyTransactions.ApplyTransaction.RemoveCreated` | internal/syncfs/apply.go:341-350 | Without links on the way, deepest-first removal deletes a recorded directory exactly when everything below it is recorded too; each removal that a link leads away can cost one other node |
| `ApplyTransactions.ApplyTransaction.Rollback` | internal/syncfs/apply.go:321-353 | Unless a call is resolved through a link the four loops compute the closed form that the rollback theorems are about; wherever links lead, what is lost is bounded |
| `ApplyRollback.RollbackExact` | internal/syncfs/apply.go:321-353 | From any state commit can stop in, rollback restores tree and modes exactly if and only if every directory made is recorded, no recorded directory hits a restored node, and no recorded mode changes one |
| `RollbackSteps.RollbackLosesLittle` | internal/syncfs/apply.go:321-353 | From any state commit can stop in, whether or not those conditions hold and wherever links lead, rollback loses only paths that the change set needs as directories and nodes that a removal reached through a link, keeps every other content and link target, and leaves nothing new but directories |
| `ApplyRollback.KeepsOriginalExact` | internal/syncfs/apply.go:321-353 | Every original node is put back as it was, with only directories left over, if and only if no recorded directory hits a restored node and no recorded mode changes one |
| `ApplyGuard.CommitStops` | internal/syncfs/apply.go:199-319 | Wherever commit stops, the transaction invariant holds; a stop without a failing call means that a target lies below a file or link that stays |
| `ApplyBudget.StopAtChmod` | internal/syncfs/apply.go:309-316 | There is a failing call that stops commit after every phase but the last |
| `ApplyBudget.StopAtInstall` | internal/syncfs/apply.go:281-307 | There is a failing call that stops commit in the middle of placing any given entry |
| `ApplyGuard.RollbackIffGuard` | internal/syncfs/apply.go:35-353 | Every failure is undone, whichever mutating call fails, if and only if a condition on the tree and the change set alone holds: commit is refused at once, or parents are listed before children, no recorded directory falls on a node at or below a backup, and no recorded mode differs there; a rollback call that is resolved through a link counts as not undone |
| `ApplyLookups.KeptIffGuard` | internal/syncfs/apply.go:289-353 | When lookups of missing parents can fail as well, every original node is put back exactly, whichever calls fail, if and only if the last two parts of that condition hold or commit is refused at once |
| `ApplyWitness.FileLost` | internal/syncfs/apply.go:268-276 | A file replaced by a directory whose creation fails is deleted by the rollback |
| `ApplyWitness.FileBehindLinkLost` | internal/syncfs/apply.go:334-350 | A link replaced by a directory with a directory in it, and a failing chmod: the link is put back, and removing the recorded inner directory then deletes a file behind the link that no entry names |
| `ApplyResult.CommitResult` | internal/syncfs/apply.go:199-319 | A commit that succeeds leaves exactly the applied tree: entries win, deleted and replaced subtrees are gone, everything else stays |
| `ApplyResult.AppliedUnique` | internal/syncfs/apply.go:199-319 | The description of the applied tree leaves no choice |
| `ApplyResult.FaultFreeCommit` | internal/syncfs/apply.go:199-319 | Without failing calls commit succeeds exactly when no target lies below a file or link that stays |
| `Manifest.Diff` | internal/syncfs/manifest.go:585-614 | The changed entries are exactly those that are new or differ, sorted by name, the deleted paths exactly those that vanished, deepest first, each once |
| `Manifest.DiffMeaning` | internal/syncfs/manifest.go:585-614 | For manifests that list each path once: an entry is reported exactly if no old entry has the same path, kind, hash, size, link and, unless modes are ignored, mode |
| `PathOrder.ParentSortsFirst` | internal/syncfs/manifest.go:610 | In the order of the changed entries a directory comes before everything below it |
| `PathOrder.NameMeaning` | internal/syncfs/manifest.go:610 | The name that entries are sorted by is the segments joined by slashes |
| `PathOrder.StringLessMeaning` | internal/syncfs/manifest.go:610 | The first differing character decides, and a text comes before its extensions |
| `SyncTheorem.AppliedShowsAfter` | internal/syncfs/manifest.go:585-614 | If the disk shows the old manifest, the applied difference makes it show the new one in kind, content, mode and link; vanished paths are gone and everything outside deleted or replaced subtrees is untouched |
| `SyncTheorem.AllInstalled` | internal/syncfs/apply.go:146-196 | After a successful apply every entry of the change set is on disk with its stored bytes and its recorded mode, 0o644 for a file and 0o755 for a directory where none is recorded |
| `SyncTheorem.SyncShowsAfter` | internal/syncfs/apply.go:199-319 | Every successful commit of a manifest difference, for any order and staging, has that result |
| `SyncTheorem.SyncNotBlocked` | internal/syncfs/apply.go:226-246 | The difference of two well-formed manifests is never refused because of what lies above a target |
| `SyncTheorem.SyncGuard` | internal/syncfs/apply.go:262-353 | For a manifest difference the rollback condition holds exactly when no file or link on disk becomes a directory |
| `SyncTheorem.SyncPromise` | internal/syncfs/apply.go:35-77 | A manifest difference applies without faults, and every failure of a mutating call is undone if and only if no file or link becomes a directory |
| `BlobChunks.PlanBlobChunks` | internal/syncfs/chunked_blob.go:52-102 | Refuses exactly the lists that break a rule (hash form, sizes, repeats, chunk size, chunk limit) and otherwise returns the plan of all blobs in order |
| `BlobChunks.ValidHashMeaning` | internal/syncfs/store.go:55-66 | A hash is well formed exactly if it has 64 lower-case hexadecimal digits |
| `BlobChunks.ChunkSizeMeaning` | internal/syncfs/chunked_blob.go:160-170 | No chunk size stands for 4 MiB, more than 64 MiB is refused, and any other is taken as it is |
| `BlobChunks.ChunksOf` | internal/syncfs/chunked_blob.go:86-98 | The offset loop over 64-bit integers ends and yields the plan of the blob; the step past the end does not wrap around |
| `BlobChunks.CountBoundsSize` | internal/syncfs/chunked_blob.go:114-121 | A size that passes the chunk limit is at most 2^46 |
| `BlobChunks.PlanTiles` | internal/syncfs/chunked_blob.go:84-99 | Every byte of a blob lies in exactly one chunk of its plan |
| `BlobChunks.PlanStaysInside` | internal/syncfs/chunked_blob.go:126-158 | No chunk reaches past the end, only the chunk of an empty blob is empty, and the payload length of a planned chunk is its length |
| `BlobChunks.PlanAllCount` | internal/syncfs/chunked_blob.go:72-84 | The plan has as many chunks as the counts add up to |
| `BlobChunks.PlanLengths` | internal/syncfs/chunked_blob.go:84-99 | The payloads of a plan add up to the sizes of its blobs |
| `BlobChunks.PlanKeysDistinct` | internal/syncfs/chunked_blob.go:64-99 | No two chunks of a plan share hash and offset |
| `BlobChunks.ReceiverAcceptsPlan` | internal/syncfs/chunked_blob.go:484-523 | The receiver accepts a chunk for a blob exactly when the plan has it and the payload has its length |
| `BlobChunks.ReceiverRejectsUnplannable` | internal/syncfs/chunked_blob.go:104-124 | A blob with a negative size or too many chunks has no acceptable chunk |
| `BlobChunks.SenderAcceptsPlan` | internal/host/blob_transfer.go:389-421 | The host sends a requested chunk exactly when the plan of the file has it |
| `BlobReceiverObject.ChunkedBlobReceiver.AddBlobs` | internal/syncfs/chunked_blob.go:185-240 | Builds the writer table for exactly the descriptors that may be received, and is done at once when none is missing |
| `BlobReceiverObject.BuiltInitial` | internal/syncfs/chunked_blob.go:185-240 | What the constructor builds satisfies everything the runs start from |
| `BlobReceiverObject.BuildAccepts` | internal/syncfs/chunked_blob.go:185-240 | The constructor accepts exactly the lists of well-formed, different descriptors whose missing blobs are within the chunk limit |
| `BlobReceiverObject.ChunkedBlobReceiver.CommitWriter` | internal/syncfs/chunked_blob.go:525-571 | A blob joins the store exactly if no call failed, nothing gave it up and its bytes have the right digest, and its writer is spent either way |
| `BlobReceiverObject.ChunkedBlobReceiver.FinishBlob` | internal/syncfs/chunked_blob.go:296-315 | The writer leaves the table, one fewer is pending, and the last one closes done |
| `BlobReceiverObject.ChunkedBlobReceiver.FailReceiver` | internal/syncfs/chunked_blob.go:337-377 | The first error aborts every open writer and closes done; later errors change nothing |
| `BlobReceiverObject.ChunkedBlobReceiver.ReceiveChunk` | internal/syncfs/chunked_blob.go:242-315 | Alone on the receiver a call keeps the invariant; a broken read changes nothing and is reported exactly for a short payload, acceptance means that the chunk is on record, refusal fails the receiver |
| `BlobReceiver.NextKeeps` | internal/syncfs/chunked_blob.go:242-377 | Every region of every call, in any interleaving, keeps the invariant of receiver, writers and running calls |
| `BlobReceiver.ReceiverSafe` | internal/syncfs/chunked_blob.go:242-377 | For any order of chunks, replays, broken reads and failures: pending equals the open writers while there is no error, at most one call commits a blob at a time, and Wait succeeds only with every descriptor stored under its digest |
| `BlobCommits.CommitsOnce` | internal/syncfs/chunked_blob.go:296-315 | In every run each blob is committed at most once, however its chunks are repeated |
| `BlobReceiver.AllAcceptedDone` | internal/syncfs/chunked_blob.go:296-377 | When every planned chunk was accepted and no call is running, an unfailed receiver is done |
| `BlobHonest.WriteHonest` | internal/syncfs/chunked_blob.go:442-475 | Writing a chunk puts its bytes at its offset and leaves the bytes of other chunks alone |
| `BlobHonest.HonestStored` | internal/syncfs/chunked_blob.go:442-571 | With an honest sender the stored bytes are the source bytes |
| `BlobComplete.HonestTransferSucceeds` | internal/syncfs/chunked_blob.go:242-571 | Completeness: without faults and outside failures, when only planned chunks come in, only source bytes are read and every planned chunk has a call that reads all of them, the receiver ends up done without an error and every blob is stored, the fetched ones with the source bytes |
| `BlobComplete.HonestEventsSucceed` | internal/syncfs/chunked_blob.go:242-571 | The same with conditions on the events alone: every call gets six steps |
| `BlobComplete.StepsCounted` | internal/syncfs/chunked_blob.go:242-315 | A call has ended after at most six of its regions |
| `ReceiverRuns.FailedStoresNothing` | internal/syncfs/chunked_blob.go:337-377 | Once the receiver has failed nothing is stored any more, whatever its running calls still do |
| `ReceiverRuns.BrokenIffShort` | internal/syncfs/chunked_blob.go:271-336 | A call is broken off exactly when its read does not yield the announced number of bytes, and then it has changed nothing |
| `DownloadPipeline.Worker.Fill` | internal/client/client.go:1511-1542 | Dials if there is no connection and requests chunks from the head of the queue in order until eight are in flight or none waits, keeping the partition of the chunks |
| `DownloadPipeline.Worker.InFlightInOrder` | internal/client/client.go:1622-1634 | Lists exactly what is in flight, each once and in request order |
| `DownloadPipeline.StillInOrder` | internal/client/client.go:1622-1634 | What is put back is in the order of the requests |
| `DownloadPipeline.Worker.ReadFrame` | internal/client/client.go:1636-1691 | The next frame changes the window only if it is a chunk in flight whose payload is received, and then only that chunk moves |
| `DownloadPipeline.Worker.CountFailures` | internal/client/client.go:1581-1588 | Adds one failure to exactly the failed chunks and returns a bound on their counts |
| `DownloadPipeline.Worker.RetryDownloadPipeline` | internal/client/client.go:1561-1620 | Goes on only for a retryable error with something in flight and every chunk below five failures, and then gives up only if the wait is cut short |
| `DownloadPipeline.RequeueGood` | internal/client/client.go:1434-1454 | Putting what was in flight back in front keeps the partition and raises the total of failures |
| `DownloadPipeline.GoodBounded` | internal/client/client.go:1561-1600 | At every loop head no chunk was requested more than five times, reconnects are at most four times the chunks, and at most eight are in flight |
| `DownloadPipeline.Worker.Download` | internal/client/client.go:1403-1509 | The loop ends; success means that every chunk was received, except those that a completion frame from the host made it forget, and without such a frame each chunk, also one that a call failed to take at first, was taken by a later ReceiveChunk call; the limits hold in every run |
| `DownloadTransfer.DownloadChunkGroups` | internal/client/client.go:1263-1282 | Deals the chunks out in turn to as many groups as workers, never more than chunks |
| `DownloadTransfer.GroupsPartition` | internal/client/client.go:1263-1282 | Every chunk is in exactly one group and the groups share no key |
| `ReceiverRuns.FailureHasCall` | internal/syncfs/chunked_blob.go:341-377 | In a run without an outside failure the receiver has failed exactly when one of its calls has |
| `ReceiverRuns.LateNeverAccepted` | internal/syncfs/chunked_blob.go:246-256 | A receiver that has failed never accepts a call that begins later |
| `DownloadTransfer.BuiltFor` | internal/syncfs/chunked_blob.go:185-240 | The receiver that the constructor makes knows exactly the given descriptors |
| `DownloadTransfer.NobodyFailed` | internal/client/client.go:1403-1509 | If all workers succeed, every call on the receiver has returned and none has failed |
| `DownloadTransfer.DownloadComplete` | internal/client/client.go:1190-1218 | Over every run of a new receiver: if all workers of the dealt plan succeed and nothing outside fails the receiver, it is done without an error and every requested blob is stored with its size and digest |
| `DownloadTransfer.WaitForBlobDownload` | internal/client/client.go:1284-1317 | Success exactly when the receiver ended well and then all workers were through, with no error, failed wait or cancel before; and success means that every requested blob is stored |
| `BlobSources.FirstByHash` | internal/host/server.go:1684-1694 | Maps each content hash of a changed file to the first entry that has it |
| `BlobSendSession.PrepareDownloadBlobItems` | internal/host/server.go:1678-1715 | Refuses exactly when a wanted hash belongs to no changed file; otherwise answers each hash with the size of its first entry and the listed stored copy or, without one, that entry's file in the workspace |
| `BlobSendSession.SendChangedFileBlobs` | internal/host/server.go:1602-1670 | A session is made only when something is wanted, and it offers exactly the plan of the wanted blobs; it is refused only for an unknown hash or blobs that cannot be planned |
| `BlobSendSession.BlobTransferSession.Validate` | internal/host/blob_transfer.go:111-125 | Passes exactly the requests with the session's own context, session and token, in download direction |
| `BlobSendSession.BlobTransferSession.CompleteOne` | internal/host/blob_transfer.go:137-150 | A sent chunk is counted once under its key, and the session closes when the count reaches the plan |
| `BlobSendSession.BlobTransferSession.FailWith` | internal/host/blob_transfer.go:152-173 | The first error stays, and the session is done |
| `BlobSendSession.BlobTransferSession.SendRequestedBlobChunk` | internal/host/blob_transfer.go:352-387 | Counts a chunk only if the plan has it and its part of the served file was sent; any refusal leaves the session as it was and has a stated reason |
| `BlobSendSession.BlobTransferSession.SendBlobTransfer` | internal/host/blob_transfer.go:319-350 | A connection only adds deliveries of planned chunks, each with the bytes that its file had then, and anything but a disconnect fails the session |
| `BlobSendSession.SentHonest` | internal/host/blob_transfer.go:461-477 | A host whose files hold the source bytes sends payloads of the planned length that are the source bytes at the chunk's offset |
| `BlobSendSession.SendablePlanned` | internal/host/blob_transfer.go:370-377 | A request passes the checks exactly when the plan of the offered blobs has the chunk |
| `BlobSendSession.SessionDone` | internal/host/blob_transfer.go:137-185 | For any order of deliveries and failures: done without error exactly when nothing failed and every planned chunk was delivered, and repeats never count twice |
| `BlobSendSession.FirstErrorStays` | internal/host/blob_transfer.go:152-173 | The error that a session ends with is the first one that it met |
| `BlobSendSession.SendSessionPromise` | internal/host/blob_transfer.go:82-150 | The same in terms of the blobs: done without error exactly when every chunk of every blob was delivered |
| `BlobStores.VerifiedIffUsable` | internal/syncfs/store.go:74-110 | A lookup succeeds exactly when the file has the wanted content and size, cache hits included |
| `BlobStores.CacheNeverWrong` | internal/syncfs/store.go:74-110 | After any lookups and any changes behind the store's back that show in size or time, a lookup still succeeds exactly on the wanted content |
| `BlobStores.BlobStore.MissingHashes` | internal/syncfs/store.go:112-132 | Exactly the content hashes of file entries that cannot be served, in entry order, each once |
| `BlobStores.BlobStore.Store` | internal/syncfs/store.go:134-193 | Success makes the blob usable and changes no other file; failure changes none |
| `BlobStores.BlobDescriptorsForHashes` | internal/host/context_store.go:1097-1123 | Each hash gets the size of its first file entry; an unknown hash is an error |
| `BlobGC.ReferencedBlobHashesByRoot` | internal/host/artifacts.go:742-779 | Collects for each data root exactly the hashes of the file entries that a tracked manifest there names; one unreadable context aborts |
| `BlobGC.BlobRoots.PruneUnreferencedBlobsInRoot` | internal/host/artifacts.go:702-740 | Deletes exactly the unreferenced files, lists each once and adds up their sizes; a failed deletion never costs a referenced file |
| `BlobGC.BlobRoots.PruneUnreferencedBlobsInRoots` | internal/host/artifacts.go:673-700 | No outcome deletes a blob that a tracked manifest names on its root; an unreadable context deletes nothing; success leaves nothing else on the listed roots |
| `BlobGC.NextKeeps` | internal/host/server.go:885-926 | Every step of every sync, collection and finished run keeps the lock discipline and what each sync relies on |
| `BlobGC.SyncsNeverMissBlobs` | internal/host/context_store.go:935-1061 | In every interleaving a sync that reaches the apply step finds every blob it needs in the store with the right content |
| `BlobGC.SweepSparesReferenced` | internal/host/artifacts.go:673-740 | In every interleaving, a blob that a tracked manifest named when a collection read the references is not deleted by that collection |
| `ContextWorkspace.ContextDisk.CleanRunWorkspace` | internal/host/server.go:861-883 | Whatever interrupts it, the marker is on disk before anything else changes |
| `ContextWorkspace.ContextDisk.CurrentManifestForRun` | internal/host/server.go:928-956 | With the marker the sync starts from an emptied workspace, no setup cache and no manifest; without it from the tracked manifest and an untouched disk |
| `ContextWorkspace.ContextDisk.SyncContextFromClient` | internal/host/context_store.go:935-1078 | The difference is computed and applied: an empty workspace ends up with exactly the target, one in step with its manifest ends up showing the target |
| `ContextWorkspace.ContextDisk.SyncClientManifestAndSave` | internal/host/server.go:885-926 | From any marked disk, however an interrupted cleaning left it, and from any unmarked tree: success saves the target and takes the marker away, an interruption between any two effects never does |
| `ContextWorkspace.FreshApply` | internal/host/context_store.go:946-1059 | Applying the difference to nothing leaves exactly the paths of the target |
| `ContextWorkspace.NextSyncIsExact` | internal/host/server.go:861-956 | From any point at which the marker is set, over any interrupted calls, the next completed sync leaves exactly the client's manifest on disk and on record |
| `ContextWorkspace.InterruptedCleaning` | internal/host/server.go:861-883 | A cleaning that changed anything, even if cut short, is followed by an exact sync |
| `WorkspaceLeaseServer.LeaseServer.AcquireWorkspaceLease` | internal/host/context_store.go:162-191 | Refused exactly while the lease is being deleted, otherwise counted |
| `WorkspaceLeaseServer.LeaseServer.BeginWorkspaceLeaseDelete` | internal/host/context_store.go:204-229 | Refused exactly while the lease is active or being deleted, otherwise marked |
| `WorkspaceLeaseServer.LeaseServer.PrepareReusedWorkspaceLease` | internal/host/workspace_lease.go:156-221 | Every path, failed saves included, ends in the specified state with the lease released again unless prepared |
| `WorkspaceLeaseServer.LeaseServer.PruneExpiredWorkspaceLeases` | internal/host/workspace_lease.go:605-645 | Removes exactly the listed leases that are expired and inactive or have no record, up to the first call that fails; a lease within its term or in use always stays |
| `WorkspaceLeaseServer.LeaseServer.PrepareNewWorkspaceLease` | internal/host/workspace_lease.go:223-270 | After pruning, a fresh identifier is acquired and recorded as a dirty lease with no manifest over an empty workspace; every failing path ends in the specified state |
| `WorkspaceLeases.NewGivesBack` | internal/host/workspace_lease.go:248-266 | A new lease that cannot be prepared gives its active count back and leaves all workspaces and records as they were, but for a dirty record that could not be removed |
| `WorkspaceLeaseServer.LeaseServer.FinalizeWorkspaceLease` | internal/host/workspace_lease.go:428-454 | Stores the scan as the manifest of a clean lease, or leaves the stored lease dirty when the save fails |
| `WorkspaceLeaseServer.LeaseServer.MarkWorkspaceLeaseDirty` | internal/host/workspace_lease.go:456-469 | The lease is stored as dirty with its current manifest, and released |
| `WorkspaceLeaseServer.LeaseServer.DeleteWorkspaceLeases` | internal/host/workspace_lease.go:517-563 | Deletes a prefix of the list and all of it on success; a lease in use or under deletion stops it; other leases are untouched and the markers are given back |
| `WorkspaceLeases.ReuseAccepts` | internal/host/workspace_lease.go:173-220 | Reuse accepts exactly the leases that are stored, clean, unexpired and still have their workspace |
| `WorkspaceLeases.ReuseRefuses` | internal/host/workspace_lease.go:180-205 | A dirty lease is left as it is, an expired one removed, and one without its workspace marked dirty |
| `WorkspaceLeases.FailedNotReused` | internal/host/workspace_lease.go:456-469 | After a run that failed the lease is dirty and released, and reuse refuses it |
| `WorkspaceLeases.FinalizedThenReused` | internal/host/workspace_lease.go:156-220 | A finalized lease can be reused exactly within its keep time, or within what was left of its term, and the next sync starts from the manifest of its scan |
| `WorkspaceLeases.LeasesSafe` | internal/host/workspace_lease.go:156-469 | Over every run of the host, restarts included: a lease stored as clean belongs to a workspace that shows its manifest, a lease in use is stored as dirty until finalized, no deletion removes a lease in use, and no lease stays marked once its deletion is over |
| `WorkspaceLeases.LeaseSyncGrounded` | internal/host/server.go:928-935 | Every sync into a leased workspace starts from a manifest that the workspace shows, so it ends up showing the target |
| `LogStream.HostLogSubscription.EnqueueLine` | internal/host/log_stream.go:107-160 | The limits, the dropping, the marker and the compaction together do what the abstract queue does |
| `LogStream.HostLogSubscription.NextItem` | internal/host/log_stream.go:221-246 | Hands out the oldest item, and nothing only when the queue is empty and closed |
| `LogStream.HostLogSubscription.WriteDone` | internal/host/log_stream.go:205-217 | A failed write closes the stream and forgets what waits |
| `LogStream.StreamAlways` | internal/host/log_stream.go:108-160 | After any calls: both limits hold, lines leave in the order they came and uncut unless huge, and until a write fails a marker newer than every missing line is queued or was handed out |
| `LogStream.MarkersNeverLie` | internal/host/log_stream.go:134-150 | A marker is only ever queued or handed out when an older line is missing |
| `LogStream.ShedFewest` | internal/host/log_stream.go:126-144 | Dropping stops as soon as the new item fits |
| `LogStream.EnqueueMeaning` | internal/host/log_stream.go:107-160 | One accepted call in full: a line that fits is queued behind the rest, cut to its last MiB; one that does not fit drops as few of the oldest items as make room for it and a marker of 47 bytes |
| `PipeInput.PipeInputForwarding.WriteBytes` | internal/host/run_input.go:236-258 | Accepts all of the bytes or, once closed or stopped, none, and what it reports as taken is on record |
| `PipeInput.PipeInputForwarding.ReadBytes` | internal/host/run_input.go:269-303 | Returns the next bytes of the oldest chunk, or end of input |
| `PipeInput.PipeAlways` | internal/host/run_input.go:184-303 | After any calls: what was read is a prefix of what was accepted, the unread bytes stay within the limit, and until a stop nothing is lost |
| `PipeInput.AcceptedIsOffered` | internal/host/run_input.go:236-267 | What counts as accepted is exactly the texts of the writes that could go on before any close or stop, in order |
| `PipeInput.NothingLost` | internal/host/run_input.go:184-303 | Until a stop what was read is the front of what the writes handed over and the rest still waits; after a close the reader gets all of it |
| `PipeInput.EndMeansAll` | internal/host/run_input.go:277-283 | A reader that sees the end of a closed, unstopped pipe has read everything |
| `PipeInput.ReadProgress` | internal/host/run_input.go:285-300 | A read that need not wait returns at least one byte if any waits, never more than asked, and frees exactly as much |
| `PipeInput.DeadlockIffTooLarge` | internal/host/run_input.go:244-279 | A writer and the reader can wait for each other exactly when the write is larger than the pipe |
| `PathMatch.MatchPath` | internal/syncfs/manifest.go:1042-1071 | The recursive matcher with its loop computes the matching relation |
| `PathMatch.MatchMeaning` | internal/syncfs/manifest.go:1042-1071 | A pattern matches exactly when the path can be cut so that each segment fits its stretch, "**" fitting any |
| `PathMatch.NewIncludeMatcher` | internal/syncfs/manifest.go:931-962 | The matcher accepts exactly the paths that some include covers; no list covers all, an empty one nothing |
| `PathMatch.Match` | internal/syncfs/manifest.go:964-984 | Tries literals and patterns and finds a match exactly when there is one |
| `ManifestAlgebra.FilterEntriesByPath` | internal/syncfs/manifest.go:664-678 | Keeps exactly the included entries, in order |
| `ManifestAlgebra.DiffWorkspaceChanges` | internal/host/server.go:1509-1520 | The difference of the two filtered manifests |
| `ManifestAlgebra.FilterCommutesWithDiff` | internal/host/server.go:1509-1520 | The difference of filtered manifests is the filtered difference, order included |
| `ManifestAlgebra.NormalizeModes` | internal/syncfs/manifest.go:616-642 | Each entry gets the reference's mode where nothing else differs, and a default where it has none |
| `ManifestAlgebra.NormalizedDiffSamePaths` | internal/syncfs/manifest.go:616-642 | Against its reference, a strict difference after normalisation reports the same paths as one that ignores modes |
| `ManifestAlgebra.ApplyManifestChanges` | internal/client/client.go:1711-1735 | Each path once and in order, with deletions taken out and changes put in |
| `ManifestAlgebra.DiffThenApply` | internal/client/client.go:1711-1735 | Applying a difference to its first manifest gives the paths of the second with equivalent entries, and the very entries when modes count |
| `ManifestAlgebra.SyncBackThenApply` | internal/client/client.go:1705-1735 | Under a sync_back list included paths become those of the second manifest and all others stay |
| `ReleaseVersion.CompareReleaseOrder` | internal/version/semver.go:24-50 | A total preorder on exactly the valid release strings: swapping swaps the sign, and it is transitive |
| `ReleaseVersion.AgreesWhenFits` | internal/version/semver.go:137-189 | Between versions whose numeric identifiers fit an int the comparison is that of section 11 of Semantic Versioning 2.0.0, numbers being compared as digit strings |
| `ReleaseVersion.MatchesSemver` | internal/version/semver.go:167-212 | The comparison follows section 11 against every version that fits an int exactly when the version itself does |
| `ReleaseGrammar.TextMatchesSemver` | internal/version/semver.go:24-50 | The same on strings, over all strings that CompareRelease accepts, with the core numbers and numeric identifiers compared digit by digit |
| `Decimals.NumberOrder` | internal/version/semver.go:191-212 | Digit strings are ordered as their values: leading zeros aside the shorter one is lower, and of equal length the one with the lower first difference |
| `ReleaseGrammar.NumericPartExactly` | internal/version/semver.go:104-110 | A core number is read from exactly its decimal digits, up to the largest int |
| `ReleaseGrammar.TooLargeText` | internal/version/semver.go:191-212 | For every release string with a numeric identifier past an int there is a release string that fits and that CompareRelease orders the wrong way round |
| `ReleaseGrammar.ParseExactly` | internal/version/semver.go:52-135 | A string is a release exactly when it spells one: v, the decimal digits of three numbers, optional pre-release and build identifiers of digits, letters and hyphens joined by dots |
| `CommandLog.CommandOutputCollector.Log` | internal/host/command_logging.go:48-73 | Logs every line that the new text completes and keeps the rest |
| `CommandLog.CommandOutputCollector.Flush` | internal/host/command_logging.go:75-89 | Logs the unfinished line, if any |
| `CommandLog.FeedNormalized` | internal/host/command_logging.go:56-59 | Cutting the output anywhere, even between CR and LF, logs the same lines |
| `CommandLog.LinesIndependentOfWrites` | internal/host/command_logging.go:48-98 | For every way of cutting the output into writes the logged lines are those of the whole output |
| `CommandLog.LinesLoggedMeaning` | internal/host/command_logging.go:91-98 | Those are the non-blank lines without the blanks at their ends |
| `CommandLog.BlanksTrimmed` | internal/host/command_logging.go:91-92 | Exactly the spaces and tabs at the end of a line are taken off |
| `Text.TrimExactly` | internal/host/command_logging.go:93 | Trimming finds the one text without white space at its ends that white space surrounds |
| `Text.SpaceMeaning` | internal/host/command_logging.go:93 | White space is the 25 characters that Unicode lists as such |
| `ConfigUpdate.SectionRange` | internal/wslconfig/config.go:265-289 | The first header of the section and the next header of any section, or the end |
| `SectionConfig.SectionNameExactly` | internal/wslconfig/config.go:291-303 | A header is a name in brackets, spaces around both aside |
| `SectionConfig.HeaderOfMeaning` | internal/wslconfig/config.go:270 | Section names are the same up to the case of letters |
| `SectionConfig.SettingKeyExactly` | internal/wslconfig/config.go:305-322 | A setting is a key before the first equals sign of a line that is no comment |
| `SectionConfig.SettingValueExactly` | internal/wslconfig/config.go:209-213 | Its value is what follows that sign, without the spaces around it |
| `Text.LowerLetters` | internal/wslconfig/config.go:158 | Keys are told apart by their lower-case form: each letter by its place in the alphabet, nothing else changed |
| `ConfigText.NewlineMeaning` | internal/wslconfig/config.go:145-149 | A text is written back with CRLF exactly if it had one |
| `ConfigUpdate.OrderedSettings` | internal/wslconfig/config.go:249-263 | One line for each setting, in key order |
| `ConfigUpdate.RewriteSection` | internal/wslconfig/config.go:165-180 | Rewrites exactly the managed settings where they stand and reports which were there |
| `ConfigUpdate.Apply` | internal/wslconfig/config.go:144-195 | Rewrites managed settings, adds the missing ones in key order at the end of the section or appends the section, joins the lines with CRLF if the text had any and with LF otherwise, which drops a final line end; plain settings read back as the old ones overridden by the update |
| `ConfigUpdate.ParseSection` | internal/wslconfig/config.go:197-218 | The settings of the section, the last line winning for a repeated key |
| `SectionConfig.UpdateReadsBack` | internal/wslconfig/config.go:151-218 | On lines: reading the section after an update gives its settings overridden by the update |
| `SectionConfig.OutsideKept` | internal/wslconfig/config.go:165-192 | Every line outside the section, and every unmanaged line in it, stays in place and order; an appended section is a blank line if needed, the header and one line for each key |
| `ConfigText.JoinedParse` | internal/wslconfig/config.go:197-231 | Joined lines read back as they are, for either kind of line end |
| `ConfigText.ApplyThenParse` | internal/wslconfig/config.go:144-247 | On text: the same for a present or appended section and either kind of line end |
| `ConfigUpdate.UpdateRoundTrip` | internal/wslconfig/config.go:144-218 | Any such update of a text, whichever of its two forms it takes, reads back so |

## Left out

- TLS, pairing, discovery, dialing races, heartbeats, timers, cancellation by context: calls and signals whose outcome is an arbitrary choice here.
- OCI images, namespaces, mounts, WSL scripts, GPU binds, terminals, command execution: system calls and generated shell.
- `filepath.Clean`, `IsLocal`, symbolic link evaluation and JSON: replaced by clean segment lists and abstract values; a name that escapes the workspace is its own case.
- Filesystem: outside `ApplyLookups` lookups answer truthfully and only mutating calls fail; nobody else writes during an apply, modes are permission bits without a umask, and modification times are not tracked.
- ApplyLookups.KeptIffGuard: only the lookups of the loop that records missing parents can fail; a failing lookup elsewhere in commit stops it at once, as a failing mutating call would.
- The transaction's temporary directory lies inside the workspace on disk; here it is a separate area that no path reaches.
- ApplyTransactions.ApplyTransaction.Backup: making the directory for a stored copy is one call that succeeds or fails, although it may make several directories in the temporary area.
- ApplyTransactions.ApplyTransaction.Rollback: its own calls do not fail, and the joined error it returns is not modelled. Where a link leads is any path of the workspace or nowhere, not read from its target.
- ApplyGuard.RollbackIffGuard: a removal through a link that finds nothing counts as not undone, although the code then leaves the tree as it was.
- ApplyChangesFlow.ApplyChanges: the check for a missing store and the removal of the temporary directory are not modelled.
- SyncTheorem.Shows: sizes and modification times of entries are not compared with the disk.
- BlobReceiverObject.ChunkedBlobReceiver.ReceiveChunk: the object runs one call at a time; interleavings of calls are the subject of BlobReceiver, over the same regions.
- BlobReceiver.ReceiverSafe: sizes are unbounded integers; that 64-bit offsets do not wrap around is proved for the plan only, whose bound covers every accepted chunk.
- Upload liveness: a client counts a chunk as done after its local write, so only the host's side is proved.
- DownloadPipeline.Worker.Download: a completion frame from the host makes the worker forget what is in flight, as the code does; this host never sends one on such a connection. A dial that fails with nothing in flight is not retried, as in the code.
- DownloadTransfer.DownloadComplete: a failure from outside, which the code causes only after a worker has failed or the context was cancelled, is excluded. A worker enters through the contract of `Worker.Download`, with the calls of one worker one after another and those of different workers in any interleaving.
- BlobSendSession.BlobTransferSession.SendBlobTransfer: a file may change between requests; that the client then refuses the blob is the receiver's digest check, not a claim about the sender.
- BlobGC.SyncsNeverMissBlobs: says nothing about blobs that a manifest saved after a run names, because such manifests are saved outside the lock and may name unsynced files.
- BlobStores.VerifiedIffUsable: a file changed in place with the same size and modification time is trusted by the code, so the cache is judged under changes that show in one of them.
- ContextWorkspace.ContextDisk.SyncContextFromClient: the transfer of missing blobs is not part of this method, which takes the store that the transfer leaves; BlobGC and DownloadTransfer are about that store.
- ContextWorkspace.ContextDisk: moving a context to another data root, which also clears the marker and the workspace, is not modelled.
- WorkspaceLeases.LeasesSafe: saving a lease writes two files; a crash between them is outside this claim. Pruning expired leases checks and removes in two steps in the code, so it is modelled only between runs, where nothing can become active in between. Listing the lease directories and drawing random identifiers are inputs.
- WorkspaceLeases.Scanned: the manifest adjustments made on a Windows host after the scan are not modelled.
- WorkspaceLeaseServer.LeaseServer.DeleteWorkspaceLeases: the summaries and their sorting are not modelled, and a lease is known by its identifier within one context.
- LogStream.StreamAlways: a line longer than the whole queue is cut to its end without a notice, as in the code; Flush and Close wait on conditions that are not modelled.
- PathMatch.MatchSegments: matching one segment against one pattern segment is a parameter.
- ReleaseVersion.ParseRelease: which characters beyond ASCII count as digits is a parameter.
- CommandLog.CommandOutputCollector.Log: text is a list of characters, not of bytes.
- SectionConfig.SectionName: upper and lower case are those of the ASCII letters.
- ConfigUpdate.UpdateRoundTrip: holds for lower-case keys that read as keys and trimmed one-line values; with other keys an update can read back as something else.
- Scanning directories, ignore files, mount rules and hashing files: what a scan returns is an input.
- Progress reports, log messages, error texts and rate limits.
