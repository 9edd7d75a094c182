# Verification of the file storage service

This project models the hard parts of an OSDU-style file storage service and proves what the
service relies on. A client is issued an upload location, uploads into a staging zone, and
registers the upload with `CreateFileMetadata`: the service claims the FileSource, secures and
renews an in-flight lease, copies the object into the persistent zone, checksums it, marks the
record ready and repoints the location, while a garbage collector claims expired leases and
removes orphans. Around this core there are crash-safe file writers, a hand-written Range parser
and keep-alive data plane, and several stateful codecs.

`dafny verify dfyconfig.toml` checks the whole project.

## How the files fit together

- `Registration` is the claim / lease / collector protocol as a step system: one step per port
  call, any number of requests and instances, crashes anywhere, replies that answer, fail, or
  take effect and still report an error. `RegistrationInvariant`, `RegistrationSafety` and
  `RegistrationTheorems` hold the invariant, its preservation, and the results over all runs;
  `UploadedBytes` traces the bytes behind a record to the upload, `CollectorSteps` follows one
  collector candidate, `PagedPass` derives what an orphan pass misses from the runs of all sources
  and has the exact condition.
- `CreateMetadata` states the order of calls and the exit discipline of one request under
  arbitrary interference, `SoloCreate` what a request achieves without any. `ExecuteCreate` is the
  code (early returns, abort lambda, bounded wait, lease guard) and performs exactly such
  executions on the `Moments` its environment presents, `RunLogs` extracts them from runs of the
  whole system. `LeftClaims` follows the claims that outlive their request. `LeaseRenewer` is the
  background renewer on a clock, `HeldLease` joins its log to the runs of the system.
- `GcTask`, `GcLeases`, `GcPreview`, `GcPaging`, `GcRun`: one collection run, what its lease pass
  takes, the dry run as a preview, offset paging over changing locations, the loops.
- `CrashFs` is a file system with volatile and durable state; `GroupCommit` and `AtomicWrite` are
  the two writers on it.
- `Text`, `RangeHeader`, `HttpFraming`, `LargeFilePlane`, `KeepAlive`, `Admission`: the data plane.
- `Utf8`, `JsonString`, `Scrub`, `Spans`, `Redactor`: the log writer's escaping and scrubbing.
- `FileSource`, `UploadStream`, `TokenBucket`: key policy and path joiner, gRPC streams, throttle.

## What the model found

Where a promise does not hold for all inputs the code is modelled as it is, a lemma gives a
failing case, and an if-and-only-if lemma says when it does hold.

- No ready record loses its bytes **iff** the location update after `MarkReady` cannot fail (its
  result is ignored, `src/app/usecases/usecases.cpp:947`), reading the record cannot fail
  transiently (an error counts as "no record", `src/app/usecases/usecases.cpp:266-285`,
  `src/app/tasks/gc_task.cpp:45-48`), the paging over the locations misses none, and the
  collector's lease identity differs from those of the creators or no create call falls between
  the calls of one collector candidate (the server gives both the same instance id,
  `src/main/server_main.cpp:2992`, `src/main/server_main.cpp:3053`).
- Offset paging (`src/app/tasks/gc_task.cpp:148-171`) lists a location that is there all the time
  **iff** no page boundary steps over it; a change between two pages steps over a surviving
  location **iff** it removes one before the offset and leaves one at or after it. For every page
  limit, limit + 1 locations of which the first is deleted after the first page are a failing input.
- A returned request leaves its claiming row behind **iff** `ClaimForWrite` inserted it and reported
  an error, the location has no physical reference or no container
  (`src/app/usecases/usecases.cpp:782-785` return without the abort), or `ReleaseClaim` had no
  effect. The comment at `src/app/usecases/usecases.cpp:676-677` counts on the collector to reclaim
  such rows, but the guard has released the lease and the collector reclaims only for expired
  leases: the row stays for good and no create of that FileSource ever succeeds again.
- With at most m failed renewals in a row a live holder's lease never lapses before its release
  **iff** (m + 1) * (pause + latency) + latency is below the time to live, the pause being the renew
  interval and the scheduling slack: a call may be applied early and answered late, the next one
  applied late. The configuration check (`src/common/config/core_schema.cpp:368-374`) asks only for
  interval < ttl.
- `AtomicWriteFile` with both syncs on makes the content durable **iff** the path has a slash (or
  the content was durable before): without one `parent_path()` is empty and the directory sync is
  skipped.
- A dry run lists what a real run deletes **iff** no two claimed leases name the same deletable
  location.
- Printing a parsed FileSource gives it back **iff** its epoch is canonical: the parser also takes
  leading zeros, zero, and 19-digit numbers beyond 64 bits, which `strtoll` clamps.
- A scrub rule masks the value after every occurrence of its key, for keys of letters and digits,
  **iff** the key does not overlap itself: with the key `aa` the text `aaa=x` comes out unchanged.
- `Stop` of the data plane may find one accepted connection left in the queue; it closes it but
  does not lower `in_flight` for it: `in_flight` ends at the number of leftovers.

## Assumptions about the environment

- `ClaimForWrite` inserts iff no non-deleted row exists for the FileSource; `MarkReady` moves
  exactly that claiming row to ready; `ReleaseClaim` removes only claiming rows; `ClaimExpired`
  returns only expired leases and takes them over for 60 seconds; `ReclaimStaleClaiming` removes
  only rows older than a lease time to live.
- `atomic_claim` and leases are on and `require_lease_expiry` is true; staging and persistent
  containers differ; object keys do not contain `.tmp.`; record ids are unique per request.
- Durations: a lease is ensured within one time to live of the claim, a holder's renewals follow
  each other within one time to live (`LeaseRenewer` says when its loop achieves that), a create
  finishes within the orphan grace period, a collector candidate is finished within the time its
  claim lasts.
- `DeleteFileMetadata` is one atomic step. Locations are listed in order of creation; new ones come
  last, and one upload location is issued per FileSource.
- Unsynced directory changes survive a crash in any subset, the two halves of a rename
  separately; unsynced data may turn into any bytes; the group-commit writer starts in an empty directory and
  its syncs succeed.
- Response headers from the transfer handler contain no carriage return and names no colon.

## Model

| member | source | states |
|---|---|---|
| RegistrationSafety.RunKeeps | src/app/usecases/usecases.cpp:595-970 | each port call of a create, with any reply, keeps the protocol invariant in a sound deployment |
| RegistrationSafety.RenewerKeeps | src/app/services/lease_renewer.cpp:58-74 | a renewer turn, successful or not, keeps the invariant |
| RegistrationSafety.GcReclaimKeeps | src/app/tasks/gc_task.cpp:94-106 | reclaiming stale claiming rows keeps the invariant |
| RegistrationSafety.GcRemoveKeeps | src/app/tasks/gc_task.cpp:50-69 | removing a candidate's object keeps the invariant |
| RegistrationSafety.GcCheckKeeps | src/app/tasks/gc_task.cpp:45-48 | the record check of a candidate keeps the invariant |
| RegistrationSafety.PassDeleteKeeps | src/app/tasks/gc_task.cpp:241-293 | deleting an unreferenced object older than the grace period keeps the invariant, if the paging has missed no location |
| RegistrationSafety.ActionKeeps | src/app/tasks/gc_task.cpp:71-146 | every action of creators, collector, clients and crashes keeps the invariant |
| CollectorSteps.CandidateIff | src/app/tasks/gc_task.cpp:71-146 | a candidate whose calls answer: an upload that nobody registered loses its object and its location, anything else stays; the claiming row goes iff it is older than a lease time to live |
| CollectorSteps.FirstSteps | src/app/tasks/gc_task.cpp:71-126 | the first three calls of a candidate are steps of the system, each enabled after the other |
| CollectorSteps.LastSteps | src/app/tasks/gc_task.cpp:50-69 | so are the record check, the removal and the location delete |
| CollectorSteps.PassIff | src/app/tasks/gc_task.cpp:241-293 | a pass that misses nothing may delete the persistent object iff it is not younger than the cutoff and the location does not refer to it |
| RegistrationSafety.ReachableInv | src/app/usecases/usecases.cpp:595-970 | the invariant holds in every reachable state of every interleaving |
| RegistrationSafety.SoundNeverLosesBytes | src/app/usecases/usecases.cpp:266-285 | in a sound deployment every ready record has, in every reachable state, a location with a reference whose object exists and (once persistent) has the checksummed bytes; UploadedBytes says which bytes these are |
| UploadedBytes.ObjectsUploaded | src/app/usecases/usecases.cpp:243-261 | in every run of every deployment: the staging object holds what a client wrote there last, and the persistent object what some request found in staging when it copied, which was then what a client had written last |
| UploadedBytes.RecordHoldsUpload | src/app/usecases/usecases.cpp:788-947 | in every sound run every ready record holds its upload: a copied upload with the checksum of the record once its location is persistent, the latest upload until then |
| RegistrationSafety.MutualExclusion | src/app/usecases/usecases.cpp:694-716 | at most one request that has not committed copies, reuses or rolls back the persistent object at a time, it owns the claiming row, and no collector candidate is under way |
| RegistrationSafety.LateRollback | src/app/usecases/usecases.cpp:266-285 | a request that rolls back although its MarkReady took effect removes nothing that a location refers to, and only after its record was deleted |
| RegistrationSafety.YieldUnreachable | src/app/usecases/usecases.cpp:804-811 | in every sound run the return of an existing record after a failed copy is never taken: whoever re-reads holds the claim and no record is ready |
| RegistrationTheorems.Idempotent | src/app/usecases/usecases.cpp:648-716 | in every deployment and every run, all successful creates of a FileSource between two deletions return the same record id |
| RegistrationTheorems.IgnoredSaveLosesBytes | src/app/usecases/usecases.cpp:938-947 | a run in which the ignored location update fails and a ready record loses its bytes |
| RegistrationTheorems.FailedReadLosesBytes | src/app/tasks/gc_task.cpp:45-48 | a run in which a failed record read makes the collector delete a ready record's bytes |
| RegistrationTheorems.SharedIdentityLosesBytes | src/app/usecases/usecases.cpp:385-402 | a run in which a create renews the lease the collector has claimed under the same identity, and bytes are lost |
| PagedPass.MissesIff | src/app/tasks/gc_task.cpp:148-171 | whatever the system does between the page requests of a pass, a source whose location is there all the time is missed iff a page boundary steps over it, and none is if no location is deleted that the paging has passed |
| PagedPass.MissedReferenceLosesBytes | src/app/tasks/gc_task.cpp:148-171 | for every page limit a run in which limit + 1 sources are registered, the first record is deleted after the first page, the pass therefore misses the last source and deletes the bytes of its ready record |
| PagedPass.NeverLosesBytesIff | src/app/tasks/gc_task.cpp:71-146 | no ready record ever loses its bytes, and every one holds its upload, in every run, iff saves and record reads are reliable, the paging misses no location, and the collector's identity is its own or its candidates are atomic |
| CreateMetadata.CallsInOrder | src/app/usecases/usecases.cpp:680-691 | calls happen in one fixed order and (polling apart) at most once; a rollback removal precedes ReleaseClaim, which precedes the lease release |
| CreateMetadata.ExitDiscipline | src/app/usecases/usecases.cpp:762-936 | after a won claim exactly one of: MarkReady succeeded, the abort tried ReleaseClaim, ReleaseClaim was tried before returning an existing record, or the return without either; the lease guard is released iff created; a new id is returned iff MarkReady succeeded, an existing one iff the third exit was taken; no call but the poll is made twice |
| SoloCreate.CreatesOrLeavesNoTrace | src/app/usecases/usecases.cpp:595-970 | a create with which nobody interferes, whose failing calls have no effect and whose cleaning up works, ends with its own id iff every call after the first read answers; then record, checksum, persistent object and location are those of the uploaded content and staging object and lease are gone; otherwise it fails and row, lease, location, staging object are as before |
| Moments.CanBeAlone | src/app/usecases/usecases.cpp:595-970 | for every source with an upload, a vacant or own lease and no row there is an environment in which the create is alone and every call answers |
| LeftClaims.ReturnLeavesClaimIff | src/app/usecases/usecases.cpp:676-691 | in every sound run: when a request has just returned its claiming row is still there iff ClaimForWrite reported an error after inserting it, the location led to no object, or ReleaseClaim had no effect |
| LeftClaims.StuckForever | src/app/tasks/gc_task.cpp:86-104 | in every deployment: a claiming row whose request is gone, without a lease and with nobody about to take one, stays claiming in every continuation, and no create succeeds meanwhile |
| LeftClaims.LeftForGood | src/app/usecases/usecases.cpp:423-433 | once a request that left its claim has released the lease the row is claiming in every continuation, the collector can never claim the source, and no create succeeds |
| LeftClaims.CanGetStuck | src/app/usecases/usecases.cpp:782-785 | every deployment has a run, all calls answering, that ends there: a location without physical reference |
| ExecuteCreate.CreateFileMetadata.EnsureLeaseOwnership | src/app/usecases/usecases.cpp:385-402 | renews, falls back to acquiring only if there is no lease of ours, and the guard exists iff it succeeded |
| ExecuteCreate.CreateFileMetadata.ReleaseNow | src/app/usecases/usecases.cpp:423-433 | idempotent: releases exactly once |
| ExecuteCreate.CreateFileMetadata.WaitForExistingClaim | src/app/usecases/usecases.cpp:307-327 | the bounded poll is a sequence of Wait steps of the protocol; the first of the 41 moments that shows a ready record decides the id, and it fails iff none does |
| ExecuteCreate.CreateFileMetadata.AbortCreate | src/app/usecases/usecases.cpp:680-691 | performs rollback check, removal and ReleaseClaim in protocol order and always reports failure |
| ExecuteCreate.CreateFileMetadata.RollbackCreatedObject | src/app/usecases/usecases.cpp:266-285 | the object is removed, by a second call, iff the read shows no ready record |
| ExecuteCreate.CreateFileMetadata.CopyFailed | src/app/usecases/usecases.cpp:804-811 | after a failed copy: the existing record, if the re-read shows one, and the claim given back, else rolled back and failed |
| ExecuteCreate.CreateFileMetadata.Transfer | src/app/usecases/usecases.cpp:788-936 | from the copy to the end: done with the request's own id, or failed or an existing id with the guard still to release |
| ExecuteCreate.CreateFileMetadata.Execute | src/app/usecases/usecases.cpp:595-970 | whatever the environment presents, the code performs a complete protocol execution on its moments, in order and (the wait apart) without skipping one, and returns its outcome: the record of the first read, failure or the record of the claim, the first record polled, and for a won claim what the protocol says; alone with every call answering, its own id |
| RunLogs.RunChains | src/app/usecases/usecases.cpp:595-970 | in every run of the whole system the calls of a request form a chain of protocol steps |
| RunLogs.ReturnedExecutions | src/app/usecases/usecases.cpp:407-443 | in every run the calls of a returned request are a complete execution, so the exit discipline holds there |
| LeaseRenewer.ToleranceIff | src/app/usecases/usecases.cpp:385-433 | under all schedules with at most m failed renewals in a row the lease is unexpired at every instant from EnsureLeaseOwnership to Release iff (m + 1) * (pause + latency) + latency < ttl |
| LeaseRenewer.SlowRepliesLapse | src/app/services/lease_renewer.cpp:58-74 | for every m the schedule that reaches the bound |
| LeaseRenewer.ConfigCheckNotEnough | src/common/config/core_schema.cpp:368-374 | interval < ttl, even interval + latency < ttl, does not imply continuity |
| LeaseRenewer.Renewer.constructor | src/app/services/lease_renewer.cpp:10-31 | a disabled renewer has no thread, a failed thread creation counts as failed, non-positive times get a default |
| LeaseRenewer.Renewer.Loop | src/app/services/lease_renewer.cpp:58-74 | the calls of the loop follow each other within interval plus slack; it ends with the stop, no renewal begins after it; failed() reflects the latest attempt |
| LeaseRenewer.Renewer.Hold | src/app/usecases/usecases.cpp:407-443 | the calls from EnsureLeaseOwnership over the loop to the Release after Stop are a schedule, so the lease does not lapse in between if the stretch is below the time to live |
| HeldLease.RunHoldsLease | src/app/services/lease_renewer.cpp:58-74 | in every sound run whose lease calls for a request are those of a schedule that never lapses, the request meets what the protocol asks of a holder at every instant up to its Release, and the collector cannot claim its source |
| GcPreview.DryPass | src/app/tasks/gc_task.cpp:50-69 | a dry run changes nothing and lists one entry per lease whose location may be deleted |
| GcPreview.RealDistinct | src/app/tasks/gc_task.cpp:71-146 | a real run never reports a file id twice |
| GcPreview.RealFollows | src/app/tasks/gc_task.cpp:106-146 | if no two leases name the same deletable location a real run deletes exactly those files, their locations and their objects in both zones, and nothing else |
| GcPreview.OrphansSame | src/app/tasks/gc_task.cpp:241-293 | deleting files with their objects creates no orphan and hides none |
| GcPreview.PreviewIff | src/app/tasks/gc_task.cpp:295-345 | if removals succeed, file ids are unique and zones match containers, the dry and the real list are equal iff no two claimed leases name the same deletable location |
| GcPreview.DuplicateLeaseMisleads | src/app/tasks/gc_task.cpp:106-130 | two leases of the in-memory repository for one file, keyed by its id and by its source: listed twice by the dry run, deleted once |
| GcRun.Task.CollectExpiredLeases | src/app/tasks/gc_task.cpp:71-146 | the loop over claimed leases computes the lease pass of the specification |
| GcLeases.LeasePassIff | src/app/tasks/gc_task.cpp:106-146 | if no lease names two locations: a location is dropped iff the run is real, a lease names it by id or key, its source has no ready record, it has a reference and the removal works; a file is reported iff the same holds (a dry run tries no removal) |
| GcLeases.LeasePassObjects | src/app/tasks/gc_task.cpp:106-146 | a real pass removes an object of a zone iff such a location in that zone refers to it |
| GcRun.Task.DeleteCandidate | src/app/tasks/gc_task.cpp:50-69 | dry run: report only; failed removal: an error and no deletion; else object, then location |
| GcRun.Task.ReferencedRefs | src/app/tasks/gc_task.cpp:148-171 | the loop collects exactly the references of the locations it gets to see, whatever changes between the page requests |
| GcPaging.ListedIff | src/app/tasks/gc_task.cpp:148-171 | for every page limit and history: a location that is there all the time is listed iff no page boundary steps over it |
| GcPaging.BoundaryIff | src/app/tasks/gc_task.cpp:153-169 | a change steps over a surviving location iff it removes one before the offset and leaves one at or after it |
| GcPaging.QuietListsAll | src/app/tasks/gc_task.cpp:148-171 | if no change removes a location the paging has passed, everything that stays is listed |
| GcPaging.OneChangeIff | src/app/tasks/gc_task.cpp:153-169 | one change after any page: everything that stays is listed iff it removes nothing before the offset or leaves nothing after it |
| GcPaging.DeletionHidesReference | src/app/tasks/gc_task.cpp:148-171 | for every page limit: limit + 1 locations, the first deleted after the first page, and the reference of the last, there all the time, is missing |
| GcPaging.OrphanedIff | src/app/tasks/gc_task.cpp:241-293 | an old object whose one location is there all the time is reported as an orphan iff a page boundary steps over that location |
| GcRun.Task.CollectOrphanObjects | src/app/tasks/gc_task.cpp:241-293 | for every page split, deleting while listing: an entry is reported iff it is not younger than the cutoff, no location that the paging got to see refers to it and (in a real run) its removal works; a real run removes exactly these |
| GcRun.Task.Run | src/app/tasks/gc_task.cpp:295-345 | the report is that of the lease pass and of the orphan pass on what the paging sees; without changes it is that of the specification; a dry run changes neither objects nor locations itself; a persistent object younger than the cutoff goes iff a lease names a location for it whose source has no ready record and the removal works |
| CrashFs.Origin | docs/appendix/group-commit-durability/model_check2.py:4-11 | a name that survives a crash was synced, or its creation survived |
| CrashFs.Persists | docs/appendix/group-commit-durability/model_check2.py:4-11 | a synced name that nobody removed survives every crash |
| CrashFs.CallsKeepCoherent | docs/appendix/group-commit-durability/model_check2.py:4-11 | every system call keeps the visible directory equal to the synced one plus everything that happened since |
| GroupCommit.SoundSafe | docs/appendix/group-commit-durability/model_check2.py:4-11 | R1 and R2 as a state condition imply that after every crash visible files are complete, promised files are present and at most one batch of temporary files remains |
| GroupCommit.Writer.WriteOne | docs/appendix/group-commit-durability/gcwriter.cpp:40-78 | protocols 1 and 2 keep every crash point safe; with the others the first file to get its final name is exposed |
| GroupCommit.Writer.CommitBatch | docs/appendix/group-commit-durability/gcwriter.cpp:81-95 | what COMMIT covers is durable |
| GroupCommit.Writer.WriteTmpOnly | docs/appendix/group-commit-durability/gcwriter.cpp:100-110 | a temporary file is written without endangering any promise, short writes included |
| GroupCommit.Writer.RenameBatch | docs/appendix/group-commit-durability/gcwriter.cpp:111-119 | every crash point during the batch of renames is safe |
| GroupCommit.Writer.RunBatch | docs/appendix/group-commit-durability/gcwriter.cpp:131-146 | one batch of protocol 4 is safe at every crash point and promises its files |
| GroupCommit.Writer.RunOneByOne | docs/appendix/group-commit-durability/gcwriter.cpp:149-162 | the one-by-one loop is safe at every crash point iff the protocol is 1 or 2, or no file appears; COMMIT after each full batch and at the end |
| GroupCommit.Writer.Run | docs/appendix/group-commit-durability/gcwriter.cpp:121-166 | for every file count, batch size and pattern of failing calls, all crash points are safe iff the protocol is 1, 2 or 4, or no file gets its final name; it succeeds if no call fails, and then has promised every file, with a COMMIT after each full batch and one at the end |
| AtomicWrite.SwapOldOrNew | src/common/fs/fs.cpp:128-147 | after the rename of synced data every crash shows the whole old or the whole new content; after the directory sync the new one |
| AtomicWrite.SwapDurableIff | src/common/fs/fs.cpp:140-161 | without a directory sync the new content is durable iff it was before |
| AtomicWrite.SwapTears | src/common/fs/fs.cpp:128-131 | without a data sync a crash can show neither |
| AtomicWrite.AtomicWriteFile | src/common/fs/fs.cpp:113-163 | under short writes and failing calls: old-or-new at every crash point iff data sync is on or the pattern of failing calls prevents the rename; the rename happens iff that pattern allows it, and then the target shows the new content and nothing else has changed; without failing calls the result is Ok; after Ok durable iff data sync, directory sync and a slash in the path (or durable before); otherwise the target is untouched |
| AtomicWrite.OneWrite | src/common/fs/fs.cpp:113-147 | if one write takes all the data, the rename takes place iff open, write, the data sync asked for, close and rename succeed |
| AtomicWrite.BarePathNotDurable | src/common/fs/fs.cpp:150-161 | path "f" with both syncs on is not durable |
| Text.ParseUint64 | src/common/bytes/bytes.cpp:19-31 | the overflow-checked digit loop accepts exactly the decimal texts up to the signed 64-bit maximum, with their value |
| Text.ValueDigits | src/common/bytes/bytes.cpp:19-31 | reading a printed number gives it back |
| RangeHeader.Classify | src/common/bytes/bytes.cpp:105-162 | one range spec is malformed, misses the object, or is exactly its interval |
| RangeHeader.ParseRangeHeader | src/common/bytes/bytes.cpp:62-178 | the scanning loop computes the declarative reference, for known and unknown sizes |
| RangeHeader.PartialMeaning | src/common/bytes/bytes.cpp:82-177 | a partial result has 1 to 32 ranges in spec order, each within bounds and exactly the positions that the texts left and right of the dash ask for; specs left out ask for no position |
| RangeHeader.UnsatisfiableIff | src/common/bytes/bytes.cpp:165-173 | unsatisfiable iff at least one spec, at most 32, all well-formed by their texts, none asks for a position of the object |
| RangeHeader.MalformedIff | src/common/bytes/bytes.cpp:68-112 | malformed iff the header is not blank and has another unit, no spec, more than 32, or an ill-formed one |
| RangeHeader.SuffixHeader | src/common/bytes/bytes.cpp:111-128 | `bytes=-n` is the last n bytes; unsatisfiable for n = 0 or an empty object, malformed for an unknown size |
| RangeHeader.OpenHeader | src/common/bytes/bytes.cpp:129-142 | `bytes=a-` is everything from a on, unsatisfiable if there is nothing |
| RangeHeader.ClosedHeader | src/common/bytes/bytes.cpp:143-162 | `bytes=a-b` is a to b as far as there are bytes; malformed if b is below a |
| RangeHeader.OtherUnit | src/common/bytes/bytes.cpp:68-80 | a header with another unit is malformed whatever follows |
| RangeHeader.EmptyNeverPartial | src/common/bytes/bytes.cpp:118-126 | an empty object is never partial |
| RangeHeader.RoundTrip | src/common/bytes/bytes.cpp:62-178 | parsing `bytes=a-b,c-d,...` of any 1 to 32 in-bounds ranges returns the list |
| HttpFraming.ClientReadsAll | src/common/http/large_file_plane.cpp:569-603 | an independent client that reads lines and Content-Length bytes gets exactly the responses sent, in order, with nothing left over |
| HttpFraming.HeadDecoded | src/common/http/large_file_plane.cpp:569-603 | the client finds the status code and the value of every header in what it read |
| LargeFilePlane.SendingFaithful | src/common/http/large_file_plane.cpp:504-603 | what is sent is well framed, and a single-range body is the object slice named in Content-Range; 416, 500 and whole-object cases as the Range result demands; the response's other headers are carried |
| KeepAlive.Connection.SendAll | src/common/http/large_file_plane.cpp:86-98 | short sends deliver a prefix, success the whole buffer |
| KeepAlive.Connection.PumpSendfile | src/common/http/large_file_plane.cpp:630-651 | under any short-write pattern a prefix of the slice, on success exactly the slice |
| KeepAlive.Connection.PumpUserspace | src/common/http/large_file_plane.cpp:652-676 | the same bytes as the sendfile loop |
| KeepAlive.Connection.WriteResponse | src/common/http/large_file_plane.cpp:569-603 | the wire grows by a prefix of the frame, on success by the frame, whose body has the declared length; it succeeds if the calls transfer and the source holds what it declares |
| KeepAlive.Connection.Serve | src/common/http/large_file_plane.cpp:706-857 | each response is the one its arrival is owed: what the handler makes of an acceptable request, else 400, 404, 405, 408, 431 or the status of the bad head; the loop goes on exactly after a delivered response below 400 with nothing left over that neither the client nor the count wants to be the last; the last one says so; the wire is whole frames plus a prefix of one more, and nothing is cut short if everything works; at most max(1, keep_alive_max_count) responses |
| KeepAlive.ClientInStep | src/common/http/large_file_plane.cpp:706-857 | whenever the loop goes on, the client has read exactly the responses so far |
| Admission.AdmissionBound | src/common/http/large_file_plane.cpp:259-292 | in every interleaving queued plus serving connections never exceed max_connections |
| Admission.RefusedIffFull | src/common/http/large_file_plane.cpp:276-292 | a counted connection is refused iff queued plus serving connections have reached the limit |
| Admission.ClosedOnce | src/common/http/large_file_plane.cpp:325-360 | every accepted connection is, at every moment, closed once or in exactly one place |
| Admission.StopClosesAll | src/common/http/large_file_plane.cpp:233-257 | when Stop has returned every accepted connection was closed exactly once; at most one leftover; in_flight remains at the number of leftovers |
| Admission.LeftoverPossible | src/common/http/large_file_plane.cpp:233-257 | a run with a leftover, after which in_flight is 1 |
| Utf8.CompleteIsChar | src/common/logging/logging.cpp:39-62 | what passes the tables is the encoding of a scalar value |
| Utf8.CharIsComplete | src/common/logging/logging.cpp:39-62 | every encoding of a scalar value passes the tables |
| Utf8.IllFormedByTable | src/common/logging/logging.cpp:53-62 | where the tables stop is the maximal ill-formed part |
| Utf8.RepairWellFormed | src/common/logging/logging.cpp:98-127 | repaired text is well-formed UTF-8 |
| JsonString.AppendJsonString | src/common/logging/logging.cpp:66-128 | the loop appends exactly the escaped string of the specification |
| JsonString.UnescapeEscape | src/common/logging/logging.cpp:66-128 | for every byte string a strict JSON reader accepts the output and gets the input with each maximal ill-formed part replaced by U+FFFD |
| JsonString.RoundTrip | src/common/logging/logging.cpp:66-128 | well-formed text survives exactly |
| JsonString.NoControlByte | src/common/logging/logging.cpp:75-94 | no raw control byte is written |
| JsonString.ShortestEscape | src/common/logging/logging.cpp:72-97 | plain characters are written as they are, quote, backslash and the five controls with two characters, other controls with six |
| JsonString.PlainUnchanged | src/common/logging/logging.cpp:66-128 | plain text is only quoted |
| JsonString.EscapeRepaired | src/common/logging/logging.cpp:66-128 | escaping the repaired text gives the same output |
| Scrub.Normalize | src/common/logging/logging.cpp:176-187 | the loop computes the normalised text and the origin of each character |
| Scrub.HitMapsBack | src/common/logging/logging.cpp:176-187 | the original text behind a hit equals the key up to case and dropped `_` and `-` |
| Spans.Merge | src/common/logging/logging.cpp:394-405 | merged ranges are non-empty, in order, separated, and cover exactly the union |
| Spans.ReplaceAll | src/common/logging/logging.cpp:407-411 | back-to-front replacement yields the gaps in order with one mask per range |
| Spans.RenderIsRedact | src/common/logging/logging.cpp:394-411 | that is the left-to-right definition: one mask per maximal run of covered positions |
| Spans.MaskSpans | src/common/logging/logging.cpp:393-413 | sorting, merging and replacing equals the left-to-right definition on the ranges as found |
| Redactor.FindValue | src/common/logging/logging.cpp:372-389 | the value after a key: optional quote, blanks, separator, blanks, optional quote, up to an end character |
| Redactor.ValueAtIff | src/common/logging/logging.cpp:372-389 | a value is found after a key iff there stand perhaps a quote, blanks, `:` or `=`, blanks, perhaps a quote, and then the longest text without an end character, which are listed per separator |
| Redactor.DetectIff | src/common/logging/logging.cpp:364-391 | a range is detected iff it is a value of one of the keys |
| Redactor.DetectedAreValues | src/common/logging/logging.cpp:364-391 | every masked range is the value after text that equals a rule's key |
| Redactor.AllDetectedIff | src/common/logging/logging.cpp:364-391 | for a key of letters and digits: the value after every occurrence is detected in every text iff the key does not overlap itself |
| Redactor.AllHitIff | src/common/logging/logging.cpp:366-371 | for every key: each occurrence is a hit in every text iff the key does not overlap itself |
| Redactor.ScrubTrap | src/common/logging/logging.cpp:355-414 | for every such key that overlaps itself a text that scrubbing leaves unchanged although it holds a value after the key |
| Redactor.ShortestTrap | src/common/logging/logging.cpp:366-371 | `aaa=x` with the key `aa` is such a text |
| Redactor.ScrubText | src/common/logging/logging.cpp:355-414 | the scrubbed text has one mask per maximal run of detected positions and is otherwise unchanged, early exits included |
| FileSource.ParseFileSource | src/app/services/object_key_policy.cpp:96-166 | the parsing loops compute the specified parts, or refuse |
| FileSource.RoundTrip | src/app/services/object_key_policy.cpp:67-94 | parsing a printed FileSource returns the same parts |
| FileSource.ParseIff | src/app/services/object_key_policy.cpp:96-166 | a text parses to given parts iff it is their layout, with an epoch of 1 to 19 digits, clamped to 64 bits, within the length limits |
| FileSource.KeyInjective | src/app/services/object_key_policy.cpp:168-172 | distinct accepted parts have distinct object keys |
| FileSource.MakeParseIff | src/app/services/object_key_policy.cpp:96-166 | printing a parsed FileSource gives it back iff its epoch has no leading zero and fits 64 bits |
| FileSource.LeadingZeroLost | src/app/services/object_key_policy.cpp:146-158 | for every timestamp a FileSource with epoch `01` is accepted and printed differently |
| FileSource.NormalizeKey | src/common/fs/fs.cpp:32-56 | accepts exactly the keys without empty, `.` or `..` segments (and of legal length), and returns them unchanged |
| FileSource.KeyOkIff | src/common/fs/fs.cpp:32-56 | a key is accepted iff it is neither empty nor too long, has no NUL and no text between slashes is empty, `.` or `..` |
| FileSource.LexicalJoin | src/common/fs/fs.cpp:69-77 | root without its trailing slash, a slash, the key; refused iff the key is not acceptable or the root is empty |
| FileSource.KeyAccepted | src/common/fs/fs.cpp:32-77 | every object key is accepted |
| FileSource.PathsDistinct | src/common/fs/fs.cpp:69-77 | distinct parts get distinct paths below any root |
| UploadStream.UploadSource.Read | src/adapters/grpc/grpc_streaming_io.cpp:9-60 | one read delivers the next bytes of the chunks in order, as many as fit or the rest of the chunk, or EOF on a complete stream, or an error on an illegal one; capacity 0 changes nothing |
| UploadStream.Drain | src/adapters/grpc/grpc_streaming_io.cpp:9-60 | for all messages and positive capacities: EOF iff the stream is chunks followed by end markers, then all bytes were delivered; otherwise an error after all the leading chunks' bytes |
| UploadStream.Write | src/adapters/grpc/grpc_streaming_io.cpp:62-79 | messages of 64 KiB, the last perhaps shorter, whose concatenation is the data; a proper prefix iff the client does not take the next one |
| TokenBucket.ThroughputBound | src/common/bytes/bytes.cpp:438-484 | over any run of reads and clock readings tokens stay in [0, burst] and bytes within burst + rate * elapsed / 1000 |
| TokenBucket.WaitSuffices | src/common/bytes/bytes.cpp:458-464 | after waiting WaitMillis(want), want <= burst, that many tokens are there |
| TokenBucket.WaitMinimal | src/common/bytes/bytes.cpp:458-464 | after a millisecond less they are not |
| TokenBucket.ServesAll | src/common/bytes/bytes.cpp:466-484 | a read takes all that is ready and fits, or all the tokens |
| TokenBucket.ThrottledSource.Refill | src/common/bytes/bytes.cpp:446-456 | the refill of the specification, truncation and clock steps included |
| TokenBucket.ThrottledSource.Read | src/common/bytes/bytes.cpp:466-484 | a read takes what tokens allow, or reports that there are none |

## Left out

- Authorization, validation of kinds, legal tags and schema, event publishing and audit records around `CreateFileMetadata`: side channels and table lookups.
- The `atomic_claim=false` branch, `CollectExpiredStaging`, and temporary keys in listings: single-instance degradations.
- The interior of `DeleteFileMetadata` and the upload location issuer beyond "a location with an empty staging object appears".
- GcPreview.DryPass: does not model that a dry run still claims expired leases and reclaims stale claiming rows; the preview compares runs over the same claimed leases.
- GcRun.Task.CollectOrphanObjects: the counts of entries that were too young or could not be removed are not stated.
- GcPaging: a location that is updated in place keeps its position and reference, and one that a late create revives after its deletion is not followed; two locations created in the same second may be ordered by file id instead of arrival.
- GcTask.Run's metrics and its single-flight mutex: one run at a time is taken as given.
- GcPreview.PreviewIff: names are numbers, so that the container/key pair stands for the concatenated key of the reference map.
- GroupCommit.Writer.Run: does not model failing syncs, whose results the program ignores; statistics counters are not kept.
- The number of polls in ExecuteCreate is fixed (every 50 ms for 2 s) instead of being read from a clock.
- HttpFraming: EINTR retries, socket timeouts and the request head parser are not modelled, arrivals are given as parsed requests.
- Multipart range responses, which the data plane answers with the whole object, as modelled.
- Real-path and symlink checks, hashing, SQL and S3 drivers, configuration schema, metrics.
- `LimitedSource` and `PumpTo`: plain counters over the streams modelled here.
- TokenBucket: 64-bit products are taken not to overflow.
- Files are modelled on values (`CrashFs.Fs`), not on the heap; the writers keep it in a field.
