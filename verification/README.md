# Evidence-operations backend: a verified model

This project models the parts of the backend that keep hard invariants over a SQL store, an object
bucket and several concurrent workers, and proves those invariants over every run of the model.
`dafny verify dfyconfig.toml` checks it.

## What is modelled

**The audited transaction and the audit chain.** `AuditBatch` is "change, check, append" as one
all-or-nothing batch over any tables, with the retry when the chain head has moved. `AuditChain` is the
paged verifier, the tables the batch writer can leave, and what a head hash commits to.

**Native captures.** `CaptureTables` holds the tables, every SQL statement that touches them, and one
step for each audited batch; the WHERE clauses are the guards, and the values a worker read earlier are
arbitrary parameters, so every interleaving is covered. `CaptureChain` proves what each device's hash
chain keeps, `CaptureGuards` when each step takes effect and whom it spares, `CaptureQueue` that no active
device artifact is forgotten, and `CaptureWriters` has the functions as the source runs them, in place on
the database, with arbitrary steps of others in between.

**Copy-switch-delete key rotation** (`KeyRotation`, `KeyRotationWorker`, `RotationGarbage`, `RotationRetry`), **checkpoint
delivery** (`CheckpointDelivery`, `CheckpointWorker`) and **package publication** (`PackagePublication`,
`PackageBuilder`) are state machines over table, bucket and worker positions. A request may take effect
late and, where it is a bucket request or a guarded statement, repeatedly; a reply may be lost; a crash
is a worker that takes no further step. Each has its worker as a method that reads, writes and deletes in
the order of the source and returns the run it was part of.

**Byte-level codecs.** `JsonText` (reader and printer), `CanonicalJson` and `JsonGraph` (canonical JSON
on values and on object graphs, RFC 8785), `Crc32`, `Png` and `Scanlines` (RFC 2083), `DerSignature`
(RFC 3279 and X.690). Each is characterised exactly: what is accepted, and that nothing else is.

**The reconciler's circular pages** (`ReconcilerPages`) and **the lifecycle machines of the AWS runtime**
(`Jobs`, `Uploads`, `Retention`), run by any number of workers through a revision compare-and-swap
(`CompareAndSwap`).

Hashes are injective functions or free constructors, encryption opens only under the right iv, context
and key, and fresh ids never repeat. Times, ids and the outcomes of outside calls are parameters.

## Findings

* `CaptureChain.MismatchNeverReached`: the release reason CHAIN_AUTHORITY_MISMATCH is never found and
  never commits; a reservation always names the current head.
* `CaptureWriters.FinalizeCaptureDeviceChain`: the check after a committed finalize batch that every
  statement changed a row never fails.
* `KeyRotation.ReviewKeepsExactly`, `KeyRotation.RevivedRowIsLost`: the trigger on reviewed occurrences
  checks only for `purged`. A review lets a live row lose its object exactly when the row is expired and
  a purge has set out to delete its current object: from its own claim on, after which the purge never
  looks at the status again, or from the look it takes when its claim changed nothing. The second lemma is
  a schedule that passes every guard, for every freshly stored row: a repeat collection extends the row
  between the purge's SELECT and its claim, which does not look at the expiry again. A repeat collection
  alone never brings an expired row back; its insert is guarded.
* `KeyRotation.TablesCannotTell`, `KeyRotation.GuardSuffices`: which expired rows these are is not in the
  tables; with the guard of the collections, against expired and purged rows alike, on the trigger of the
  reviews, every live row is readable in every run.
* `RotationGarbage.FinishForgetsExactly`, `RotationGarbage.PurgeLeavesTheBytes`: the finish of a purge clears
  whatever keys the row names by then, but only the keys of the snapshot were deleted. It forgets an object
  exactly when the row names one by then that the purge never set out to delete; the second lemma is a
  schedule that passes every guard and leaves the bytes of a purged row in the bucket. Nothing else in
  rotation, cleanup or purge ever forgets an object (`RotationGarbage.NoObjectIsForgotten`).
* `Retention.EvaluateExactly`, `Retention.EligibleEarly`, `Retention.InvalidDateIsEligible`: eligibility
  evaluation compares with an invalid date and never canonicalises it, so it grants eligibility early
  exactly when the time is not a valid date. Deletion stays safe, because request and confirmation
  canonicalise theirs. `Retention.CreatedInTheFuture` is the same effect at creation.
* `PackagePublication.FencesForceEquality`, `PackagePublication.MovedArtifactSlipsThrough`: the row fence
  does not look at the assessment again; the fences force equal sets exactly when no selected artifact
  has moved to another assessment. No statement of the repository moves one.
* `AuditChain.HashLeavesKeyOpen`: the event hash covers neither sequence, key id nor signature.
* `Png.ShortestImage`: the minimum length of 57 bytes follows from the framing rules.
* The type of a PNG chunk is decoded with the label "ascii", which names windows-1252; that decoder
  never fails, so the fatal flag there refuses nothing.

## Model

| member | source | states |
|---|---|---|
| `AuditBatch.ConditionalBatchCommits` | lib/server/audit.ts:17-43 | a committed batch with a condition either changed no row and added no event, or changed rows, met its condition right after the mutations and added exactly one event linked to the previous head |
| `AuditBatch.NoRowsNoChange` | lib/server/audit.ts:30-38 | statements that report no changed row have changed nothing, so the guard's count of zero means an untouched store |
| `AuditBatch.AttemptKeepsLinks` | drizzle/0000_curvy_risque.sql:126-131 | every committed batch keeps each event linked to the hash before it, GENESIS at the start, and adds at most one |
| `AuditBatch.RefusedExactly` | lib/server/audit.ts:25-43 | a batch is refused for an aborted statement exactly when one aborts, for its guard exactly when rows changed and the condition fails after them, and for the head only when that has moved; otherwise it commits with its event |
| `AuditBatch.Database.Batch` | lib/server/audit.ts:25-43 | the batch runs statement by statement in place and is all or nothing: any abort, a failed guard or a moved head restores the tables and leaves the trail |
| `AuditBatch.Database.ExecuteAuditedBatch` | lib/server/audit.ts:6-50 | at most three attempts, each with a freshly read head; only a moved head is tried again, and the result is exactly that of the last attempt |
| `AuditChain.VerifyAuditChain` | lib/server/audit.ts:61-111 | the paged verifier returns, for every table, anchor and limit, the verdict of one pass over the rows after the anchor; a checkpoint that was not verified, or at another sequence, is refused before any row is read, and too many rows are refused |
| `AuditChain.FoldAccepts` | lib/server/audit.ts:92-110 | the pass accepts exactly when every row passes its checks against the hash of the row before it |
| `AuditChain.PassesExactly` | lib/server/audit.ts:92-104 | a row passes exactly when its details are a value in canonical text, it names the hash before it, its own hash is that of the event it describes, and its signature is the mac of that hash under its key id, legacy-v1 when that is empty |
| `AuditChain.AcceptedExactly` | lib/server/audit.ts:92-110 | a table is accepted exactly when every row is genuine in that sense after the row before it |
| `AuditChain.RefusedAtFirst` | lib/server/audit.ts:93-106 | a refusal names the first row that is not genuine and counts the rows before it |
| `AuditChain.TamperedRowIsRefused` | lib/server/audit.ts:104-106 | another signature or another hash in any row of an accepted table is refused at that row as a chain mismatch |
| `AuditChain.RefusalReasons` | lib/server/audit.ts:94-104 | which reason a row is refused for: details that cannot be read, details in no canonical text, a column that cannot be printed, or the chain |
| `AuditChain.AboveExactly` | lib/server/audit.ts:82-91 | the rows looked at are all those with a higher sequence than the anchor, in order |
| `AuditChain.BatchKeepsProduced` | lib/server/audit.ts:9-16 | each committed batch of the writer leaves a trail that is linked and sealed by the writer |
| `AuditChain.ProducedIsAccepted` | lib/server/audit.ts:75-110 | every table the batch writer can leave is accepted from GENESIS and from a checkpoint at any row alike, within the event limit |
| `AuditChain.EventIgnoresOrder` | lib/server/audit.ts:101-102 | the hash recomputed from the stored details is the writer's, whatever order the details came in |
| `AuditChain.SameHashSameContent` | lib/server/audit.ts:101-104 | rows with one event hash that pass have equal hashed columns and equal predecessors |
| `AuditChain.SameHeadSameEvents` | lib/server/audit.ts:101-110 | two accepted tables with the same head hash hold the same events in the same order |
| `AuditChain.HashLeavesKeyOpen` | lib/server/audit.ts:101-104 | the hash does not cover sequence, key id or signature: a row re-signed under another available key still passes with the same hash |
| `CaptureChain.ChainsAreComplete` | lib/server/devices.ts:98-219 | from an empty store, after any interleaving of all steps, a device's manifests carry exactly the sequences 1 to its chain_sequence under its pinned key, the head hash is that of the last one, and each came from an audited reservation naming the hash before it |
| `CaptureChain.StepKeepsChain` | lib/server/native-provenance-reconciliation.ts:517-618 | every step of device, reviewer or reconciler keeps every device's chain in order |
| `CaptureChain.RunKeepsChain` | lib/server/devices.ts:98-219 | so does every interleaving of any length, from any store in order |
| `CaptureChain.UndisturbedCapture` | lib/server/devices.ts:98-219 | from any store in order: reserving and then finalizing a capture that continues the chain appends exactly this manifest, moves the head to it under the key pinned before or now, clears reservation and queue entry and logs two events |
| `CaptureChain.FinalizeTakesEffect` | lib/server/devices.ts:179-208 | the finalize batch commits all of its facts whenever the device holds the reservation and has not sent this evidence before; with `FinalizingCommits`, that is when it commits |
| `CaptureChain.HeadAlreadyThere` | db/schema.ts:401-405 | the unique index on device and sequence refuses an insert at a sequence that the head has reached |
| `CaptureChain.FinalizingRun` | lib/server/devices.ts:179-204 | when the head update loses its compare-and-swap, the guard condition cannot hold after the insert |
| `CaptureChain.FinalizingCommits` | lib/server/devices.ts:179-208 | manifest insert, head update and queue delete stand or fall together: an aborted batch undoes the insert |
| `CaptureChain.NewLinkOk` | lib/server/devices.ts:186-196 | the pending reservation explains the link that a finalize appends |
| `CaptureChain.RunGrows` | lib/server/devices.ts:118-204 | manifests are only appended, heads only advance, a pinned key never changes; of an artifact only status, expiry, scan, collector and device do, the device between the one its source spells out and none |
| `CaptureChain.FinalizedStaysFinalized` | lib/server/evidence.ts:455-460 | an artifact that review sees as native-finalized is so after every later interleaving in which it still counts as a device's; a repeat collection can only make it count as nobody's |
| `CaptureChain.MismatchReleaseMisses` | lib/server/native-provenance-reconciliation.ts:620-676 | a release for a chain mismatch changes nothing in any store in order |
| `CaptureChain.MismatchNeverReached` | lib/server/native-provenance-reconciliation.ts:403-422 | a reservation always names the current head, so the mismatch reason is never reached and the key is always pinned |
| `CaptureGuards.ReserveExactly` | lib/server/devices.ts:125-140 | in a store in order the reserving statement changes the device, to carry exactly this reservation under the key pinned before or now, exactly when it is the actor's active device, has no reservation or one that has run out, and the capture is next in its chain under its key; it aborts exactly when that key is pinned to another device |
| `CaptureGuards.ReserveSparesLiveReservations` | lib/server/devices.ts:129-132 | in a store in order a reserve step leaves every device whose reservation expires after the step's time exactly as it was |
| `CaptureGuards.ReleaseSparesLiveReservations` | lib/server/native-provenance-reconciliation.ts:598-616 | a release leaves every device alone except the one it read, and that one too until its reservation has run out, to the second |
| `CaptureGuards.StoredCaptureIsKept` | lib/server/native-provenance-reconciliation.ts:631-646 | a reservation whose capture is stored, active, unexpired and not yet in the chain is never released as not found |
| `CaptureGuards.CandidateExactly` | lib/server/native-provenance-reconciliation.ts:424-441 | the scheduler takes an artifact for the reserved capture exactly when its owner stored it from this device for this evidence and chain link, and it is active, unexpired and not yet in the chain |
| `CaptureGuards.AuthorizedReservationIsKept` | lib/server/native-provenance-reconciliation.ts:647-659 | an active device of an owner who may collect loses no reservation to a revocation |
| `CaptureGuards.FinalizeNeedsTheLease` | lib/server/devices.ts:186-204 | a finalize by anybody but the holder of exactly this lease for exactly this capture changes nothing |
| `CaptureGuards.ReconcileNeedsAuthority` | lib/server/native-provenance-reconciliation.ts:544-575 | the scheduler finalizes nothing unless the reservation is the one it read, down to its expiry, the owner may collect and the artifact is as it was, unexpired |
| `CaptureGuards.RevokeExactly` | lib/server/devices.ts:85-96 | a revocation takes effect exactly on an active device and drops its reservation |
| `CaptureGuards.QuarantineSpares` | lib/server/native-provenance-reconciliation.ts:751-760 | no artifact is quarantined that is finalized, young, not due, not as it was observed, or whose device holds a reservation |
| `CaptureGuards.QuarantineTakesEffect` | lib/server/native-provenance-reconciliation.ts:751-774 | any other due artifact is returned and leaves the queue, and nothing else changes |
| `CaptureGuards.StoreExactly` | lib/server/evidence.ts:244-263 | new evidence is up for review, a device's is due in ten minutes, and what it replaces is expired exactly when that has run out |
| `CaptureGuards.DrainExactly` | lib/server/native-provenance-reconciliation.ts:682-723 | a queue entry is drained exactly when it is the one that was read, due, and its artifact is finalized, missing or still in the inactive status that was read |
| `CaptureGuards.RecollectNeedsLife` | lib/server/evidence.ts:181-228 | a repeat collection changes nothing about an artifact that has run out, or that came from another device |
| `CaptureGuards.MembersDevicesStandDown` | app/api/users/route.ts:66-77 | revoking a member stands exactly their devices down and drops no reservation |
| `CaptureQueue.StepAccounts` | lib/server/native-provenance-reconciliation.ts:682-779 | no step takes both queue row and manifest from a device artifact that stays active |
| `CaptureQueue.ActiveArtifactsAreCovered` | lib/server/evidence.ts:257-263 | a device artifact that has stayed active since it was stored has a queue row or a committed manifest after every interleaving |
| `CaptureWriters.ReserveCaptureDeviceChain` | lib/server/devices.ts:98-143 | which answer is given, from the row read first: unavailable, key mismatch, another capture, broken continuity, or the live lease of the same capture, in each of these exactly then and with nothing changed; otherwise the batch meets either a device that can be reserved and the lease is held, or one that cannot, which is left alone and reported as changed concurrently; with nobody in between only a key pinned elsewhere stands in the way |
| `CaptureWriters.FinalizeCaptureDeviceChain` | lib/server/devices.ts:145-219 | a normal return, through a lost reply too, means the exact manifest is committed, the head has reached it and the queue entry is gone; the row-count check after the commit never fails; with nobody in between the holder of the lease gets all of it for new evidence, reply lost or not, and anybody else nothing |
| `CaptureWriters.DrainFinalizedQueueReplay` | lib/server/devices.ts:163-182 | a replay of a finalized upload returns normally only once the leftover queue entry is gone, and with nobody in between that is all it does |
| `CaptureWriters.ReconcileReservation` | lib/server/native-provenance-reconciliation.ts:165-195 | work on one expired reservation: a finalize leaves a manifest and no queue row, a release drops the reservation and is never for a chain mismatch; with nobody in between a live reservation and an ambiguous one are left alone, one with a reason is released for it, and a single candidate is finalized |
| `CaptureWriters.ReasonExactly` | lib/server/native-provenance-reconciliation.ts:403-441 | the reason to release, when there is one: the device or its owner may no longer collect, the key is not the pinned one, or no artifact of the capture can be finalized, in this order |
| `CaptureWriters.FinalizeExactCandidate` | lib/server/native-provenance-reconciliation.ts:517-618 | unless the item is reported as failed the artifact's manifest is committed; one that is reported as finalized has left the queue too; after an error, a lost reply among them, the exact manifest is looked for again; with nobody in between a candidate as it was read is finalized |
| `CaptureWriters.ReleaseExpiredReservation` | lib/server/native-provenance-reconciliation.ts:620-676 | a release that is reported leaves the device without a reservation; with nobody in between one whose reason still stands is dropped and nothing else changes |
| `CaptureWriters.Submit` | lib/server/audit.ts:6-50 | sending a step's batch with retries is one step of an interleaving with what others did in between, and so is a batch that commits while its sender sees an error; with nobody in between the first attempt decides and the sender hears of it unless the reply is lost |
| `KeyRotation.LiveRowsStayReadable` | lib/server/key-operations.ts:167-219 | in every interleaving of rotators, garbage reconcilers, purges, collections and reviews over all rows, with crashes, late requests and lost replies: a row that is not expired or purged names an object in the bucket that decrypts under the row's iv and key id to the bytes it was stored with, unless a purge has set out to delete that object, and that happens to such a row only when a review brings it back afterwards |
| `KeyRotation.UndisturbedRotation` | lib/server/key-operations.ts:167-219 | from any state kept by the invariant whose row is readable, a rotation that nothing disturbs leaves the row under the new key, iv and key id and holding nothing else, the same plain bytes in the new object, the former object gone and no other object touched |
| `KeyRotation.UndisturbedCleanup` | lib/server/key-operations.ts:303-329 | the garbage reconciler on its own sets out to delete exactly the pending and previous objects other than the current one, and then the row holds nothing else |
| `KeyRotation.UndisturbedPurge` | lib/server/retention.ts:15-35 | a purge on its own leaves the row purged and naming nothing, with exactly the objects it named gone |
| `KeyRotation.LeasesHold` | lib/server/key-operations.ts:174-178 | before a lease has run out no rotation, garbage reconciler or purge claims the row |
| `KeyRotation.ClaimNeedsAFreeRow` | lib/server/key-operations.ts:174-178 | a claim takes effect only on a row that still names the object and key id that were read and no pending object, and then holds it for five minutes |
| `KeyRotation.OnlyTheHolderClears` | lib/server/key-operations.ts:179-182 | a claim is given back and a cleanup finished only under its own lease |
| `KeyRotation.SwitchNeedsItsLease` | lib/server/key-operations.ts:201-205 | a switch takes effect only under its own lease, unexpired, on a row that still names what the worker read |
| `KeyRotation.ExpiryHolds` | lib/server/key-operations.ts:175-204 | a row that is expired, purged or past its expiry is neither claimed nor switched, and a row read before its expiry is not purged |
| `KeyRotation.OthersRespectExpiry` | lib/server/retention.ts:9-35 | a repeat collection and a review take effect only before the expiry, a replacement only after it, and nothing is emptied that no purge set out to delete |
| `KeyRotation.ReviewsFollowTheTable` | lib/server/evidence.ts:506-546 | a review takes effect only on the newest occurrence and along its own six moves |
| `KeyRotation.StepKeeps` | lib/server/key-operations.ts:167-353 | each step keeps: the current key acknowledged and never retired, deletes decided only for retired keys or by a purge, a pending key condemned only together with the current one, an armed rotation's key intact |
| `KeyRotation.LiveIsReadable` | lib/server/key-operations.ts:167-219 | the invariant makes a live row readable unless a purge has set out to delete its object |
| `KeyRotation.KeepSwitch` | lib/server/key-operations.ts:198-206 | the switch statement makes the armed next key current and retires the former one, however late it lands |
| `KeyRotation.KeepLoser` | lib/server/key-operations.ts:54-64 | a key that the row names nowhere is never named again, so the proven loser may be deleted |
| `KeyRotation.KeepLearn` | lib/server/key-rotation-reconciliation.ts:50-57 | acting on the classification of an authoritative read keeps the invariant |
| `KeyRotation.KeepCleanup` | lib/server/key-operations.ts:303-329 | the garbage reconciler's claim takes the lease, so neither key it deletes can become current |
| `KeyRotation.KeepPurge` | lib/server/retention.ts:15-25 | a claim that changed the row condemns every key of the snapshot for good, without another look at the status; one that changed nothing does so only after finding the row expired; both keep the invariant, however stale the snapshot |
| `KeyRotation.RunKeeps` | lib/server/key-operations.ts:167-353 | every run keeps the invariant, digest and context, and undoes nothing that was retired or doomed |
| `KeyRotation.SecureExactly` | lib/server/retention.ts:22-25 | in any state kept by the invariant, every continuation without another review of an expired row keeps the row readable while it is live, exactly when the row is not live and condemned now |
| `KeyRotation.ReviewKeepsExactly` | lib/server/evidence.ts:543-545 | a review that passes its guards leaves the row secure in that sense exactly unless the row is expired and a purge has set out to delete its current object |
| `KeyRotation.TablesCannotTell` | lib/server/retention.ts:16-22 | after a purge claim that its worker heard of and one that it did not, the tables are the same, and the same review loses the object in one and not in the other |
| `KeyRotation.GuardSuffices` | drizzle/0017_demonic_firedrake.sql:56-63 | with a trigger that leaves expired rows alone too, every live row is readable in every run |
| `KeyRotation.BystanderSpares` | lib/server/retention.ts:15-25 | no collection, quarantine, expiry or purge step makes a live row one whose object a purge has set out to delete; among reviews only the one described does |
| `KeyRotation.RotatorSpares` | lib/server/key-operations.ts:198-206 | nor does any step of a rotation: a key that becomes current was not condemned while it was pending |
| `KeyRotation.RevivedRowIsLost` | lib/server/retention.ts:8-25 | for every freshly stored row, a schedule that passes every guard of the code: SELECT of the expired row, a repeat collection that extends it, the claim, a review of the new occurrence, the delete; the row is then live, approved and unreadable |
| `KeyRotationWorker.RotateEvidenceObject` | lib/server/key-operations.ts:167-219 | a rotation reported as done has heard of its claim, its put did not fail, and the row is off the former object for good, by whichever reply the worker learnt of that; whatever the outcome, a live row can be read unless a purge has set out to delete its object; and with nobody in between, for every weather, it is done exactly in the cases it should be: a readable row ends under the next key, iv and key id with the same plain bytes and the former object gone, a failed put gives the claim back and deletes the copy, a lost switch is read back, and nothing is deleted in doubt |
| `KeyRotationWorker.SwitchAndDelete` | lib/server/key-operations.ts:196-218 | the former object is deleted only once the switch is known to have committed |
| `RotationGarbage.NoObjectIsForgotten` | lib/server/key-operations.ts:167-353 | in every run in which each purge that finishes has set out to delete all that the row then names: whatever was ever sealed for the row is named by the row or its delete has been decided |
| `RotationGarbage.StepTracks` | lib/server/key-operations.ts:167-353 | every step keeps that, in particular a switch never overwrites a previous object, a claim never a pending one, and a cleanup drops only keys it is deleting |
| `RotationGarbage.FinishForgetsExactly` | lib/server/retention.ts:32-34 | the finish of a purge forgets exactly the sealed objects that the row names by then and that it never set out to delete |
| `RotationGarbage.KeyGuardSuffices` | lib/server/retention.ts:32-34 | a finish that looks at the row's keys again would forget nothing |
| `RotationGarbage.PurgeLeavesTheBytes` | lib/server/retention.ts:9-34 | for every freshly stored row, a schedule that passes every guard of the code: SELECT of the expired row, a repeat collection that extends it, a rotation, the claim, the finish; the row is then purged and names nothing, and an object that decrypts to its bytes is in the bucket with no delete decided |
| `RotationRetry.FailuresCount` | lib/server/key-rotation-reconciliation.ts:29-42 | n failures in a row count as n up to the limit, action is required exactly from the threshold on, and the wait is between ten minutes and a day |
| `RotationRetry.DelayDoubles` | lib/server/key-rotation-reconciliation.ts:36 | the wait is ten minutes at first, doubles up to the eighth failure and is a day from the ninth on |
| `CheckpointDelivery.AtMostTenClaimsOneDelivery` | lib/server/checkpoints.ts:184-507 | in every interleaving with crashes and lost replies: at most ten claims, each at least the backoff after the last, at most one delivered attempt, and its receipt object in the bucket with the committed receipt |
| `CheckpointDelivery.UndisturbedDelivery` | lib/server/checkpoints.ts:359-508 | from any state kept by the invariant, an attempt that nothing disturbs delivers: its row carries what was bound, the retry row names it and clears its lease, its object is kept |
| `CheckpointDelivery.DeliveredStaysDelivered` | drizzle/0027_lonely_guardian.sql:129-134 | from the commit of a delivered attempt on, attempts and retry row are final and the object stays |
| `CheckpointDelivery.StepKeeps` | db/schema.ts:624-650 | every step keeps the CHECK of the retry table, so it never aborts a statement, and deletes are decided only for attempts that can never be delivered |
| `CheckpointDelivery.KeepTakeClaim` | lib/server/checkpoint-delivery-retry.ts:6-12 | the claim statement counts each claim once, below the limit and not before it is due |
| `CheckpointDelivery.KeepDelivery` | lib/server/checkpoints.ts:436-456 | a delivered insert that lands, however late, is the only one and its object is intact |
| `CheckpointDelivery.KeepLearn` | lib/server/checkpoint-delivery-retry.ts:58-85 | an object is doomed after the read only when another delivered attempt under another key is visible |
| `CheckpointDelivery.KeepSettle` | lib/server/checkpoints.ts:501-506 | otherwise only when the worker's own failed completion is read back |
| `CheckpointDelivery.BackoffDoubles` | lib/server/checkpoint-delivery-retry.ts:14-22 | the backoff doubles from one minute to the ninth claim, and is six hours from the tenth on and for invalid counts |
| `CheckpointDelivery.CompletionNeedsTheClaim` | lib/server/checkpoints.ts:193-205 | an attempt is recorded only for exactly the active claim, by lease, origin, attempt and time, only once, and never after a delivery |
| `CheckpointDelivery.ClassifyExactly` | lib/server/checkpoint-delivery-retry.ts:56-84 | an authoritative read proves a commit exactly when it shows the very row that was sent, and a loss exactly when another attempt was delivered under another key |
| `CheckpointDelivery.EnsureExactly` | lib/server/checkpoints.ts:226-248 | the retry row is made once, due at once, and not for a delivered checkpoint |
| `CheckpointWorker.CompleteFailedClaim` | lib/server/checkpoints.ts:184-224 | "committed" is reported only for the exact row, "not owner" only when the claim was lost or completed before; with nobody in between exactly a claim that is owned is completed, once: tried again when due, or with action required after the tenth |
| `CheckpointWorker.ClaimCheckpointDelivery` | lib/server/checkpoints.ts:226-309 | whoever is told that it owns a claim has used up one of the checkpoint's claims; with nobody in between a claim under a live lease is left as it is, one whose lease has run out is completed as failed first, and exactly a checkpoint that is due is then claimed, for two minutes and the backoff, and owned by whoever reads that back |
| `CheckpointWorker.AttemptCheckpointDelivery` | lib/server/checkpoints.ts:359-507 | the receiver is asked only under a claim of the worker's own; "delivered" means committed with its object in the bucket; a deleted object can never be delivered; with nobody in between, how it ends in every weather: delivered with exactly the receipt, or recorded as failed under the code of the check that failed |
| `CheckpointWorker.KnownWasTaken` | lib/server/checkpoints.ts:300-308 | a read that finds the exact claim can only find one that was taken |
| `PackagePublication.ReadyListsExactlyTheEligible` | lib/server/packages.ts:218-243 | in every interleaving, when a package is ready the occurrences it lists are exactly the assessment's eligible ones at its completion instant, one to a hundred of them, and its object is in the bucket |
| `PackagePublication.EligibleExactly` | lib/server/package-eligibility.ts:6-17 | eligible is exactly an approved, unexpired, complete occurrence of a safe and finalized artifact of the assessment, with none of the same artifact received after it |
| `PackagePublication.UndisturbedBuild` | lib/server/packages.ts:122-245 | a build that nothing disturbs publishes exactly the selected rows |
| `PackagePublication.FencesForceEquality` | lib/server/package-eligibility.ts:66-73 | selected rows each still eligible and an equal count force equal sets, exactly when every selected artifact still belongs to the assessment |
| `PackagePublication.MovedArtifactSlipsThrough` | lib/server/packages.ts:218-231 | a concrete store in which a moved artifact passes both fences |
| `PackagePublication.PublishKeeps` | lib/server/packages.ts:233-241 | a publishing statement that lands, however late, publishes exactly the eligible list |
| `PackagePublication.PublishNeedsItsFences` | lib/server/packages.ts:234-241 | a package becomes ready only while it is built, on an unchanged scope with nothing pending and as many artifacts as were counted, and lists what was selected |
| `PackagePublication.StepKeeps` | lib/server/package-publication-reconciliation.ts:33-51 | each step keeps: the candidate is deleted only once the row has failed without naming it |
| `PackageBuilder.BuildAssessorPackage` | lib/server/packages.ts:122-272 | a result that is returned is published with exactly the eligible occurrences, and a candidate is deleted only of a failed package; with nobody in between a selection that stands is published whether the reply or only the read tells, anything else ends as failed, and the candidate of a package that failed is deleted once that is read |
| `JsonText.ReadUndoesWrite` | lib/server/canonical-json.ts:18-47 | the reader gives back every printed value |
| `JsonText.Unquotes` | lib/server/canonical-json.ts:25-28 | reading a printed string gives its code units back and stops after the closing quote |
| `JsonText.NumberReads` | lib/server/canonical-json.ts:21-24 | reading a printed integer gives it back and stops after its last digit |
| `JsonText.WriteExactly` | lib/server/canonical-json.ts:19-47 | the words and the punctuation that are printed, entry by entry |
| `JsonText.DecimalExactly` | lib/server/canonical-json.ts:21-24 | an integer is printed in decimal digits, most significant first, after a minus sign when negative |
| `JsonText.EscapeExactly` | lib/server/canonical-json.ts:25-28 | the escapes that are written: two characters for quote, backslash and five control characters, and every other code unit from the space on as it is |
| `JsonText.ControlEscapeExactly` | lib/server/canonical-json.ts:25-28 | the other control characters are written as a \u00 escape with two lower-case digits |
| `JsonText.ReadWellformed` | lib/server/audit.ts:94-95 | whatever text is read, every object comes out with one member per key |
| `CanonicalJson.AssertValidUnicode` | lib/server/canonical-json.ts:4-16 | the scan accepts exactly the texts in which surrogates are paired |
| `CanonicalJson.SortUnique` | lib/server/canonical-json.ts:43-43 | sorting by key depends only on which members there are |
| `Texts.LessIsSooner` | lib/server/canonical-json.ts:43-43 | one key sorts before another exactly when it is a proper prefix of it, or its code unit is the smaller at the first place where they differ |
| `CanonicalJson.CanonPrintsInOrder` | lib/server/canonical-json.ts:39-47 | the canonical text is the plain text of an equal value in which the members of every object, at every depth, follow one another in that order |
| `CanonicalJson.CanonWrites` | lib/server/canonical-json.ts:32-47 | the canonical text is the plain text of the value with members in ascending order |
| `CanonicalJson.ReadUndoesCanon` | lib/server/canonical-json.ts:18-53 | a reader gives the printed value back, with members in canonical order |
| `CanonicalJson.CanonUndoesRead` | lib/server/canonical-json.ts:18-53 | printing what a canonical text reads as gives the text back |
| `CanonicalJson.CanonIdentifies` | lib/server/canonical-json.ts:18-53 | two values share their text exactly when they are equal up to the order of members |
| `JsonGraph.Serializer.Serialize` | lib/server/canonical-json.ts:18-51 | terminates on every finite object graph, prints the canonical text of its tree or refuses, and leaves the ancestor set as it was |
| `JsonGraph.Serializer.SerializeObject` | lib/server/canonical-json.ts:39-47 | members printed in key order are the canonical text of the object; one that cannot be printed refuses it |
| `JsonGraph.RefusesExactly` | lib/server/canonical-json.ts:19-32 | a value is refused exactly when a cycle or an unsupported value can be reached from it |
| `JsonGraph.PrintedReadsBack` | lib/server/canonical-json.ts:18-53 | reading the text of a printed graph gives its tree |
| `Crc32.BuildTable` | lib/server/native-manifest.ts:323-331 | the table holds every byte value after eight shifts |
| `Crc32.ByteStep` | lib/server/native-manifest.ts:335-335 | one table step absorbs the eight bits of a byte |
| `Crc32.Compute` | lib/server/native-manifest.ts:333-337 | the table-driven check value equals the bit-by-bit definition of section 3.4 of RFC 2083 for every byte string |
| `Crc32.EndChunkValue` | lib/server/native-manifest.ts:333-337 | the check value of the type IEND is 0xae426082, as in every PNG file |
| `Png.FramedOnce` | lib/server/native-manifest.ts:356-367 | a byte string is framed as chunks in exactly one way, if at all |
| `Png.ScanMeans` | lib/server/native-manifest.ts:368-402 | the loop goes through a sequence of chunks exactly when it is ordered as sections 4.3 and 6 of RFC 2083 and the limits say |
| `Png.FramedExactly` | lib/server/native-manifest.ts:339-408 | accepted are exactly the signature and the chunks of a complete image within the limits, with right checksums and nothing after the end marker |
| `Png.HeaderExactly` | lib/server/native-manifest.ts:369-379 | exactly the headers of supported images are read: the fifteen pairs of colour type and depth, each with its bits per pixel, and sides and area within the limits |
| `Png.RowBytesExactly` | lib/server/native-manifest.ts:405-405 | a row takes the fewest bytes that hold its bits |
| `Png.CaseTells` | lib/server/native-manifest.ts:395-397 | a type that begins with a lower-case letter is ancillary, one with an upper-case letter never is |
| `Png.ShortestImage` | lib/server/native-manifest.ts:341-341 | no accepted byte string is shorter than 57 bytes |
| `Png.TakeChunk` | lib/server/native-manifest.ts:356-367 | the loop takes apart exactly the chunk that is framed at the offset |
| `Png.TakeInOrder` | lib/server/native-manifest.ts:368-401 | the checks on one chunk, branch by branch, are one step of the order |
| `Png.ValidateFraming` | lib/server/native-manifest.ts:339-408 | the chunk loop returns exactly the image that the bytes frame |
| `Scanlines.CheckScanlines` | lib/server/native-manifest.ts:409-432 | the answer is the same however the inflated bytes are cut: right total length and every row's first byte at most 4; the index is never outside the chunk |
| `Scanlines.ValidatePng` | lib/server/native-manifest.ts:339-433 | framing, decompression and rows together |
| `DerSignature.ReadPairExactly` | lib/server/native-manifest.ts:267-298 | decoding succeeds exactly on the canonical encodings of pairs in 1 to 2^256 - 1, and undoes encoding |
| `DerSignature.ReadIntegerExactly` | lib/server/native-manifest.ts:270-291 | one INTEGER is read exactly when it is the minimal positive encoding of a number in range |
| `DerSignature.FixedValue` | lib/server/native-manifest.ts:288-290 | the 32-byte form keeps the number |
| `DerSignature.TakeInteger` | lib/server/native-manifest.ts:270-291 | the reader's padded bytes are the fixed-width form of the number read |
| `DerSignature.DerEcdsaToP1363` | lib/server/native-manifest.ts:267-298 | returns the two 32-byte big-endian forms of the pair, or refuses |
| `ReconcilerPages.LoadPage` | lib/server/native-provenance-reconciliation.ts:236-305 | a page holds no row twice, at most the limit, and only due rows |
| `ReconcilerPages.MissedIsLater` | lib/server/native-provenance-reconciliation.ts:255-270 | a due row that a page leaves out comes after all of it, and the page is full |
| `ReconcilerPages.NearerByAPage` | lib/server/native-provenance-reconciliation.ts:215-217 | each pass that leaves a row out brings it nearer by a whole page, although cursor rows may vanish |
| `ReconcilerPages.EveryDueRowIsExamined` | lib/server/native-provenance-reconciliation.ts:236-305 | if the n due rows only shrink, from any cursor every row that stays due is examined within ceil(n / limit) passes |
| `CompareAndSwap.WorkersAreSequential` | lib/aws-runtime/upload.ts:406-414 | whatever the workers do with copies of any age, the stored record is a sequential run of the committed transitions, one per revision |
| `CompareAndSwap.SwapExactly` | lib/aws-runtime/upload.ts:406-414 | a swap of a copy just loaded commits exactly what the transition allows, and a stale one changes nothing |
| `Jobs.WorkersKeepJobsOk` | lib/aws-runtime/jobs.ts:97-168 | attempt never exceeds maxAttempts and the lease fields are set exactly while the job is leased |
| `Jobs.FewTransitions` | lib/aws-runtime/jobs.ts:97-150 | at most 2 * maxAttempts transitions between creation or redrive and the next redrive |
| `Jobs.BoundIsReached` | lib/aws-runtime/jobs.ts:97-134 | and that many do happen when every attempt fails |
| `Jobs.OnlyTheHolderFinishes` | lib/aws-runtime/jobs.ts:123-168 | only the current holder, within its lease, completes or fails a job, and a retry waits for its delay |
| `Jobs.LeaseExactly` | lib/aws-runtime/jobs.ts:97-121 | a lease is given out exactly for a job that is due or whose lease has run out, as its next attempt, and after the last attempt the job is a dead letter |
| `Jobs.HolderFinishes` | lib/aws-runtime/jobs.ts:123-134 | the holder within its lease completes the job as succeeded, or fails it: retried while that is allowed and an attempt is left, dead otherwise |
| `Jobs.OperatorExactly` | lib/aws-runtime/jobs.ts:136-150 | an operator cancels exactly pending jobs and redrives exactly dead letters, from the first attempt on |
| `Jobs.RetryDelays` | lib/aws-runtime/jobs.ts:132 | the delay is 2, 4, 8, 16, 32 minutes after attempts 1 to 5 and an hour from the sixth on |
| `Uploads.IssuedOk` | lib/aws-runtime/upload.ts:202-251 | an intent is issued exactly for a window of at most ten minutes with retention past its expiry |
| `Uploads.MismatchIsExact` | lib/aws-runtime/upload.ts:259-264 | bytes match exactly when digest, size and type do; each code is given exactly for its own column, digest before size before type |
| `Uploads.StepKeeps` | lib/aws-runtime/upload.ts:266-404 | every transition keeps receipts in agreement with the intent, and final states have none |
| `Uploads.FittingUploadIsPromoted` | lib/aws-runtime/upload.ts:266-382 | an upload whose receipts all fit is promoted in three transitions and keeps each receipt |
| `Uploads.ScanDecides` | lib/aws-runtime/upload.ts:307-341 | the scan of the quarantined version decides: validated exactly for the same bytes found safe, otherwise rejected under the code for what differs |
| `Uploads.PromotedAsConfigured` | lib/aws-runtime/upload.ts:371-377 | nothing is promoted under another KMS key or lock mode than the configured ones |
| `Uploads.EndsExactly` | lib/aws-runtime/upload.ts:392-404 | an upload expires exactly when it is unused at its expiry, and is rejected by hand exactly before validation |
| `Uploads.WorkersPromoteOnce` | lib/aws-runtime/upload.ts:266-404 | at most three transitions, one per revision; a promoted upload's receipts agree with the intent on tenant, keys, version, digest, size and type, with each other in time, and with the KMS key and lock mode asked for |
| `Retention.RunKeeps` | lib/aws-runtime/retention.ts:61-107 | retainUntil never decreases and a held record is retained |
| `Retention.DeletionIsRequestThenConfirm` | lib/aws-runtime/retention.ts:91-107 | a deleted record was confirmed right after its request, made at or after the final retainUntil for the exact version, with no hold or extension in between |
| `Retention.DeletedIsFinal` | lib/aws-runtime/retention.ts:61-107 | nothing changes a deleted record |
| `Retention.DeletionIsReachable` | lib/aws-runtime/retention.ts:61-107 | a retained record goes all the way to deleted, through a hold that someone else lifts, an extension, and the elapsed time |
| `Retention.HoldComesFirst` | lib/aws-runtime/retention.ts:67-107 | a hold can be placed until the record is deleted, keeps out evaluation, request and confirmation, and is not lifted by who placed it |
| `Retention.LiftedByAnother` | lib/aws-runtime/retention.ts:67-81 | every lifted hold was placed by someone else, with no other placing or lifting in between |
| `Retention.EvaluateExactly` | lib/aws-runtime/retention.ts:83-89 | eligibility is granted exactly unless held, pending, deleted, or a valid time says retention has not elapsed |
| `Retention.EligibleEarly` | lib/aws-runtime/retention.ts:83-89 | what is granted has elapsed exactly when the time is a valid date |
| `Retention.InvalidDateIsEligible` | lib/aws-runtime/retention.ts:87-88 | an invalid date makes every unheld retained record eligible |
| `Retention.CreatedInTheFuture` | lib/aws-runtime/retention.ts:43-58 | a record is created before its retainUntil exactly when the creation time is a valid date |
| `Retention.WorkersKeepRetention` | lib/aws-runtime/retention.ts:61-107 | all of this in every run of compare-and-swap workers |

## Left out

- Package rotation, the package purge and the Jira token rotation: the first two follow the evidence protocol with another status guard; the last is one guarded update.
- storeEvidence's own object write and its cleanup on error: rotation starts from rows whose objects exist.
- The garbage and purge loops over many rows: each row's part is a step of the machine; the loops add no state.
- The audit events of reviews, user administration and repeat collections among the capture steps: these are single steps that always commit; their own guards on role, permission and time only make them rarer.
- Concurrent reconcilers in the page property: passes follow one another on the stored cursor; the compare-and-swap on the cursor row is not modelled.
- RotationGarbage.NoObjectIsForgotten: speaks of deletes that have been decided; a put that lands after its delete brings the object back, and no worker looks for it again.
- Rows changed by triggers inside a statement: a statement's row count stands for all the rows it changed.
- The verification cache of the audit verifier, the verification of the latest checkpoint (a parameter), and tables that grow while they are verified.
- Numbers other than integers in JSON; integers of 1e21 and beyond, which JavaScript prints with an exponent, are printed here in plain digits.
- Real hashing, signing, encryption and DEFLATE.
- The pending counters of package eligibility and the change of the assessment row: parameters of the publishing step.
- Package files, PDF, CSV, ZIP and the 25 MB limit on their sum.
- createAuditCheckpoint and the external receiver: the answers along a delivery are parameters.
- The claim statement of checkpoint recovery looks at the worker's clock before completing an expired claim; the model lets a completion be sent at any time.
- Field formats in uploads, jobs and retention, tenant and permission checks (one parameter), and the key namespace check of retention.
- assertSafeJson, safeEqual and stableJson of lib/aws-runtime/contracts.ts; the legacy collection job runner.
