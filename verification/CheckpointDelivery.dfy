/** Delivery of one audit checkpoint to the external receiver: expiring claims, immutable attempts,
    and receipt objects that are deleted only when they are proven to have lost. Statements may take
    effect long after the worker that sent them gave up; a reply may be lost at any point; a crash is
    a worker that takes no further step. A receipt object's key spells out checkpoint and attempt, so
    a `World` is one checkpoint and objects are named by their attempt. */
module CheckpointDelivery {
  import opened Powers
  import opened Texts

  type AttemptId = nat
  type LeaseId = nat
  type Origin = nat

  /** The signed receipt envelope; equal envelopes have equal digest, signature and text. */
  type Receipt = nat

  datatype FailureCode =
    | AuditHeadChanged | CheckpointCoreInvalid | DeliveryRequestFailed | EndpointHttpError | ExternalReceiptInvalid
    | ReceiptBindingFailed | ReceiptStorageFailed | DeliveryCommitPreconditionFailed | DeliveryClaimExpired

  const MAX_ATTEMPTS := 10
  const RETRY_BASE_MS := 60_000
  const RETRY_MAX_MS := 21_600_000
  const CLAIM_LEASE_MS := 120_000

  /** Out-of-range counts fall back to the largest. */
  function Backoff(attemptCountInput: int): int {
    var attemptCount := if attemptCountInput > 0 then Min(attemptCountInput, MAX_ATTEMPTS) else MAX_ATTEMPTS;
    Min(RETRY_MAX_MS, RETRY_BASE_MS * Pow2(Min(attemptCount - 1, 16)))
  }

  datatype RetryStatus = Retrying | Claimed | ActionRequired | Delivered

  datatype Lease = Lease(id: LeaseId, expiresAt: int, origin: Origin)

  datatype Last = Last(attempt: AttemptId, at: int)

  datatype Retry = Retry(status: RetryStatus, attemptCount: nat, nextAttemptAt: Option<int>, lease: Option<Lease>,
                         last: Option<Last>, failure: Option<FailureCode>, deliveredAttempt: Option<AttemptId>)

  /** The CHECK on the retry table. */
  predicate Shape(r: Retry) {
    && r.attemptCount <= MAX_ATTEMPTS
    && match r.status
       case Retrying =>
         && r.attemptCount <= 9 && r.nextAttemptAt.Some? && r.lease.None? && r.deliveredAttempt.None?
         && (if r.attemptCount == 0 then r.last.None? && r.failure.None? else r.last.Some? && r.failure.Some?)
       case Claimed =>
         r.attemptCount >= 1 && r.nextAttemptAt.Some? && r.lease.Some? && r.last.Some? && r.deliveredAttempt.None?
       case ActionRequired =>
         && r.attemptCount == MAX_ATTEMPTS && r.nextAttemptAt.None? && r.lease.None?
         && r.last.Some? && r.failure.Some? && r.deliveredAttempt.None?
       case Delivered =>
         && r.nextAttemptAt.None? && r.lease.None? && r.failure.None?
         && (if r.deliveredAttempt.None? then r.last.None? else r.last.Some? && r.deliveredAttempt == Some(r.last.value.attempt))
  }

  /** An immutable row of the attempts table. */
  datatype Attempt =
    | Success(origin: Origin, attemptedAt: int, receipt: Receipt, key: AttemptId, createdAt: int)
    | Failure(origin: Origin, attemptedAt: int, code: FailureCode, createdAt: int)

  /** What a worker holds once it owns a claim. */
  datatype Claim = Claim(attempt: AttemptId, lease: LeaseId, attemptedAt: int, origin: Origin)

  datatype Stage =
    | Unheard                                      // the claim's reply or the read after it was lost
    | Owner
    | Storing(receipt: Receipt, boundAt: int)      // the put is on its way
    | Stored(receipt: Receipt, boundAt: int)       // the put was acknowledged
    | Delivering(receipt: Receipt, boundAt: int)   // the insert is on its way
    | Settling(receipt: Receipt, boundAt: int)     // the insert certainly changed no row
    | Done(receipt: Receipt, boundAt: int)

  datatype Worker = Worker(claim: Claim, stage: Stage)

  predicate InsertInFlight(s: Stage) {
    s.Delivering? || s.Settling? || s.Done?
  }

  predicate Bound(s: Stage) {
    s.Storing? || s.Stored? || InsertInFlight(s)
  }

  /** Tables, bucket and workers, with the histories of what was bound, acknowledged, doomed to
      deletion, and when claims were taken. */
  datatype World = World(
    retry: Option<Retry>, attempts: map<AttemptId, Attempt>, bucket: map<AttemptId, Receipt>, workers: map<AttemptId, Worker>,
    bound: map<AttemptId, Receipt>, acked: set<AttemptId>, doomed: set<AttemptId>, claims: seq<int>)

  type Attempts = map<AttemptId, Attempt>

  predicate IsDelivered(attempts: Attempts, id: AttemptId) {
    id in attempts && attempts[id].Success?
  }

  predicate AnyDelivered(attempts: Attempts) {
    exists id | id in attempts :: attempts[id].Success?
  }

  // ---- statements ----

  /** Creates the retry row once; an existing row is left alone. */
  function Ensure(w: World, now: int): World {
    if w.retry.None? && !AnyDelivered(w.attempts)
    then w.(retry := Some(Retry(Retrying, 0, Some(now), None, None, None, None))) else w
  }

  predicate Claimable(w: World, id: AttemptId, observedCount: nat, now: int) {
    && id !in w.workers && w.retry.Some?
    && var r := w.retry.value;
       r.status == Retrying && r.attemptCount == observedCount && observedCount < MAX_ATTEMPTS
       && r.nextAttemptAt.Some? && r.nextAttemptAt.value <= now && !AnyDelivered(w.attempts)
  }

  /** The compare-and-swap that takes a claim; `heard` says whether the worker learns that it has it. */
  function TakeClaim(w: World, claim: Claim, observedCount: nat, heard: bool): World {
    if Claimable(w, claim.attempt, observedCount, claim.attemptedAt)
    then
      var count := observedCount + 1;
      w.(retry := Some(w.retry.value.(
           status := Claimed, attemptCount := count, nextAttemptAt := Some(claim.attemptedAt + Backoff(count)),
           lease := Some(Lease(claim.lease, claim.attemptedAt + CLAIM_LEASE_MS, claim.origin)),
           last := Some(Last(claim.attempt, claim.attemptedAt)))),
         workers := w.workers[claim.attempt := Worker(claim, if heard then Owner else Unheard)],
         claims := w.claims + [claim.attemptedAt])
    else w
  }

  /** The rows that both inserts select from: the exact active claim and no delivered attempt. */
  predicate OwnsClaim(w: World, claim: Claim) {
    && w.retry.Some? && !AnyDelivered(w.attempts)
    && var r := w.retry.value;
       r.status == Claimed && r.lease.Some? && r.lease.value.id == claim.lease && r.lease.value.origin == claim.origin
       && r.last == Some(Last(claim.attempt, claim.attemptedAt))
  }

  /** The trigger after an attempt is inserted. */
  function Complete(r: Retry, id: AttemptId, attempt: Attempt): Retry {
    r.(status := if attempt.Success? then Delivered else if r.attemptCount >= 10 then ActionRequired else Retrying,
       nextAttemptAt := if attempt.Failure? && r.attemptCount < 10 then r.nextAttemptAt else None,
       lease := None,
       failure := if attempt.Failure? then Some(attempt.code) else None,
       deliveredAttempt := if attempt.Success? then Some(id) else None)
  }

  /** Inserts an attempt; the primary key refuses a second row with the same id. */
  function InsertAttempt(w: World, claim: Claim, attempt: Attempt): World {
    if OwnsClaim(w, claim) && claim.attempt !in w.attempts
    then w.(attempts := w.attempts[claim.attempt := attempt], retry := Some(Complete(w.retry.value, claim.attempt, attempt)))
    else w
  }

  /** A failed completion by the claim's owner, or by whoever recovers an expired claim. */
  function FailureLands(w: World, claim: Claim, code: FailureCode, completedAt: int): World {
    InsertAttempt(w, claim, Failure(claim.origin, claim.attemptedAt, code, completedAt))
  }

  function SetStage(w: World, id: AttemptId, stage: Stage): World
    requires id in w.workers
  {
    w.(workers := w.workers[id := w.workers[id].(stage := stage)])
  }

  /** The delivered insert takes effect; `headHolds` stands for the audit-head subqueries. */
  function DeliveryLands(w: World, id: AttemptId, headHolds: bool): World {
    if id in w.workers && InsertInFlight(w.workers[id].stage) && headHolds
    then
      var k := w.workers[id];
      InsertAttempt(w, k.claim, Success(k.claim.origin, k.claim.attemptedAt, k.stage.receipt, id, k.stage.boundAt))
    else w
  }

  function Bind(w: World, id: AttemptId, receipt: Receipt, boundAt: int): World {
    if id in w.workers && w.workers[id].stage.Owner?
    then SetStage(w, id, Storing(receipt, boundAt)).(bound := w.bound[id := receipt]) else w
  }

  function PutLands(w: World, id: AttemptId): World {
    if id in w.bound then w.(bucket := w.bucket[id := w.bound[id]]) else w
  }

  function PutAcknowledged(w: World, id: AttemptId): World {
    if id in w.workers && w.workers[id].stage.Storing?
    then
      var s := w.workers[id].stage;
      SetStage(w, id, Stored(s.receipt, s.boundAt)).(bucket := w.bucket[id := s.receipt], acked := w.acked + {id})
    else w
  }

  function Send(w: World, id: AttemptId): World {
    if id in w.workers && w.workers[id].stage.Stored?
    then SetStage(w, id, Delivering(w.workers[id].stage.receipt, w.workers[id].stage.boundAt)) else w
  }

  datatype Disposition = Committed | ProvenLoser | Uncertain

  /** The authoritative read of the checkpoint's delivered attempt, compared with what was sent. */
  function Classify(winner: Option<(AttemptId, Attempt)>, claim: Claim, receipt: Receipt, boundAt: int): Disposition {
    if winner.None? || winner.value.1.Failure? then Uncertain
    else
      var (id, d) := winner.value;
      if id == claim.attempt
      then if d == Success(claim.origin, claim.attemptedAt, receipt, claim.attempt, boundAt) then Committed else Uncertain
      else if d.key != claim.attempt then ProvenLoser
      else Uncertain
  }

  /** The read may see any one delivered attempt (there is at most one), or be unavailable. */
  predicate Sees(w: World, winner: Option<(AttemptId, Attempt)>) {
    match winner
    case None => true
    case Some((id, d)) => id in w.attempts && w.attempts[id] == d
  }

  /** After the insert: done, delete the proven loser, or complete the claim as failed when the reply
      said for certain that no row was inserted. */
  function Learn(w: World, id: AttemptId, winner: Option<(AttemptId, Attempt)>, certainlyUnchanged: bool): World {
    if id in w.workers && w.workers[id].stage.Delivering? && Sees(w, winner)
    then
      var k := w.workers[id];
      var s := k.stage;
      match Classify(winner, k.claim, s.receipt, s.boundAt)
      case Committed => SetStage(w, id, Done(s.receipt, s.boundAt))
      case ProvenLoser => SetStage(w, id, Done(s.receipt, s.boundAt)).(doomed := w.doomed + {id})
      case Uncertain => SetStage(w, id, if certainlyUnchanged then Settling(s.receipt, s.boundAt) else Done(s.receipt, s.boundAt))
    else w
  }

  /** The object is deleted only when the worker's own failed completion is read back. */
  function Settle(w: World, id: AttemptId, completedAt: int): World {
    if id in w.workers && w.workers[id].stage.Settling?
    then
      var k := w.workers[id];
      var done := SetStage(w, id, Done(k.stage.receipt, k.stage.boundAt));
      if id in w.attempts
         && w.attempts[id] == Failure(k.claim.origin, k.claim.attemptedAt, DeliveryCommitPreconditionFailed, completedAt)
      then done.(doomed := w.doomed + {id}) else done
    else w
  }

  function DeleteLands(w: World, id: AttemptId): World {
    if id in w.doomed then w.(bucket := w.bucket - {id}) else w
  }

  // ---- what guards the rows ----

  /** The retry row is made once, due at once. */
  lemma EnsureExactly(w: World, now: int)
    ensures Ensure(w, now)
            == if w.retry.Some? || exists id | id in w.attempts :: w.attempts[id].Success? then w
               else w.(retry := Some(Retry(Retrying, 0, Some(now), None, None, None, None)))
  {
  }

  /** An attempt is recorded only by the holder of exactly this claim, once, and before any delivery. */
  lemma CompletionNeedsTheClaim(w: World, claim: Claim, attempt: Attempt)
    requires InsertAttempt(w, claim, attempt) != w
    ensures claim.attempt !in w.attempts && forall id | id in w.attempts :: w.attempts[id].Failure?
    ensures w.retry.Some? && w.retry.value.status == Claimed && w.retry.value.last == Some(Last(claim.attempt, claim.attemptedAt))
    ensures w.retry.value.lease.Some?
            && w.retry.value.lease == Some(Lease(claim.lease, w.retry.value.lease.value.expiresAt, claim.origin))
  {
  }

  /** What the authoritative read proves: committed exactly for the very row that was sent, lost exactly
      when another attempt was delivered under another key, and otherwise nothing. */
  lemma ClassifyExactly(winner: Option<(AttemptId, Attempt)>, claim: Claim, receipt: Receipt, boundAt: int)
    ensures var d := Classify(winner, claim, receipt, boundAt);
            && (d == Committed <==> winner == Some((claim.attempt, Success(claim.origin, claim.attemptedAt, receipt, claim.attempt, boundAt))))
            && (d == ProvenLoser <==> winner.Some? && winner.value.1.Success? && winner.value.0 != claim.attempt
                                      && winner.value.1.key != claim.attempt)
  {
  }

  datatype Step =
    | SEnsure(now: int)
    | STakeClaim(claim: Claim, observedCount: nat, heard: bool)
    | SFailureLands(claim: Claim, code: FailureCode, completedAt: int)
    | SBind(id: AttemptId, receipt: Receipt, boundAt: int)
    | SPutLands(id: AttemptId)
    | SPutAcknowledged(id: AttemptId)
    | SSend(id: AttemptId)
    | SDeliveryLands(id: AttemptId, headHolds: bool)
    | SLearn(id: AttemptId, winner: Option<(AttemptId, Attempt)>, certainlyUnchanged: bool)
    | SSettle(id: AttemptId, completedAt: int)
    | SDeleteLands(id: AttemptId)

  function Apply(w: World, step: Step): World {
    match step
    case SEnsure(now) => Ensure(w, now)
    case STakeClaim(claim, observedCount, heard) => TakeClaim(w, claim, observedCount, heard)
    case SFailureLands(claim, code, completedAt) => FailureLands(w, claim, code, completedAt)
    case SBind(id, receipt, boundAt) => Bind(w, id, receipt, boundAt)
    case SPutLands(id) => PutLands(w, id)
    case SPutAcknowledged(id) => PutAcknowledged(w, id)
    case SSend(id) => Send(w, id)
    case SDeliveryLands(id, headHolds) => DeliveryLands(w, id, headHolds)
    case SLearn(id, winner, certainlyUnchanged) => Learn(w, id, winner, certainlyUnchanged)
    case SSettle(id, completedAt) => Settle(w, id, completedAt)
    case SDeleteLands(id) => DeleteLands(w, id)
  }

  function Run(w: World, steps: seq<Step>): World
    decreases |steps|
  {
    if steps == [] then w else Run(Apply(w, steps[0]), steps[1..])
  }

  // ---- the invariant ----

  /** The table's CHECK holds, so it never aborts a statement; every claim was counted, and no
      claim came before the backoff after the one before it. */
  ghost predicate RetryOk(w: World) {
    && (forall k | 0 < k < |w.claims| :: w.claims[k] >= w.claims[k - 1] + Backoff(k))
    && match w.retry
       case None => w.claims == [] && w.attempts == map[]
       case Some(r) =>
         && Shape(r) && r.attemptCount == |w.claims|
         && (r.nextAttemptAt.Some? && |w.claims| > 0 ==>
               r.nextAttemptAt.value == w.claims[|w.claims| - 1] + Backoff(|w.claims|))
         && (r.status == Claimed ==> r.last.value.attempt !in w.attempts)
         && (r.last.Some? ==> r.last.value.attempt in w.workers)
         && (r.status != Delivered ==> !AnyDelivered(w.attempts))
  }

  /** A delivered attempt is the one that the retry row names, under its own acknowledged receipt. */
  ghost predicate AttemptsOk(w: World) {
    && (forall id | id in w.attempts :: id in w.workers)
    && (forall id | IsDelivered(w.attempts, id) ::
          w.retry.Some? && w.retry.value.status == Delivered && w.retry.value.deliveredAttempt == Some(id)
          && id in w.acked && id in w.bound && w.bound[id] == w.attempts[id].receipt && w.attempts[id].key == id)
  }

  ghost predicate ObjectsOk(w: World) {
    && (forall id | id in w.bucket :: id in w.bound && w.bucket[id] == w.bound[id])
    && (forall id | id in w.acked :: id in w.bound && (id in w.bucket || id in w.doomed))
    && (forall id | id in w.doomed ::
          (id in w.attempts && w.attempts[id].Failure?) || (!IsDelivered(w.attempts, id) && AnyDelivered(w.attempts)))
  }

  ghost predicate WorkersOk(w: World) {
    forall id | id in w.workers ::
      && w.workers[id].claim.attempt == id
      && (Bound(w.workers[id].stage) ==> id in w.bound && w.bound[id] == w.workers[id].stage.receipt)
      && (id in w.bound ==> Bound(w.workers[id].stage))
      && (w.workers[id].stage.Stored? || InsertInFlight(w.workers[id].stage) ==> id in w.acked)
  }

  ghost predicate Inv(w: World) {
    RetryOk(w) && AttemptsOk(w) && ObjectsOk(w) && WorkersOk(w) && w.bound.Keys <= w.workers.Keys
  }

  lemma KeepEnsure(w: World, now: int)
    requires Inv(w)
    ensures Inv(Ensure(w, now))
  {
  }

  lemma KeepTakeClaim(w: World, claim: Claim, observedCount: nat, heard: bool)
    requires Inv(w)
    ensures Inv(TakeClaim(w, claim, observedCount, heard))
  {
  }

  lemma KeepFailure(w: World, claim: Claim, code: FailureCode, completedAt: int)
    requires Inv(w)
    ensures Inv(FailureLands(w, claim, code, completedAt))
  {
  }

  lemma BindWorkers(w: World, id: AttemptId, receipt: Receipt, boundAt: int)
    requires WorkersOk(w)
    ensures WorkersOk(Bind(w, id, receipt, boundAt))
  {
  }

  lemma BindObjects(w: World, id: AttemptId, receipt: Receipt, boundAt: int)
    requires ObjectsOk(w) && AttemptsOk(w) && WorkersOk(w)
    ensures ObjectsOk(Bind(w, id, receipt, boundAt)) && AttemptsOk(Bind(w, id, receipt, boundAt))
  {
  }

  lemma KeepBind(w: World, id: AttemptId, receipt: Receipt, boundAt: int)
    requires Inv(w)
    ensures Inv(Bind(w, id, receipt, boundAt))
  {
    hide Shape, Backoff, WorkersOk, ObjectsOk, AttemptsOk;
    BindWorkers(w, id, receipt, boundAt);
    BindObjects(w, id, receipt, boundAt);
  }

  lemma KeepPutLands(w: World, id: AttemptId)
    requires Inv(w)
    ensures Inv(PutLands(w, id))
  {
    hide Shape, Backoff;
  }

  lemma KeepDeleteLands(w: World, id: AttemptId)
    requires Inv(w)
    ensures Inv(DeleteLands(w, id))
  {
    hide Shape, Backoff;
  }

  lemma KeepPut(w: World, id: AttemptId)
    requires Inv(w)
    ensures Inv(PutAcknowledged(w, id))
  {
    hide Shape, Backoff;
  }

  lemma KeepSend(w: World, id: AttemptId)
    requires Inv(w)
    ensures Inv(Send(w, id))
  {
  }

  lemma KeepDelivery(w: World, id: AttemptId, headHolds: bool)
    requires Inv(w)
    ensures Inv(DeliveryLands(w, id, headHolds))
  {
  }

  lemma KeepEnd(w: World, id: AttemptId, settle: bool)
    requires Inv(w) && id in w.workers && w.workers[id].stage.Delivering?
    ensures var s := w.workers[id].stage;
            Inv(SetStage(w, id, if settle then Settling(s.receipt, s.boundAt) else Done(s.receipt, s.boundAt)))
  {
  }

  lemma KeepLoser(w: World, id: AttemptId, winner: AttemptId)
    requires Inv(w) && IsDelivered(w.attempts, winner) && winner != id
    ensures Inv(w.(doomed := w.doomed + {id}))
  {
    assert !IsDelivered(w.attempts, id);
  }

  /** Another delivered attempt under another key: this one can never be delivered. */
  lemma KeepLearn(w: World, id: AttemptId, winner: Option<(AttemptId, Attempt)>, certainlyUnchanged: bool)
    requires Inv(w)
    ensures Inv(Learn(w, id, winner, certainlyUnchanged))
  {
    if id in w.workers && w.workers[id].stage.Delivering? && Sees(w, winner) {
      var k := w.workers[id];
      var disposition := Classify(winner, k.claim, k.stage.receipt, k.stage.boundAt);
      KeepEnd(w, id, disposition == Uncertain && certainlyUnchanged);
      if disposition == ProvenLoser {
        assert IsDelivered(w.attempts, winner.value.0);
        assert winner.value.0 != id;
        KeepLoser(SetStage(w, id, Done(k.stage.receipt, k.stage.boundAt)), id, winner.value.0);
      }
    }
  }

  lemma SettleWorkers(w: World, id: AttemptId, completedAt: int)
    requires WorkersOk(w)
    ensures WorkersOk(Settle(w, id, completedAt))
  {
  }

  lemma KeepSettle(w: World, id: AttemptId, completedAt: int)
    requires Inv(w)
    ensures Inv(Settle(w, id, completedAt))
  {
    hide Shape, Backoff, WorkersOk;
    SettleWorkers(w, id, completedAt);
  }

  lemma StepKeeps(w: World, step: Step)
    requires Inv(w)
    ensures Inv(Apply(w, step))
  {
    hide Inv;
    match step
    case SEnsure(now) => KeepEnsure(w, now);
    case STakeClaim(claim, observedCount, heard) => KeepTakeClaim(w, claim, observedCount, heard);
    case SFailureLands(claim, code, completedAt) => KeepFailure(w, claim, code, completedAt);
    case SBind(id, receipt, boundAt) => KeepBind(w, id, receipt, boundAt);
    case SPutLands(id) => KeepPutLands(w, id);
    case SPutAcknowledged(id) => KeepPut(w, id);
    case SSend(id) => KeepSend(w, id);
    case SDeliveryLands(id, headHolds) => KeepDelivery(w, id, headHolds);
    case SLearn(id, winner, certainlyUnchanged) => KeepLearn(w, id, winner, certainlyUnchanged);
    case SSettle(id, completedAt) => KeepSettle(w, id, completedAt);
    case SDeleteLands(id) => KeepDeleteLands(w, id);
  }

  /** Attempts are never changed or removed, and neither terminal status is ever left. */
  ghost predicate Grows(w: World, v: World) {
    && (forall id | id in w.attempts :: id in v.attempts && v.attempts[id] == w.attempts[id])
    && w.claims <= v.claims
    && (w.retry.Some? ==> v.retry.Some?)
    && (w.retry.Some? && w.retry.value.status in {Delivered, ActionRequired} ==> v.retry == w.retry && v.attempts == w.attempts)
  }

  lemma StepGrows(w: World, step: Step)
    ensures Grows(w, Apply(w, step))
  {
  }

  lemma {:induction false} RunKeeps(w: World, steps: seq<Step>)
    requires Inv(w)
    ensures Inv(Run(w, steps))
    ensures Grows(w, Run(w, steps))
    decreases |steps|
  {
    hide Apply, Inv;
    if steps != [] {
      StepKeeps(w, steps[0]);
      StepGrows(w, steps[0]);
      RunKeeps(Apply(w, steps[0]), steps[1..]);
    }
  }

  ghost predicate Initial(w: World) {
    w == World(None, map[], map[], map[], map[], {}, {}, [])
  }

  lemma InitialKeeps(w: World)
    requires Initial(w)
    ensures Inv(w)
  {
  }

  /** In every interleaving a checkpoint is claimed at most ten times, each claim at least the backoff
      after the one before it; it has at most one delivered attempt; and from the commit of that
      attempt on, its receipt object is in the bucket with exactly the committed receipt. */
  lemma AtMostTenClaimsOneDelivery(w: World, steps: seq<Step>, a: AttemptId, b: AttemptId)
    requires Initial(w)
    ensures var v := Run(w, steps);
            && |v.claims| <= 10
            && (forall k | 0 < k < |v.claims| :: v.claims[k] >= v.claims[k - 1] + Backoff(k))
            && (IsDelivered(v.attempts, a) && IsDelivered(v.attempts, b) ==> a == b)
            && (IsDelivered(v.attempts, a) ==> a in v.bucket && v.bucket[a] == v.attempts[a].receipt)
  {
    InitialKeeps(w);
    RunKeeps(w, steps);
    var v := Run(w, steps);
    if IsDelivered(v.attempts, a) {
      assert a !in v.doomed;
    }
  }

  /** Once delivered, an attempt stays as it is and its object stays in the bucket. */
  lemma DeliveredStaysDelivered(w: World, steps: seq<Step>, id: AttemptId)
    requires Inv(w) && IsDelivered(w.attempts, id)
    ensures var v := Run(w, steps);
            && IsDelivered(v.attempts, id) && v.attempts == w.attempts && v.retry == w.retry
            && id in v.bucket && v.bucket[id] == w.attempts[id].receipt
  {
    RunKeeps(w, steps);
  }

  /** From its claim to the acknowledged put, and from the insert to the read that confirms it. */
  function WholeStoring(w: World, claim: Claim, observedCount: nat, receipt: Receipt, boundAt: int): World {
    PutAcknowledged(Bind(TakeClaim(w, claim, observedCount, true), claim.attempt, receipt, boundAt), claim.attempt)
  }

  function WholeInsert(w: World, id: AttemptId): World {
    var landed := DeliveryLands(Send(w, id), id, true);
    Learn(landed, id, if id in landed.attempts then Some((id, landed.attempts[id])) else None, false)
  }

  lemma UndisturbedStoring(w: World, claim: Claim, observedCount: nat, receipt: Receipt, boundAt: int)
    requires Claimable(w, claim.attempt, observedCount, claim.attemptedAt)
    ensures var v, id := WholeStoring(w, claim, observedCount, receipt, boundAt), claim.attempt;
            && v.attempts == w.attempts && v.bucket == w.bucket[id := receipt] && v.doomed == w.doomed
            && id in v.workers && v.workers[id] == Worker(claim, Stored(receipt, boundAt)) && OwnsClaim(v, claim)
            && v.retry.value.attemptCount == observedCount + 1
  {
    hide Backoff, AnyDelivered;
  }

  lemma UndisturbedInsert(w: World, claim: Claim, receipt: Receipt, boundAt: int)
    requires claim.attempt in w.workers && w.workers[claim.attempt] == Worker(claim, Stored(receipt, boundAt))
    requires OwnsClaim(w, claim) && claim.attempt !in w.attempts
    ensures var v, id := WholeInsert(w, claim.attempt), claim.attempt;
            && v.attempts == w.attempts[id := Success(claim.origin, claim.attemptedAt, receipt, id, boundAt)]
            && v.bucket == w.bucket && v.doomed == w.doomed && id in v.workers
            && v.workers[id] == Worker(claim, Done(receipt, boundAt))
            && v.retry == Some(Retry(Delivered, w.retry.value.attemptCount, None, None, Some(Last(id, claim.attemptedAt)), None, Some(id)))
  {
    hide AnyDelivered;
  }

  /** An attempt that nothing disturbs delivers: its row carries what was bound, the retry row names
      it, its object is kept and the worker is done. */
  lemma UndisturbedDelivery(w: World, claim: Claim, observedCount: nat, receipt: Receipt, boundAt: int)
    requires Inv(w) && Claimable(w, claim.attempt, observedCount, claim.attemptedAt)
    ensures var v, id := WholeInsert(WholeStoring(w, claim, observedCount, receipt, boundAt), claim.attempt), claim.attempt;
            && v.attempts == w.attempts[id := Success(claim.origin, claim.attemptedAt, receipt, id, boundAt)]
            && v.bucket == w.bucket[id := receipt] && v.doomed == w.doomed
            && id in v.workers && v.workers[id] == Worker(claim, Done(receipt, boundAt))
            && v.retry == Some(Retry(Delivered, observedCount + 1, None, None, Some(Last(id, claim.attemptedAt)), None, Some(id)))
  {
    assert claim.attempt !in w.attempts;
    hide Inv, Claimable, WholeStoring, WholeInsert, OwnsClaim;
    UndisturbedStoring(w, claim, observedCount, receipt, boundAt);
    UndisturbedInsert(WholeStoring(w, claim, observedCount, receipt, boundAt), claim, receipt, boundAt);
  }

  /** The backoff doubles from one minute and is capped at six hours from the tenth claim on. */
  lemma BackoffDoubles(n: int)
    ensures 1 <= n <= 9 ==> Backoff(n) == 60_000 * Pow2(n - 1)
    ensures n < 1 || n >= 10 ==> Backoff(n) == 21_600_000
    ensures 1 <= n <= 8 ==> Backoff(n + 1) == 2 * Backoff(n)
  {
    assert Pow2(4) == 16 && Pow2(8) == 256 && Pow2(9) == 512;
    PowersGrow(if 1 <= n <= 9 then n - 1 else 8, 8);
    PowersGrow(if 1 <= n <= 8 then n else 8, 8);
  }
}
