/** One delivery attempt as the worker runs it, in place on the tables and the bucket, with whatever
    other workers do at each point where it waits. */
module CheckpointWorker {
  import opened Texts
  import opened CheckpointDelivery

  class Store {
    var world: World

    constructor (world: World)
      ensures this.world == world
    {
      this.world := world;
    }
  }

  /** The steps that only the worker of attempt `id` takes. */
  predicate Own(step: Step, id: AttemptId) {
    || (step.STakeClaim? && step.claim.attempt == id)
    || ((step.SBind? || step.SPutAcknowledged? || step.SSend? || step.SLearn? || step.SSettle?) && step.id == id)
  }

  predicate Foreign(steps: seq<Step>, id: AttemptId) {
    forall step | step in steps :: !Own(step, id)
  }

  /** Other workers leave this worker's position alone. */
  ghost predicate SamePlace(w: World, v: World, id: AttemptId) {
    (id in w.workers <==> id in v.workers) && (id in w.workers ==> v.workers[id] == w.workers[id])
  }

  lemma ForeignStep(w: World, step: Step, id: AttemptId)
    requires !Own(step, id)
    ensures SamePlace(w, Apply(w, step), id)
  {
  }

  lemma {:induction false} ForeignRun(w: World, steps: seq<Step>, id: AttemptId)
    requires Foreign(steps, id)
    ensures SamePlace(w, Run(w, steps), id)
    decreases |steps|
  {
    hide Apply, Own;
    if steps != [] {
      ForeignStep(w, steps[0], id);
      ForeignRun(Apply(w, steps[0]), steps[1..], id);
    }
  }

  lemma {:induction false} RunAppend(w: World, first: seq<Step>, second: seq<Step>)
    ensures Run(w, first + second) == Run(Run(w, first), second)
    decreases |first|
  {
    hide Apply;
    if first == [] {
      assert first + second == second;
    } else {
      assert (first + second)[1..] == first[1..] + second;
      RunAppend(Apply(w, first[0]), first[1..], second);
    }
  }

  method Advance(store: Store, ghost start: World, ghost trace: seq<Step>, step: Step)
    returns (ghost longer: seq<Step>)
    requires store.world == Run(start, trace)
    modifies store
    ensures store.world == Apply(old(store.world), step) && store.world == Run(start, longer)
    ensures Grows(old(store.world), store.world) && |old(store.world).claims| <= |store.world.claims|
  {
    StepGrows(store.world, step);
    RunAppend(start, trace, [step]);
    assert [step][1..] == [];
    hide Grows;
    store.world := Apply(store.world, step);
    longer := trace + [step];
  }

  method Wait(store: Store, ghost start: World, ghost trace: seq<Step>, steps: seq<Step>, id: AttemptId)
    returns (ghost longer: seq<Step>)
    requires store.world == Run(start, trace) && Inv(start) && Foreign(steps, id)
    modifies store
    ensures store.world == Run(start, longer)
    ensures SamePlace(old(store.world), store.world, id)
    ensures Grows(old(store.world), store.world) && |old(store.world).claims| <= |store.world.claims|
    ensures steps == [] ==> store.world == old(store.world)
  {
    hide Apply, Own, Inv;
    RunKeeps(start, trace);
    RunKeeps(store.world, steps);
    hide Grows;
    RunAppend(start, trace, steps);
    ForeignRun(store.world, steps, id);
    store.world := Run(store.world, steps);
    longer := trace + steps;
  }

  lemma GrowsTransitively(u: World, v: World, w: World)
    requires Grows(u, v) && Grows(v, w)
    ensures Grows(u, w)
  {
  }

  datatype Completion = Completed | NotOwner | Unknown

  /** What the network does to a statement: whether it reaches the database, whether its reply comes
      back, what others do before the read that follows, and whether that read succeeds. */
  datatype Line = Line(lands: bool, heard: bool, between: seq<Step>, readable: bool)

  predicate FailedAs(w: World, claim: Claim, code: FailureCode, completedAt: int) {
    claim.attempt in w.attempts && w.attempts[claim.attempt] == Failure(claim.origin, claim.attemptedAt, code, completedAt)
  }

  /** What a failed completion does to tables that nobody else touches: the attempt is recorded, and the
      checkpoint is tried again when it is due, or needs an operator after the tenth. */
  predicate FailsAs(w: World, v: World, claim: Claim, code: FailureCode, completedAt: int) {
    && w.retry.Some?
    && v == w.(attempts := w.attempts[claim.attempt := Failure(claim.origin, claim.attemptedAt, code, completedAt)],
               retry := Some(w.retry.value.(
                 status := if w.retry.value.attemptCount >= 10 then ActionRequired else Retrying,
                 nextAttemptAt := if w.retry.value.attemptCount >= 10 then None else w.retry.value.nextAttemptAt,
                 lease := None, failure := Some(code), deliveredAttempt := None)))
  }

  predicate MayComplete(w: World, claim: Claim) {
    OwnsClaim(w, claim) && claim.attempt !in w.attempts
  }

  /** How a completion ends when nobody interferes. */
  predicate CompletesAlone(w: World, v: World, result: Completion, claim: Claim, code: FailureCode, completedAt: int, line: Line) {
    && (line.lands && MayComplete(w, claim) ==> FailsAs(w, v, claim, code, completedAt))
    && (!line.lands || !MayComplete(w, claim) ==> v == w)
    && (result == Completed <==> line.readable && FailedAs(v, claim, code, completedAt))
    && (result == NotOwner <==> line.lands && line.heard && line.readable && !MayComplete(w, claim) && !FailedAs(w, claim, code, completedAt))
  }

  lemma FailureEffect(w: World, claim: Claim, code: FailureCode, completedAt: int)
    ensures var v := Apply(w, SFailureLands(claim, code, completedAt));
            if MayComplete(w, claim) then FailsAs(w, v, claim, code, completedAt) && FailedAs(v, claim, code, completedAt) else v == w
  {
    hide AnyDelivered;
  }

  lemma FailureIsForeign(w: World, claim: Claim, code: FailureCode, completedAt: int, me: AttemptId)
    ensures SamePlace(w, Apply(w, SFailureLands(claim, code, completedAt)), me)
  {
  }

  /** Completes a claim as failed: the claim's owner, or whoever finds it expired. Only the row itself
      counts as completed, and only a certain reply that no row changed says that the claim is lost. */
  method CompleteFailedClaim(store: Store, claim: Claim, code: FailureCode, completedAt: int, line: Line, me: AttemptId,
                             ghost start: World, ghost trace: seq<Step>)
    returns (result: Completion, ghost longer: seq<Step>)
    requires store.world == Run(start, trace) && Inv(start) && Foreign(line.between, me)
    modifies store
    ensures store.world == Run(start, longer)
    ensures SamePlace(old(store.world), store.world, me)
    ensures Grows(old(store.world), store.world) && |old(store.world).claims| <= |store.world.claims|
    ensures result == Completed ==> FailedAs(store.world, claim, code, completedAt)
    ensures result == NotOwner ==> !OwnsClaim(old(store.world), claim) || claim.attempt in old(store.world.attempts)
    ensures line.between == [] ==> CompletesAlone(old(store.world), store.world, result, claim, code, completedAt, line)
  {
    ghost var before := store.world;
    FailureIsForeign(before, claim, code, completedAt, me);
    FailureEffect(before, claim, code, completedAt);
    hide Apply, Own, Inv, Run, Foreign, Grows, OwnsClaim, FailsAs;
    longer := trace;
    var changes := 0;
    NothingGrows(before);
    if line.lands {
      changes := if OwnsClaim(store.world, claim) && claim.attempt !in store.world.attempts then 1 else 0;
      longer := Advance(store, start, longer, SFailureLands(claim, code, completedAt));
    }
    ghost var landed := store.world;
    longer := Wait(store, start, longer, line.between, me);
    GrowsTransitively(before, landed, store.world);
    if line.readable && FailedAs(store.world, claim, code, completedAt) {
      return Completed, longer;
    }
    var certain := line.lands && line.heard && line.readable;
    return if certain && changes == 0 then NotOwner else Unknown, longer;
  }

  lemma NothingGrows(w: World)
    ensures Grows(w, w)
  {
  }

  /** Everything the claim's worker meets before it has the claim. */
  datatype Approach = Approach(afterEnsure: seq<Step>, recovery: Line, afterRecovery: seq<Step>, take: Line)

  predicate Known(w: World, claim: Claim, attemptCount: nat) {
    && w.retry.Some?
    && var r := w.retry.value;
       r.status == RetryStatus.Claimed && r.lease.Some? && r.lease.value.id == claim.lease && r.lease.value.origin == claim.origin
       && r.last == Some(Last(claim.attempt, claim.attemptedAt)) && r.attemptCount == attemptCount
  }

  function ExpiredClaim(r: Retry): Claim
    requires r.lease.Some? && r.last.Some?
  {
    Claim(r.last.value.attempt, r.lease.value.id, r.last.value.at, r.lease.value.origin)
  }

  predicate Quiet(a: Approach) {
    a.afterEnsure == [] && a.recovery.between == [] && a.afterRecovery == [] && a.take.between == []
  }

  predicate Due(r: Retry, now: int) {
    r.status == Retrying && r.nextAttemptAt.Some? && r.nextAttemptAt.value <= now && r.attemptCount < 10
  }

  /** The claim is the worker's for two minutes, counted, and the next one no earlier than the backoff. */
  predicate ClaimedAs(w: World, v: World, claim: Claim) {
    && w.retry.Some?
    && var n, at := w.retry.value.attemptCount + 1, claim.attemptedAt;
       && v.retry == Some(Retry(RetryStatus.Claimed, n, Some(at + Backoff(n)), Some(Lease(claim.lease, at + 120_000, claim.origin)),
                                Some(Last(claim.attempt, at)), w.retry.value.failure, w.retry.value.deliveredAttempt))
       && v.attempts == w.attempts && v.bucket == w.bucket && v.doomed == w.doomed
       && v.workers == w.workers[claim.attempt := Worker(claim, Owner)] && v.claims == w.claims + [at]
  }

  /** How taking a claim ends when nobody interferes: exactly a due checkpoint is claimed, and owned by
      whoever can read that back. */
  predicate TakesAlone(w: World, v: World, owned: bool, claim: Claim, now: int, take: Line) {
    && w.retry.Some?
    && (owned <==> Due(w.retry.value, now) && take.lands && take.readable) && (owned ==> ClaimedAs(w, v, claim))
    && (!Due(w.retry.value, now) || !take.lands ==> v == w)
    && (Due(w.retry.value, now) && take.lands ==> v.claims == w.claims + [now] && v.attempts == w.attempts)
  }

  /** The same with what comes before: a claim under a live lease is left alone, an expired one is
      completed as failed first, and nothing is claimed unless that is read back. */
  ghost predicate ClaimsAlone(w: World, v: World, owned: bool, claim: Claim, now: int, approach: Approach) {
    w.retry.Some? ==>
      var r := w.retry.value;
      && (r.status == RetryStatus.Delivered || r.status == ActionRequired ==> !owned && v == w)
      && (r.status == RetryStatus.Claimed && r.lease.Some? && r.lease.value.expiresAt > now ==> !owned && v == w)
      && (r.status == RetryStatus.Claimed && r.lease.Some? && r.last.Some? && r.lease.value.expiresAt <= now && approach.recovery.lands ==>
            exists mid :: FailsAs(w, mid, ExpiredClaim(r), DeliveryClaimExpired, now)
                          && if approach.recovery.readable then TakesAlone(mid, v, owned, claim, now, approach.take) else !owned && v == mid)
      && (r.status == Retrying ==> TakesAlone(w, v, owned, claim, now, approach.take))
  }

  lemma TakeEffect(w: World, claim: Claim, now: int)
    requires Inv(w) && w.retry.Some? && claim.attempt !in w.workers && claim.attemptedAt == now
    ensures Due(w.retry.value, now) ==>
              var v := Apply(w, STakeClaim(claim, w.retry.value.attemptCount, true));
              ClaimedAs(w, v, claim) && Known(v, claim, w.retry.value.attemptCount + 1) && MayComplete(v, claim)
    ensures Due(w.retry.value, now) ==>
              var v := Apply(w, STakeClaim(claim, w.retry.value.attemptCount, false));
              v.claims == w.claims + [now] && v.attempts == w.attempts
    ensures !Known(w, claim, w.retry.value.attemptCount + 1)
  {
    assert Due(w.retry.value, now) ==> !AnyDelivered(w.attempts);
    hide AnyDelivered, Backoff;
  }

  lemma ExpiredMayComplete(w: World)
    requires Inv(w) && w.retry.Some? && w.retry.value.status == RetryStatus.Claimed
    ensures var r := w.retry.value; r.lease.Some? && r.last.Some? && MayComplete(w, ExpiredClaim(r))
  {
    hide Backoff;
  }

  /** Takes a claim: at most one, recovering an expired one first. Whoever is told that it owns the
      claim has used up one of the checkpoint's ten. */
  method ClaimCheckpointDelivery(store: Store, claim: Claim, now: int, approach: Approach,
                                 ghost start: World, ghost trace: seq<Step>)
    returns (owned: bool, ghost longer: seq<Step>)
    requires store.world == Run(start, trace) && Inv(start)
    requires claim.attempt !in store.world.workers && claim.attemptedAt == now
    requires Foreign(approach.afterEnsure, claim.attempt) && Foreign(approach.recovery.between, claim.attempt)
    requires Foreign(approach.afterRecovery, claim.attempt) && Foreign(approach.take.between, claim.attempt)
    modifies store
    ensures store.world == Run(start, longer)
    ensures owned ==> claim.attempt in store.world.workers && store.world.workers[claim.attempt] == Worker(claim, Owner)
    ensures owned ==> |store.world.claims| > |old(store.world).claims|
    ensures owned && approach.take.between == [] ==> MayComplete(store.world, claim)
    ensures Quiet(approach) ==> ClaimsAlone(Ensure(old(store.world), now), store.world, owned, claim, now, approach)
  {
    var id := claim.attempt;
    ghost var before := store.world;
    longer := trace;
    EnsureIsForeign(store.world, now, id);
    hide Apply, Own, Inv, Run, Foreign, Claimable, Backoff, TakesAlone, FailsAs, MayComplete;
    longer := Advance(store, start, longer, SEnsure(now));
    ghost var ensured := store.world;
    longer := Wait(store, start, longer, approach.afterEnsure, id);
    if store.world.retry.None? {
      return false, longer;
    }
    var state := store.world.retry.value;
    if state.status == RetryStatus.Delivered || state.status == ActionRequired {
      return false, longer;
    }
    if state.status == RetryStatus.Claimed {
      var recovered;
      recovered, longer := RecoverExpiredClaim(store, now, approach.recovery, id, start, longer);
      if !recovered {
        return false, longer;
      }
      longer := Wait(store, start, longer, approach.afterRecovery, id);
    }
    owned, longer := TakeDueClaim(store, claim, now, approach.take, start, longer);
  }

  /** Completes a claim whose lease has run out as failed, and leaves a live one alone. */
  method RecoverExpiredClaim(store: Store, now: int, line: Line, me: AttemptId, ghost start: World, ghost trace: seq<Step>)
    returns (recovered: bool, ghost longer: seq<Step>)
    requires store.world == Run(start, trace) && Inv(start) && Foreign(line.between, me)
    requires store.world.retry.Some? && store.world.retry.value.status == RetryStatus.Claimed
    modifies store
    ensures store.world == Run(start, longer)
    ensures SamePlace(old(store.world), store.world, me)
    ensures |old(store.world).claims| <= |store.world.claims|
    ensures var r := old(store.world).retry.value;
            r.lease.Some? && r.lease.value.expiresAt > now ==> !recovered && store.world == old(store.world)
    ensures var r := old(store.world).retry.value;
            r.lease.Some? && r.last.Some? && r.lease.value.expiresAt <= now && line.between == [] && line.lands ==>
              (recovered <==> line.readable) && FailsAs(old(store.world), store.world, ExpiredClaim(r), DeliveryClaimExpired, now)
  {
    var state := store.world.retry.value;
    if state.lease.None? || state.lease.value.expiresAt > now || state.last.None? {
      return false, trace;
    }
    RunKeeps(start, trace);
    ExpiredMayComplete(store.world);
    hide Inv, Run, Foreign, OwnsClaim, MayComplete, Grows;
    var completion;
    completion, longer := CompleteFailedClaim(store, ExpiredClaim(state), DeliveryClaimExpired, now, line, me, start, trace);
    return completion != Unknown, longer;
  }

  /** Takes the claim of a checkpoint that is due, and reads back whose it is. */
  method TakeDueClaim(store: Store, claim: Claim, now: int, take: Line, ghost start: World, ghost trace: seq<Step>)
    returns (owned: bool, ghost longer: seq<Step>)
    requires store.world == Run(start, trace) && Inv(start)
    requires claim.attempt !in store.world.workers && claim.attemptedAt == now && Foreign(take.between, claim.attempt)
    modifies store
    ensures store.world == Run(start, longer)
    ensures owned ==> claim.attempt in store.world.workers && store.world.workers[claim.attempt] == Worker(claim, Owner)
    ensures owned ==> |store.world.claims| > |old(store.world).claims|
    ensures |store.world.claims| >= |old(store.world).claims|
    ensures take.between == [] && owned ==> MayComplete(store.world, claim)
    ensures take.between == [] && old(store.world).retry.Some? ==> TakesAlone(old(store.world), store.world, owned, claim, now, take)
  {
    ghost var before := store.world;
    longer := trace;
    if store.world.retry.None? {
      return false, longer;
    }
    RunKeeps(start, trace);
    TakeEffect(store.world, claim, now);
    hide Apply, Own, Inv, Run, Foreign, Claimable, Backoff, ClaimedAs, Grows, MayComplete;
    var state := store.world.retry.value;
    if state.status != Retrying || state.attemptCount >= MAX_ATTEMPTS || state.nextAttemptAt.None? || state.nextAttemptAt.value > now {
      return false, longer;
    }
    ClaimEffect(store.world, claim, state.attemptCount, take.readable);
    if take.lands {
      longer := Advance(store, start, longer, STakeClaim(claim, state.attemptCount, take.readable));
    }
    longer := Wait(store, start, longer, take.between, claim.attempt);
    if !take.readable || !Known(store.world, claim, state.attemptCount + 1) {
      return false, longer;
    }
    KnownWasTaken(start, longer, store.world, claim, state.attemptCount + 1);
    return true, longer;
  }

  lemma EnsureIsForeign(w: World, now: int, id: AttemptId)
    ensures SamePlace(w, Apply(w, SEnsure(now)), id)
  {
  }

  lemma ClaimEffect(w: World, claim: Claim, observedCount: nat, heard: bool)
    ensures Claimable(w, claim.attempt, observedCount, claim.attemptedAt) ==>
              var v := Apply(w, STakeClaim(claim, observedCount, heard));
              && claim.attempt in v.workers && v.workers[claim.attempt] == Worker(claim, if heard then Owner else Unheard)
              && |v.claims| == |w.claims| + 1
    ensures !Claimable(w, claim.attempt, observedCount, claim.attemptedAt) ==> Apply(w, STakeClaim(claim, observedCount, heard)) == w
  {
  }

  /** The read that finds the exact claim can only find one that was taken. */
  lemma KnownWasTaken(start: World, trace: seq<Step>, w: World, claim: Claim, attemptCount: nat)
    requires Inv(start) && w == Run(start, trace) && Known(w, claim, attemptCount)
    ensures claim.attempt in w.workers
  {
    RunKeeps(start, trace);
  }

  /** What the outside world answers along the way. */
  datatype Outside = Outside(headBefore: bool, coreValid: bool, receipt: Option<Receipt>, refusal: FailureCode,
                             headAfter: bool, signed: bool, stored: bool, boundAt: int, headAtInsert: bool, completedAt: int)

  datatype Outcome = Idle | DeliveredIt | GaveBack | Unclear

  // ---- the worker on its own ----

  /** Why an attempt is given back before its insert, if it is. */
  function GiveBackCode(outside: Outside): Option<FailureCode> {
    if !outside.headBefore then Some(AuditHeadChanged)
    else if !outside.coreValid then Some(CheckpointCoreInvalid)
    else if outside.receipt.None? then Some(outside.refusal)
    else if !outside.headAfter then Some(AuditHeadChanged)
    else if !outside.signed then Some(ReceiptBindingFailed)
    else if !outside.stored then Some(ReceiptStorageFailed)
    else None
  }

  predicate RecordedFailure(w: World, v: World, claim: Claim, code: FailureCode, completedAt: int) {
    v.attempts == w.attempts[claim.attempt := Failure(claim.origin, claim.attemptedAt, code, completedAt)]
  }

  /** How the insert ends when nobody interferes: delivered when it lands, whether that can be read back
      or not; given back, and the object deleted, only when it certainly changed no row and the failed
      completion is read back; and otherwise left as it is, with nothing deleted. */
  predicate InsertsAlone(w: World, v: World, outcome: Outcome, deletes: bool, claim: Claim, outside: Outside, giveBack: Line, insert: Line)
    requires outside.receipt.Some?
  {
    && v.bucket == w.bucket
    && (insert.lands && outside.headAtInsert ==>
          && v.attempts == w.attempts[claim.attempt := Success(claim.origin, claim.attemptedAt, outside.receipt.value, claim.attempt, outside.boundAt)]
          && v.retry.Some? && v.retry.value.status == Delivered && v.retry.value.deliveredAttempt == Some(claim.attempt)
          && outcome == (if insert.readable then DeliveredIt else Unclear) && !deletes && v.doomed == w.doomed)
    && (!insert.lands || (!outside.headAtInsert && !insert.heard) ==>
          outcome == Unclear && !deletes && v.attempts == w.attempts && v.retry == w.retry && v.doomed == w.doomed)
    && (insert.lands && !outside.headAtInsert && insert.heard ==>
          && outcome == GaveBack && (deletes <==> giveBack.lands && giveBack.readable)
          && (if giveBack.lands then RecordedFailure(w, v, claim, DeliveryCommitPreconditionFailed, outside.completedAt) else v.attempts == w.attempts)
          && v.doomed == if deletes then w.doomed + {claim.attempt} else w.doomed)
  }

  /** From the claim on. */
  ghost predicate EndsAlone(w: World, v: World, outcome: Outcome, asked: bool, deletes: bool, claim: Claim, outside: Outside,
                      giveBack: Line, insert: Line)
  {
    && (asked <==> outside.headBefore && outside.coreValid)
    && (GiveBackCode(outside).Some? ==>
          && outcome == GaveBack && !deletes && v.bucket == w.bucket && v.doomed == w.doomed
          && (if giveBack.lands then RecordedFailure(w, v, claim, GiveBackCode(outside).value, outside.completedAt) else v.attempts == w.attempts))
    && (GiveBackCode(outside).None? ==>
          exists stored: World ::
            && stored.attempts == w.attempts && stored.bucket == w.bucket[claim.attempt := outside.receipt.value]
            && stored.doomed == w.doomed && stored.retry == w.retry
            && InsertsAlone(stored, v, outcome, deletes, claim, outside, giveBack, insert))
  }

  /** The whole invocation: nothing at all for a delivered checkpoint, nothing but the claim's part when
      no claim is to be had, and otherwise one attempt. */
  ghost predicate DeliversAlone(w: World, v: World, outcome: Outcome, asked: bool, deletes: bool, claim: Claim, now: int,
                                approach: Approach, outside: Outside, giveBack: Line, insert: Line)
  {
    && (AnyDelivered(w.attempts) ==> outcome == Idle && !asked && !deletes && v == w)
    && (!AnyDelivered(w.attempts) ==>
          exists m: World, owned ::
            && ClaimsAlone(Ensure(w, now), m, owned, claim, now, approach)
            && if owned then EndsAlone(m, v, outcome, asked, deletes, claim, outside, giveBack, insert)
               else outcome == Idle && !asked && !deletes && v == m)
  }

  lemma BindingKeeps(w: World, id: AttemptId, receipt: Receipt, boundAt: int)
    ensures id in w.workers && w.workers[id].stage.Owner? ==>
              var v := Apply(w, SBind(id, receipt, boundAt));
              v.retry == w.retry && v.attempts == w.attempts && v.bucket == w.bucket && v.doomed == w.doomed
    ensures id in w.workers && w.workers[id].stage == Storing(receipt, boundAt) ==>
              var v := Apply(w, SPutAcknowledged(id));
              v.retry == w.retry && v.attempts == w.attempts && v.bucket == w.bucket[id := receipt] && v.doomed == w.doomed
    ensures var v := Apply(w, SSend(id));
            v.retry == w.retry && v.attempts == w.attempts && v.bucket == w.bucket && v.doomed == w.doomed
  {
  }

  lemma LearningKeeps(w: World, id: AttemptId, winner: Option<(AttemptId, Attempt)>, certain: bool, completedAt: int)
    requires id in w.workers ==> w.workers[id].claim.attempt == id
    ensures var v := Apply(w, SLearn(id, winner, certain));
            && v.retry == w.retry && v.attempts == w.attempts && v.bucket == w.bucket
            && (winner.None? || winner.value.0 == id ==> v.doomed == w.doomed)
    ensures var v := Apply(w, SSettle(id, completedAt));
            v.attempts == w.attempts && v.bucket == w.bucket && v.retry == w.retry && (v.doomed == w.doomed || v.doomed == w.doomed + {id})
  {
  }

  lemma DeliveryEffect(w: World, claim: Claim, receipt: Receipt, boundAt: int)
    requires claim.attempt in w.workers && w.workers[claim.attempt] == Worker(claim, Delivering(receipt, boundAt)) && MayComplete(w, claim)
    ensures var v, success := Apply(w, SDeliveryLands(claim.attempt, true)),
                              Success(claim.origin, claim.attemptedAt, receipt, claim.attempt, boundAt);
            && v.attempts == w.attempts[claim.attempt := success] && v.bucket == w.bucket && v.doomed == w.doomed
            && v.retry.Some? && v.retry.value.status == Delivered && v.retry.value.deliveredAttempt == Some(claim.attempt)
            && AnyDelivered(v.attempts)
            && forall winner :: Sees(v, winner) && winner.Some? && winner.value.1.Success? ==> winner == Some((claim.attempt, success))
    ensures Apply(w, SDeliveryLands(claim.attempt, false)) == w && !AnyDelivered(w.attempts)
  {
    var v := Apply(w, SDeliveryLands(claim.attempt, true));
    assert claim.attempt in v.attempts && v.attempts[claim.attempt].Success?;
  }

  /** One invocation. It asks the receiver only under a claim of its own; "delivered" means the attempt
      is committed with its object in the bucket; and an object it deletes can never be delivered. */
  method AttemptCheckpointDelivery(store: Store, claim: Claim, now: int, approach: Approach, outside: Outside,
                                   giveBack: Line, afterPut: seq<Step>, insert: Line)
    returns (outcome: Outcome, asked: bool, deletes: bool, ghost trace: seq<Step>)
    requires Inv(store.world)
    requires claim.attempt !in store.world.workers && claim.attemptedAt == now
    requires Foreign(approach.afterEnsure, claim.attempt) && Foreign(approach.recovery.between, claim.attempt)
    requires Foreign(approach.afterRecovery, claim.attempt) && Foreign(approach.take.between, claim.attempt)
    requires Foreign(giveBack.between, claim.attempt) && Foreign(afterPut, claim.attempt) && Foreign(insert.between, claim.attempt)
    modifies store
    ensures store.world == Run(old(store.world), trace) && Inv(store.world)
    ensures asked ==> |store.world.claims| > |old(store.world).claims|
    ensures outcome == DeliveredIt ==> IsDelivered(store.world.attempts, claim.attempt) && claim.attempt in store.world.bucket
    ensures deletes ==> claim.attempt in store.world.doomed && !IsDelivered(store.world.attempts, claim.attempt)
    ensures Quiet(approach) && giveBack.between == [] && afterPut == [] && insert.between == [] ==>
              DeliversAlone(old(store.world), store.world, outcome, asked, deletes, claim, now, approach, outside, giveBack, insert)
  {
    ghost var start := store.world;
    outcome, asked, deletes, trace := Deliver(store, claim, now, approach, outside, giveBack, afterPut, insert);
    hide DeliversAlone;
    RunKeeps(start, trace);
  }

  method Deliver(store: Store, claim: Claim, now: int, approach: Approach, outside: Outside,
                 giveBack: Line, afterPut: seq<Step>, insert: Line)
    returns (outcome: Outcome, asked: bool, deletes: bool, ghost trace: seq<Step>)
    requires Inv(store.world)
    requires claim.attempt !in store.world.workers && claim.attemptedAt == now
    requires Foreign(approach.afterEnsure, claim.attempt) && Foreign(approach.recovery.between, claim.attempt)
    requires Foreign(approach.afterRecovery, claim.attempt) && Foreign(approach.take.between, claim.attempt)
    requires Foreign(giveBack.between, claim.attempt) && Foreign(afterPut, claim.attempt) && Foreign(insert.between, claim.attempt)
    modifies store
    ensures store.world == Run(old(store.world), trace)
    ensures asked ==> |store.world.claims| > |old(store.world).claims|
    ensures outcome == DeliveredIt ==> IsDelivered(store.world.attempts, claim.attempt)
    ensures deletes ==> claim.attempt in store.world.doomed
    ensures Quiet(approach) && giveBack.between == [] && afterPut == [] && insert.between == [] ==>
              DeliversAlone(old(store.world), store.world, outcome, asked, deletes, claim, now, approach, outside, giveBack, insert)
  {
    ghost var start := store.world;
    asked, deletes, trace := false, false, [];
    assert start == Run(start, trace);
    hide Apply, Own, Inv, Run, Foreign, ClaimsAlone, EndsAlone, MayComplete;
    if AnyDelivered(store.world.attempts) {
      return Idle, asked, deletes, trace;
    }
    var owned;
    owned, trace := ClaimCheckpointDelivery(store, claim, now, approach, start, trace);
    ghost var claimed := store.world;
    if !owned {
      return Idle, asked, deletes, trace;
    }
    outcome, asked, deletes, trace := DeliverClaimed(store, claim, outside, giveBack, afterPut, insert, start, trace);
  }

  /** What an owner of a claim does with it. */
  method DeliverClaimed(store: Store, claim: Claim, outside: Outside, giveBack: Line, afterPut: seq<Step>, insert: Line,
                        ghost start: World, ghost trace: seq<Step>)
    returns (outcome: Outcome, asked: bool, deletes: bool, ghost longer: seq<Step>)
    requires store.world == Run(start, trace) && Inv(start)
    requires claim.attempt in store.world.workers && store.world.workers[claim.attempt] == Worker(claim, Owner)
    requires Foreign(giveBack.between, claim.attempt) && Foreign(afterPut, claim.attempt) && Foreign(insert.between, claim.attempt)
    modifies store
    ensures store.world == Run(start, longer)
    ensures |old(store.world).claims| <= |store.world.claims|
    ensures outcome == DeliveredIt ==> IsDelivered(store.world.attempts, claim.attempt)
    ensures deletes ==> claim.attempt in store.world.doomed
    ensures MayComplete(old(store.world), claim) && giveBack.between == [] && afterPut == [] && insert.between == [] ==>
              EndsAlone(old(store.world), store.world, outcome, asked, deletes, claim, outside, giveBack, insert)
  {
    asked, deletes, longer := false, false, trace;
    ghost var before := store.world;
    hide Apply, Own, Inv, Run, Foreign, MayComplete, Grows;
    if !outside.headBefore || !outside.coreValid {
      var code := if !outside.headBefore then AuditHeadChanged else CheckpointCoreInvalid;
      outcome, longer := GiveBack(store, claim, code, outside.completedAt, giveBack, start, longer);
      return;
    }
    asked := true;
    if outside.receipt.None? || !outside.headAfter || !outside.signed {
      var code := if outside.receipt.None? then outside.refusal
                  else if !outside.headAfter then AuditHeadChanged else ReceiptBindingFailed;
      outcome, longer := GiveBack(store, claim, code, outside.completedAt, giveBack, start, longer);
      return;
    }
    var id, receipt, boundAt := claim.attempt, outside.receipt.value, outside.boundAt;
    WorkerMoves(store.world, id, receipt, boundAt);
    BindingKeeps(store.world, id, receipt, boundAt);
    longer := Advance(store, start, longer, SBind(id, receipt, boundAt));
    StillMayComplete(before, store.world, claim);
    if !outside.stored {
      outcome, longer := GiveBack(store, claim, ReceiptStorageFailed, outside.completedAt, giveBack, start, longer);
      return;
    }
    WorkerMoves(store.world, id, receipt, boundAt);
    BindingKeeps(store.world, id, receipt, boundAt);
    longer := Advance(store, start, longer, SPutAcknowledged(id));
    longer := Wait(store, start, longer, afterPut, id);
    WorkerMoves(store.world, id, receipt, boundAt);
    BindingKeeps(store.world, id, receipt, boundAt);
    longer := Advance(store, start, longer, SSend(id));
    if afterPut == [] {
      StillMayComplete(before, store.world, claim);
    }
    outcome, deletes, longer := InsertAndLearn(store, claim, outside, giveBack, insert, start, longer);
  }

  lemma StillMayComplete(w: World, v: World, claim: Claim)
    requires v.retry == w.retry && v.attempts == w.attempts
    ensures MayComplete(v, claim) <==> MayComplete(w, claim)
  {
  }

  /** The owner completes its own claim as failed. */
  method GiveBack(store: Store, claim: Claim, code: FailureCode, completedAt: int, line: Line, ghost start: World, ghost trace: seq<Step>)
    returns (outcome: Outcome, ghost longer: seq<Step>)
    requires store.world == Run(start, trace) && Inv(start) && Foreign(line.between, claim.attempt)
    modifies store
    ensures store.world == Run(start, longer) && outcome == GaveBack
    ensures |old(store.world).claims| <= |store.world.claims|
    ensures MayComplete(old(store.world), claim) && line.between == [] ==>
              && store.world.bucket == old(store.world).bucket && store.world.doomed == old(store.world).doomed
              && if line.lands then RecordedFailure(old(store.world), store.world, claim, code, completedAt)
                 else store.world.attempts == old(store.world).attempts
  {
    hide Inv, Run, Foreign, OwnsClaim, MayComplete, Grows;
    var completion;
    completion, longer := CompleteFailedClaim(store, claim, code, completedAt, line, claim.attempt, start, trace);
    return GaveBack, longer;
  }

  lemma WorkerMoves(w: World, id: AttemptId, receipt: Receipt, boundAt: int)
    ensures id in w.workers && w.workers[id].stage.Owner? ==>
              var v := Apply(w, SBind(id, receipt, boundAt));
              id in v.workers && v.workers[id] == w.workers[id].(stage := Storing(receipt, boundAt))
    ensures id in w.workers && w.workers[id].stage == Storing(receipt, boundAt) ==>
              var v := Apply(w, SPutAcknowledged(id));
              id in v.workers && v.workers[id] == w.workers[id].(stage := Stored(receipt, boundAt))
    ensures id in w.workers && w.workers[id].stage == Stored(receipt, boundAt) ==>
              var v := Apply(w, SSend(id));
              id in v.workers && v.workers[id] == w.workers[id].(stage := Delivering(receipt, boundAt))
  {
  }

  /** The delivered attempt that the read after the insert returns, if there is one. */
  method ReadWinner(store: Store) returns (winner: Option<(AttemptId, Attempt)>)
    ensures Sees(store.world, winner)
    ensures winner.None? <==> !AnyDelivered(store.world.attempts)
    ensures winner.Some? ==> winner.value.1.Success?
  {
    if AnyDelivered(store.world.attempts) {
      var id :| id in store.world.attempts && store.world.attempts[id].Success?;
      return Some((id, store.world.attempts[id]));
    }
    return None;
  }

  method InsertAndLearn(store: Store, claim: Claim, outside: Outside, giveBack: Line, insert: Line,
                        ghost start: World, ghost trace: seq<Step>)
    returns (outcome: Outcome, deletes: bool, ghost longer: seq<Step>)
    requires store.world == Run(start, trace) && Inv(start) && outside.receipt.Some?
    requires claim.attempt in store.world.workers
             && store.world.workers[claim.attempt] == Worker(claim, Delivering(outside.receipt.value, outside.boundAt))
    requires Foreign(giveBack.between, claim.attempt) && Foreign(insert.between, claim.attempt)
    modifies store
    ensures store.world == Run(start, longer)
    ensures |old(store.world).claims| <= |store.world.claims|
    ensures outcome == DeliveredIt ==> IsDelivered(store.world.attempts, claim.attempt)
    ensures deletes ==> claim.attempt in store.world.doomed
    ensures MayComplete(old(store.world), claim) && insert.between == [] && giveBack.between == [] ==>
              InsertsAlone(old(store.world), store.world, outcome, deletes, claim, outside, giveBack, insert)
    ensures LostTo(old(store.world), claim) && insert.between == [] && insert.readable ==> outcome == Unclear && deletes
  {
    deletes := false;
    ghost var before := store.world;
    hide Apply, Own, Inv, Run, Foreign, MayComplete, Grows, Classify;
    var disposition, certain;
    disposition, certain, longer := InsertAndRead(store, claim, outside, insert, start, trace);
    if disposition == Committed {
      return DeliveredIt, deletes, longer;
    }
    if disposition == ProvenLoser {
      deletes := true;
      return Unclear, deletes, longer;
    }
    if !certain {
      return Unclear, deletes, longer;
    }
    if before.retry == store.world.retry && before.attempts == store.world.attempts {
      StillMayComplete(before, store.world, claim);
    }
    outcome, deletes, longer := SettleClaim(store, claim, outside.completedAt, giveBack, start, longer);
  }

  /** Another attempt has been delivered meanwhile. */
  predicate LostTo(w: World, claim: Claim) {
    AnyDelivered(w.attempts) && claim.attempt !in w.attempts
  }

  lemma LoserStays(w: World, claim: Claim, headHolds: bool)
    requires Inv(w) && LostTo(w, claim) && claim.attempt in w.workers && w.workers[claim.attempt].claim == claim
    ensures Apply(w, SDeliveryLands(claim.attempt, headHolds)) == w
  {
    hide Backoff;
  }

  lemma LoserIsTold(w: World, claim: Claim, receipt: Receipt, boundAt: int)
    requires Inv(w) && LostTo(w, claim)
    ensures forall winner :: Sees(w, winner) && winner.Some? && winner.value.1.Success? ==>
              Classify(winner, claim, receipt, boundAt) == ProvenLoser
  {
    hide Backoff, Shape;
    forall winner | Sees(w, winner) && winner.Some? && winner.value.1.Success?
      ensures Classify(winner, claim, receipt, boundAt) == ProvenLoser
    {
      assert IsDelivered(w.attempts, winner.value.0);
    }
  }

  /** What the worker makes of the insert when nobody interferes. */
  predicate ReadsAlone(w: World, v: World, disposition: Disposition, certain: bool, claim: Claim, outside: Outside, insert: Line)
    requires outside.receipt.Some?
  {
    && v.bucket == w.bucket && v.doomed == w.doomed
    && (certain <==> insert.lands && insert.heard && !outside.headAtInsert)
    && if insert.lands && outside.headAtInsert
       then && v.attempts == w.attempts[claim.attempt := Success(claim.origin, claim.attemptedAt, outside.receipt.value, claim.attempt, outside.boundAt)]
            && v.retry.Some? && v.retry.value.status == Delivered && v.retry.value.deliveredAttempt == Some(claim.attempt)
            && disposition == (if insert.readable then Committed else Uncertain)
       else v.attempts == w.attempts && v.retry == w.retry && disposition == Uncertain
  }

  /** The delivered insert and the authoritative read. */
  method InsertAndRead(store: Store, claim: Claim, outside: Outside, insert: Line, ghost start: World, ghost trace: seq<Step>)
    returns (disposition: Disposition, certain: bool, ghost longer: seq<Step>)
    requires store.world == Run(start, trace) && Inv(start) && outside.receipt.Some?
    requires claim.attempt in store.world.workers
             && store.world.workers[claim.attempt] == Worker(claim, Delivering(outside.receipt.value, outside.boundAt))
    requires Foreign(insert.between, claim.attempt)
    modifies store
    ensures store.world == Run(start, longer)
    ensures |old(store.world).claims| <= |store.world.claims|
    ensures disposition == Committed ==> IsDelivered(store.world.attempts, claim.attempt)
    ensures disposition == ProvenLoser ==> claim.attempt in store.world.doomed
    ensures disposition == Uncertain && certain ==>
              claim.attempt in store.world.workers && store.world.workers[claim.attempt].stage.Settling?
              && store.world.workers[claim.attempt].claim == claim
    ensures MayComplete(old(store.world), claim) && insert.between == [] ==>
              ReadsAlone(old(store.world), store.world, disposition, certain, claim, outside, insert)
    ensures LostTo(old(store.world), claim) && insert.between == [] && insert.readable ==> disposition == ProvenLoser
  {
    var id, receipt := claim.attempt, outside.receipt.value;
    ghost var before := store.world;
    var changes;
    changes, longer := Insert(store, claim, outside, insert, start, trace);
    if LostTo(before, claim) {
      RunKeeps(start, trace);
      LoserIsTold(before, claim, receipt, outside.boundAt);
    }
    var winner := None;
    if insert.readable {
      winner := ReadWinner(store);
    }
    certain := insert.lands && insert.heard && changes == 0;
    disposition := Classify(winner, claim, receipt, outside.boundAt);
    LearnMoves(store.world, id, winner, certain);
    LearningKeeps(store.world, id, winner, certain, outside.completedAt);
    ClassifiesAs(winner, claim, receipt, outside.boundAt);
    hide Apply, Own, Inv, Run, Foreign, MayComplete, Grows, Classify, AnyDelivered, Sees, LostTo;
    longer := Advance(store, start, longer, SLearn(id, winner, certain));
  }

  /** What the insert leaves when nobody interferes, and what every read then finds. */
  ghost predicate InsertedAlone(w: World, v: World, changes: nat, claim: Claim, outside: Outside, lands: bool)
    requires outside.receipt.Some?
  {
    && v.bucket == w.bucket && v.doomed == w.doomed
    && var success := Success(claim.origin, claim.attemptedAt, outside.receipt.value, claim.attempt, outside.boundAt);
       if lands && outside.headAtInsert
       then && v.attempts == w.attempts[claim.attempt := success] && changes == 1
            && v.retry.Some? && v.retry.value.status == Delivered && v.retry.value.deliveredAttempt == Some(claim.attempt)
            && AnyDelivered(v.attempts)
            && forall winner :: Sees(v, winner) && winner.Some? && winner.value.1.Success? ==> winner == Some((claim.attempt, success))
       else v == w && changes == 0 && !AnyDelivered(v.attempts)
  }

  /** The delivered insert, and whatever happens until the read. */
  method Insert(store: Store, claim: Claim, outside: Outside, insert: Line, ghost start: World, ghost trace: seq<Step>)
    returns (changes: nat, ghost longer: seq<Step>)
    requires store.world == Run(start, trace) && Inv(start) && outside.receipt.Some?
    requires claim.attempt in store.world.workers
             && store.world.workers[claim.attempt] == Worker(claim, Delivering(outside.receipt.value, outside.boundAt))
    requires Foreign(insert.between, claim.attempt)
    modifies store
    ensures store.world == Run(start, longer)
    ensures |old(store.world).claims| <= |store.world.claims|
    ensures claim.attempt in store.world.workers && store.world.workers[claim.attempt] == old(store.world).workers[claim.attempt]
    ensures MayComplete(old(store.world), claim) && insert.between == [] ==>
              InsertedAlone(old(store.world), store.world, changes, claim, outside, insert.lands)
    ensures LostTo(old(store.world), claim) && insert.between == [] ==> store.world == old(store.world)
  {
    var id := claim.attempt;
    longer, changes := trace, 0;
    ghost var before := store.world;
    DeliveryStays(before, id, outside.headAtInsert);
    if MayComplete(before, claim) {
      DeliveryEffect(before, claim, outside.receipt.value, outside.boundAt);
    }
    if LostTo(before, claim) {
      RunKeeps(start, trace);
      LoserStays(before, claim, outside.headAtInsert);
    }
    hide Apply, Own, Inv, Run, Foreign, OwnsClaim, Grows, AnyDelivered, Sees, LostTo;
    if insert.lands {
      changes := if outside.headAtInsert && OwnsClaim(store.world, claim) && id !in store.world.attempts then 1 else 0;
      longer := Advance(store, start, longer, SDeliveryLands(id, outside.headAtInsert));
    }
    longer := Wait(store, start, longer, insert.between, id);
  }

  lemma ClassifiesAs(winner: Option<(AttemptId, Attempt)>, claim: Claim, receipt: Receipt, boundAt: int)
    ensures winner.None? ==> Classify(winner, claim, receipt, boundAt) == Uncertain
    ensures winner == Some((claim.attempt, Success(claim.origin, claim.attemptedAt, receipt, claim.attempt, boundAt))) ==>
              Classify(winner, claim, receipt, boundAt) == Committed
  {
  }

  /** The insert certainly changed no row: the claim is completed as failed, and the object deleted once
      that is read back. */
  method SettleClaim(store: Store, claim: Claim, completedAt: int, line: Line, ghost start: World, ghost trace: seq<Step>)
    returns (outcome: Outcome, deletes: bool, ghost longer: seq<Step>)
    requires store.world == Run(start, trace) && Inv(start) && Foreign(line.between, claim.attempt)
    requires claim.attempt in store.world.workers && store.world.workers[claim.attempt].stage.Settling?
             && store.world.workers[claim.attempt].claim == claim
    modifies store
    ensures store.world == Run(start, longer) && outcome == GaveBack
    ensures |old(store.world).claims| <= |store.world.claims|
    ensures deletes ==> claim.attempt in store.world.doomed
    ensures MayComplete(old(store.world), claim) && line.between == [] ==>
              && store.world.bucket == old(store.world).bucket && (deletes <==> line.lands && line.readable)
              && (store.world.doomed == if deletes then old(store.world).doomed + {claim.attempt} else old(store.world).doomed)
              && if line.lands then RecordedFailure(old(store.world), store.world, claim, DeliveryCommitPreconditionFailed, completedAt)
                 else store.world.attempts == old(store.world).attempts
  {
    hide Apply, Inv, Run, Foreign, OwnsClaim, Grows;
    deletes := false;
    var completion;
    completion, longer := CompleteFailedClaim(store, claim, DeliveryCommitPreconditionFailed, completedAt, line, claim.attempt, start, trace);
    SettleMoves(store.world, claim.attempt, completedAt);
    LearningKeeps(store.world, claim.attempt, None, false, completedAt);
    if completion == Completed {
      longer := Advance(store, start, longer, SSettle(claim.attempt, completedAt));
      deletes := true;
    }
    return GaveBack, deletes, longer;
  }

  lemma DeliveryStays(w: World, id: AttemptId, headHolds: bool)
    ensures SamePlace(w, Apply(w, SDeliveryLands(id, headHolds)), id)
  {
  }

  lemma LearnMoves(w: World, id: AttemptId, winner: Option<(AttemptId, Attempt)>, certain: bool)
    requires id in w.workers && w.workers[id].stage.Delivering? && w.workers[id].claim.attempt == id && Sees(w, winner)
    ensures var v, k := Apply(w, SLearn(id, winner, certain)), w.workers[id];
            var disposition := Classify(winner, k.claim, k.stage.receipt, k.stage.boundAt);
            && (disposition == Committed ==> IsDelivered(v.attempts, id))
            && (disposition == ProvenLoser ==> id in v.doomed)
            && (disposition == Uncertain && certain ==>
                  id in v.workers && v.workers[id] == k.(stage := Settling(k.stage.receipt, k.stage.boundAt)))
  {
  }

  lemma SettleMoves(w: World, id: AttemptId, completedAt: int)
    ensures id in w.workers && w.workers[id].stage.Settling?
            && FailedAs(w, w.workers[id].claim, DeliveryCommitPreconditionFailed, completedAt) && w.workers[id].claim.attempt == id ==>
              id in Apply(w, SSettle(id, completedAt)).doomed
  {
  }
}
