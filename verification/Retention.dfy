/** Object-lock retention of one evidence version: extension, legal holds, and deletion of exactly
    that version. */
module Retention {
  import opened Texts
  import opened CompareAndSwap

  type Id = nat

  datatype Status = Retained | DeletionEligible | DeletionPending | Deleted

  datatype Hold = Hold(id: Id, placedAt: int, placedBy: Id)

  datatype Record = Record(objectKey: Id, versionId: Id, retainUntil: int, hold: Option<Hold>, status: Status, revision: nat,
                           deletionRequestedAt: Option<int>, deletedAt: Option<int>, deleteRequestId: Option<Id>)

  /** The namespace check of the key is not part of this model. */
  function Create(objectKey: Id, versionId: Id, retainUntil: Clock, now: Clock): Option<Record> {
    if Le(retainUntil, now) || retainUntil.InvalidDate? then None
    else Some(Record(objectKey, versionId, retainUntil.ms, None, Retained, 0, None, None, None))
  }

  datatype Request =
    | Extend(retainUntil: Clock)
    | PlaceHold(holdId: Id, actor: Id, now: Clock)
    | ReleaseHold(holdId: Id, actor: Id)
    | Evaluate(now: Clock)
    | RequestDeletion(now: Clock, objectKey: Id, versionId: Id, requestId: Id)
    | ConfirmDeleted(now: Clock, objectKey: Id, versionId: Id, requestId: Id, exactVersionAbsent: bool)

  function Retain(r: Record): Record {
    r.(status := Retained, revision := r.revision + 1, deletionRequestedAt := None, deleteRequestId := None)
  }

  /** One transition; nothing when the source refuses. Bounded texts are taken as valid. */
  function Step(r: Record, request: Request): Option<Record> {
    match request
    case Extend(retainUntil) =>
      if r.status.Deleted? || Le(retainUntil, At(r.retainUntil)) || retainUntil.InvalidDate? then None
      else Some(Retain(r).(retainUntil := retainUntil.ms))
    case PlaceHold(holdId, actor, now) =>
      if r.status.Deleted? || r.hold.Some? || now.InvalidDate? then None
      else Some(Retain(r).(hold := Some(Hold(holdId, now.ms, actor))))
    case ReleaseHold(holdId, actor) =>
      if r.hold.None? || r.hold.value.id != holdId || actor == r.hold.value.placedBy then None
      else Some(r.(hold := None, revision := r.revision + 1))
    case Evaluate(now) =>
      if r.status.Deleted? || r.status.DeletionPending? || r.hold.Some? || Lt(now, At(r.retainUntil)) then None
      else Some(r.(status := DeletionEligible, revision := r.revision + 1))
    case RequestDeletion(now, objectKey, versionId, requestId) =>
      if !r.status.DeletionEligible? || r.hold.Some? || Lt(now, At(r.retainUntil)) || objectKey != r.objectKey
         || versionId != r.versionId || now.InvalidDate?
      then None
      else Some(r.(status := DeletionPending, revision := r.revision + 1, deletionRequestedAt := Some(now.ms),
                   deleteRequestId := Some(requestId)))
    case ConfirmDeleted(now, objectKey, versionId, requestId, exactVersionAbsent) =>
      if !r.status.DeletionPending? || r.hold.Some? || objectKey != r.objectKey || versionId != r.versionId
         || Some(requestId) != r.deleteRequestId || !exactVersionAbsent
         || r.deletionRequestedAt.None? || Lt(now, At(r.deletionRequestedAt.value)) || now.InvalidDate?
      then None
      else Some(r.(status := Deleted, revision := r.revision + 1, deletedAt := Some(now.ms)))
  }

  /** What every record satisfies. */
  predicate RecordOk(r: Record) {
    && (r.hold.Some? ==> r.status.Retained?)
    && (r.status.DeletionPending? || r.status.Deleted? ==>
          r.deleteRequestId.Some? && r.deletionRequestedAt.Some? && r.deletionRequestedAt.value >= r.retainUntil)
    && (r.status.Retained? || r.status.DeletionEligible? ==> r.deletionRequestedAt.None? && r.deleteRequestId.None?)
    && (r.status.Deleted? <==> r.deletedAt.Some?)
    && (r.status.Deleted? ==> r.deletedAt.value >= r.deletionRequestedAt.value)
  }

  function Prefix(requests: seq<Request>): seq<Request>
    requires requests != []
  {
    requests[..|requests| - 1]
  }

  /** A held record is retained, a pending or deleted one was requested after it elapsed, and
      retainUntil never decreases. */
  lemma {:induction false} RunKeeps(r: Record, requests: seq<Request>)
    requires RecordOk(r) && RunAll(Step, r, requests).Some?
    ensures RecordOk(RunAll(Step, r, requests).value)
    ensures RunAll(Step, r, requests).value.retainUntil >= r.retainUntil
    decreases |requests|
  {
    if requests != [] {
      RunKeeps(r, Prefix(requests));
    }
  }

  lemma StepCounts()
    ensures Counts(Step, (r: Record) => r.revision)
  {
  }

  lemma {:induction false} PrefixRuns(r: Record, requests: seq<Request>, k: nat)
    requires k <= |requests| && RunAll(Step, r, requests).Some?
    ensures RunAll(Step, r, requests[..k]).Some?
    decreases |requests|
  {
    if k < |requests| {
      assert requests[..k] == Prefix(requests)[..k];
      PrefixRuns(r, Prefix(requests), k);
    } else {
      assert requests[..k] == requests;
    }
  }

  /** Nothing changes a deleted record. */
  lemma DeletedIsFinal(r: Record, request: Request)
    requires RecordOk(r) && r.status.Deleted?
    ensures Step(r, request).None?
  {
  }

  /** A run that ends in a deleted record ends with the request and its confirmation, next to each
      other: made at or after the final retainUntil, for the exact version, with the version verified
      absent, and so with no hold placed and no extension in between. */
  lemma DeletionIsRequestThenConfirm(r: Record, requests: seq<Request>)
    requires RecordOk(r) && !r.status.Deleted? && !r.status.DeletionPending?
    requires RunAll(Step, r, requests).Some? && RunAll(Step, r, requests).value.status.Deleted?
    ensures var n, last := |requests|, RunAll(Step, r, requests).value;
            && n >= 2 && requests[n - 2].RequestDeletion? && requests[n - 1].ConfirmDeleted?
            && var (ask, confirm) := (requests[n - 2], requests[n - 1]);
               ask.requestId == confirm.requestId && ask.objectKey == confirm.objectKey == last.objectKey
               && ask.versionId == confirm.versionId == last.versionId && confirm.exactVersionAbsent
               && ask.now.At? && confirm.now.At? && last.retainUntil <= ask.now.ms <= confirm.now.ms
               && last.deletedAt == Some(confirm.now.ms)
  {
    var p := Prefix(requests);
    RunKeeps(r, p);
    var pending := RunAll(Step, r, p).value;
    assert pending.status.DeletionPending?;
    assert p != [];
    var q := Prefix(p);
    RunKeeps(r, q);
  }

  /** A retained record goes all the way: a hold that someone else lifts, an extension, eligibility and
      the request once that has elapsed, and the confirmation that this very version is gone. */
  lemma DeletionIsReachable(r: Record, hold: Id, placer: Id, lifter: Id, until: int, at: int, request: Id)
    requires r.status.Retained? && r.hold.None? && placer != lifter && r.retainUntil < until <= at
    ensures var held := Step(r, PlaceHold(hold, placer, At(at)));
            && held.Some?
            && var lifted := Step(held.value, ReleaseHold(hold, lifter));
               && lifted.Some?
               && var extended := Step(lifted.value, Extend(At(until)));
                  && extended.Some?
                  && var eligible := Step(extended.value, Evaluate(At(at)));
                     && eligible.Some?
                     && var pending := Step(eligible.value, RequestDeletion(At(at), r.objectKey, r.versionId, request));
                        && pending.Some?
                        && Step(pending.value, ConfirmDeleted(At(at), r.objectKey, r.versionId, request, true))
                           == Some(Record(r.objectKey, r.versionId, until, None, Deleted, r.revision + 6, Some(at), Some(at), Some(request)))
  {
  }

  /** A hold keeps out every request but its own release, and a pending deletion gives way to a hold or
      an extension. */
  lemma HoldComesFirst(r: Record, hold: Id, actor: Id, now: int, request: Request)
    requires RecordOk(r) && !r.status.Deleted? && r.hold.None?
    ensures var held := Step(r, PlaceHold(hold, actor, At(now)));
            && held.Some? && held.value.hold == Some(Hold(hold, now, actor)) && held.value.status.Retained?
            && (request.Evaluate? || request.RequestDeletion? || request.ConfirmDeleted? || request.PlaceHold? ==>
                  Step(held.value, request).None?)
            && Step(held.value, ReleaseHold(hold, actor)).None?
  {
  }

  // ---- who lifts a hold ----

  /** The hold of the record was placed by request j, and nothing since then lifted it. */
  ghost predicate PlacedBy(requests: seq<Request>, hold: Hold, j: int) {
    && 0 <= j < |requests| && requests[j].PlaceHold? && requests[j].holdId == hold.id && requests[j].actor == hold.placedBy
    && forall k | j < k < |requests| :: !requests[k].ReleaseHold? && !requests[k].PlaceHold?
  }

  lemma {:induction false} HoldWasPlaced(r: Record, requests: seq<Request>) returns (j: int)
    requires RecordOk(r) && r.hold.None? && RunAll(Step, r, requests).Some?
    requires RunAll(Step, r, requests).value.hold.Some?
    ensures PlacedBy(requests, RunAll(Step, r, requests).value.hold.value, j)
    decreases |requests|
  {
    var p, request := Prefix(requests), requests[|requests| - 1];
    if request.PlaceHold? {
      j := |requests| - 1;
    } else {
      j := HoldWasPlaced(r, p);
      assert forall k | 0 <= k < |p| :: requests[k] == p[k];
    }
  }

  /** Every hold that is lifted was placed by an earlier request of someone else, with no other
      placing or lifting in between. */
  lemma LiftedByAnother(r: Record, requests: seq<Request>, i: nat) returns (j: nat)
    requires RecordOk(r) && r.hold.None? && RunAll(Step, r, requests).Some?
    requires i < |requests| && requests[i].ReleaseHold?
    ensures j < i && requests[j].PlaceHold? && requests[j].holdId == requests[i].holdId && requests[j].actor != requests[i].actor
    ensures forall k | j < k < i :: !requests[k].ReleaseHold? && !requests[k].PlaceHold?
  {
    PrefixRuns(r, requests, i + 1);
    var upto, before := requests[..i + 1], requests[..i];
    assert Prefix(upto) == before;
    var placed := HoldWasPlaced(r, before);
    j := placed;
    assert forall k | 0 <= k < i :: before[k] == requests[k];
  }

  // ---- what an invalid date gets past ----

  /** Eligibility is granted exactly to a record that is neither held, pending nor deleted, unless a
      valid time says that retention has not elapsed. */
  lemma EvaluateExactly(r: Record, now: Clock)
    ensures Step(r, Evaluate(now)).Some? <==>
              (r.status.Retained? || r.status.DeletionEligible?) && r.hold.None? && !(now.At? && now.ms < r.retainUntil)
  {
  }

  predicate Elapsed(r: Record, now: Clock) {
    now.At? && r.retainUntil <= now.ms
  }

  /** So whatever is granted eligibility has elapsed exactly when the time is a valid date: an invalid
      one is granted to every retained record, however far its retention reaches. */
  lemma EligibleEarly(r: Record, now: Clock)
    requires Step(r, Evaluate(now)).Some?
    ensures Elapsed(r, now) <==> now.At?
  {
  }

  lemma InvalidDateIsEligible(r: Record)
    requires r.status.Retained? && r.hold.None?
    ensures Step(r, Evaluate(InvalidDate)).Some? && Step(r, Evaluate(InvalidDate)).value.status.DeletionEligible?
    ensures Step(r, Evaluate(At(r.retainUntil - 1))).None?
  {
  }

  /** A record can be created already elapsed exactly when the time of creation is no valid date. */
  lemma CreatedInTheFuture(objectKey: Id, versionId: Id, retainUntil: Clock, now: Clock)
    requires Create(objectKey, versionId, retainUntil, now).Some?
    ensures Lt(now, retainUntil) <==> now.At?
  {
  }

  /** In every run by any number of compare-and-swap workers, early eligibility or not, a record in
      status deleted ended with a request made at or after its final retainUntil. */
  lemma WorkersKeepRetention(objectKey: Id, versionId: Id, retainUntil: Clock, now: Clock, actions: seq<Action<Request>>)
    requires Create(objectKey, versionId, retainUntil, now).Some?
    ensures var r := Create(objectKey, versionId, retainUntil, now).value;
            var v := ActAll(Shared(r, map[], []), actions, Step, (q: Record) => q.revision);
            && RecordOk(v.stored) && v.stored.retainUntil >= r.retainUntil && v.stored.revision == |v.committed|
            && RunAll(Step, r, v.committed) == Some(v.stored)
            && (v.stored.hold.Some? ==> v.stored.status.Retained?)
            && (v.stored.status.Deleted? ==>
                  |v.committed| >= 2 && v.committed[|v.committed| - 2].RequestDeletion? && v.committed[|v.committed| - 2].now.At?
                  && v.committed[|v.committed| - 2].now.ms >= v.stored.retainUntil)
  {
    var r := Create(objectKey, versionId, retainUntil, now).value;
    var s: Shared<Record, Request> := Shared(r, map[], []);
    StepCounts();
    WorkersAreSequential(s, actions, r, Step, (q: Record) => q.revision);
    var v := ActAll(s, actions, Step, (q: Record) => q.revision);
    RunKeeps(r, v.committed);
    if v.stored.status.Deleted? {
      DeletionIsRequestThenConfirm(r, v.committed);
    }
  }
}
