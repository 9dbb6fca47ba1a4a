/** Tenant jobs: queued, leased, retried, dead-lettered and redriven. */
module Jobs {
  import opened CompareAndSwap
  import opened Powers
  import opened Texts

  type Id = nat

  datatype Status = Queued | Leased | RetryScheduled | Succeeded | DeadLettered | Cancelled

  datatype Job = Job(status: Status, attempt: nat, maxAttempts: nat, availableAt: int, revision: nat,
                     leaseId: Option<Id>, leasedBy: Option<Id>, leasedAt: Option<int>, leaseExpiresAt: Option<int>,
                     completedAt: Option<int>, errorCode: Option<Id>, deadLetteredAt: Option<int>)

  const ATTEMPTS_EXHAUSTED: Id := 0
  const MINUTE := 60_000

  predicate RetryPolicyOk(maxAttempts: int) {
    1 <= maxAttempts <= 10
  }

  function Queue(now: Clock, maxAttempts: int): Option<Job> {
    if !RetryPolicyOk(maxAttempts) || now.InvalidDate? then None
    else Some(Job(Queued, 0, maxAttempts, now.ms, 0, None, None, None, None, None, None, None))
  }

  /** What a worker or an operator asks for; `permitted` is the actor's tenant and permission check. */
  datatype Request =
    | Lease(worker: Id, leaseId: Id, now: Clock, durationMs: int)
    | Complete(leaseId: Id, worker: Id, now: Clock)
    | Fail(leaseId: Id, worker: Id, now: Clock, retryable: bool, errorCode: Id)
    | Cancel(permitted: bool, now: Clock)
    | Redrive(permitted: bool, now: Clock, maxAttempts: Option<int>)

  function Unlease(job: Job): Job {
    job.(leaseId := None, leasedBy := None, leasedAt := None, leaseExpiresAt := None)
  }

  function DeadLetter(job: Job, now: Clock, errorCode: Id): Option<Job> {
    if now.InvalidDate? then None
    else Some(Unlease(job).(status := DeadLettered, revision := job.revision + 1, deadLetteredAt := Some(now.ms),
                            completedAt := Some(now.ms), errorCode := Some(errorCode)))
  }

  function LeaseJob(job: Job, worker: Id, leaseId: Id, now: Clock, durationMs: int): Option<Job> {
    var expiredLease := job.status.Leased? && job.leaseExpiresAt.Some? && Le(At(job.leaseExpiresAt.value), now);
    var available := (job.status.Queued? || job.status.RetryScheduled?) && Le(At(job.availableAt), now);
    if !available && !expiredLease then None
    else if !(1_000 <= durationMs <= 15 * MINUTE) then None
    else if job.attempt + 1 > job.maxAttempts then DeadLetter(job, now, ATTEMPTS_EXHAUSTED)
    else Some(job.(status := Leased, attempt := job.attempt + 1, revision := job.revision + 1,
                   leaseId := Some(leaseId), leasedBy := Some(worker), leasedAt := Some(now.ms),
                   leaseExpiresAt := Some(now.ms + durationMs), availableAt := now.ms,
                   errorCode := None, deadLetteredAt := None, completedAt := None))
  }

  predicate ActiveLease(job: Job, leaseId: Id, worker: Id, now: Clock) {
    && job.status.Leased? && job.leaseId == Some(leaseId) && job.leasedBy == Some(worker)
    && job.leasedAt.Some? && job.leaseExpiresAt.Some?
    && !Lt(now, At(job.leasedAt.value)) && !Le(At(job.leaseExpiresAt.value), now)
  }

  /** Two minutes after the first attempt, doubling, an hour at most. */
  function RetryDelay(attempt: nat): (r: int)
    ensures 0 < r <= 60 * MINUTE
  {
    var doubled := Pow2(attempt) * MINUTE;
    if doubled < 60 * MINUTE then doubled else 60 * MINUTE
  }

  lemma RetryDelays(attempt: nat)
    ensures attempt <= 5 ==> RetryDelay(attempt) == [1, 2, 4, 8, 16, 32][attempt] * 60_000
    ensures attempt >= 6 ==> RetryDelay(attempt) == 3_600_000
  {
    assert Pow2(1) == 2 && Pow2(2) == 4 && Pow2(3) == 8 && Pow2(4) == 16 && Pow2(5) == 32 && Pow2(6) == 64;
    if attempt >= 6 {
      PowersGrow(6, attempt);
    }
  }

  /** One transition; nothing when the source refuses. */
  function Step(job: Job, request: Request): Option<Job> {
    match request
    case Lease(worker, leaseId, now, durationMs) => LeaseJob(job, worker, leaseId, now, durationMs)
    case Complete(leaseId, worker, now) =>
      if !ActiveLease(job, leaseId, worker, now) || now.InvalidDate? then None
      else Some(Unlease(job).(status := Succeeded, revision := job.revision + 1, completedAt := Some(now.ms), errorCode := None))
    case Fail(leaseId, worker, now, retryable, errorCode) =>
      if !ActiveLease(job, leaseId, worker, now) || now.InvalidDate? then None
      else if !retryable || job.attempt >= job.maxAttempts then DeadLetter(job, now, errorCode)
      else Some(Unlease(job).(status := RetryScheduled, revision := job.revision + 1,
                              availableAt := now.ms + RetryDelay(job.attempt), errorCode := Some(errorCode)))
    case Cancel(permitted, now) =>
      if !permitted || !(job.status.Queued? || job.status.RetryScheduled?) || now.InvalidDate? then None
      else Some(Unlease(job).(status := Cancelled, revision := job.revision + 1, completedAt := Some(now.ms)))
    case Redrive(permitted, now, maxAttempts) =>
      var attempts := if maxAttempts.Some? then maxAttempts.value else job.maxAttempts;
      if !permitted || !job.status.DeadLettered? || !RetryPolicyOk(attempts) || now.InvalidDate? then None
      else Some(Unlease(job).(status := Queued, attempt := 0, maxAttempts := attempts, availableAt := now.ms,
                              revision := job.revision + 1, completedAt := None, deadLetteredAt := None, errorCode := None))
  }

  /** What every job satisfies. */
  predicate JobOk(job: Job) {
    && RetryPolicyOk(job.maxAttempts) && job.attempt <= job.maxAttempts
    && (job.status.Leased? <==> job.leaseId.Some?) && (job.status.Leased? <==> job.leasedBy.Some?)
    && (job.status.Leased? <==> job.leasedAt.Some?) && (job.status.Leased? <==> job.leaseExpiresAt.Some?)
    && (job.status.Queued? ==> job.attempt == 0)
    && (job.status.Leased? ==> job.attempt >= 1 && job.leasedAt.value < job.leaseExpiresAt.value)
    && (job.status.RetryScheduled? ==> 1 <= job.attempt < job.maxAttempts)
    && (job.completedAt.Some? <==> job.status.Succeeded? || job.status.DeadLettered? || job.status.Cancelled?)
    && (job.deadLetteredAt.Some? <==> job.status.DeadLettered?)
  }

  lemma StepKeeps(job: Job, request: Request)
    requires JobOk(job) && Step(job, request).Some?
    ensures JobOk(Step(job, request).value)
  {
  }

  lemma {:induction false} RunKeeps(job: Job, requests: seq<Request>)
    requires JobOk(job) && RunAll(Step, job, requests).Some?
    ensures JobOk(RunAll(Step, job, requests).value)
    decreases |requests|
  {
    if requests != [] {
      RunKeeps(job, requests[..|requests| - 1]);
      StepKeeps(RunAll(Step, job, requests[..|requests| - 1]).value, requests[|requests| - 1]);
    }
  }

  lemma StepCounts()
    ensures Counts(Step, (job: Job) => job.revision)
  {
  }

  /** In every run by any number of compare-and-swap workers: attempts stay within the limit, and the
      lease fields are set exactly while the job is leased. */
  lemma WorkersKeepJobsOk(now: Clock, maxAttempts: int, actions: seq<Action<Request>>)
    requires Queue(now, maxAttempts).Some?
    ensures var job := Queue(now, maxAttempts).value;
            var v := ActAll(Shared(job, map[], []), actions, Step, (j: Job) => j.revision);
            JobOk(v.stored) && v.stored.revision == |v.committed| && RunAll(Step, job, v.committed) == Some(v.stored)
  {
    var job := Queue(now, maxAttempts).value;
    var s: Shared<Job, Request> := Shared(job, map[], []);
    StepCounts();
    WorkersAreSequential(s, actions, job, Step, (j: Job) => j.revision);
    RunKeeps(job, ActAll(s, actions, Step, (j: Job) => j.revision).committed);
  }

  // ---- what each transition does, and when ----

  predicate Pending(job: Job) {
    job.status.Queued? || job.status.RetryScheduled?
  }

  /** A lease is given out exactly for a job that is due or whose lease has run out; it is the next
      attempt while there is one, and a dead letter after the last. */
  lemma LeaseExactly(job: Job, worker: Id, leaseId: Id, now: int, durationMs: int)
    requires JobOk(job)
    ensures var r := Step(job, Request.Lease(worker, leaseId, At(now), durationMs));
            && (r.Some? <==> 1_000 <= durationMs <= 900_000
                             && ((Pending(job) && job.availableAt <= now) || (job.status.Leased? && job.leaseExpiresAt.value <= now)))
            && (r.Some? && job.attempt < job.maxAttempts ==>
                  && r.value.status.Leased? && r.value.attempt == job.attempt + 1 && r.value.maxAttempts == job.maxAttempts
                  && r.value.leaseId == Some(leaseId) && r.value.leasedBy == Some(worker)
                  && r.value.leasedAt == Some(now) && r.value.leaseExpiresAt == Some(now + durationMs))
            && (r.Some? && job.attempt == job.maxAttempts ==>
                  r.value.status.DeadLettered? && r.value.errorCode == Some(ATTEMPTS_EXHAUSTED) && r.value.deadLetteredAt == Some(now))
  {
  }

  /** The holder within its lease completes the job, or fails it: for another attempt while it may be
      retried and there is one, for good otherwise. */
  lemma HolderFinishes(job: Job, now: int, retryable: bool, errorCode: Id)
    requires JobOk(job) && job.status.Leased? && job.leasedAt.value <= now < job.leaseExpiresAt.value
    ensures var done := Step(job, Complete(job.leaseId.value, job.leasedBy.value, At(now)));
            done.Some? && done.value.status.Succeeded? && done.value.completedAt == Some(now) && done.value.leaseId.None?
    ensures var failed := Step(job, Fail(job.leaseId.value, job.leasedBy.value, At(now), retryable, errorCode));
            && failed.Some? && failed.value.errorCode == Some(errorCode) && failed.value.attempt == job.attempt
            && (if retryable && job.attempt < job.maxAttempts
                then failed.value.status.RetryScheduled? && failed.value.availableAt == now + RetryDelay(job.attempt)
                else failed.value.status.DeadLettered? && failed.value.deadLetteredAt == Some(now))
  {
  }

  /** An operator cancels exactly pending jobs, and redrives exactly dead letters, from the first attempt on. */
  lemma OperatorExactly(job: Job, permitted: bool, now: int, maxAttempts: Option<int>)
    requires JobOk(job)
    ensures var r := Step(job, Cancel(permitted, At(now)));
            && (r.Some? <==> permitted && Pending(job))
            && (r.Some? ==> r.value.status.Cancelled? && r.value.completedAt == Some(now))
    ensures var r, attempts := Step(job, Redrive(permitted, At(now), maxAttempts)), if maxAttempts.Some? then maxAttempts.value else job.maxAttempts;
            && (r.Some? <==> permitted && job.status.DeadLettered? && 1 <= attempts <= 10)
            && (r.Some? ==> r.value.status.Queued? && r.value.attempt == 0 && r.value.maxAttempts == attempts
                            && r.value.availableAt == now && r.value.errorCode.None? && r.value.deadLetteredAt.None?)
  {
  }

  // ---- how many transitions there can be ----

  /** An upper bound on the transitions before the next redrive. */
  function Potential(job: Job): int {
    match job.status
    case Queued => 2 * (job.maxAttempts - job.attempt)
    case RetryScheduled => 2 * (job.maxAttempts - job.attempt)
    case Leased => 2 * (job.maxAttempts - job.attempt) + 1
    case _ => 0
  }

  lemma StepSpends(job: Job, request: Request)
    requires JobOk(job) && !request.Redrive? && Step(job, request).Some?
    ensures 0 <= Potential(Step(job, request).value) < Potential(job)
  {
  }

  /** From a job that was just created or redriven, at most 2 * maxAttempts transitions happen before
      the next redrive. */
  lemma {:induction false} FewTransitions(job: Job, requests: seq<Request>)
    requires JobOk(job) && RunAll(Step, job, requests).Some?
    requires forall r | r in requests :: !r.Redrive?
    ensures |requests| + Potential(RunAll(Step, job, requests).value) <= Potential(job)
    ensures job.status.Queued? ==> |requests| <= 2 * job.maxAttempts
    decreases |requests|
  {
    RunKeeps(job, requests);
    if requests != [] {
      var before := requests[..|requests| - 1];
      FewTransitions(job, before);
      RunKeeps(job, before);
      assert requests[|requests| - 1] in requests;
      StepSpends(RunAll(Step, job, before).value, requests[|requests| - 1]);
    }
  }

  /** The bound is reached: a job that fails every attempt until it is dead-lettered. */
  lemma {:induction false} BoundIsReached(job: Job, n: nat) returns (requests: seq<Request>)
    requires JobOk(job) && job.status.Queued? && 1 <= n <= job.maxAttempts
    ensures |requests| == 2 * n && (forall r | r in requests :: !r.Redrive?)
    ensures RunAll(Step, job, requests).Some?
    ensures var last := RunAll(Step, job, requests).value;
            JobOk(last) && last.attempt == n && last.maxAttempts == job.maxAttempts
            && (if n < job.maxAttempts then last.status.RetryScheduled? else last.status.DeadLettered?)
    decreases n
  {
    var earlier: seq<Request> := [];
    if n > 1 {
      earlier := BoundIsReached(job, n - 1);
    }
    assert RunAll(Step, job, []) == Some(job);
    var j := RunAll(Step, job, earlier).value;
    var lease := Request.Lease(1, 1, At(j.availableAt), 1_000);
    var fail := Fail(1, 1, At(j.availableAt), true, 7);
    requests := earlier + [lease] + [fail];
    FailedAttempt(j);
    hide Step;
    assert requests[..|requests| - 1] == earlier + [lease] && (earlier + [lease])[..|earlier|] == earlier;
    assert RunAll(Step, job, earlier + [lease]) == Step(j, lease);
  }

  /** One attempt of a pending job that fails right away. */
  lemma FailedAttempt(j: Job)
    requires JobOk(j) && (j.status.Queued? || j.status.RetryScheduled?)
    ensures var leased := Step(j, Request.Lease(1, 1, At(j.availableAt), 1_000));
            && leased.Some?
            && var failed := Step(leased.value, Fail(1, 1, At(j.availableAt), true, 7));
               && failed.Some? && JobOk(failed.value)
               && failed.value.attempt == j.attempt + 1 && failed.value.maxAttempts == j.maxAttempts
               && (if j.attempt + 1 < j.maxAttempts then failed.value.status.RetryScheduled? else failed.value.status.DeadLettered?)
  {
  }

  /** A lease that has run out, or that another worker has taken over, neither completes nor fails the job. */
  lemma OnlyTheHolderFinishes(job: Job, request: Request)
    requires JobOk(job) && (request.Complete? || request.Fail?) && Step(job, request).Some?
    ensures job.status.Leased? && job.leaseId == Some(request.leaseId) && job.leasedBy == Some(request.worker)
    ensures request.now.At? && job.leasedAt.value <= request.now.ms < job.leaseExpiresAt.value
    ensures request.Fail? && request.retryable && job.attempt < job.maxAttempts ==>
              Step(job, request).value.availableAt == request.now.ms + RetryDelay(job.attempt)
  {
  }
}
