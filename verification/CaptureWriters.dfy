/** The functions that drive the capture steps, written as the source runs them: reads and audited
    batches in place on the database, with whatever other workers do in between. Each returns the
    interleaving it was part of, so everything proved about runs holds of it. */
module CaptureWriters {
  import opened Texts
  import opened AuditBatch
  import opened CaptureTables
  import opened CaptureChain
  import opened CaptureGuards

  lemma {:induction false} RunAppend(db: Db, first: seq<Act>, second: seq<Act>, seal: Seal)
    ensures Run(db, first + second, seal) == Run(Run(db, first, seal), second, seal)
    decreases |first|
  {
    if first == [] {
      assert first + second == second;
    } else {
      assert (first + second)[1..] == first[1..] + second;
      RunAppend(Apply(db, first[0], seal), first[1..], second, seal);
    }
  }

  /** What other workers do before each of the first k attempts, in order. */
  function Flat(between: seq<seq<Act>>, k: nat): seq<Act>
    requires k <= |between|
  {
    if k == 0 then [] else Flat(between, k - 1) + between[k - 1]
  }

  function Others(between: seq<seq<Act>>, seal: Seal): (nat, Db) -> Db {
    (k: nat, db: Db) => if k < |between| then Run(db, between[k], seal) else db
  }

  lemma {:induction false} InterferedRuns(db: Db, between: seq<seq<Act>>, seal: Seal, k: nat)
    requires k <= |between|
    ensures Interfered(db, Others(between, seal), k) == Run(db, Flat(between, k), seal)
  {
    hide Apply;
    if k != 0 {
      hide Run;
      InterferedRuns(db, between, seal, k - 1);
      RunAppend(db, Flat(between, k - 1), between[k - 1], seal);
    }
  }

  type Between = b: seq<seq<Act>> | |b| == 3 witness [[], [], []]

  /** What happens around one send: the steps of others before each attempt, and whether the reply to
      a batch that commits is lost. */
  datatype Network = Network(between: Between, replyLost: bool)

  datatype Failure = Refused(why: Rejection) | ReplyLost

  method OthersAct(db: Database<Tables, ChainEvent>, acts: seq<Act>, seal: Seal)
    modifies db
    ensures db.View() == Run(old(db.View()), acts, seal)
  {
    var left := Run(Store(db.data, db.audit), acts, seal);
    db.data, db.audit := left.data, left.audit;
  }

  /** The committed attempt as the last step of the interleaving. */
  lemma SubmittedRun(before: Db, step: Step, plan: Plan, between: Between, seal: Seal, attempt: nat, next: Db, draft: nat -> ChainEvent)
    returns (act: Act, mid: Db)
    requires PlanOf(step) == Some(plan) && !Direct(step) && attempt < 3
    requires forall k :: draft(k) == plan.event
    requires AttemptAt(before, Others(between, seal), attempt, draft, seal, plan.statements, plan.condition) == Committed(next)
    ensures act.step == step && mid == Run(before, Flat(between, attempt + 1), seal)
    ensures mid == Interfered(before, Others(between, seal), attempt + 1)
    ensures Attempt(mid, plan.statements, plan.condition, Prepare(plan.event, act.observedHead, seal)) == Committed(next)
    ensures Run(before, Flat(between, attempt + 1) + [act], seal) == next
  {
    hide PlanOf, Attempt;
    InterferedRuns(before, between, seal, attempt);
    InterferedRuns(before, between, seal, attempt + 1);
    act := Act(step, Head(Interfered(before, Others(between, seal), attempt).audit));
    mid := Run(before, Flat(between, attempt + 1), seal);
    RunAppend(before, Flat(between, attempt + 1), [act], seal);
    assert [act][1..] == [];
    assert Run(mid, [act], seal) == Apply(mid, act, seal);
  }

  predicate Quiet(network: Network) {
    network.between == [[], [], []]
  }

  /** With nobody in between, the first attempt decides: committed or refused, heard of or not. */
  ghost predicate SentAlone(before: Db, after: Db, failure: Option<Failure>, plan: Plan, replyLost: bool, seal: Seal) {
    match Attempt(before, plan.statements, plan.condition, Prepare(plan.event, Head(before.audit), seal))
    case Committed(next) => after == next && failure == (if replyLost then Some(ReplyLost) else None)
    case Rejected(why) => after == before && failure == Some(Refused(why))
  }

  lemma NobodyInterferes(before: Db, between: Between, seal: Seal, attempt: nat, draft: nat -> ChainEvent, plan: Plan)
    requires between == [[], [], []] && attempt < 3 && forall k :: draft(k) == plan.event
    ensures AttemptAt(before, Others(between, seal), attempt, draft, seal, plan.statements, plan.condition)
            == Attempt(before, plan.statements, plan.condition, Prepare(plan.event, Head(before.audit), seal))
    ensures Interfered(before, Others(between, seal), attempt + 1) == before
  {
    hide Attempt;
    forall k: nat | k <= 3 ensures Interfered(before, Others(between, seal), k) == before {
      InterferedRuns(before, between, seal, k);
      NothingFlat(between, k);
      NothingRuns(before, seal);
    }
  }

  lemma {:induction false} NothingFlat(between: Between, k: nat)
    requires between == [[], [], []] && k <= 3
    ensures Flat(between, k) == []
  {
    if k > 0 {
      NothingFlat(between, k - 1);
    }
  }

  /** Sends the batch of a step, retrying on a moved head. A refused send is not part of the trace; a
      committed one is, even when its sender sees only an error. */
  method Submit(db: Database<Tables, ChainEvent>, step: Step, plan: Plan, network: Network, seal: Seal)
    returns (failure: Option<Failure>, counts: seq<nat>, ghost trace: seq<Act>, ghost mid: Db)
    requires PlanOf(step) == Some(plan) && !Direct(step)
    modifies db
    ensures db.View() == Run(old(db.View()), trace, seal)
    ensures failure.None? || failure == Some(ReplyLost) ==>
              && |trace| > 0 && trace[|trace| - 1].step == step
              && mid == Run(old(db.View()), trace[..|trace| - 1], seal)
              && Attempt(mid, plan.statements, plan.condition, Prepare(plan.event, trace[|trace| - 1].observedHead, seal))
                 == Committed(db.View())
    ensures failure.None? ==> counts == RowCounts(plan.statements, mid.data)
    ensures network.replyLost ==> failure.Some?
    ensures Quiet(network) ==> mid == old(db.View()) || failure.Some?
    ensures Quiet(network) ==> SentAlone(old(db.View()), db.View(), failure, plan, network.replyLost, seal)
    ensures failure.Some? && failure.value.Refused? ==> mid == db.View()
  {
    hide Run, Apply, PlanOf, Settle, Attempt, RunStatements, RowCounts;
    ghost var before := db.View();
    var refusal, attempt;
    var draft := (k: nat) => plan.event;
    refusal, attempt, counts := db.ExecuteAuditedBatch(draft, seal, plan.statements, plan.condition, Others(network.between, seal));
    if Quiet(network) {
      NobodyInterferes(before, network.between, seal, attempt, draft, plan);
    }
    trace := Flat(network.between, attempt + 1);
    InterferedRuns(before, network.between, seal, attempt + 1);
    mid := Run(before, trace, seal);
    failure := if refusal.Some? then Some(Refused(refusal.value)) else if network.replyLost then Some(ReplyLost) else None;
    if refusal.None? {
      ghost var act;
      act, mid := SubmittedRun(before, step, plan, network.between, seal, attempt, db.View(), draft);
      trace := trace + [act];
      assert trace[..|trace| - 1] == Flat(network.between, attempt + 1);
    }
  }

  datatype FinalizeResult = Fine | Threw

  /** Only the leftover entry goes, and the caller hears of it unless the reply is lost. */
  predicate DrainsAlone(before: Tables, after: Tables, result: FinalizeResult, r: Request, replyLost: bool) {
    && after == before.(queue := before.queue - {r.artifactId})
    && (result == Fine <==> r.artifactId !in before.queue || !replyLost)
  }

  lemma ReplayAlone(db: Db, r: Request, seal: Seal)
    requires ExactExisting(db.data, r)
    ensures match Attempt(db, PlanDrainReplay(r).statements, PlanDrainReplay(r).condition, Prepare(PlanDrainReplay(r).event, Head(db.audit), seal))
            case Committed(next) => next.data == db.data.(queue := db.data.queue - {r.artifactId})
            case Rejected(_) => false
    ensures r.artifactId !in db.data.queue ==> db.data.(queue := db.data.queue - {r.artifactId}) == db.data
  {
    DequeueSame(db.data, r.artifactId);
    hide ExactExisting;
    var plan := PlanDrainReplay(r);
    StillThere(db, r);
    AttemptOne(db, plan.statements[0], plan.condition.value, plan.event, seal);
  }

  lemma StillThere(db: Db, r: Request)
    requires ExactExisting(db.data, r)
    ensures ExactExisting(db.data.(queue := db.data.queue - {r.artifactId}), r)
  {
  }

  /** A replay of an upload whose manifest is committed only removes a leftover queue entry. */
  method DrainFinalizedQueueReplay(db: Database<Tables, ChainEvent>, r: Request, network: Network, seal: Seal)
    returns (result: FinalizeResult, ghost trace: seq<Act>)
    requires ChainInv(db.View()) && ExactExisting(db.data, r)
    modifies db
    ensures db.View() == Run(old(db.View()), trace, seal)
    ensures result == Fine ==> r.artifactId !in db.data.queue
    ensures Quiet(network) ==> DrainsAlone(old(db.data), db.data, result, r, network.replyLost)
  {
    NothingRuns(db.View(), seal);
    PlanOfReplay(r);
    ReplayAlone(db.View(), r, seal);
    hide Run, Apply, PlanOf, PlanDrainReplay, Settle, Attempt, RunStatements, RowCounts, ChainInv;
    if r.artifactId !in db.data.queue {
      return Fine, [];
    }
    var failure, counts;
    ghost var mid;
    failure, counts, trace, mid := Submit(db, DrainReplay(r), PlanDrainReplay(r), network, seal);
    if failure.Some? {
      return Threw, trace;
    }
    ExactExistingStays(old(db.View()), trace[..|trace| - 1], seal, r);
    CommittedReplay(mid, db.View(), r, trace[|trace| - 1].observedHead, seal);
    return Fine, trace;
  }

  lemma NothingRuns(db: Db, seal: Seal)
    ensures Run(db, [], seal) == db
  {
  }

  lemma PlanOfReplay(r: Request)
    ensures PlanOf(DrainReplay(r)) == Some(PlanDrainReplay(r))
  {
  }

  lemma CommittedReplay(mid: Db, next: Db, r: Request, head: Text, seal: Seal)
    requires Attempt(mid, PlanDrainReplay(r).statements, PlanDrainReplay(r).condition, Prepare(PlanDrainReplay(r).event, head, seal)) == Committed(next)
    requires ExactExisting(mid.data, r)
    ensures r.artifactId !in next.data.queue
  {
    RunOne(PlanDrainReplay(r).statements[0], mid.data);
  }

  /** A link that is committed stays recognisable. */
  lemma ExactExistingStays(db: Db, acts: seq<Act>, seal: Seal, r: Request)
    requires ChainInv(db) && ExactExisting(db.data, r)
    ensures ExactExisting(Run(db, acts, seal).data, r)
  {
    RunGrows(db, acts, seal);
    assert ManifestOf(r) in Run(db, acts, seal).data.manifests;
  }

  /** How a finalize ends with nobody in between, its own reply lost or not: everything for the holder of
      the lease and evidence that is new, nothing for anybody else, and for a link that is committed
      already only the leftover queue entry. */
  predicate FinalizesAlone(before: Tables, after: Tables, result: FinalizeResult, r: Request, drainLost: bool) {
    && (!ExactExisting(before, r) && HoldsExactly(before, r) && NewEvidence(before, r) ==>
          result == Fine && r.device in before.devices && after == Finalized(before, r))
    && (!ExactExisting(before, r) && !HoldsExactly(before, r) ==> result == Threw && after == before)
    && (ExactExisting(before, r) ==> DrainsAlone(before, after, result, r, drainLost))
  }

  predicate NewEvidence(t: Tables, r: Request) {
    forall n | n in t.manifests && n.device == r.device :: n.evidenceId != r.capture.evidenceId
  }

  lemma HolderHasTheHead(db: Db, r: Request)
    requires ChainInv(db)
    ensures HoldsExactly(db.data, r) <==> r.device in db.data.devices && HeadGuard(r)(db.data.devices[r.device])
  {
    if r.device in db.data.devices {
      assert DeviceOk(db, r.device);
      assert PendingOk(db, r.device, db.data.devices[r.device]);
    }
    hide ChainInv, DeviceOk, PendingOk;
  }

  lemma FinalizeAlone(db: Db, r: Request, seal: Seal)
    requires ChainInv(db)
    ensures match Attempt(db, PlanFinalize(r).statements, PlanFinalize(r).condition, Prepare(PlanFinalize(r).event, Head(db.audit), seal))
            case Committed(next) =>
              HoldsExactly(db.data, r) && r.device in db.data.devices && next.data == Finalized(db.data, r)
              && ExactExisting(next.data, r) && r.artifactId !in next.data.queue
              && next.data.(queue := next.data.queue - {r.artifactId}) == next.data
            case Rejected(_) => !(HoldsExactly(db.data, r) && NewEvidence(db.data, r))
  {
    HolderHasTheHead(db, r);
    var entry := Prepare(PlanFinalize(r).event, Head(db.audit), seal);
    hide HoldsExactly, HeadGuard, Finalized, ExactExisting;
    match Attempt(db, PlanFinalize(r).statements, PlanFinalize(r).condition, entry) {
      case Committed(next) =>
        Advancing(r);
        hide Attempt, ChainInv, FinalizeHolds, Clashes;
        CommittedAdvance(db, next, r, AdvanceHead(r), PlanFinalize(r).condition.value, PlanFinalize(r).event, Head(db.audit), seal);
        FinalizedExists(db.data, r);
        DequeueSame(next.data, r.artifactId);
      case Rejected(_) =>
        if HoldsExactly(db.data, r) && NewEvidence(db.data, r) {
          FinalizeTakesEffect(db, r, seal);
        }
    }
  }

  /** Finalizes the next link of a device's chain. A normal return means the exact manifest is
      committed, the head has reached it and the queue entry is gone; the check that every
      statement changed a row after a commit never fails. */
  method FinalizeCaptureDeviceChain(db: Database<Tables, ChainEvent>, r: Request,
                                    network: Network, afterError: seq<Act>, networkDrain: Network, seal: Seal)
    returns (result: FinalizeResult, partial: bool, ghost trace: seq<Act>)
    requires ChainInv(db.View())
    modifies db
    ensures db.View() == Run(old(db.View()), trace, seal)
    ensures ChainInv(db.View())
    ensures result == Fine ==> ExactExisting(db.data, r) && r.artifactId !in db.data.queue
    ensures !partial
    ensures Quiet(network) && Quiet(networkDrain) && afterError == [] ==>
              FinalizesAlone(old(db.data), db.data, result, r, networkDrain.replyLost)
  {
    NothingRuns(db.View(), seal);
    partial := false;
    ghost var before := db.View();
    hide Run, ChainInv, ExactExisting, HoldsExactly, Finalized, NewEvidence, DrainsAlone;
    if ExactExisting(db.data, r) {
      result, trace := RecognizeCommit(db, r, [], networkDrain, seal);
      return;
    }
    var sent;
    sent, partial, trace := SendFinalize(db, r, network, seal);
    if sent {
      return Fine, partial, trace;
    }
    ghost var more;
    result, more := RecognizeCommit(db, r, afterError, networkDrain, seal);
    RunAppend(before, trace, more, seal);
    trace := trace + more;
  }

  /** Refused and nothing changed, or all three facts at once, whether heard of or not. */
  predicate SendsAlone(before: Tables, after: Tables, sent: bool, r: Request) {
    || (after == before && !sent && !(HoldsExactly(before, r) && NewEvidence(before, r)))
    || (HoldsExactly(before, r) && r.device in before.devices && after == Finalized(before, r)
        && ExactExisting(after, r) && r.artifactId !in after.queue && after.(queue := after.queue - {r.artifactId}) == after)
  }

  lemma SendsAsAttempted(before: Db, after: Db, failure: Option<Failure>, r: Request, replyLost: bool, seal: Seal)
    requires ChainInv(before) && SentAlone(before, after, failure, PlanFinalize(r), replyLost, seal)
    ensures SendsAlone(before.data, after.data, failure.None?, r)
  {
    FinalizeAlone(before, r, seal);
    hide ChainInv, Attempt, PlanFinalize, HoldsExactly, NewEvidence, Finalized, ExactExisting;
  }

  /** The finalizing batch; true when its reply says that it committed. */
  method SendFinalize(db: Database<Tables, ChainEvent>, r: Request, network: Network, seal: Seal)
    returns (sent: bool, partial: bool, ghost trace: seq<Act>)
    requires ChainInv(db.View())
    modifies db
    ensures db.View() == Run(old(db.View()), trace, seal) && ChainInv(db.View()) && !partial
    ensures sent ==> ExactExisting(db.data, r) && r.artifactId !in db.data.queue
    ensures Quiet(network) ==> SendsAlone(old(db.data), db.data, sent, r)
  {
    PlanOfFinalize(r);
    hide Run, Apply, PlanOf, PlanFinalize, Settle, Attempt, RunStatements, RowCounts, ChainInv, ExactExisting, SendsAlone, SentAlone;
    partial := false;
    ghost var before := db.View();
    var failure, counts;
    ghost var mid;
    failure, counts, trace, mid := Submit(db, Finalize(r), PlanFinalize(r), network, seal);
    RunKeepsChain(before, trace, seal);
    if Quiet(network) {
      SendsAsAttempted(before, db.View(), failure, r, network.replyLost, seal);
    }
    if failure.Some? {
      return false, partial, trace;
    }
    RunKeepsChain(before, trace[..|trace| - 1], seal);
    CommittedFinalize(mid, db.View(), r, trace[|trace| - 1].observedHead, seal);
    partial := |counts| != 3 || counts[0] == 0 || counts[1] == 0;
    return true, partial, trace;
  }

  /** Looks for the exact manifest; when it is there, a leftover queue entry is removed. */
  method RecognizeCommit(db: Database<Tables, ChainEvent>, r: Request, first: seq<Act>, network: Network, seal: Seal)
    returns (result: FinalizeResult, ghost trace: seq<Act>)
    requires ChainInv(db.View())
    modifies db
    ensures db.View() == Run(old(db.View()), trace, seal) && ChainInv(db.View())
    ensures result == Fine ==> ExactExisting(db.data, r) && r.artifactId !in db.data.queue
    ensures Quiet(network) && first == [] ==>
              if ExactExisting(old(db.data), r) then DrainsAlone(old(db.data), db.data, result, r, network.replyLost)
              else result == Threw && db.data == old(db.data)
  {
    NothingRuns(db.View(), seal);
    hide Run, ChainInv, ExactExisting, DrainsAlone;
    ghost var before := db.View();
    OthersAct(db, first, seal);
    trace := first;
    RunKeepsChain(before, trace, seal);
    if !ExactExisting(db.data, r) {
      return Threw, trace;
    }
    ghost var again := db.View();
    ghost var drained;
    result, drained := DrainFinalizedQueueReplay(db, r, network, seal);
    RunAppend(before, trace, drained, seal);
    RunKeepsChain(again, drained, seal);
    ExactExistingStays(again, drained, seal, r);
    trace := trace + drained;
  }

  lemma PlanOfFinalize(r: Request)
    ensures PlanOf(Finalize(r)) == Some(PlanFinalize(r))
  {
  }

  /** A finalizing batch that commits under its guard has done all three of its updates. */
  lemma CommittedAdvance(mid: Db, next: Db, r: Request, advance: Statement<Tables>, condition: Condition<Tables, ChainEvent>,
                         event: ChainEvent, head: Text, seal: Seal)
    requires ChainInv(mid) && Advances(advance, r) && forall d: Db :: condition(d) ==> FinalizeHolds(d.data, r)
    requires Attempt(mid, [InsertManifest(ManifestOf(r)), advance, DrainQueue(r.artifactId)], Some(condition), Prepare(event, head, seal))
             == Committed(next)
    ensures r.device in mid.data.devices && HeadGuard(r)(mid.data.devices[r.device])
    ensures next.data == Finalized(mid.data, r) && !Clashes(mid.data.manifests, ManifestOf(r))
  {
    var statements := [InsertManifest(ManifestOf(r)), advance, DrainQueue(r.artifactId)];
    var changes := RunStatements(statements, mid.data).changes;
    CommittedRuns(mid, next, statements, condition, Prepare(event, head, seal));
    hide ChainInv, Advances, FinalizeHolds, Finalized, HeadGuard, Clashes, RunStatements, Attempt;
    FinalizingRun(mid, r, advance, next.data, changes);
  }

  lemma CommittedRuns(mid: Db, next: Db, statements: seq<Statement<Tables>>, condition: Condition<Tables, ChainEvent>,
                      entry: Entry<ChainEvent>)
    requires statements != [] && Attempt(mid, statements, Some(condition), entry) == Committed(next)
    ensures RunStatements(statements, mid.data) == Done(next.data, RunStatements(statements, mid.data).changes)
    ensures RunStatements(statements, mid.data).changes > 0 ==> condition(next.(audit := mid.audit))
  {
    hide RunStatements;
  }

  lemma CommittedFinalize(mid: Db, next: Db, r: Request, head: Text, seal: Seal)
    requires ChainInv(mid)
    requires Attempt(mid, PlanFinalize(r).statements, PlanFinalize(r).condition, Prepare(PlanFinalize(r).event, head, seal)) == Committed(next)
    ensures ExactExisting(next.data, r) && r.artifactId !in next.data.queue
    ensures |RowCounts(PlanFinalize(r).statements, mid.data)| == 3
    ensures RowCounts(PlanFinalize(r).statements, mid.data)[..2] == [1, 1]
  {
    var plan := PlanFinalize(r);
    Advancing(r);
    hide ChainInv, Attempt, FinalizeHolds, Clashes, RowCounts;
    CommittedAdvance(mid, next, r, AdvanceHead(r), plan.condition.value, plan.event, head, seal);
    FinalizedExists(mid.data, r);
    FinalizeCounts(mid.data, r);
  }

  lemma Advancing(r: Request)
    ensures Advances(AdvanceHead(r), r)
  {
  }

  lemma FinalizedExists(t: Tables, r: Request)
    requires r.device in t.devices && HeadGuard(r)(t.devices[r.device])
    ensures var u := Finalized(t, r);
            ExactExisting(u, r) && r.artifactId !in u.queue && HasManifest(u, r.artifactId)
  {
    assert Finalized(t, r).manifests[|t.manifests|] == ManifestOf(r);
  }

  lemma FinalizeCounts(t: Tables, r: Request)
    requires r.device in t.devices && HeadGuard(r)(t.devices[r.device]) && !Clashes(t.manifests, ManifestOf(r))
    ensures |RowCounts(PlanFinalize(r).statements, t)| == 3 && RowCounts(PlanFinalize(r).statements, t)[..2] == [1, 1]
  {
    var u := t.(manifests := t.manifests + [ManifestOf(r)]);
    assert InsertManifest(ManifestOf(r))(t) == Done(u, 1);
    assert AdvanceHead(r)(u).Done? && AdvanceHead(r)(u).changes == 1;
    CountThree(InsertManifest(ManifestOf(r)), AdvanceHead(r), DrainQueue(r.artifactId), t);
  }

  datatype ReserveResult = Lease(id: Id) | DeviceUnavailable | KeyMismatch | AnotherCapture | ContinuityFailed | ChangedConcurrently | Error

  /** The device carries exactly this capture as its reservation, next in its chain and under
      the key pinned to it. */
  ghost predicate HoldsLease(t: Tables, device: Id, leaseId: Id, c: Capture) {
    && device in t.devices && t.devices[device].pending.Some?
    && var d := t.devices[device];
       d.pending.value == Pending(leaseId, c.sequence, c.previousHash, c.eventHash, c.evidenceId, d.pending.value.expiresAt)
       && d.keyId == Some(c.keyId) && d.publicKey == Some(c.publicKey) && MatchingChain(d)
  }

  predicate SameCapture(p: Pending, c: Capture) {
    p.evidenceId == c.evidenceId && p.sequence == c.sequence && p.previousHash == c.previousHash && p.eventHash == c.eventHash
  }

  predicate OtherKey(d: Device, c: Capture) {
    (d.keyId.Some? && d.keyId != Some(c.keyId)) || (d.publicKey.Some? && d.publicKey != Some(c.publicKey))
  }

  lemma LiveLease(db: Db, device: Id, c: Capture)
    requires ChainInv(db) && device in db.data.devices && db.data.devices[device].pending.Some?
    requires !OtherKey(db.data.devices[device], c) && SameCapture(db.data.devices[device].pending.value, c)
    ensures HoldsLease(db.data, device, db.data.devices[device].pending.value.leaseId, c)
  {
    assert DeviceOk(db, device);
    assert PendingOk(db, device, db.data.devices[device]);
  }

  predicate Available(t: Tables, actor: Id, device: Id) {
    device in t.devices && t.devices[device].owner == actor && t.devices[device].active
  }

  /** What the first read alone decides, case by case; the device is asked to be reserved in none of these. */
  predicate AnswersFromRow(t: Tables, result: ReserveResult, actor: Id, device: Id, c: Capture, now: int) {
    && (result == DeviceUnavailable <==> !Available(t, actor, device))
    && (result == KeyMismatch <==> Available(t, actor, device) && OtherKey(t.devices[device], c))
    && (result == AnotherCapture <==>
          Available(t, actor, device) && !OtherKey(t.devices[device], c) && !Free(t.devices[device], now)
          && !SameCapture(t.devices[device].pending.value, c))
    && (result == ContinuityFailed <==>
          Available(t, actor, device) && !OtherKey(t.devices[device], c) && Free(t.devices[device], now)
          && !(c.sequence == t.devices[device].chainSequence + 1 && c.previousHash == t.devices[device].chainEventHash))
    && (Available(t, actor, device) && !OtherKey(t.devices[device], c) && !Free(t.devices[device], now)
        && SameCapture(t.devices[device].pending.value, c) ==>
          result == Lease(t.devices[device].pending.value.leaseId))
  }

  /** The step of a reservation. */
  function Asks(actor: Id, device: Id, c: Capture, leaseId: Id, now: int, expiresAt: int): (s: Step)
    ensures s.Reserve?
  {
    Reserve(actor, device, c, c.sequence - 1, c.previousHash, leaseId, now, expiresAt)
  }

  predicate CanReserve(t: Tables, s: Step)
    requires s.Reserve?
  {
    Reservable(t, s.actor, s.device, s.capture, s.now)
  }

  function AfterReserve(t: Tables, s: Step): Tables
    requires s.Reserve? && s.device in t.devices
  {
    t.(devices := t.devices[s.device := ReservedRow(t.devices[s.device], s.capture, s.leaseId, s.expiresAt)])
  }

  /** The batch met a device that could be reserved and reserved it, or one that could not and left it. */
  predicate RaceEnds(mid: Tables, after: Tables, result: ReserveResult, s: Step)
    requires s.Reserve?
  {
    if result == ChangedConcurrently then !CanReserve(mid, s) && after == mid
    else s.device in mid.devices && CanReserve(mid, s) && !PinnedElsewhere(mid, s.device, s.capture.keyId) && after == AfterReserve(mid, s)
  }

  /** With nobody in between, a key pinned to another device is all that stands in the way. */
  predicate AloneEnds(before: Tables, after: Tables, result: ReserveResult, s: Step, replyLost: bool)
    requires s.Reserve?
  {
    if PinnedElsewhere(before, s.device, s.capture.keyId) then result == Error && after == before
    else s.device in before.devices && after == AfterReserve(before, s) && result == (if replyLost then Error else Lease(s.leaseId))
  }

  predicate PinnedElsewhere(t: Tables, device: Id, keyId: Id) {
    exists id | id in t.devices && id != device :: t.devices[id].keyId == Some(keyId)
  }

  /** Reserves the next link, or hands back the live lease of the same capture. A lease that is
      handed out is held at that moment, and a new one displaces no live reservation, even of a race
      with another worker; losing that race is reported, never a foreign lease. */
  method ReserveCaptureDeviceChain(db: Database<Tables, ChainEvent>, actor: Id, device: Id, c: Capture, leaseId: Id,
                                   now: int, expiresAt: int, network: Network, seal: Seal)
    returns (result: ReserveResult, ghost trace: seq<Act>)
    requires ChainInv(db.View())
    modifies db
    ensures db.View() == Run(old(db.View()), trace, seal)
    ensures ChainInv(db.View())
    ensures result.Lease? ==> HoldsLease(db.data, device, result.id, c)
    ensures AnswersFromRow(old(db.data), result, actor, device, c, now)
    ensures !Reservable(old(db.data), actor, device, c, now) ==> db.View() == old(db.View())
    ensures Reservable(old(db.data), actor, device, c, now) ==> result in {Lease(leaseId), ChangedConcurrently, Error}
    ensures Reservable(old(db.data), actor, device, c, now) && !result.Error? ==>
              trace != [] && RaceEnds(Run(old(db.View()), trace[..|trace| - 1], seal).data, db.data, result, Asks(actor, device, c, leaseId, now, expiresAt))
    ensures Reservable(old(db.data), actor, device, c, now) && Quiet(network) ==>
              AloneEnds(old(db.data), db.data, result, Asks(actor, device, c, leaseId, now, expiresAt), network.replyLost)
  {
    NothingRuns(db.View(), seal);
    var answer := AnswerOf(db.data, actor, device, c, now);
    AnswersAsRead(db.data, actor, device, c, now);
    if answer.Some? {
      if answer.value.Lease? {
        LiveLease(db.View(), device, c);
      }
      return answer.value, [];
    }
    var row := db.data.devices[device];
    var step := Reserve(actor, device, c, row.chainSequence, row.chainEventHash, leaseId, now, expiresAt);
    hide Run, Apply, Attempt, ChainInv, HoldsLease, MatchingChain, RaceEnds, AloneEnds, AnswerOf, OtherKey, SameCapture, Free, PinnedElsewhere;
    result, trace := SendReservation(db, step, network, seal);
  }

  /** What the row read first says already: an answer, or that the device is to be reserved. */
  function AnswerOf(t: Tables, actor: Id, device: Id, c: Capture, now: int): (r: Option<ReserveResult>)
    ensures r.None? ==> device in t.devices
  {
    if device !in t.devices || t.devices[device].owner != actor || !t.devices[device].active then Some(DeviceUnavailable)
    else
      var row := t.devices[device];
      if OtherKey(row, c) then Some(KeyMismatch)
      else if row.pending.Some? && row.pending.value.expiresAt > now then
        if SameCapture(row.pending.value, c) then Some(Lease(row.pending.value.leaseId)) else Some(AnotherCapture)
      else if c.sequence != row.chainSequence + 1 || c.previousHash != row.chainEventHash then Some(ContinuityFailed)
      else None
  }

  lemma AnswersAsRead(t: Tables, actor: Id, device: Id, c: Capture, now: int)
    ensures AnswerOf(t, actor, device, c, now).None? <==> Reservable(t, actor, device, c, now)
    ensures AnswerOf(t, actor, device, c, now).Some? ==> AnswersFromRow(t, AnswerOf(t, actor, device, c, now).value, actor, device, c, now)
    ensures AnswerOf(t, actor, device, c, now).None? ==>
              && (forall id :: AnswersFromRow(t, Lease(id), actor, device, c, now))
              && AnswersFromRow(t, ChangedConcurrently, actor, device, c, now) && AnswersFromRow(t, Error, actor, device, c, now)
  {
  }

  /** The reserving batch for a row as it was read. */
  method SendReservation(db: Database<Tables, ChainEvent>, step: Step, network: Network, seal: Seal)
    returns (result: ReserveResult, ghost trace: seq<Act>)
    requires ChainInv(db.View()) && step.Reserve?
    requires step.capture.sequence == step.observedSequence + 1 && step.capture.previousHash == step.observedHash
    modifies db
    ensures db.View() == Run(old(db.View()), trace, seal)
    ensures ChainInv(db.View())
    ensures result in {Lease(step.leaseId), ChangedConcurrently, Error}
    ensures result.Lease? ==> HoldsLease(db.data, step.device, step.leaseId, step.capture)
    ensures !result.Error? ==> trace != [] && RaceEnds(Run(old(db.View()), trace[..|trace| - 1], seal).data, db.data, result, step)
    ensures CanReserve(old(db.data), step) && Quiet(network) ==> AloneEnds(old(db.data), db.data, result, step, network.replyLost)
  {
    hide Run, Apply, PlanOf, PlanReserve, Settle, Attempt, RunStatements, RowCounts, ChainInv, HoldsLease, CanReserve, AfterReserve,
         PinnedElsewhere, RaceEnds;
    ghost var before := db.View();
    PlanOfReserve(step);
    if CanReserve(before.data, step) {
      ReserveAlone(before, step, seal);
    }
    var failure, counts;
    ghost var mid;
    failure, counts, trace, mid := Submit(db, step, PlanReserve(step), network, seal);
    RunKeepsChain(before, trace, seal);
    if failure.Some? {
      return Error, trace;
    }
    RunKeepsChain(before, trace[..|trace| - 1], seal);
    CommittedReserve(mid, db.View(), step, trace[|trace| - 1].observedHead, seal);
    result := if counts[0] == 0 then ChangedConcurrently else Lease(step.leaseId);
    if CanReserve(before.data, step) && Quiet(network) {
      RaceIsWon(before.data, db.data, result, step);
    }
  }

  lemma RaceIsWon(mid: Tables, after: Tables, result: ReserveResult, s: Step)
    requires s.Reserve? && RaceEnds(mid, after, result, s) && CanReserve(mid, s) && result in {ChangedConcurrently, Lease(s.leaseId)}
    ensures AloneEnds(mid, after, result, s, false)
  {
  }

  /** The reserving statement and its guard, in terms of the device. */
  lemma ReserveMeans(db: Db, s: Step)
    requires ChainInv(db) && s.Reserve? && s.capture.sequence == s.observedSequence + 1 && s.capture.previousHash == s.observedHash
    ensures var statement := PlanReserve(s).statements[0];
            && PlanReserve(s).statements == [statement]
            && if !CanReserve(db.data, s) then statement(db.data) == Done(db.data, 0)
               else if PinnedElsewhere(db.data, s.device, s.capture.keyId) then statement(db.data) == Abort
               else s.device in db.data.devices && statement(db.data) == Done(AfterReserve(db.data, s), 1)
                    && PlanReserve(s).condition.Some? && PlanReserve(s).condition.value(Store(AfterReserve(db.data, s), db.audit))
  {
    ReserveExactly(db, s);
    hide ChainInv, ReserveStatement;
  }

  /** A batch of one statement on the head that it was prepared for. */
  lemma AttemptOne(db: Db, statement: Statement<Tables>, condition: Condition<Tables, ChainEvent>, event: ChainEvent, seal: Seal)
    requires statement(db.data).Done? && statement(db.data).changes > 0 ==> condition(Store(statement(db.data).next, db.audit))
    ensures match Attempt(db, [statement], Some(condition), Prepare(event, Head(db.audit), seal))
            case Committed(next) => statement(db.data).Done? && next.data == statement(db.data).next
            case Rejected(_) => statement(db.data) == Abort
  {
    RunOne(statement, db.data);
    hide RunStatements;
  }

  lemma ReserveAlone(db: Db, s: Step, seal: Seal)
    requires ChainInv(db) && s.Reserve? && CanReserve(db.data, s)
    requires s.capture.sequence == s.observedSequence + 1 && s.capture.previousHash == s.observedHash
    ensures match Attempt(db, PlanReserve(s).statements, PlanReserve(s).condition, Prepare(PlanReserve(s).event, Head(db.audit), seal))
            case Committed(next) =>
              !PinnedElsewhere(db.data, s.device, s.capture.keyId) && s.device in db.data.devices && next.data == AfterReserve(db.data, s)
            case Rejected(_) => PinnedElsewhere(db.data, s.device, s.capture.keyId)
  {
    ReserveMeans(db, s);
    hide ChainInv, PlanReserve, Attempt, AfterReserve, CanReserve, PinnedElsewhere;
    AttemptOne(db, PlanReserve(s).statements[0], PlanReserve(s).condition.value, PlanReserve(s).event, seal);
  }

  lemma PlanOfReserve(s: Step)
    requires s.Reserve? && s.capture.sequence == s.observedSequence + 1 && s.capture.previousHash == s.observedHash
    ensures PlanOf(s) == Some(PlanReserve(s))
  {
  }

  /** What a committed batch of a single statement did. */
  lemma CommittedOne(mid: Db, next: Db, statement: Statement<Tables>, condition: Option<Condition<Tables, ChainEvent>>,
                     entry: Entry<ChainEvent>)
    requires Attempt(mid, [statement], condition, entry) == Committed(next)
    ensures statement(mid.data).Done? && statement(mid.data).next == next.data
    ensures RowCounts([statement], mid.data) == [statement(mid.data).changes]
  {
    RunOne(statement, mid.data);
    CountOne(statement, mid.data);
  }

  lemma CommittedReserve(mid: Db, next: Db, s: Step, head: Text, seal: Seal)
    requires s.Reserve? && ChainInv(mid) && ChainInv(next)
    requires s.capture.sequence == s.observedSequence + 1 && s.capture.previousHash == s.observedHash
    requires Attempt(mid, PlanReserve(s).statements, PlanReserve(s).condition, Prepare(PlanReserve(s).event, head, seal)) == Committed(next)
    ensures |RowCounts(PlanReserve(s).statements, mid.data)| == 1
    ensures var result := if RowCounts(PlanReserve(s).statements, mid.data)[0] == 0 then ChangedConcurrently else Lease(s.leaseId);
            RaceEnds(mid.data, next.data, result, s) && (result.Lease? ==> HoldsLease(next.data, s.device, s.leaseId, s.capture))
  {
    var statement := PlanReserve(s).statements[0];
    ReserveMeans(mid, s);
    hide Attempt, RowCounts, RunStatements, PlanReserve, ChainInv, HoldsLease, PinnedElsewhere;
    CommittedOne(mid, next, statement, PlanReserve(s).condition, Prepare(PlanReserve(s).event, head, seal));
    if CanReserve(mid.data, s) {
      LiveLease(next, s.device, s.capture);
    }
  }

  datatype ReconcileResult = NothingDone | FinalizedLink(artifactId: Id) | ReleasedFor(reason: Reason) | ItemFailed

  function Candidates(t: Tables, p: Authority, now: int): set<Id> {
    set id | id in t.artifacts && IsCandidate(t, id, p, now)
  }

  /** Why the scheduler would release the reservation it read: the problem found, or that no artifact of
      the capture can be finalized. */
  function WhyRelease(t: Tables, p: Authority, now: int, keyHashes: (Id, Id) -> bool): Option<Reason> {
    var problem := AuthorityProblem(t, p, keyHashes);
    if problem.Some? then problem else if Candidates(t, p, now) == {} then Some(ArtifactNotFound) else None
  }

  function WithoutReservation(t: Tables, device: Id): Tables
    requires device in t.devices
  {
    t.(devices := t.devices[device := t.devices[device].(pending := None)])
  }

  /** How the work on one reservation ends with nobody in between: left alone before it runs out or when
      it is ambiguous, released for the reason there is, or finalized by its one candidate. */
  ghost predicate ReconcilesAlone(before: Tables, after: Tables, result: ReconcileResult, device: Id, now: int,
                                  keyHashes: (Id, Id) -> bool, replyLost: bool)
    requires device in before.devices && before.devices[device].pending.Some?
  {
    var p := ReadAuthority(device, before.devices[device]);
    var reason, candidates := WhyRelease(before, p, now, keyHashes), Candidates(before, p, now);
    && (p.pending.expiresAt > now ==> result == ItemFailed && after == before)
    && (p.pending.expiresAt <= now && p.pending.sequence <= 2_147_483_647 && reason.Some? ==>
          after == WithoutReservation(before, device) && result == if replyLost then ItemFailed else ReleasedFor(reason.value))
    && (reason.None? && |candidates| > 1 ==> result == ItemFailed && after == before)
    && (p.pending.expiresAt <= now && p.pending.sequence <= 2_147_483_647 && reason.None? && |candidates| == 1 ==>
          exists id :: id in candidates && id in before.artifacts && LinksAlone(before, after, result, p, id, replyLost))
  }

  /** The candidate's manifest is appended and the head moved, unless the evidence was sent before. */
  predicate LinksAlone(before: Tables, after: Tables, result: ReconcileResult, p: Authority, id: Id, replyLost: bool)
    requires id in before.artifacts
  {
    p.keyId.Some? && p.publicKey.Some? && 1 <= p.pending.sequence <= 2_147_483_647
    && var r := RequestOf(p, p.keyId.value, p.publicKey.value, id, before.artifacts[id]);
       NewEvidence(before, r) ==>
         && r.device in before.devices && after == Finalized(before, r)
         && result == if replyLost then NothingDone else FinalizedLink(id)
  }

  /** The scheduler's work on one expired reservation it has read: release it for the problem
      found, finalize its single exact candidate, or release it when there is none. */
  method ReconcileReservation(db: Database<Tables, ChainEvent>, device: Id, now: int, keyHashes: (Id, Id) -> bool,
                              network: Network, afterError: seq<Act>, seal: Seal)
    returns (result: ReconcileResult, ghost trace: seq<Act>)
    requires ChainInv(db.View())
    requires device in db.data.devices && db.data.devices[device].pending.Some?
    modifies db
    ensures db.View() == Run(old(db.View()), trace, seal)
    ensures ChainInv(db.View())
    ensures result.FinalizedLink? ==> HasManifest(db.data, result.artifactId) && result.artifactId !in db.data.queue
    ensures result.ReleasedFor? ==> result.reason != ChainAuthorityMismatch
                                    && device in db.data.devices && db.data.devices[device].pending.None?
    ensures Quiet(network) && afterError == [] ==>
              ReconcilesAlone(old(db.data), db.data, result, device, now, keyHashes, network.replyLost)
  {
    hide Run, ChainInv, Releasable, ReleasesAlone, CandidateAlone, Finalizable, PlanOf, LinksAlone, HasManifest, AuthorityProblem, IsCandidate,
         NewEvidence, ExactExisting, ExactArtifact;
    NothingRuns(db.View(), seal);
    ReservationIsNext(db.View(), device, keyHashes);
    var p := ReadAuthority(device, db.data.devices[device]);
    ghost var before := db.data;
    if p.pending.expiresAt > now || p.pending.sequence > 2_147_483_647 {
      return ItemFailed, [];
    }
    var reason := WhyRelease(db.data, p, now, keyHashes);
    var candidates := Candidates(db.data, p, now);
    if reason.Some? {
      ReasonIsThere(db.View(), device, now, keyHashes);
      hide *;
      result, trace := ReleaseExpiredReservation(db, p, now, reason.value, network, seal);
      if Quiet(network) {
        ReleaseIsAlone(before, db.data, result, device, now, keyHashes, network.replyLost);
      }
      return;
    }
    if |candidates| > 1 {
      return ItemFailed, [];
    }
    NonemptyOne(candidates);
    var id :| id in candidates;
    CandidateIsSendable(db.data, p, id, now, keyHashes);
    CandidateIsExact(db.View(), device, id, now, keyHashes);
    var step := Reconcile(p, id, db.data.artifacts[id], now);
    NotYetLinked(db.data, p, id, now, RequestFrom(step));
    hide *;
    result, trace := FinalizeExactCandidate(db, step, network, afterError, seal);
    if Quiet(network) && afterError == [] {
      CandidateIsAlone(before, db.data, result, device, id, now, keyHashes, network.replyLost);
    }
  }

  lemma ReleaseIsAlone(before: Tables, after: Tables, result: ReconcileResult, device: Id, now: int, keyHashes: (Id, Id) -> bool, replyLost: bool)
    requires device in before.devices && before.devices[device].pending.Some?
    requires var p := ReadAuthority(device, before.devices[device]);
             var reason := WhyRelease(before, p, now, keyHashes);
             p.pending.expiresAt <= now && reason.Some? && Releasable(before, p, now, reason.value)
             && ReleasesAlone(before, after, result, p, now, reason.value, replyLost)
    ensures ReconcilesAlone(before, after, result, device, now, keyHashes, replyLost)
  {
    hide WhyRelease, Candidates, Releasable, WithoutReservation;
  }

  lemma CandidateIsAlone(before: Tables, after: Tables, result: ReconcileResult, device: Id, id: Id, now: int, keyHashes: (Id, Id) -> bool,
                         replyLost: bool)
    requires device in before.devices && before.devices[device].pending.Some? && id in before.artifacts
    requires var p := ReadAuthority(device, before.devices[device]);
             var s := Reconcile(p, id, before.artifacts[id], now);
             && p.pending.expiresAt <= now && WhyRelease(before, p, now, keyHashes).None? && id in Candidates(before, p, now)
             && |Candidates(before, p, now)| == 1 && PlanOf(s).Some? && Finalizable(before, s, RequestFrom(s))
             && CandidateAlone(before, after, result, s, RequestFrom(s), replyLost)
    ensures ReconcilesAlone(before, after, result, device, now, keyHashes, replyLost)
  {
    var p := ReadAuthority(device, before.devices[device]);
    hide WhyRelease, Candidates, Finalizable, NewEvidence, Finalized, ReadAuthority;
    assert LinksAlone(before, after, result, p, id, replyLost);
  }

  /** A candidate has no manifest yet. */
  lemma NotYetLinked(t: Tables, p: Authority, id: Id, now: int, r: Request)
    requires id in Candidates(t, p, now) && r.artifactId == id
    ensures !ExactExisting(t, r)
  {
    if ExactExisting(t, r) {
      ExistingHasManifest(t, r);
    }
  }

  /** The row is as it was read, the reservation has run out, and the reason is there. */
  ghost predicate Releasable(t: Tables, p: Authority, now: int, reason: Reason) {
    && p.deviceId in t.devices && RowIs(t.devices[p.deviceId], p) && t.devices[p.deviceId].pending == Some(p.pending)
    && p.pending.expiresAt <= now && ReasonHolds(t, t.devices[p.deviceId], p, now, reason)
    && ReleaseHolds(WithoutReservation(t, p.deviceId), p, now, reason)
  }

  ghost predicate ReleasesAlone(before: Tables, after: Tables, result: ReconcileResult, p: Authority, now: int, reason: Reason, replyLost: bool) {
    Releasable(before, p, now, reason) ==>
      after == WithoutReservation(before, p.deviceId) && result == if replyLost then ItemFailed else ReleasedFor(reason)
  }

  lemma ReasonIsThere(db: Db, device: Id, now: int, keyHashes: (Id, Id) -> bool)
    requires ChainInv(db) && device in db.data.devices && db.data.devices[device].pending.Some?
    requires db.data.devices[device].pending.value.expiresAt <= now
    ensures var p := ReadAuthority(device, db.data.devices[device]);
            var reason := WhyRelease(db.data, p, now, keyHashes);
            reason.Some? ==> reason != Some(ChainAuthorityMismatch) && Releasable(db.data, p, now, reason.value)
  {
    assert DeviceOk(db, device);
    assert PendingOk(db, device, db.data.devices[device]);
    hide ChainInv, DeviceOk, PendingOk, WhyRelease, Releasable, ReadAuthority;
    ReasonIsThereNow(db.data, device, now, keyHashes);
  }

  lemma ReasonIsThereNow(t: Tables, device: Id, now: int, keyHashes: (Id, Id) -> bool)
    requires device in t.devices && MatchingChain(t.devices[device]) && t.devices[device].pending.value.expiresAt <= now
    ensures var p := ReadAuthority(device, t.devices[device]);
            var reason := WhyRelease(t, p, now, keyHashes);
            reason.Some? ==> reason != Some(ChainAuthorityMismatch) && Releasable(t, p, now, reason.value)
  {
    var p := ReadAuthority(device, t.devices[device]);
    ReasonExactly(t, p, now, keyHashes);
    NoneFound(t, p, now);
    NoneFound(WithoutReservation(t, device), p, now);
    SameCandidates(t, device, p, now);
    hide NoCandidate, Candidates, WhyRelease, AuthorityProblem;
  }

  lemma NoneFound(t: Tables, p: Authority, now: int)
    ensures Candidates(t, p, now) == {} <==> NoCandidate(t, p, now)
  {
    hide IsCandidate;
    if NoCandidate(t, p, now) {
      assert forall id :: id !in Candidates(t, p, now);
    } else {
      var id :| id in t.artifacts && IsCandidate(t, id, p, now);
      assert id in Candidates(t, p, now);
    }
  }

  lemma SameCandidates(t: Tables, device: Id, p: Authority, now: int)
    requires device in t.devices
    ensures Candidates(WithoutReservation(t, device), p, now) == Candidates(t, p, now)
  {
  }

  /** What each reason to release stands for. */
  lemma ReasonExactly(t: Tables, p: Authority, now: int, keyHashes: (Id, Id) -> bool)
    requires p.pending.sequence == p.chainSequence + 1 && p.pending.previousHash == p.chainEventHash
    ensures var allowed := p.active && p.owner in t.users && t.users[p.owner].active && t.users[p.owner].role in {Admin, ComplianceLead};
            var pinned := p.keyId.Some? && p.publicKey.Some? && keyHashes(p.keyId.value, p.publicKey.value);
            WhyRelease(t, p, now, keyHashes)
            == if !allowed then Some(DeviceOrOwnerRevoked) else if !pinned then Some(PinnedKeyInvalid)
               else if NoCandidate(t, p, now) then Some(ArtifactNotFound) else None
  {
    NoneFound(t, p, now);
    hide NoCandidate, Candidates;
  }

  lemma ReleaseAlone(db: Db, p: Authority, now: int, reason: Reason, seal: Seal)
    requires Releasable(db.data, p, now, reason)
    ensures match Attempt(db, PlanRelease(p, now, reason).statements, PlanRelease(p, now, reason).condition,
                          Prepare(PlanRelease(p, now, reason).event, Head(db.audit), seal))
            case Committed(next) => p.deviceId in db.data.devices && next.data == WithoutReservation(db.data, p.deviceId)
            case Rejected(_) => false
    ensures ReleaseStatement(p, now, reason)(db.data).changes == 1
  {
    hide ReasonHolds, RowIs, ReleaseHolds;
    var plan := PlanRelease(p, now, reason);
    AttemptOne(db, plan.statements[0], plan.condition.value, plan.event, seal);
  }

  /** The row and the artifact are as the scheduler read them, and it may finalize the one for the other. */
  predicate Finalizable(t: Tables, s: Step, r: Request)
    requires s.Reconcile?
  {
    && HoldsExactly(t, r) && OwnerMayCollect(t, s.authority.owner) && ExactArtifact(t, s.artifactId, s.artifact, s.now)
    && r.device in t.devices && t.devices[r.device].chainSequence == s.authority.chainSequence
    && t.devices[r.device].chainEventHash == s.authority.chainEventHash
    && t.devices[r.device].pending == Some(s.authority.pending)
  }

  function RequestFrom(s: Step): Request
    requires s.Reconcile? && PlanOf(s).Some?
  {
    RequestOf(s.authority, s.authority.keyId.value, s.authority.publicKey.value, s.artifactId, s.artifact)
  }

  predicate CandidateAlone(before: Tables, after: Tables, result: ReconcileResult, s: Step, r: Request, replyLost: bool)
    requires s.Reconcile?
  {
    Finalizable(before, s, r) && NewEvidence(before, r) ==>
      r.device in before.devices && after == Finalized(before, r) && result == if replyLost then NothingDone else FinalizedLink(s.artifactId)
  }

  lemma CandidateIsExact(db: Db, device: Id, id: Id, now: int, keyHashes: (Id, Id) -> bool)
    requires ChainInv(db) && device in db.data.devices && db.data.devices[device].pending.Some?
    requires var p := ReadAuthority(device, db.data.devices[device]);
             id in Candidates(db.data, p, now) && AuthorityProblem(db.data, p, keyHashes).None? && 1 <= p.pending.sequence <= 2_147_483_647
    ensures var p := ReadAuthority(device, db.data.devices[device]);
            var s := Reconcile(p, id, db.data.artifacts[id], now);
            PlanOf(s).Some? && Finalizable(db.data, s, RequestFrom(s))
  {
    hide ChainInv;
  }

  lemma AdvanceExactlyRuns(t: Tables, s: Step, r: Request, manifests: seq<Manifest>)
    requires s.Reconcile? && Finalizable(t, s, r) && r.artifactId == s.artifactId && HeadGuard(r)(t.devices[r.device])
    ensures var u := t.(manifests := manifests);
            AdvanceHeadExactly(r, s.authority, s.artifact, s.now)(u) == Done(u.(devices := Finalized(t, r).devices), 1)
  {
  }

  lemma ReconcileRun(db: Db, s: Step, r: Request) returns (changes: nat)
    requires ChainInv(db) && s.Reconcile? && Finalizable(db.data, s, r) && NewEvidence(db.data, r) && r.artifactId == s.artifactId
    ensures var plan := PlanReconcile(r, s.authority, s.artifact, s.now);
            r.device in db.data.devices && RunStatements(plan.statements, db.data) == Done(Finalized(db.data, r), changes) && changes > 0
  {
    HolderHasTheHead(db, r);
    NoClash(db, ManifestOf(r));
    var t, m := db.data, ManifestOf(r);
    AdvanceExactlyRuns(t, s, r, t.manifests + [m]);
    hide ChainInv, Clashes, FinalizeHolds, ManifestOf, RunStatements, Finalizable, HoldsExactly, HeadGuard, NewEvidence, ExactArtifact;
    var u := t.(manifests := t.manifests + [m]);
    var advance := AdvanceHeadExactly(r, s.authority, s.artifact, s.now);
    assert InsertManifest(m)(t) == Done(u, 1);
    RunThree(InsertManifest(m), advance, DrainQueue(r.artifactId), t);
    DequeueSame(t, r.artifactId);
    changes := RunStatements(PlanReconcile(r, s.authority, s.artifact, s.now).statements, t).changes;
  }

  lemma ReconcileConditionHolds(db: Db, s: Step, r: Request)
    requires s.Reconcile? && Finalizable(db.data, s, r) && r.artifactId == s.artifactId && r.device in db.data.devices
    ensures PlanReconcile(r, s.authority, s.artifact, s.now).condition.value(Store(Finalized(db.data, r), db.audit))
  {
    FinalizedHolds(db.data, r);
    FinalizedKeepsRest(db.data, r);
    hide FinalizeHolds, Finalized, HoldsExactly;
  }

  lemma ReconcileAlone(db: Db, s: Step, r: Request, seal: Seal)
    requires ChainInv(db) && s.Reconcile? && Finalizable(db.data, s, r) && NewEvidence(db.data, r) && r.artifactId == s.artifactId
    ensures var plan := PlanReconcile(r, s.authority, s.artifact, s.now);
            match Attempt(db, plan.statements, plan.condition, Prepare(plan.event, Head(db.audit), seal))
            case Committed(next) => r.device in db.data.devices && next.data == Finalized(db.data, r) && ExactExisting(next.data, r)
            case Rejected(_) => false
  {
    hide ChainInv, HoldsExactly, HeadGuard, Finalized, ExactExisting, RunStatements, FinalizeHolds, NewEvidence, ExactArtifact;
    HolderHasTheHead(db, r);
    var changes := ReconcileRun(db, s, r);
    ReconcileConditionHolds(db, s, r);
    FinalizedExists(db.data, r);
  }

  lemma NonemptyOne(s: set<Id>)
    requires s != {} && |s| <= 1
    ensures |s| == 1
  {
  }

  lemma PlanFromRequest(s: Step)
    requires s.Reconcile? && PlanOf(s).Some?
    ensures PlanOf(s) == Some(PlanReconcile(RequestFrom(s), s.authority, s.artifact, s.now)) && RequestFrom(s).artifactId == s.artifactId
  {
  }

  /** The batch of a finalizable candidate reports both rows that it must have changed. */
  lemma CommittedSends(db: Db, s: Step, r: Request, seal: Seal)
    requires ChainInv(db) && s.Reconcile? && PlanOf(s).Some? && r == RequestFrom(s)
    requires Finalizable(db.data, s, r) && NewEvidence(db.data, r)
    ensures PlanOf(s) == Some(PlanReconcile(r, s.authority, s.artifact, s.now))
    ensures var counts := RowCounts(PlanOf(s).value.statements, db.data);
            |counts| == 3 && counts[0] > 0 && counts[1] > 0
  {
    PlanFromRequest(s);
    hide ChainInv, Clashes, RowCounts, HeadGuard, ExactArtifact, PlanOf, RequestFrom, HoldsExactly;
    HolderHasTheHead(db, r);
    NoClash(db, ManifestOf(r));
    var t, m := db.data, ManifestOf(r);
    AdvanceExactlyRuns(t, s, r, t.manifests + [m]);
    hide ManifestOf, Finalizable, NewEvidence;
    assert InsertManifest(m)(t) == Done(t.(manifests := t.manifests + [m]), 1);
    CountThree(InsertManifest(m), AdvanceHeadExactly(r, s.authority, s.artifact, s.now), DrainQueue(r.artifactId), t);
  }

  /** A manifest that is there already, before the batch or after an error, is not counted as this
      worker's; its artifact is finalized all the same. */
  method FinalizeExactCandidate(db: Database<Tables, ChainEvent>, step: Step, network: Network, afterError: seq<Act>, seal: Seal)
    returns (result: ReconcileResult, ghost trace: seq<Act>)
    requires ChainInv(db.View()) && step.Reconcile? && PlanOf(step).Some?
    modifies db
    ensures db.View() == Run(old(db.View()), trace, seal) && ChainInv(db.View())
    ensures result in {ItemFailed, NothingDone, FinalizedLink(step.artifactId)}
    ensures !result.ItemFailed? ==> HasManifest(db.data, step.artifactId)
    ensures result.FinalizedLink? ==> step.artifactId !in db.data.queue
    ensures Quiet(network) && afterError == [] && !ExactExisting(old(db.data), RequestFrom(step)) ==>
              CandidateAlone(old(db.data), db.data, result, step, RequestFrom(step), network.replyLost)
  {
    NothingRuns(db.View(), seal);
    var r := RequestFrom(step);
    assert r.artifactId == step.artifactId;
    ghost var before := db.View();
    hide Run, Apply, PlanOf, ChainInv, ExactExisting, Finalizable, NewEvidence, Finalized, RequestFrom, SendsCandidate;
    if ExactExisting(db.data, r) {
      ExistingHasManifest(db.data, r);
      return NothingDone, [];
    }
    var sent;
    sent, trace := SendReconcile(db, step, network, seal);
    if sent {
      result := FinalizedLink(step.artifactId);
    } else {
      OthersAct(db, afterError, seal);
      NothingRuns(db.View(), seal);
      RunAppend(before, trace, afterError, seal);
      trace := trace + afterError;
      RunKeepsChain(before, trace, seal);
      if ExactExisting(db.data, r) {
        ExistingHasManifest(db.data, r);
      }
      result := if ExactExisting(db.data, r) then NothingDone else ItemFailed;
    }
    if Quiet(network) && afterError == [] {
      CandidateEnds(before.data, db.data, sent, step, r, network.replyLost, result);
    }
  }

  /** The finalizing batch of the scheduler; true when its reply reports both rows it must have changed. */
  method SendReconcile(db: Database<Tables, ChainEvent>, step: Step, network: Network, seal: Seal)
    returns (sent: bool, ghost trace: seq<Act>)
    requires ChainInv(db.View()) && step.Reconcile? && PlanOf(step).Some?
    modifies db
    ensures db.View() == Run(old(db.View()), trace, seal) && ChainInv(db.View())
    ensures sent ==> HasManifest(db.data, step.artifactId) && step.artifactId !in db.data.queue
    ensures Quiet(network) ==> SendsCandidate(old(db.data), db.data, sent, step, RequestFrom(step), network.replyLost)
  {
    ghost var before := db.View();
    hide Run, Apply, PlanOf, Settle, Attempt, RunStatements, RowCounts, ChainInv, RequestFrom, SendsCandidate, SentAlone;
    var failure, counts;
    ghost var mid;
    failure, counts, trace, mid := Submit(db, step, PlanOf(step).value, network, seal);
    RunKeepsChain(before, trace, seal);
    sent := failure.None? && |counts| == 3 && counts[0] > 0 && counts[1] > 0;
    if Quiet(network) {
      CandidateAsAttempted(before, db.View(), failure, counts, step, network.replyLost, seal);
    }
    if sent {
      RunKeepsChain(before, trace[..|trace| - 1], seal);
      CommittedReconcile(mid, db.View(), step, trace[|trace| - 1].observedHead, seal);
    }
  }

  lemma CandidateAsAttempted(before: Db, after: Db, failure: Option<Failure>, counts: seq<nat>, s: Step, replyLost: bool, seal: Seal)
    requires ChainInv(before) && s.Reconcile? && PlanOf(s).Some? && SentAlone(before, after, failure, PlanOf(s).value, replyLost, seal)
    requires failure.None? ==> counts == RowCounts(PlanOf(s).value.statements, before.data)
    ensures SendsCandidate(before.data, after.data, failure.None? && |counts| == 3 && counts[0] > 0 && counts[1] > 0, s, RequestFrom(s), replyLost)
  {
    var r := RequestFrom(s);
    assert r.artifactId == s.artifactId;
    if Finalizable(before.data, s, r) && NewEvidence(before.data, r) {
      ReconcileAlone(before, s, r, seal);
      CommittedSends(before, s, r, seal);
    }
    hide PlanOf, PlanReconcile, Attempt, RowCounts, ChainInv, ExactExisting, Finalizable, NewEvidence, Finalized, RequestFrom;
  }

  predicate SendsCandidate(before: Tables, after: Tables, sent: bool, s: Step, r: Request, replyLost: bool)
    requires s.Reconcile?
  {
    Finalizable(before, s, r) && NewEvidence(before, r) ==>
      r.device in before.devices && after == Finalized(before, r) && ExactExisting(after, r) && (sent <==> !replyLost)
  }

  lemma CandidateEnds(before: Tables, after: Tables, sent: bool, s: Step, r: Request, replyLost: bool, result: ReconcileResult)
    requires s.Reconcile? && SendsCandidate(before, after, sent, s, r, replyLost)
    requires result == if sent then FinalizedLink(s.artifactId) else if ExactExisting(after, r) then NothingDone else ItemFailed
    ensures CandidateAlone(before, after, result, s, r, replyLost)
  {
    hide Finalizable, NewEvidence, Finalized, ExactExisting;
  }

  lemma ExistingHasManifest(t: Tables, r: Request)
    requires ExactExisting(t, r)
    ensures HasManifest(t, r.artifactId)
  {
    assert ManifestOf(r) in t.manifests;
  }

  method ReleaseExpiredReservation(db: Database<Tables, ChainEvent>, p: Authority, now: int, reason: Reason, network: Network, seal: Seal)
    returns (result: ReconcileResult, ghost trace: seq<Act>)
    requires ChainInv(db.View())
    modifies db
    ensures db.View() == Run(old(db.View()), trace, seal) && ChainInv(db.View())
    ensures result in {ItemFailed, NothingDone, ReleasedFor(reason)}
    ensures result.ReleasedFor? ==> p.deviceId in db.data.devices && db.data.devices[p.deviceId].pending.None?
    ensures Quiet(network) ==> ReleasesAlone(old(db.data), db.data, result, p, now, reason, network.replyLost)
  {
    hide Run, Apply, PlanOf, PlanRelease, Settle, Attempt, RunStatements, RowCounts, ChainInv, Releasable, WithoutReservation, ReleaseStatement;
    PlanOfRelease(p, now, reason);
    ghost var before := db.View();
    if Releasable(before.data, p, now, reason) {
      ReleaseAlone(before, p, now, reason, seal);
    }
    var failure, counts;
    ghost var mid;
    failure, counts, trace, mid := Submit(db, Release(p, now, reason), PlanRelease(p, now, reason), network, seal);
    RunKeepsChain(before, trace, seal);
    if failure.Some? {
      return ItemFailed, trace;
    }
    CommittedRelease(mid, db.View(), p, now, reason, trace[|trace| - 1].observedHead, seal);
    return if counts[0] == 0 then NothingDone else ReleasedFor(reason), trace;
  }

  lemma ReservationIsNext(db: Db, device: Id, keyHashes: (Id, Id) -> bool)
    requires ChainInv(db) && device in db.data.devices && db.data.devices[device].pending.Some?
    ensures AuthorityProblem(db.data, ReadAuthority(device, db.data.devices[device]), keyHashes) != Some(ChainAuthorityMismatch)
    ensures db.data.devices[device].pending.value.sequence >= 1
  {
    assert DeviceOk(db, device);
    assert PendingOk(db, device, db.data.devices[device]);
  }

  lemma CandidateIsSendable(t: Tables, p: Authority, id: Id, now: int, keyHashes: (Id, Id) -> bool)
    requires 1 <= p.pending.sequence <= 2_147_483_647 && id in Candidates(t, p, now)
    requires AuthorityProblem(t, p, keyHashes).None?
    ensures id in t.artifacts && PlanOf(Reconcile(p, id, t.artifacts[id], now)).Some?
  {
  }

  lemma PlanOfRelease(p: Authority, now: int, reason: Reason)
    ensures PlanOf(Release(p, now, reason)) == Some(PlanRelease(p, now, reason))
  {
  }

  lemma CommittedRelease(mid: Db, next: Db, p: Authority, now: int, reason: Reason, head: Text, seal: Seal)
    requires Attempt(mid, PlanRelease(p, now, reason).statements, PlanRelease(p, now, reason).condition,
                     Prepare(PlanRelease(p, now, reason).event, head, seal)) == Committed(next)
    ensures RowCounts(PlanRelease(p, now, reason).statements, mid.data) == [ReleaseStatement(p, now, reason)(mid.data).changes]
    ensures RowCounts(PlanRelease(p, now, reason).statements, mid.data)[0] > 0 ==>
              p.deviceId in next.data.devices && next.data.devices[p.deviceId].pending.None?
  {
    RunOne(ReleaseStatement(p, now, reason), mid.data);
    CountOne(ReleaseStatement(p, now, reason), mid.data);
  }

  lemma CommittedReconcile(mid: Db, next: Db, s: Step, head: Text, seal: Seal)
    requires ChainInv(mid) && s.Reconcile? && PlanOf(s).Some?
    requires Attempt(mid, PlanOf(s).value.statements, PlanOf(s).value.condition, Prepare(PlanOf(s).value.event, head, seal)) == Committed(next)
    ensures HasManifest(next.data, s.artifactId) && s.artifactId !in next.data.queue
  {
    hide ChainInv, Attempt, FinalizeHolds, Clashes, ExactArtifact, HeadGuard, Finalized, PlanOf, PlanReconcile, Advances, HasManifest,
         AdvanceHeadExactly, InsertManifest, DrainQueue, ManifestOf;
    var p := s.authority;
    var r := PlanOfReconcile(s);
    var plan := PlanReconcile(r, p, s.artifact, s.now);
    AdvancesExactly(r, p, s.artifact, s.now);
    ReconcilePlan(r, p, s.artifact, s.now);
    CommittedAdvance(mid, next, r, AdvanceHeadExactly(r, p, s.artifact, s.now), plan.condition.value, plan.event, head, seal);
    FinalizedExists(mid.data, r);
  }

  lemma PlanOfReconcile(s: Step) returns (r: Request)
    requires s.Reconcile? && PlanOf(s).Some?
    ensures PlanOf(s) == Some(PlanReconcile(r, s.authority, s.artifact, s.now)) && r.artifactId == s.artifactId
  {
    r := RequestOf(s.authority, s.authority.keyId.value, s.authority.publicKey.value, s.artifactId, s.artifact);
  }

  lemma ReconcilePlan(r: Request, p: Authority, a: Artifact, now: int)
    ensures var plan := PlanReconcile(r, p, a, now);
            && plan.statements == [InsertManifest(ManifestOf(r)), AdvanceHeadExactly(r, p, a, now), DrainQueue(r.artifactId)]
            && plan.condition.Some? && forall d: Db :: plan.condition.value(d) ==> FinalizeHolds(d.data, r)
  {
    hide FinalizeHolds, ExactArtifact;
  }
}
