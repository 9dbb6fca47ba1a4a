/** What every interleaving of capture steps keeps. */
module CaptureChain {
  import opened Texts
  import opened AuditBatch
  import opened CaptureTables

  /** A device's manifests in the order they were committed. */
  function Links(manifests: seq<Manifest>, device: Id): (r: seq<Manifest>)
    ensures forall m :: m in r <==> m in manifests && m.device == device
  {
    if manifests == [] then []
    else
      var last := manifests[|manifests| - 1];
      Links(manifests[..|manifests| - 1], device) + if last.device == device then [last] else []
  }

  lemma LinksAppend(manifests: seq<Manifest>, m: Manifest, device: Id)
    ensures Links(manifests + [m], device) == Links(manifests, device) + if m.device == device then [m] else []
  {
    assert (manifests + [m])[..|manifests|] == manifests;
  }

  function HashBefore(links: seq<Manifest>, k: nat): Text
    requires k <= |links|
  {
    if k == 0 then GENESIS else links[k - 1].chainEventHash
  }

  ghost predicate Logs(audit: seq<Entry<ChainEvent>>, event: ChainEvent) {
    exists i | 0 <= i < |audit| :: audit[i].payload == event
  }

  /** Link k carries sequence k + 1 under the pinned key, and a reservation naming the hash of
      the link before it was audited. */
  ghost predicate LinkOk(db: Db, device: Id, d: Device, k: nat)
    requires k < |Links(db.data.manifests, device)|
  {
    var links := Links(db.data.manifests, device);
    && links[k].chainSequence == k + 1
    && d.keyId == Some(links[k].keyId)
    && Logs(db.audit, Reserved(device, links[k].evidenceId, k + 1, HashBefore(links, k), links[k].chainEventHash, links[k].keyId))
  }

  ghost predicate PendingOk(db: Db, device: Id, d: Device) {
    d.pending.Some? ==>
      && MatchingChain(d)
      && d.keyId.Some?
      && Logs(db.audit, Reserved(device, d.pending.value.evidenceId, d.pending.value.sequence, d.pending.value.previousHash,
                                 d.pending.value.eventHash, d.keyId.value))
  }

  ghost predicate DeviceOk(db: Db, device: Id)
    requires device in db.data.devices
  {
    var d := db.data.devices[device];
    var links := Links(db.data.manifests, device);
    && |links| == d.chainSequence
    && d.chainEventHash == HashBefore(links, |links|)
    && (d.keyId.Some? <==> d.publicKey.Some?)
    && (forall k | 0 <= k < |links| :: LinkOk(db, device, d, k))
    && PendingOk(db, device, d)
  }

  ghost predicate ChainInv(db: Db) {
    && (forall id | id in db.data.devices :: DeviceOk(db, id))
    && (forall m | m in db.data.manifests :: m.device in db.data.devices)
    && Linked(db.audit)
  }

  ghost predicate Initial(db: Db) {
    db.data.devices == map[] && db.data.manifests == [] && db.audit == []
  }

  lemma LogsGrow(audit: seq<Entry<ChainEvent>>, more: seq<Entry<ChainEvent>>, event: ChainEvent)
    requires Logs(audit, event)
    ensures Logs(audit + more, event)
  {
    var i :| 0 <= i < |audit| && audit[i].payload == event;
    assert (audit + more)[i].payload == event;
  }

  /** Rows that differ at most in the device's standing. */
  predicate SameChain(d: Device, e: Device) {
    e.(active := d.active) == d
  }

  /** A device whose row, but for its standing, and links are untouched stays in order while the trail grows. */
  lemma DeviceKeeps(db: Db, next: Db, device: Id)
    requires device in db.data.devices && DeviceOk(db, device)
    requires device in next.data.devices && SameChain(db.data.devices[device], next.data.devices[device])
    requires Links(next.data.manifests, device) == Links(db.data.manifests, device)
    requires db.audit <= next.audit
    ensures DeviceOk(next, device)
  {
    assert next.audit == db.audit + next.audit[|db.audit|..];
    var d, e := db.data.devices[device], next.data.devices[device];
    var links := Links(db.data.manifests, device);
    assert e == d.(active := e.active);
    forall k | 0 <= k < |links|
      ensures LinkOk(next, device, e, k)
    {
      assert LinkOk(db, device, d, k);
      LogsGrow(db.audit, next.audit[|db.audit|..],
               Reserved(device, links[k].evidenceId, k + 1, HashBefore(links, k), links[k].chainEventHash, links[k].keyId));
    }
    if d.pending.Some? {
      LogsGrow(db.audit, next.audit[|db.audit|..],
               Reserved(device, d.pending.value.evidenceId, d.pending.value.sequence, d.pending.value.previousHash,
                        d.pending.value.eventHash, d.keyId.value));
    }
    assert PendingOk(next, device, e);
  }

  /** Dropping the reservation, changing the owner's standing: the chain part is untouched. */
  lemma DeviceKeepsWithoutPending(db: Db, next: Db, device: Id)
    requires device in db.data.devices && DeviceOk(db, device)
    requires device in next.data.devices
    requires var d, e := db.data.devices[device], next.data.devices[device];
             e.chainSequence == d.chainSequence && e.chainEventHash == d.chainEventHash && e.keyId == d.keyId
             && e.publicKey == d.publicKey && e.pending == None
    requires next.data.manifests == db.data.manifests
    requires db.audit <= next.audit
    ensures DeviceOk(next, device)
  {
    var mid := db.(data := db.data.(devices := db.data.devices[device := db.data.devices[device].(pending := None)]));
    forall k | 0 <= k < |Links(db.data.manifests, device)|
      ensures LinkOk(mid, device, mid.data.devices[device], k)
    {
      assert LinkOk(db, device, db.data.devices[device], k);
    }
    assert DeviceOk(mid, device);
    DeviceKeeps(mid, next.(data := next.data.(devices := next.data.devices[device := mid.data.devices[device]])), device);
    forall k | 0 <= k < |Links(db.data.manifests, device)|
      ensures LinkOk(next, device, next.data.devices[device], k)
    {
      assert LinkOk(next.(data := next.data.(devices := next.data.devices[device := mid.data.devices[device]])), device,
                    mid.data.devices[device], k);
    }
  }

  /** What a committed batch of a plan says about the store. */
  lemma Committing(db: Db, plan: Plan, head: Text, seal: Seal) returns (next: Db)
    requires Linked(db.audit)
    ensures next == Settle(db, plan, head, seal)
    ensures Linked(next.audit) && db.audit <= next.audit
    ensures next == db
            || (&& RunStatements(plan.statements, db.data) == Done(next.data, RunStatements(plan.statements, db.data).changes)
                && (plan.condition.Some? && plan.statements != [] && next.audit != db.audit ==>
                      plan.condition.value(next.(audit := db.audit)))
                && (next.audit == db.audit ==> plan.condition.Some?)
                && (next.audit == db.audit && plan.statements != [] ==> RunStatements(plan.statements, db.data).changes == 0)
                && (next.audit != db.audit ==> next.audit == db.audit + [Prepare(plan.event, head, seal)]))
  {
    next := Settle(db, plan, head, seal);
    var entry := Prepare(plan.event, head, seal);
    match Attempt(db, plan.statements, plan.condition, entry)
    case Committed(n) => AttemptKeepsLinks(db, plan.statements, plan.condition, entry, n);
    case Rejected(_) =>
  }

  /** A reservation that took effect changed one device, which then names its own head. */
  lemma ReserveEffect(s: Step, t: Tables, u: Tables)
    requires s.Reserve? && PlanReserve(s).statements[0](t).Done? && PlanReserve(s).statements[0](t).changes > 0
    requires u == PlanReserve(s).statements[0](t).next
    ensures s.device in t.devices && u.manifests == t.manifests
    ensures ReserveGuard(s.actor, s.capture, s.observedSequence, s.observedHash, s.now)(t.devices[s.device])
    ensures u.devices == t.devices[s.device := ReserveChange(s.capture, s.leaseId, s.expiresAt)(t.devices[s.device])]
  {
  }

  lemma ReservedDeviceOk(db: Db, next: Db, s: Step, head: Text, seal: Seal)
    requires s.Reserve? && s.device in db.data.devices && DeviceOk(db, s.device)
    requires s.capture.sequence == s.observedSequence + 1 && s.capture.previousHash == s.observedHash
    requires ReserveGuard(s.actor, s.capture, s.observedSequence, s.observedHash, s.now)(db.data.devices[s.device])
    requires next.data.manifests == db.data.manifests
    requires next.data.devices == db.data.devices[s.device := ReserveChange(s.capture, s.leaseId, s.expiresAt)(db.data.devices[s.device])]
    requires next.audit == db.audit + [Prepare(PlanReserve(s).event, head, seal)]
    ensures DeviceOk(next, s.device)
  {
    var id := s.device;
    var d, e := db.data.devices[id], next.data.devices[id];
    assert next.audit[|db.audit|].payload == PlanReserve(s).event;
    var bare := next.(data := next.data.(devices := next.data.devices[id := e.(pending := None, keyId := d.keyId, publicKey := d.publicKey)]));
    DeviceKeepsWithoutPending(db, bare, id);
    forall k | 0 <= k < |Links(next.data.manifests, id)|
      ensures LinkOk(next, id, e, k)
    {
      assert LinkOk(bare, id, bare.data.devices[id], k);
    }
  }

  lemma ReserveOutcome(db: Db, s: Step, head: Text, seal: Seal) returns (next: Db)
    requires s.Reserve? && Linked(db.audit)
    ensures next == Settle(db, PlanReserve(s), head, seal)
    ensures next == db
            || (&& s.device in db.data.devices && next.data.manifests == db.data.manifests
                && ReserveGuard(s.actor, s.capture, s.observedSequence, s.observedHash, s.now)(db.data.devices[s.device])
                && next.data.devices == db.data.devices[s.device := ReserveChange(s.capture, s.leaseId, s.expiresAt)(db.data.devices[s.device])]
                && next.audit == db.audit + [Prepare(PlanReserve(s).event, head, seal)] && Linked(next.audit))
  {
    var plan := PlanReserve(s);
    next := Committing(db, plan, head, seal);
    RunOne(plan.statements[0], db.data);
    hide Settle, Linked, RunStatements, Attempt;
    if next != db && plan.statements[0](db.data).changes > 0 {
      ReserveEffect(s, db.data, next.data);
    }
  }

  lemma ReserveKeeps(db: Db, s: Step, head: Text, seal: Seal)
    requires ChainInv(db) && s.Reserve?
    requires s.capture.sequence == s.observedSequence + 1 && s.capture.previousHash == s.observedHash
    ensures ChainInv(Settle(db, PlanReserve(s), head, seal))
  {
    hide Settle, Linked, DeviceOk, ReserveGuard, ReserveChange, PlanReserve;
    var next := ReserveOutcome(db, s, head, seal);
    if next != db {
      forall id | id in next.data.devices
        ensures DeviceOk(next, id)
      {
        assert DeviceOk(db, id);
        if id != s.device {
          DeviceKeeps(db, next, id);
        } else {
          ReservedDeviceOk(db, next, s, head, seal);
        }
      }
    }
  }

  /** The unique index on device and sequence refuses an insert at a sequence the head has reached. */
  lemma HeadAlreadyThere(db: Db, m: Manifest)
    requires ChainInv(db) && m.device in db.data.devices
    requires 1 <= m.chainSequence <= db.data.devices[m.device].chainSequence
    ensures Clashes(db.data.manifests, m)
  {
    assert DeviceOk(db, m.device);
    var links := Links(db.data.manifests, m.device);
    assert LinkOk(db, m.device, db.data.devices[m.device], m.chainSequence - 1);
    assert links[m.chainSequence - 1] in db.data.manifests;
  }

  /** After the insert, the head update changes a row. */
  predicate Moves(advance: Statement<Tables>, t: Tables, r: Request) {
    var u := t.(manifests := t.manifests + [ManifestOf(r)]);
    advance(u) != Done(u, 0)
  }

  /** The statement moves the head of a device that meets the guard, or does nothing. */
  ghost predicate Advances(advance: Statement<Tables>, r: Request) {
    forall t: Tables ::
      advance(t) == Done(t, 0)
      || (r.device in t.devices && HeadGuard(r)(t.devices[r.device])
          && advance(t) == Done(t.(devices := t.devices[r.device := HeadChange(r.capture.sequence, r.capture.eventHash)(t.devices[r.device])]), 1))
  }

  function Finalized(t: Tables, r: Request): Tables
    requires r.device in t.devices
  {
    t.(manifests := t.manifests + [ManifestOf(r)],
       devices := t.devices[r.device := HeadChange(r.capture.sequence, r.capture.eventHash)(t.devices[r.device])],
       queue := t.queue - {r.artifactId})
  }

  lemma FinalizingRun(db: Db, r: Request, advance: Statement<Tables>, last: Tables, changes: nat)
    requires ChainInv(db) && Advances(advance, r)
    requires RunStatements([InsertManifest(ManifestOf(r)), advance, DrainQueue(r.artifactId)], db.data) == Done(last, changes)
    ensures changes > 0 && !Clashes(db.data.manifests, ManifestOf(r))
    ensures last.manifests == db.data.manifests + [ManifestOf(r)]
    ensures FinalizeHolds(last, r) ==>
              r.device in db.data.devices && HeadGuard(r)(db.data.devices[r.device]) && last == Finalized(db.data, r)
    ensures FinalizeHolds(last, r) ==> Moves(advance, db.data, r)
  {
    hide ChainInv, RunStatements, FinalizeHolds;
    var m := ManifestOf(r);
    RunThree(InsertManifest(m), advance, DrainQueue(r.artifactId), db.data);
    var t := db.data.(manifests := db.data.manifests + [m]);
    assert InsertManifest(m)(db.data) == Done(t, 1);
    hide Clashes, HeadGuard;
    DequeueSame(db.data, r.artifactId);
    if advance(t) == Done(t, 0) {
      assert last.devices == db.data.devices;
      GuardNeedsHead(db, r, last);
    }
  }

  lemma DequeueSame(t: Tables, id: Id)
    ensures id !in t.queue ==> t.queue - {id} == t.queue
  {
  }

  lemma GuardNeedsHead(db: Db, r: Request, last: Tables)
    requires ChainInv(db) && last.devices == db.data.devices && !Clashes(db.data.manifests, ManifestOf(r))
    ensures !FinalizeHolds(last, r)
  {
    hide ChainInv, Clashes;
    if FinalizeHolds(last, r) {
      HeadAlreadyThere(db, ManifestOf(r));
    }
  }

  /** The insert, the head update and the queue delete stand or fall together: when the update
      misses, the guard condition could only hold if the head were already there, and then the
      unique index on device and sequence has already refused the insert. */
  lemma FinalizingCommits(db: Db, r: Request, advance: Statement<Tables>, condition: Condition<Tables, ChainEvent>,
                          event: ChainEvent, head: Text, seal: Seal) returns (next: Db)
    requires ChainInv(db) && Advances(advance, r)
    requires forall d: Db :: condition(d) ==> FinalizeHolds(d.data, r)
    ensures next == Settle(db, Plan([InsertManifest(ManifestOf(r)), advance, DrainQueue(r.artifactId)], Some(condition), event), head, seal)
    ensures next == db
            || (&& r.device in db.data.devices && HeadGuard(r)(db.data.devices[r.device])
                && next.data == Finalized(db.data, r) && !Clashes(db.data.manifests, ManifestOf(r)) && Moves(advance, db.data, r)
                && next.audit == db.audit + [Prepare(event, head, seal)] && Linked(next.audit))
  {
    var plan := Plan([InsertManifest(ManifestOf(r)), advance, DrainQueue(r.artifactId)], Some(condition), event);
    next := Committing(db, plan, head, seal);
    if next != db {
      FinalizingRun(db, r, advance, next.data, RunStatements(plan.statements, db.data).changes);
      assert condition(next.(audit := db.audit));
    }
  }

  lemma AdvancesExactly(r: Request, p: Authority, a: Artifact, now: int)
    ensures Advances(AdvanceHeadExactly(r, p, a, now), r)
  {
    hide ExactArtifact;
  }

  /** The links before the new one: same place, same hash before them, still audited. */
  lemma OldLinkStays(db: Db, r: Request, next: Db, event: Entry<ChainEvent>, before: seq<Manifest>, k: nat)
    requires r.device in db.data.devices && next.data == Finalized(db.data, r) && next.audit == db.audit + [event]
    requires before == Links(db.data.manifests, r.device) && k < |before|
    requires Links(next.data.manifests, r.device) == before + [ManifestOf(r)]
    requires LinkOk(db, r.device, db.data.devices[r.device], k)
    ensures LinkOk(next, r.device, next.data.devices[r.device], k)
  {
    var links := before + [ManifestOf(r)];
    hide Links, ManifestOf, Logs;
    assert links[k] == before[k] && HashBefore(links, k) == HashBefore(before, k);
    LogsGrow(db.audit, [event], Reserved(r.device, before[k].evidenceId, k + 1, HashBefore(before, k), before[k].chainEventHash, before[k].keyId));
  }

  /** The new link: the reservation that was pending explains it. */
  lemma NewLinkIsReserved(db: Db, r: Request, next: Db, event: Entry<ChainEvent>, before: seq<Manifest>)
    requires r.device in db.data.devices && DeviceOk(db, r.device) && HeadGuard(r)(db.data.devices[r.device])
    requires next.data == Finalized(db.data, r) && next.audit == db.audit + [event]
    requires before == Links(db.data.manifests, r.device)
    requires Links(next.data.manifests, r.device) == before + [ManifestOf(r)]
    ensures LinkOk(next, r.device, next.data.devices[r.device], |before|)
  {
    var d, links := db.data.devices[r.device], before + [ManifestOf(r)];
    assert PendingOk(db, r.device, d);
    hide Links, Logs;
    assert HashBefore(links, |before|) == HashBefore(before, |before|) == d.chainEventHash;
    LogsGrow(db.audit, [event], Reserved(r.device, d.pending.value.evidenceId, d.pending.value.sequence, d.pending.value.previousHash,
                                         d.pending.value.eventHash, d.keyId.value));
  }

  lemma HeadMoved(db: Db, r: Request, next: Db)
    requires r.device in db.data.devices && HeadGuard(r)(db.data.devices[r.device])
    requires next.data == Finalized(db.data, r)
    ensures next.data.manifests == db.data.manifests + [ManifestOf(r)] && r.device in next.data.devices
    ensures var d, e := db.data.devices[r.device], next.data.devices[r.device];
            && e.chainSequence == r.capture.sequence == d.chainSequence + 1 && e.chainEventHash == r.capture.eventHash
            && e.keyId == d.keyId && e.publicKey == d.publicKey && e.pending.None?
    ensures next.data.devices.Keys == db.data.devices.Keys
    ensures PendingOk(next, r.device, next.data.devices[r.device])
  {
  }

  lemma NewLinkOk(db: Db, r: Request, next: Db, event: Entry<ChainEvent>)
    requires ChainInv(db)
    requires r.device in db.data.devices && HeadGuard(r)(db.data.devices[r.device])
    requires next.data == Finalized(db.data, r) && next.audit == db.audit + [event]
    ensures DeviceOk(next, r.device)
  {
    hide Links, LinkOk, HeadGuard, Finalized, PendingOk;
    var id, m := r.device, ManifestOf(r);
    assert DeviceOk(db, id);
    LinksAppend(db.data.manifests, m, id);
    HeadMoved(db, r, next);
    var before, links := Links(db.data.manifests, id), Links(next.data.manifests, id);
    hide ChainInv;
    forall k | 0 <= k < |links|
      ensures LinkOk(next, id, next.data.devices[id], k)
    {
      if k < |before| {
        OldLinkStays(db, r, next, event, before, k);
      } else {
        NewLinkIsReserved(db, r, next, event, before);
      }
    }
  }

  lemma FinalizingKeeps(db: Db, r: Request, next: Db, event: Entry<ChainEvent>)
    requires ChainInv(db)
    requires r.device in db.data.devices && HeadGuard(r)(db.data.devices[r.device])
    requires next.data == Finalized(db.data, r)
    requires next.audit == db.audit + [event] && Linked(next.audit)
    ensures ChainInv(next)
  {
    hide HeadGuard, Linked, DeviceOk, Finalized;
    NewLinkOk(db, r, next, event);
    HeadMoved(db, r, next);
    forall id | id in next.data.devices && id != r.device
      ensures DeviceOk(next, id)
    {
      OtherDeviceKeeps(db, r, next, id);
    }
  }

  lemma OtherDeviceKeeps(db: Db, r: Request, next: Db, id: Id)
    requires ChainInv(db) && r.device in db.data.devices
    requires next.data == Finalized(db.data, r) && db.audit <= next.audit
    requires id in next.data.devices && id != r.device
    ensures DeviceOk(next, id)
  {
    hide HeadGuard, Linked, DeviceOk, Links;
    LinksAppend(db.data.manifests, ManifestOf(r), id);
    DeviceKeeps(db, next, id);
  }

  lemma FinalizeKeeps(db: Db, r: Request, head: Text, seal: Seal)
    requires ChainInv(db)
    ensures ChainInv(Settle(db, PlanFinalize(r), head, seal))
  {
    var plan := PlanFinalize(r);
    var next := FinalizingCommits(db, r, AdvanceHead(r), plan.condition.value, plan.event, head, seal);
    if next != db {
      FinalizingKeeps(db, r, next, Prepare(plan.event, head, seal));
    }
  }

  lemma ReconcileKeeps(db: Db, r: Request, p: Authority, a: Artifact, now: int, head: Text, seal: Seal)
    requires ChainInv(db)
    ensures ChainInv(Settle(db, PlanReconcile(r, p, a, now), head, seal))
  {
    AdvancesExactly(r, p, a, now);
    hide ChainInv, Settle, Finalized, HeadGuard, Clashes, FinalizeHolds, ExactArtifact, Advances;
    var plan := PlanReconcile(r, p, a, now);
    var next := FinalizingCommits(db, r, AdvanceHeadExactly(r, p, a, now), plan.condition.value, plan.event, head, seal);
    if next != db {
      FinalizingKeeps(db, r, next, Prepare(plan.event, head, seal));
    }
  }

  /** Steps that leave manifests alone and at most drop a reservation or stand a device down. */
  lemma QuietKeeps(db: Db, next: Db)
    requires ChainInv(db)
    requires Quiet(db.data, next.data)
    requires db.audit <= next.audit && Linked(next.audit)
    ensures ChainInv(next)
  {
    forall id | id in next.data.devices
      ensures DeviceOk(next, id)
    {
      assert DeviceOk(db, id);
      if SameChain(db.data.devices[id], next.data.devices[id]) {
        DeviceKeeps(db, next, id);
      } else {
        DeviceKeepsWithoutPending(db, next, id);
      }
    }
  }

  lemma {:induction false} NoLinks(manifests: seq<Manifest>, device: Id)
    requires forall m | m in manifests :: m.device != device
    ensures Links(manifests, device) == []
  {
    if manifests != [] {
      NoLinks(manifests[..|manifests| - 1], device);
    }
  }

  lemma EnrollKeeps(db: Db, s: Step, head: Text, seal: Seal)
    requires ChainInv(db) && s.Enroll?
    ensures ChainInv(Settle(db, PlanEnroll(s), head, seal))
  {
    var plan := PlanEnroll(s);
    var next := Committing(db, plan, head, seal);
    if next != db {
      RunOne(plan.statements[0], db.data);
      forall id | id in next.data.devices
        ensures DeviceOk(next, id)
      {
        if id in db.data.devices {
          assert DeviceOk(db, id);
          DeviceKeeps(db, next, id);
        } else {
          NoLinks(next.data.manifests, id);
        }
      }
    }
  }

  /** The remaining batches never write a manifest, a head or a key. */
  ghost predicate Quiet(t: Tables, u: Tables) {
    && u.manifests == t.manifests && u.devices.Keys == t.devices.Keys
    && forall id | id in t.devices ::
         var d, e := t.devices[id], u.devices[id];
         SameChain(d, e) || (e.chainSequence == d.chainSequence && e.chainEventHash == d.chainEventHash && e.keyId == d.keyId
                    && e.publicKey == d.publicKey && e.pending == None)
  }

  lemma QuietStore(s: Step, t: Tables)
    requires s.StoreArtifact?
    ensures var e := RunStatements(PlanStoreArtifact(s).statements, t);
            e.Done? ==> e.next.devices == t.devices && e.next.manifests == t.manifests
  {
    var ss := PlanStoreArtifact(s).statements;
    RunThree(ss[0], ss[1], ss[2], t);
  }

  lemma QuietQuarantine(id: Id, o: Artifact, dueAt: int, now: int, cutoff: int, t: Tables)
    ensures var e := RunStatements(PlanQuarantine(id, o, dueAt, now, cutoff).statements, t);
            e.Done? && e.next.devices == t.devices && e.next.manifests == t.manifests
  {
    RunTwo(QuarantineStatement(id, o, dueAt, now, cutoff), DequeueReturned(id, dueAt), t);
  }

  lemma QuietSingle(s: Step, t: Tables)
    requires s.DrainReplay? || s.Revoke? || s.Release? || s.DrainEntry?
    ensures var e := RunStatements(PlanOf(s).value.statements, t);
            e.Done? && Quiet(t, e.next) && e.next.artifacts == t.artifacts
  {
    hide ReasonHolds, DrainAuthority, ExactExisting, RowIs, RunStatements;
    RunOne(PlanOf(s).value.statements[0], t);
  }

  lemma QuietStatements(s: Step, t: Tables)
    requires s.StoreArtifact? || s.DrainReplay? || s.Revoke? || s.Release? || s.Quarantine? || s.DrainEntry?
    requires PlanOf(s).Some?
    ensures var e := RunStatements(PlanOf(s).value.statements, t);
            e.Done? ==> Quiet(t, e.next)
  {
    match s {
      case StoreArtifact(_, _, _, _) => QuietStore(s, t);
      case Quarantine(id, o, dueAt, now, cutoff) => QuietQuarantine(id, o, dueAt, now, cutoff, t);
      case _ => QuietSingle(s, t);
    }
  }

  lemma QuietPlan(db: Db, s: Step, head: Text, seal: Seal)
    requires ChainInv(db)
    requires s.StoreArtifact? || s.DrainReplay? || s.Revoke? || s.Release? || s.Quarantine? || s.DrainEntry?
    requires PlanOf(s).Some?
    ensures ChainInv(Settle(db, PlanOf(s).value, head, seal))
  {
    var plan := PlanOf(s).value;
    var next := Committing(db, plan, head, seal);
    QuietStatements(s, db.data);
    if next != db {
      QuietKeeps(db, next);
    }
  }

  lemma BatchKeepsChain(db: Db, s: Step, head: Text, seal: Seal)
    requires ChainInv(db) && PlanOf(s).Some?
    ensures ChainInv(Settle(db, PlanOf(s).value, head, seal))
  {
    match s
    case Enroll(_, _) => EnrollKeeps(db, s, head, seal);
    case Reserve(_, _, _, _, _, _, _, _) => ReserveKeeps(db, s, head, seal);
    case Finalize(r) => FinalizeKeeps(db, r, head, seal);
    case Reconcile(p, id, a, now) =>
      ReconcileKeeps(db, RequestOf(p, p.keyId.value, p.publicKey.value, id, a), p, a, now, head, seal);
    case _ => QuietPlan(db, s, head, seal);
  }

  lemma DirectIsQuiet(t: Tables, s: Step)
    requires Direct(s)
    ensures Quiet(t, DirectEffect(t, s))
  {
  }

  /** Every step keeps every device's chain in order. */
  lemma StepKeepsChain(db: Db, act: Act, seal: Seal)
    requires ChainInv(db)
    ensures ChainInv(Apply(db, act, seal))
  {
    if Direct(act.step) {
      DirectIsQuiet(db.data, act.step);
      QuietKeeps(db, Apply(db, act, seal));
    } else if PlanOf(act.step).Some? {
      BatchKeepsChain(db, act.step, act.observedHead, seal);
    }
  }

  /** Every interleaving of any length, from any store in order. */
  lemma {:induction false} RunKeepsChain(db: Db, acts: seq<Act>, seal: Seal)
    requires ChainInv(db)
    ensures ChainInv(Run(db, acts, seal))
    decreases |acts|
  {
    if acts != [] {
      StepKeepsChain(db, acts[0], seal);
      RunKeepsChain(Apply(db, acts[0], seal), acts[1..], seal);
    }
  }

  lemma InitialInOrder(db: Db)
    requires Initial(db)
    ensures ChainInv(db)
  {
  }

  /** The device's manifests carry exactly the sequences 1 to its chain_sequence, in order and under
      its pinned key; its head hash is the event hash of the last one, GENESIS at zero; and each came
      from an audited reservation naming the hash before it. */
  ghost predicate ChainComplete(st: Db, id: Id)
    requires id in st.data.devices
  {
    var d, links := st.data.devices[id], Links(st.data.manifests, id);
    && |links| == d.chainSequence && d.chainEventHash == HashBefore(links, |links|)
    && forall k | 0 <= k < |links| ::
         && links[k].chainSequence == k + 1 && d.keyId == Some(links[k].keyId)
         && Logs(st.audit, Reserved(id, links[k].evidenceId, k + 1, HashBefore(links, k), links[k].chainEventHash, links[k].keyId))
  }

  lemma InOrderIsComplete(st: Db, id: Id)
    requires id in st.data.devices && DeviceOk(st, id)
    ensures ChainComplete(st, id)
  {
    hide Links, Logs, PendingOk;
    var d, links := st.data.devices[id], Links(st.data.manifests, id);
    forall k | 0 <= k < |links|
      ensures links[k].chainSequence == k + 1 && d.keyId == Some(links[k].keyId)
      ensures Logs(st.audit, Reserved(id, links[k].evidenceId, k + 1, HashBefore(links, k), links[k].chainEventHash, links[k].keyId))
    {
      assert LinkOk(st, id, d, k);
    }
  }

  /** From an empty store, every interleaving leaves every device with a complete chain. */
  lemma ChainsAreComplete(db: Db, acts: seq<Act>, seal: Seal, id: Id)
    requires Initial(db)
    ensures var st := Run(db, acts, seal);
            id in st.data.devices ==> ChainComplete(st, id)
  {
    InitialInOrder(db);
    RunKeepsChain(db, acts, seal);
    hide Run, DeviceOk, ChainComplete;
    var st := Run(db, acts, seal);
    if id in st.data.devices {
      InOrderIsComplete(st, id);
    }
  }

  // ---- what only ever grows ----

  /** Manifests are only appended, heads only advance, a pinned key never changes, and of an artifact
      only status, expiry, scan, collector and device do: the device between the one that the source
      spells out and none. */
  ghost predicate Grows(t: Tables, u: Tables) {
    && t.manifests <= u.manifests
    && (forall id | id in t.devices ::
          && id in u.devices
          && (t.devices[id].keyId.Some? ==> u.devices[id].keyId == t.devices[id].keyId)
          && (t.devices[id].publicKey.Some? ==> u.devices[id].publicKey == t.devices[id].publicKey)
          && t.devices[id].chainSequence <= u.devices[id].chainSequence)
    && (forall id | id in t.artifacts :: id in u.artifacts && SameArtifact(t.artifacts[id], u.artifacts[id]))
  }

  predicate SameArtifact(e: Artifact, f: Artifact) {
    && f.(status := e.status, expiresAt := e.expiresAt, safety := e.safety, createdBy := e.createdBy, device := e.device) == e
    && (f.device == e.device || f.device.None? || f.device == Some(e.source.0))
  }

  lemma GrowsTransitively(t: Tables, u: Tables, v: Tables)
    requires Grows(t, u) && Grows(u, v)
    ensures Grows(t, v)
  {
    forall id | id in t.artifacts
      ensures id in v.artifacts && SameArtifact(t.artifacts[id], v.artifacts[id])
    {
      assert SameArtifact(t.artifacts[id], u.artifacts[id]) && SameArtifact(u.artifacts[id], v.artifacts[id]);
    }
  }

  lemma ReserveGrows(s: Step, t: Tables)
    requires s.Reserve?
    ensures var e := PlanReserve(s).statements[0](t);
            e.Done? ==> Grows(t, e.next)
  {
    var u := UpdateDevice(t, s.device, ReserveGuard(s.actor, s.capture, s.observedSequence, s.observedHash, s.now),
                          ReserveChange(s.capture, s.leaseId, s.expiresAt)).next;
    assert Grows(t, u);
  }

  lemma QuietGrows(t: Tables, u: Tables)
    requires Quiet(t, u) && u.artifacts == t.artifacts
    ensures Grows(t, u)
  {
  }

  lemma SetStatusGrows(t: Tables, id: Id, guard: Artifact -> bool, status: Status)
    ensures Grows(t, SetStatus(t, id, guard, status).next)
    ensures SetStatus(t, id, guard, status).Done?
  {
  }

  lemma StoreGrows(s: Step, t: Tables)
    requires s.StoreArtifact?
    ensures var e := RunStatements(PlanStoreArtifact(s).statements, t);
            e.Done? ==> Grows(t, e.next)
  {
    hide RunStatements, SetStatus;
    var ss := PlanStoreArtifact(s).statements;
    RunThree(ss[0], ss[1], ss[2], t);
    StaleStays(s, t);
    var t1 := ss[0](t).next;
    hide Grows, SameArtifact;
    if s.artifactId !in t1.artifacts {
      NewArtifactGrows(t1, s.artifactId, s.artifact.(status := NeedsReview), t1.queue);
      NewArtifactGrows(t1, s.artifactId, s.artifact.(status := NeedsReview), t1.queue[s.artifactId := s.receivedAt + GRACE_MS]);
      GrowsTransitively(t, t1, ss[1](t1).next);
      if ss[2](ss[1](t1).next).Done? {
        GrowsTransitively(t, t1, ss[2](ss[1](t1).next).next);
      }
    }
  }

  lemma StaleStays(s: Step, t: Tables)
    requires s.StoreArtifact?
    ensures var e := PlanStoreArtifact(s).statements[0](t); e.Done? && Grows(t, e.next)
  {
    if s.stale.Some? {
      SetStatusGrows(t, s.stale.value, (e: Artifact) => !e.status.Expired? && !e.status.Purged? && e.expiresAt <= s.receivedAt, Expired);
    }
    hide SetStatus;
    if s.stale.None? {
      NothingGrows(t);
    }
  }

  lemma NewArtifactGrows(t: Tables, id: Id, e: Artifact, queue: map<Id, int>)
    requires id !in t.artifacts
    ensures Grows(t, t.(artifacts := t.artifacts[id := e], queue := queue))
  {
  }

  lemma QuarantineGrows(id: Id, o: Artifact, dueAt: int, now: int, cutoff: int, t: Tables)
    ensures var e := RunStatements(PlanQuarantine(id, o, dueAt, now, cutoff).statements, t);
            e.Done? && Grows(t, e.next)
  {
    RunTwo(QuarantineStatement(id, o, dueAt, now, cutoff), DequeueReturned(id, dueAt), t);
    SetStatusGrows(t, id, (e: Artifact) => Quarantinable(t, id, o, dueAt, now, cutoff), Returned);
  }

  lemma StatementsGrow(s: Step, t: Tables)
    requires !s.Finalize? && !s.Reconcile? && PlanOf(s).Some?
    ensures var e := RunStatements(PlanOf(s).value.statements, t);
            e.Done? ==> Grows(t, e.next)
  {
    if s.StoreArtifact? {
      StoreGrows(s, t);
    } else if s.Quarantine? {
      QuarantineGrows(s.artifactId, s.observed, s.dueAt, s.now, s.cutoff, t);
    } else if s.Enroll? {
      RunOne(PlanEnroll(s).statements[0], t);
    } else if s.Reserve? {
      RunOne(PlanReserve(s).statements[0], t);
      ReserveGrows(s, t);
    } else {
      QuietSingle(s, t);
      QuietGrows(t, RunStatements(PlanOf(s).value.statements, t).next);
    }
  }

  lemma FinalizedGrows(t: Tables, r: Request)
    requires r.device in t.devices && HeadGuard(r)(t.devices[r.device])
    ensures Grows(t, Finalized(t, r))
  {
  }

  /** A finalize or reconcile step either leaves the store or commits all three of its facts. */
  lemma FinalizeStep(db: Db, s: Step, head: Text, seal: Seal) returns (next: Db, r: Request)
    requires ChainInv(db) && (s.Finalize? || s.Reconcile?) && PlanOf(s).Some?
    ensures next == Settle(db, PlanOf(s).value, head, seal)
    ensures s.Finalize? ==> r == s.request
    ensures s.Reconcile? ==> s.authority.keyId.Some? && r.artifactId == s.artifactId
    ensures next == db
            || (&& r.device in db.data.devices && HeadGuard(r)(db.data.devices[r.device])
                && next.data == Finalized(db.data, r) && !Clashes(db.data.manifests, ManifestOf(r)))
  {
    hide ChainInv, Settle, Finalized, HeadGuard, Clashes, FinalizeHolds, ExactArtifact;
    match s {
      case Finalize(request) =>
        r := request;
        var plan := PlanFinalize(r);
        next := FinalizingCommits(db, r, AdvanceHead(r), plan.condition.value, plan.event, head, seal);
      case Reconcile(p, id, a, now) =>
        r := RequestOf(p, p.keyId.value, p.publicKey.value, id, a);
        var plan := PlanReconcile(r, p, a, now);
        AdvancesExactly(r, p, a, now);
        next := FinalizingCommits(db, r, AdvanceHeadExactly(r, p, a, now), plan.condition.value, plan.event, head, seal);
    }
  }

  lemma NothingGrows(t: Tables)
    ensures Grows(t, t)
  {
  }

  lemma DirectGrows(db: Db, act: Act, seal: Seal)
    requires Direct(act.step)
    ensures Grows(db.data, Apply(db, act, seal).data)
  {
    hide PlanOf, Settle;
  }

  lemma BatchGrows(db: Db, s: Step, head: Text, seal: Seal)
    requires ChainInv(db) && !s.Finalize? && !s.Reconcile? && PlanOf(s).Some?
    ensures Grows(db.data, Settle(db, PlanOf(s).value, head, seal).data)
  {
    assert Linked(db.audit);
    hide PlanOf, Settle, ChainInv, RunStatements, Grows, Linked;
    var next := Committing(db, PlanOf(s).value, head, seal);
    StatementsGrow(s, db.data);
    NothingGrows(db.data);
  }

  lemma StepGrows(db: Db, act: Act, seal: Seal)
    requires ChainInv(db)
    ensures Grows(db.data, Apply(db, act, seal).data)
  {
    var s := act.step;
    hide PlanOf, Settle, ChainInv, RunStatements, Attempt;
    if Direct(s) {
      hide Grows;
      DirectGrows(db, act, seal);
    } else if PlanOf(s).Some? {
      hide Grows;
      if s.Finalize? || s.Reconcile? {
        var next, r := FinalizeStep(db, s, act.observedHead, seal);
        if next == db { NothingGrows(db.data); } else { FinalizedGrows(db.data, r); }
      } else {
        BatchGrows(db, s, act.observedHead, seal);
      }
    }
  }

  lemma {:induction false} RunGrows(db: Db, acts: seq<Act>, seal: Seal)
    requires ChainInv(db)
    ensures Grows(db.data, Run(db, acts, seal).data)
    decreases |acts|
  {
    if acts != [] {
      var next := Apply(db, acts[0], seal);
      StepGrows(db, acts[0], seal);
      StepKeepsChain(db, acts[0], seal);
      RunGrows(next, acts[1..], seal);
      GrowsTransitively(db.data, next.data, Run(db, acts, seal).data);
    }
  }

  /** The predicate that review and packaging ask of a device's artifact. */
  predicate NativeFinalized(t: Tables, id: Id) {
    && id in t.artifacts && t.artifacts[id].device.Some?
    && var e := t.artifacts[id];
       exists n | n in t.manifests ::
         && n.artifactId == id && n.device == e.device.value
         && n.imageSha256 == e.imageSha256 && n.manifestSha256 == e.manifestSha256
         && n.chainSequence > 0 && n.chainEventHash == e.chainEventHash
         && n.device in t.devices && t.devices[n.device].keyId == Some(n.keyId)
         && t.devices[n.device].chainSequence >= n.chainSequence
  }

  /** A finalized artifact, stored from the device that its source spells out, stays finalized in every
      later interleaving while it counts as a device's; a repeat collection from elsewhere can only
      make it count as nobody's. */
  lemma FinalizedStaysFinalized(db: Db, acts: seq<Act>, seal: Seal, id: Id)
    requires ChainInv(db) && NativeFinalized(db.data, id)
    requires db.data.artifacts[id].device == Some(db.data.artifacts[id].source.0)
    ensures var u := Run(db, acts, seal).data;
            id in u.artifacts && (u.artifacts[id].device.None? || NativeFinalized(u, id))
  {
    hide Run, ChainInv;
    RunGrows(db, acts, seal);
    var t, u := db.data, Run(db, acts, seal).data;
    assert SameArtifact(t.artifacts[id], u.artifacts[id]);
    var n :| n in t.manifests && n.artifactId == id && n.device == t.artifacts[id].device.value
             && n.imageSha256 == t.artifacts[id].imageSha256 && n.manifestSha256 == t.artifacts[id].manifestSha256
             && n.chainSequence > 0 && n.chainEventHash == t.artifacts[id].chainEventHash
             && n.device in t.devices && t.devices[n.device].keyId == Some(n.keyId)
             && t.devices[n.device].chainSequence >= n.chainSequence;
    assert n in u.manifests;
  }

  // ---- a capture that nothing disturbs ----

  lemma NoClash(db: Db, m: Manifest)
    requires ChainInv(db) && m.device in db.data.devices
    requires m.chainSequence > db.data.devices[m.device].chainSequence
    requires forall n | n in db.data.manifests && n.device == m.device :: n.evidenceId != m.evidenceId
    ensures !Clashes(db.data.manifests, m)
  {
    assert DeviceOk(db, m.device);
    var links := Links(db.data.manifests, m.device);
    forall n | n in db.data.manifests && n.device == m.device
      ensures n.chainSequence != m.chainSequence
    {
      assert n in links;
      var k :| 0 <= k < |links| && links[k] == n;
      assert LinkOk(db, m.device, db.data.devices[m.device], k);
    }
  }

  lemma FinalizedHolds(t: Tables, r: Request)
    requires r.device in t.devices
    ensures FinalizeHolds(Finalized(t, r), r)
  {
    assert ManifestOf(r) in Finalized(t, r).manifests;
  }

  lemma FinalizeStatementsRun(t: Tables, r: Request) returns (changes: nat)
    requires r.device in t.devices && HeadGuard(r)(t.devices[r.device]) && !Clashes(t.manifests, ManifestOf(r))
    ensures RunStatements(PlanFinalize(r).statements, t) == Done(Finalized(t, r), changes) && changes > 0
  {
    var m := ManifestOf(r);
    var u := t.(manifests := t.manifests + [m]);
    hide Clashes, HeadGuard, RunStatements, ManifestOf;
    RunThree(InsertManifest(m), AdvanceHead(r), DrainQueue(r.artifactId), t);
    assert InsertManifest(m)(t) == Done(u, 1);
    assert AdvanceHead(r)(u) == Done(u.(devices := Finalized(t, r).devices), 1);
    DequeueSame(t, r.artifactId);
    changes := RunStatements(PlanFinalize(r).statements, t).changes;
  }

  /** The finalize batch on a device that holds the reservation, for evidence it has not sent before. */
  lemma FinalizeTakesEffect(db: Db, r: Request, seal: Seal)
    requires ChainInv(db) && r.device in db.data.devices && HeadGuard(r)(db.data.devices[r.device])
    requires forall n | n in db.data.manifests && n.device == r.device :: n.evidenceId != r.capture.evidenceId
    ensures Settle(db, PlanFinalize(r), Head(db.audit), seal)
            == Store(Finalized(db.data, r), db.audit + [Prepare(PlanFinalize(r).event, Head(db.audit), seal)])
  {
    NoClash(db, ManifestOf(r));
    hide ChainInv, FinalizeHolds, Clashes, RunStatements, Finalized;
    FinalizedHolds(db.data, r);
    var changes := FinalizeStatementsRun(db.data, r);
    hide HeadGuard;
  }

  lemma ReserveTakesEffect(db: Db, s: Step, seal: Seal)
    requires s.Reserve? && s.device in db.data.devices
    requires ReserveGuard(s.actor, s.capture, s.observedSequence, s.observedHash, s.now)(db.data.devices[s.device])
    requires (db.data.devices[s.device].keyId.Some? <==> db.data.devices[s.device].publicKey.Some?)
    requires forall id | id in db.data.devices && id != s.device :: db.data.devices[id].keyId != Some(s.capture.keyId)
    ensures Settle(db, PlanReserve(s), Head(db.audit), seal)
            == Store(db.data.(devices := db.data.devices[s.device := ReserveChange(s.capture, s.leaseId, s.expiresAt)(db.data.devices[s.device])]),
                     db.audit + [Prepare(PlanReserve(s).event, Head(db.audit), seal)])
  {
    RunOne(PlanReserve(s).statements[0], db.data);
  }

  /** The tables after one capture: one more manifest, the head on it under the key pinned before or
      now, no reservation and no queue row. */
  function Captured(t: Tables, r: Request): Tables
    requires r.device in t.devices
  {
    t.(manifests := t.manifests + [ManifestOf(r)], queue := t.queue - {r.artifactId},
       devices := t.devices[r.device := t.devices[r.device].(
         keyId := Some(r.capture.keyId), publicKey := Some(r.capture.publicKey),
         chainSequence := r.capture.sequence, chainEventHash := r.capture.eventHash, pending := None)])
  }

  /** The capture continues the device's chain, and no live reservation is in its way. */
  predicate Continues(t: Tables, r: Request, now: int) {
    && r.device in t.devices
    && var d := t.devices[r.device];
       && ReserveGuard(r.actor, r.capture, d.chainSequence, d.chainEventHash, now)(d)
       && r.capture.sequence == d.chainSequence + 1 && r.capture.previousHash == d.chainEventHash
       && (d.keyId.Some? <==> d.publicKey.Some?)
  }

  function ReservedTables(t: Tables, r: Request, expiresAt: int): Tables
    requires r.device in t.devices
  {
    t.(devices := t.devices[r.device := ReserveChange(r.capture, r.leaseId, expiresAt)(t.devices[r.device])])
  }

  lemma ReserveThenFinalize(t: Tables, r: Request, now: int, expiresAt: int)
    requires Continues(t, r, now)
    ensures HeadGuard(r)(ReservedTables(t, r, expiresAt).devices[r.device])
    ensures Finalized(ReservedTables(t, r, expiresAt), r) == Captured(t, r)
  {
    assert Finalized(ReservedTables(t, r, expiresAt), r).devices == Captured(t, r).devices;
  }

  /** Reserving and then finalizing moves the head by exactly this link. */
  lemma UndisturbedCapture(db: Db, r: Request, now: int, expiresAt: int, seal: Seal)
    requires ChainInv(db) && Continues(db.data, r, now)
    requires forall id | id in db.data.devices && id != r.device :: db.data.devices[id].keyId != Some(r.capture.keyId)
    requires forall n | n in db.data.manifests && n.device == r.device :: n.evidenceId != r.capture.evidenceId
    ensures var d := db.data.devices[r.device];
            var s := Reserve(r.actor, r.device, r.capture, d.chainSequence, d.chainEventHash, r.leaseId, now, expiresAt);
            var reserved := Settle(db, PlanReserve(s), Head(db.audit), seal);
            var next := Settle(reserved, PlanFinalize(r), Head(reserved.audit), seal);
            next.data == Captured(db.data, r) && |next.audit| == |db.audit| + 2
  {
    var d := db.data.devices[r.device];
    var s := Reserve(r.actor, r.device, r.capture, d.chainSequence, d.chainEventHash, r.leaseId, now, expiresAt);
    hide ChainInv, DeviceOk, Settle, Attempt, RunStatements, PlanReserve, PlanFinalize, Captured, HeadGuard, Finalized;
    ReserveKeeps(db, s, Head(db.audit), seal);
    ReserveTakesEffect(db, s, seal);
    ReserveThenFinalize(db.data, r, now, expiresAt);
    hide ReserveGuard, ReserveChange;
    FinalizeTakesEffect(Settle(db, PlanReserve(s), Head(db.audit), seal), r, seal);
  }

  // ---- the release reason that cannot happen ----

  /** The row of a pending reservation as the scheduler reads it. */
  function ReadAuthority(id: Id, d: Device): Authority
    requires d.pending.Some?
  {
    Authority(id, d.owner, d.active, d.keyId, d.publicKey, d.chainSequence, d.chainEventHash, d.pending.value)
  }

  /** `keyHashes(k, p)` says whether public key p is well formed and hashes to key id k. */
  function AuthorityProblem(t: Tables, p: Authority, keyHashes: (Id, Id) -> bool): Option<Reason> {
    if !p.active || !OwnerMayCollect(t, p.owner) then Some(DeviceOrOwnerRevoked)
    else if p.pending.sequence != p.chainSequence + 1 || p.pending.previousHash != p.chainEventHash then Some(ChainAuthorityMismatch)
    else if p.keyId.None? || p.publicKey.None? || !keyHashes(p.keyId.value, p.publicKey.value) then Some(PinnedKeyInvalid)
    else None
  }

  lemma MismatchReleaseMisses(db: Db, p: Authority, now: int, head: Text, seal: Seal)
    requires ChainInv(db)
    ensures Settle(db, PlanRelease(p, now, ChainAuthorityMismatch), head, seal) == db
  {
    var statement := ReleaseStatement(p, now, ChainAuthorityMismatch);
    RunOne(statement, db.data);
    if p.deviceId in db.data.devices {
      assert DeviceOk(db, p.deviceId);
      assert PendingOk(db, p.deviceId, db.data.devices[p.deviceId]);
    }
    assert statement(db.data) == Done(db.data, 0);
  }

  /** In every reachable store a reservation names the current head, so a mismatch is never
      found, a mismatch release never commits, and the key is always pinned. */
  lemma MismatchNeverReached(db: Db, acts: seq<Act>, seal: Seal, id: Id, keyHashes: (Id, Id) -> bool,
                             p: Authority, now: int, head: Text)
    requires ChainInv(db)
    ensures var st := Run(db, acts, seal);
            id in st.data.devices && st.data.devices[id].pending.Some? ==>
              && MatchingChain(st.data.devices[id]) && st.data.devices[id].keyId.Some? && st.data.devices[id].publicKey.Some?
              && AuthorityProblem(st.data, ReadAuthority(id, st.data.devices[id]), keyHashes) != Some(ChainAuthorityMismatch)
    ensures var st := Run(db, acts, seal);
            Settle(st, PlanRelease(p, now, ChainAuthorityMismatch), head, seal) == st
  {
    RunKeepsChain(db, acts, seal);
    var st := Run(db, acts, seal);
    MismatchReleaseMisses(st, p, now, head, seal);
    if id in st.data.devices {
      assert DeviceOk(st, id);
      assert PendingOk(st, id, st.data.devices[id]);
    }
  }
}
