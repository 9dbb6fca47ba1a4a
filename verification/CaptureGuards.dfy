/** What each capture step needs before it changes anything, said without its own guard, and what it
    then does. */
module CaptureGuards {
  import opened Texts
  import opened AuditBatch
  import opened CaptureTables
  import opened CaptureChain

  predicate Untouched(t: Tables, u: Tables, device: Id) {
    device in t.devices ==> device in u.devices && u.devices[device] == t.devices[device]
  }

  // ---- reserve ----

  /** No reservation, or one that has run out. */
  predicate Free(d: Device, now: int) {
    d.pending.Some? ==> d.pending.value.expiresAt <= now
  }

  /** The actor's active device, free, not pinned to another key, and the capture is next in its chain. */
  predicate Reservable(t: Tables, actor: Id, device: Id, c: Capture, now: int) {
    && device in t.devices
    && var d := t.devices[device];
       && d.owner == actor && d.active && Free(d, now)
       && (d.keyId.Some? ==> d.keyId == Some(c.keyId)) && (d.publicKey.Some? ==> d.publicKey == Some(c.publicKey))
       && c.sequence == d.chainSequence + 1 && c.previousHash == d.chainEventHash
  }

  /** The reservation is this capture's, under the lease asked for, and the key is pinned. */
  function ReservedRow(d: Device, c: Capture, leaseId: Id, expiresAt: int): Device {
    d.(keyId := if d.keyId.Some? then d.keyId else Some(c.keyId), publicKey := if d.publicKey.Some? then d.publicKey else Some(c.publicKey),
       pending := Some(Pending(leaseId, c.sequence, c.previousHash, c.eventHash, c.evidenceId, expiresAt)))
  }

  /** The statement changes a row exactly when the device can be reserved, unless its key is pinned to
      another device; then it aborts. */
  lemma ReserveExactly(db: Db, s: Step)
    requires ChainInv(db) && s.Reserve?
    requires s.capture.sequence == s.observedSequence + 1 && s.capture.previousHash == s.observedHash
    ensures var e := PlanReserve(s).statements[0](db.data);
            if !Reservable(db.data, s.actor, s.device, s.capture, s.now) then e == Done(db.data, 0)
            else
              var d := ReservedRow(db.data.devices[s.device], s.capture, s.leaseId, s.expiresAt);
              if exists id | id in db.data.devices && id != s.device :: db.data.devices[id].keyId == d.keyId then e == Abort
              else e == Done(db.data.(devices := db.data.devices[s.device := d]), 1)
  {
    hide ChainInv, DeviceOk, ReserveGuard, ReserveChange, Reservable, ReservedRow;
    if s.device in db.data.devices {
      ReserveGuardExactly(db, s);
    }
    assert PlanReserve(s).statements[0](db.data)
           == ReserveStatement(s.actor, s.device, s.capture, s.observedSequence, s.observedHash, s.leaseId, s.now, s.expiresAt)(db.data);
    assert s.device !in db.data.devices ==> !Reservable(db.data, s.actor, s.device, s.capture, s.now) by { NeedsDevice(db.data, s); }
  }

  lemma NeedsDevice(t: Tables, s: Step)
    requires s.Reserve?
    ensures Reservable(t, s.actor, s.device, s.capture, s.now) ==> s.device in t.devices
  {
  }

  lemma ReserveGuardExactly(db: Db, s: Step)
    requires ChainInv(db) && s.Reserve? && s.device in db.data.devices
    requires s.capture.sequence == s.observedSequence + 1 && s.capture.previousHash == s.observedHash
    ensures var d := db.data.devices[s.device];
            && (ReserveGuard(s.actor, s.capture, s.observedSequence, s.observedHash, s.now)(d)
                <==> Reservable(db.data, s.actor, s.device, s.capture, s.now))
            && ReserveChange(s.capture, s.leaseId, s.expiresAt)(d) == ReservedRow(d, s.capture, s.leaseId, s.expiresAt)
  {
    KeysTogether(db, s.device);
    hide ChainInv;
  }

  lemma KeysTogether(db: Db, device: Id)
    requires ChainInv(db) && device in db.data.devices
    ensures db.data.devices[device].keyId.Some? <==> db.data.devices[device].publicKey.Some?
  {
    assert DeviceOk(db, device);
  }

  /** A live reservation is never displaced, whatever its device, owner or key. */
  lemma ReserveSparesLiveReservations(db: Db, act: Act, seal: Seal, device: Id)
    requires ChainInv(db) && act.step.Reserve?
    requires device in db.data.devices && db.data.devices[device].pending.Some?
    requires db.data.devices[device].pending.value.expiresAt > act.step.now
    ensures Untouched(db.data, Apply(db, act, seal).data, device)
  {
    hide ChainInv, Settle, PlanReserve;
    var s := act.step;
    if s.capture.sequence == s.observedSequence + 1 && s.capture.previousHash == s.observedHash {
      ReserveStatementSpares(db, s, device);
      var next := OneStatement(db, PlanReserve(s), act.observedHead, seal);
    }
  }

  lemma ReserveStatementSpares(db: Db, s: Step, device: Id)
    requires ChainInv(db) && s.Reserve?
    requires s.capture.sequence == s.observedSequence + 1 && s.capture.previousHash == s.observedHash
    requires device in db.data.devices && db.data.devices[device].pending.Some?
    requires db.data.devices[device].pending.value.expiresAt > s.now
    ensures |PlanReserve(s).statements| == 1
    ensures var e := PlanReserve(s).statements[0](db.data);
            e.Done? ==> Untouched(db.data, e.next, device)
  {
    ReserveExactly(db, s);
    hide ChainInv, ReserveStatement, ReservedRow;
  }

  /** A batch of one statement leaves the tables alone or does what the statement does. */
  lemma OneStatement(db: Db, plan: Plan, head: Text, seal: Seal) returns (next: Db)
    requires ChainInv(db) && |plan.statements| == 1
    ensures next == Settle(db, plan, head, seal)
    ensures next == db || (plan.statements[0](db.data).Done? && next.data == plan.statements[0](db.data).next)
  {
    hide ChainInv;
    assert Linked(db.audit) by { StoreIsLinked(db); }
    next := Committing(db, plan, head, seal);
    RunOne(plan.statements[0], db.data);
    assert plan.statements == [plan.statements[0]];
  }

  lemma StoreIsLinked(db: Db)
    requires ChainInv(db)
    ensures Linked(db.audit)
  {
  }

  // ---- release ----

  /** A release drops only a reservation that has run out, to the second, and touches no other device. */
  lemma ReleaseSparesLiveReservations(db: Db, act: Act, seal: Seal, device: Id)
    requires ChainInv(db) && act.step.Release? && device in db.data.devices
    requires device != act.step.authority.deviceId || db.data.devices[device].pending.None?
             || db.data.devices[device].pending.value.expiresAt / 1000 > act.step.now / 1000
    ensures Untouched(db.data, Apply(db, act, seal).data, device)
  {
    var s := act.step;
    hide ChainInv, Settle, ReasonHolds, RowIs;
    var next := OneStatement(db, PlanRelease(s.authority, s.now, s.reason), act.observedHead, seal);
  }

  /** The reserved capture as its owner stored it from this device, still active, unexpired and not yet
      in the chain. */
  predicate StoredCapture(t: Tables, id: Id, p: Authority, now: int)
    requires id in t.artifacts
  {
    var e := t.artifacts[id];
    && e == Artifact(Some(p.deviceId), p.owner, true, (p.deviceId, p.pending.evidenceId), e.status, e.imageSha256, e.manifestSha256,
                     e.jiraIssueKey, p.pending.previousHash, p.pending.eventHash, e.safety, e.expiresAt, e.createdAt)
    && e.status in {NeedsReview, Approved, Expiring} && e.expiresAt / 1000 > now / 1000
    && forall n | n in t.manifests :: n.artifactId != id
  }

  /** The scheduler takes an artifact for the reserved capture exactly when it is that. */
  lemma CandidateExactly(t: Tables, id: Id, p: Authority, now: int)
    requires id in t.artifacts
    ensures IsCandidate(t, id, p, now) <==> StoredCapture(t, id, p, now)
  {
  }

  /** A reservation whose capture is stored and can still be finalized is not released as one whose
      artifact was not found. */
  lemma StoredCaptureIsKept(db: Db, p: Authority, now: int, head: Text, seal: Seal, id: Id)
    requires ChainInv(db) && id in db.data.artifacts
    requires StoredCapture(db.data, id, p, now)
    ensures Settle(db, PlanRelease(p, now, ArtifactNotFound), head, seal).data == db.data
  {
    hide ChainInv, Settle, IsCandidate, StoredCapture;
    CandidateExactly(db.data, id, p, now);
    var next := OneStatement(db, PlanRelease(p, now, ArtifactNotFound), head, seal);
  }

  /** A device that is active, whose owner may collect, loses no reservation to a revocation. */
  lemma AuthorizedReservationIsKept(db: Db, p: Authority, now: int, head: Text, seal: Seal)
    requires ChainInv(db) && p.deviceId in db.data.devices && db.data.devices[p.deviceId].active
    requires p.owner in db.data.users && db.data.users[p.owner].active && db.data.users[p.owner].role in {Admin, ComplianceLead}
    ensures Settle(db, PlanRelease(p, now, DeviceOrOwnerRevoked), head, seal).data == db.data
  {
    hide ChainInv, Settle, RowIs;
    var next := OneStatement(db, PlanRelease(p, now, DeviceOrOwnerRevoked), head, seal);
  }

  // ---- finalize and reconcile ----

  /** The actor's active device holds exactly this lease for exactly this capture. */
  predicate HoldsExactly(t: Tables, r: Request) {
    && r.device in t.devices
    && var d := t.devices[r.device];
       && d.owner == r.actor && d.active && d.keyId == Some(r.capture.keyId) && d.publicKey == Some(r.capture.publicKey)
       && d.pending.Some?
       && d.pending == Some(Pending(r.leaseId, r.capture.sequence, r.capture.previousHash, r.capture.eventHash, r.capture.evidenceId,
                                    d.pending.value.expiresAt))
  }

  /** Nobody but the holder of the lease finalizes, and nothing but what was reserved. */
  lemma FinalizeNeedsTheLease(db: Db, act: Act, seal: Seal)
    requires ChainInv(db) && act.step.Finalize? && !HoldsExactly(db.data, act.step.request)
    ensures Apply(db, act, seal) == db
  {
    var r := act.step.request;
    hide ChainInv, Settle, Finalized, FinalizeHolds, Clashes;
    var next, q := FinalizeStep(db, act.step, act.observedHead, seal);
  }

  /** The scheduler finalizes only what it read: the same reservation, down to its expiry, for an owner
      who may collect, and the same artifact, unexpired. */
  lemma ReconcileNeedsAuthority(db: Db, p: Authority, id: Id, a: Artifact, now: int, head: Text, seal: Seal)
    requires ChainInv(db) && Reconcilable(p)
    requires !(p.deviceId in db.data.devices && db.data.devices[p.deviceId].pending == Some(p.pending))
             || !(p.owner in db.data.users && db.data.users[p.owner].active && db.data.users[p.owner].role in {Admin, ComplianceLead})
             || !(id in db.data.artifacts && db.data.artifacts[id].(createdAt := a.createdAt) == a && a.screenshot && a.expiresAt / 1000 > now / 1000)
    ensures var r := RequestOf(p, p.keyId.value, p.publicKey.value, id, a);
            Settle(db, PlanReconcile(r, p, a, now), head, seal) == db
  {
    var r := RequestOf(p, p.keyId.value, p.publicKey.value, id, a);
    AdvancesExactly(r, p, a, now);
    if Moves(AdvanceHeadExactly(r, p, a, now), db.data, r) {
      MovesAsRead(db.data, r, p, a, now);
    }
    var plan := PlanReconcile(r, p, a, now);
    hide Moves, ChainInv, Settle, Finalized, FinalizeHolds, Clashes, HeadGuard, Advances;
    var next := FinalizingCommits(db, r, AdvanceHeadExactly(r, p, a, now), plan.condition.value, plan.event, head, seal);
    if next != db {
      ReconcileCondition(db, next, plan, head, seal);
      FinalizedKeepsRest(db.data, r);
    }
  }

  lemma MovesAsRead(t: Tables, r: Request, p: Authority, a: Artifact, now: int)
    requires Reconcilable(p) && r == RequestOf(p, p.keyId.value, p.publicKey.value, r.artifactId, a)
    requires Moves(AdvanceHeadExactly(r, p, a, now), t, r)
    ensures p.deviceId in t.devices && t.devices[p.deviceId].pending == Some(p.pending)
  {
    hide ExactArtifact, OwnerMayCollect;
    var u := t.(manifests := t.manifests + [ManifestOf(r)]);
    assert AdvanceHeadExactly(r, p, a, now)(u) != Done(u, 0);
    assert r.device in u.devices && HeadGuard(r)(u.devices[r.device]);
  }

  lemma ReconcileCondition(db: Db, next: Db, plan: Plan, head: Text, seal: Seal)
    requires ChainInv(db) && next == Settle(db, plan, head, seal) && next != db
    requires plan.condition.Some? && plan.statements != [] && next.audit != db.audit
    ensures plan.condition.value(next.(audit := db.audit))
  {
    assert Linked(db.audit);
    hide ChainInv, Settle, Linked;
    var same := Committing(db, plan, head, seal);
  }

  lemma FinalizedKeepsRest(t: Tables, r: Request)
    requires r.device in t.devices
    ensures Finalized(t, r).users == t.users && Finalized(t, r).artifacts == t.artifacts
  {
  }

  // ---- the rest ----

  lemma RevokeExactly(t: Tables, device: Id)
    ensures PlanRevoke(device).statements[0](t)
            == if device in t.devices && t.devices[device].active
               then Done(t.(devices := t.devices[device := t.devices[device].(active := false, pending := None)]), 1)
               else Done(t, 0)
  {
  }

  predicate AsObserved(e: Artifact, o: Artifact) {
    e == o.(createdBy := e.createdBy, screenshot := e.screenshot, jiraIssueKey := e.jiraIssueKey, chainPreviousHash := e.chainPreviousHash,
            chainEventHash := e.chainEventHash, safety := e.safety, expiresAt := e.expiresAt)
  }

  /** A finalized artifact, a young one, one whose device holds a reservation, and one that is not due or
      not as it was observed are never quarantined. */
  lemma QuarantineSpares(t: Tables, id: Id, o: Artifact, dueAt: int, now: int, cutoff: int)
    requires id in t.artifacts
    requires (exists n | n in t.manifests :: n.artifactId == id) || t.artifacts[id].createdAt / 1000 > cutoff / 1000
             || (t.artifacts[id].device.Some? && t.artifacts[id].device.value in t.devices
                 && t.devices[t.artifacts[id].device.value].pending.Some?)
             || id !in t.queue || t.queue[id] / 1000 > now / 1000 || t.queue[id] != dueAt || !AsObserved(t.artifacts[id], o)
    ensures QuarantineStatement(id, o, dueAt, now, cutoff)(t) == Done(t, 0)
  {
  }

  /** What is quarantined is returned, and nothing else about it changes. */
  lemma QuarantineTakesEffect(t: Tables, id: Id, dueAt: int, now: int, cutoff: int)
    requires id in t.artifacts && id in t.queue && t.queue[id] == dueAt && dueAt / 1000 <= now / 1000
    requires t.artifacts[id].createdAt / 1000 <= cutoff / 1000 && forall n | n in t.manifests :: n.artifactId != id
    requires t.artifacts[id].device.Some? ==> t.artifacts[id].device.value !in t.devices || t.devices[t.artifacts[id].device.value].pending.None?
    ensures var e := QuarantineStatement(id, t.artifacts[id], dueAt, now, cutoff)(t);
            && e == Done(t.(artifacts := t.artifacts[id := t.artifacts[id].(status := Returned)]), 1)
            && DequeueReturned(id, dueAt)(e.next) == Done(e.next.(queue := t.queue - {id}), 1)
  {
  }

  /** The artifact that new evidence replaces, which is expired only if it has run out. */
  predicate Replaces(t: Tables, s: Step)
    requires s.StoreArtifact?
  {
    s.stale.Some? && s.stale.value in t.artifacts && t.artifacts[s.stale.value].status !in {Expired, Purged}
    && t.artifacts[s.stale.value].expiresAt <= s.receivedAt
  }

  /** New evidence is up for review, and a device's is due for reconciliation after the ten minutes' grace. */
  lemma StoreExactly(t: Tables, s: Step)
    requires s.StoreArtifact? && s.artifactId !in t.artifacts && s.artifactId !in t.queue
    ensures var e := RunStatements(PlanStoreArtifact(s).statements, t);
            var kept := if Replaces(t, s) then t.artifacts[s.stale.value := t.artifacts[s.stale.value].(status := Expired)] else t.artifacts;
            && e.Done? && e.next.artifacts == kept[s.artifactId := s.artifact.(status := NeedsReview)]
            && e.next.queue == (if s.artifact.device.Some? then t.queue[s.artifactId := s.receivedAt + 600_000] else t.queue)
            && e.next.devices == t.devices && e.next.manifests == t.manifests
  {
    var ss := PlanStoreArtifact(s).statements;
    RunThree(ss[0], ss[1], ss[2], t);
  }

  /** A queue entry is drained exactly when it is the one that was read, due, and its artifact is
      finalized, missing or out of the active statuses. */
  lemma DrainExactly(t: Tables, id: Id, dueAt: int, now: int, reason: DrainReason)
    ensures DrainStatement(id, dueAt, now, reason)(t)
            == if id in t.queue && t.queue[id] == dueAt && dueAt / 1000 <= now / 1000
                  && (match reason
                      case AlreadyFinalized => exists n | n in t.manifests :: n.artifactId == id
                      case ArtifactMissing => id !in t.artifacts
                      case NoLongerEligible(s) => id in t.artifacts && t.artifacts[id].status == s && s in {TurnedDown, Returned, Superseded, Expired, Purged})
               then Done(t.(queue := t.queue - {id}), 1) else Done(t, 0)
  {
  }

  /** Revoking a member stands exactly their devices down, and drops no reservation. */
  lemma MembersDevicesStandDown(t: Tables, s: Step, device: Id)
    requires s.SetUser? && device in t.devices
    ensures var u := DirectEffect(t, s);
            && device in u.devices && u.devices[device].pending == t.devices[device].pending
            && (u.devices[device].active <==> t.devices[device].active && !(s.revoked && t.devices[device].owner == s.user))
            && u.artifacts == t.artifacts && u.manifests == t.manifests && u.queue == t.queue
  {
  }

  /** A repeat collection changes nothing about an artifact that has run out, or that came from elsewhere. */
  lemma RecollectNeedsLife(t: Tables, s: Step)
    requires s.Recollect? && s.artifactId in t.artifacts
    requires var e := t.artifacts[s.artifactId];
             e.status in {Expired, Purged} || e.expiresAt <= s.receivedAt || (s.source.Some? && s.source != Some(e.source.0))
    ensures DirectEffect(t, s) == t
  {
  }
}
