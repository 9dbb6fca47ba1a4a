/** The tables behind native captures, the SQL statements that touch them, and every step that
    a device, a reviewer or the reconciler can take. Each audited batch is one atomic step whose
    WHERE clauses are guards; the values a worker read earlier are arbitrary step parameters. */
module CaptureTables {
  import opened Texts
  import opened AuditBatch

  type Id = string

  datatype Role = Auditor | Reviewer | ComplianceLead | Admin

  datatype User = User(active: bool, role: Role) {
    predicate MayCollect() {
      active && (role.Admin? || role.ComplianceLead?)
    }
  }

  datatype Pending = Pending(leaseId: Id, sequence: int, previousHash: Text, eventHash: Text,
                             evidenceId: Id, expiresAt: int)

  datatype Device = Device(owner: Id, active: bool, keyId: Option<Id>, publicKey: Option<Id>,
                           chainSequence: nat, chainEventHash: Text, pending: Option<Pending>)

  datatype Manifest = Manifest(device: Id, evidenceId: Id, artifactId: Id, manifestSha256: Text, imageSha256: Text,
                               jiraIssueKey: Option<Id>, chainSequence: int, chainEventHash: Text, keyId: Id)

  datatype Status = NeedsReview | Approved | Expiring | TurnedDown | Returned | Superseded | Expired | Purged

  predicate Active(s: Status) {
    s.NeedsReview? || s.Approved? || s.Expiring?
  }

  /** `source` is the device and evidence id that the source column spells out; `safety` stands
      for the scan and timestamp columns, which are only ever compared for equality. */
  datatype Artifact = Artifact(device: Option<Id>, createdBy: Id, screenshot: bool, source: (Id, Id), status: Status,
                               imageSha256: Text, manifestSha256: Text, jiraIssueKey: Option<Id>,
                               chainPreviousHash: Text, chainEventHash: Text, safety: Id,
                               expiresAt: int, createdAt: int)

  datatype Tables = Tables(devices: map<Id, Device>, users: map<Id, User>, manifests: seq<Manifest>,
                           artifacts: map<Id, Artifact>, queue: map<Id, int>)

  datatype ChainEvent =
    | Reserved(device: Id, evidenceId: Id, sequence: int, previousHash: Text, eventHash: Text, keyId: Id)
    | Logged(action: string, resource: Id)

  type Db = Store<Tables, ChainEvent>

  type Seal = (ChainEvent, Text) -> Text

  const GRACE_MS := 600_000

  /** SQLite's unixepoch drops the milliseconds. */
  function Epoch(ms: int): int {
    ms / 1000
  }

  // ---- statements ----

  function UpdateDevice(t: Tables, id: Id, guard: Device -> bool, change: Device -> Device): Effect<Tables> {
    if id in t.devices && guard(t.devices[id])
    then Done(t.(devices := t.devices[id := change(t.devices[id])]), 1)
    else Done(t, 0)
  }

  function SetStatus(t: Tables, id: Id, guard: Artifact -> bool, status: Status): Effect<Tables> {
    if id in t.artifacts && guard(t.artifacts[id])
    then Done(t.(artifacts := t.artifacts[id := t.artifacts[id].(status := status)]), 1)
    else Done(t, 0)
  }

  function Dequeue(t: Tables, artifactId: Id, guard: bool): Effect<Tables> {
    if artifactId in t.queue && guard then Done(t.(queue := t.queue - {artifactId}), 1) else Done(t, 0)
  }

  predicate HasManifest(t: Tables, artifactId: Id) {
    exists n | n in t.manifests :: n.artifactId == artifactId
  }

  predicate HasPending(t: Tables, device: Option<Id>) {
    device.Some? && device.value in t.devices && t.devices[device.value].pending.Some?
  }

  predicate OwnerMayCollect(t: Tables, owner: Id) {
    owner in t.users && t.users[owner].MayCollect()
  }

  /** The primary key and the two unique indexes of the manifest table. */
  predicate Clashes(manifests: seq<Manifest>, m: Manifest) {
    exists n | n in manifests ::
      n.device == m.device && (n.evidenceId == m.evidenceId || n.chainSequence == m.chainSequence)
  }

  function InsertManifest(m: Manifest): Statement<Tables> {
    (t: Tables) => if Clashes(t.manifests, m) then Abort else Done(t.(manifests := t.manifests + [m]), 1)
  }

  function DrainQueue(artifactId: Id): Statement<Tables> {
    (t: Tables) => Dequeue(t, artifactId, true)
  }

  // ---- reserve ----

  /** The manifest parser bounds the sequence from below by one. */
  type LinkNumber = n: int | 1 <= n <= 2_147_483_647 witness 1

  datatype Capture = Capture(sequence: LinkNumber, previousHash: Text, eventHash: Text, evidenceId: Id,
                             keyId: Id, publicKey: Id)

  function ReserveGuard(actor: Id, c: Capture, observedSequence: int, observedHash: Text, now: int): Device -> bool {
    (d: Device) =>
      && d.owner == actor && d.active
      && (d.keyId == None || (d.keyId == Some(c.keyId) && d.publicKey == Some(c.publicKey)))
      && d.chainSequence == observedSequence && d.chainEventHash == observedHash
      && (d.pending.None? || d.pending.value.expiresAt <= now)
  }

  function ReserveChange(c: Capture, leaseId: Id, expiresAt: int): Device -> Device {
    (d: Device) => d.(
      keyId := if d.keyId.Some? then d.keyId else Some(c.keyId),
      publicKey := if d.publicKey.Some? then d.publicKey else Some(c.publicKey),
      pending := Some(Pending(leaseId, c.sequence, c.previousHash, c.eventHash, c.evidenceId, expiresAt)))
  }

  /** The UPDATE of a reservation; the unique index on the pinned key can abort it. */
  function ReserveStatement(actor: Id, device: Id, c: Capture, observedSequence: int, observedHash: Text,
                            leaseId: Id, now: int, expiresAt: int): Statement<Tables>
  {
    (t: Tables) =>
      var e := UpdateDevice(t, device, ReserveGuard(actor, c, observedSequence, observedHash, now),
                            ReserveChange(c, leaseId, expiresAt));
      if e.changes == 1 && exists id | id in t.devices && id != device :: t.devices[id].keyId == e.next.devices[device].keyId
      then Abort else e
  }

  // ---- finalize ----

  datatype Request = Request(actor: Id, device: Id, capture: Capture, leaseId: Id, artifactId: Id,
                             manifestSha256: Text, imageSha256: Text, jiraIssueKey: Option<Id>)

  function ManifestOf(r: Request): Manifest {
    Manifest(r.device, r.capture.evidenceId, r.artifactId, r.manifestSha256, r.imageSha256, r.jiraIssueKey,
             r.capture.sequence, r.capture.eventHash, r.capture.keyId)
  }

  function HeadGuard(r: Request): Device -> bool {
    (d: Device) =>
      && d.owner == r.actor && d.active
      && d.keyId == Some(r.capture.keyId) && d.publicKey == Some(r.capture.publicKey)
      && d.chainSequence == r.capture.sequence - 1 && d.chainEventHash == r.capture.previousHash
      && d.pending.Some? && d.pending.value.leaseId == r.leaseId
      && d.pending.value.sequence == r.capture.sequence
      && d.pending.value.previousHash == r.capture.previousHash
      && d.pending.value.eventHash == r.capture.eventHash
      && d.pending.value.evidenceId == r.capture.evidenceId
  }

  function HeadChange(sequence: nat, eventHash: Text): Device -> Device {
    (d: Device) => d.(chainSequence := sequence, chainEventHash := eventHash, pending := None)
  }

  function AdvanceHead(r: Request): Statement<Tables> {
    (t: Tables) => UpdateDevice(t, r.device, HeadGuard(r), HeadChange(r.capture.sequence, r.capture.eventHash))
  }

  predicate HeadIs(t: Tables, device: Id, sequence: int, eventHash: Text) {
    && device in t.devices && t.devices[device].chainSequence == sequence
    && t.devices[device].chainEventHash == eventHash && t.devices[device].pending.None?
  }

  predicate FinalizeHolds(t: Tables, r: Request) {
    && (exists n | n in t.manifests ::
          n.device == r.device && n.evidenceId == r.capture.evidenceId && n.artifactId == r.artifactId
          && n.manifestSha256 == r.manifestSha256 && n.imageSha256 == r.imageSha256
          && n.chainSequence == r.capture.sequence && n.chainEventHash == r.capture.eventHash
          && n.keyId == r.capture.keyId)
    && HeadIs(t, r.device, r.capture.sequence, r.capture.eventHash)
    && r.artifactId !in t.queue
  }

  /** The read that recognises a commit whose reply was lost. */
  predicate ExactExisting(t: Tables, r: Request) {
    && ManifestOf(r) in t.manifests
    && r.device in t.devices
    && t.devices[r.device].chainSequence >= r.capture.sequence
    && t.devices[r.device].keyId == Some(r.capture.keyId)
  }

  // ---- reconcile and release ----

  /** The row of an expired reservation as the scheduler read it. */
  datatype Authority = Authority(deviceId: Id, owner: Id, active: bool, keyId: Option<Id>, publicKey: Option<Id>,
                                 chainSequence: int, chainEventHash: Text, pending: Pending)

  datatype Reason = ArtifactNotFound | DeviceOrOwnerRevoked | ChainAuthorityMismatch | PinnedKeyInvalid

  function RequestOf(p: Authority, keyId: Id, publicKey: Id, artifactId: Id, a: Artifact): Request
    requires 1 <= p.pending.sequence <= 2_147_483_647
  {
    Request(p.owner, p.deviceId,
            Capture(p.pending.sequence, p.pending.previousHash, p.pending.eventHash, p.pending.evidenceId, keyId, publicKey),
            p.pending.leaseId, artifactId, a.manifestSha256, a.imageSha256, a.jiraIssueKey)
  }

  /** Column-by-column equality with the artifact observed, which has not expired. */
  predicate ExactArtifact(t: Tables, id: Id, o: Artifact, now: int) {
    && id in t.artifacts
    && t.artifacts[id].(createdAt := o.createdAt) == o
    && o.screenshot && Epoch(o.expiresAt) > Epoch(now)
  }

  function AdvanceHeadExactly(r: Request, p: Authority, a: Artifact, now: int): Statement<Tables> {
    (t: Tables) =>
      UpdateDevice(t, r.device,
                   (d: Device) =>
                     && HeadGuard(r)(d)
                     && d.chainSequence == p.chainSequence && d.chainEventHash == p.chainEventHash
                     && d.pending.value.expiresAt == p.pending.expiresAt
                     && OwnerMayCollect(t, p.owner) && ExactArtifact(t, r.artifactId, a, now),
                   HeadChange(r.capture.sequence, r.capture.eventHash))
  }

  predicate NoCandidate(t: Tables, p: Authority, now: int) {
    !exists id | id in t.artifacts :: IsCandidate(t, id, p, now)
  }

  predicate IsCandidate(t: Tables, id: Id, p: Authority, now: int)
    requires id in t.artifacts
  {
    var e := t.artifacts[id];
    && e.device == Some(p.deviceId) && e.createdBy == p.owner
    && e.chainPreviousHash == p.pending.previousHash && e.chainEventHash == p.pending.eventHash
    && e.screenshot && Active(e.status) && Epoch(e.expiresAt) > Epoch(now)
    && e.source == (p.deviceId, p.pending.evidenceId) && !HasManifest(t, id)
  }

  predicate MatchingChain(d: Device) {
    d.pending.Some? && d.pending.value.sequence == d.chainSequence + 1 && d.pending.value.previousHash == d.chainEventHash
  }

  predicate ReasonHolds(t: Tables, d: Device, p: Authority, now: int, reason: Reason) {
    match reason
    case ArtifactNotFound => d.active && OwnerMayCollect(t, d.owner) && MatchingChain(d) && NoCandidate(t, p, now)
    case DeviceOrOwnerRevoked => !d.active || !OwnerMayCollect(t, p.owner)
    case ChainAuthorityMismatch => d.active && OwnerMayCollect(t, d.owner) && d.pending.Some? && !MatchingChain(d)
    case PinnedKeyInvalid => d.active && OwnerMayCollect(t, d.owner) && MatchingChain(d)
  }

  predicate ReasonStillHolds(t: Tables, p: Authority, now: int, reason: Reason) {
    match reason
    case ArtifactNotFound => OwnerMayCollect(t, p.owner) && NoCandidate(t, p, now)
    case DeviceOrOwnerRevoked =>
      p.deviceId in t.devices
      && (!t.devices[p.deviceId].active || !OwnerMayCollect(t, t.devices[p.deviceId].owner))
    case ChainAuthorityMismatch => OwnerMayCollect(t, p.owner)
    case PinnedKeyInvalid => OwnerMayCollect(t, p.owner)
  }

  predicate RowIs(d: Device, p: Authority) {
    && d.owner == p.owner && d.active == p.active && d.keyId == p.keyId && d.publicKey == p.publicKey
    && d.chainSequence == p.chainSequence && d.chainEventHash == p.chainEventHash
  }

  function ReleaseStatement(p: Authority, now: int, reason: Reason): Statement<Tables> {
    (t: Tables) =>
      UpdateDevice(t, p.deviceId,
                   (d: Device) => RowIs(d, p) && d.pending == Some(p.pending)
                                  && Epoch(p.pending.expiresAt) <= Epoch(now) && ReasonHolds(t, d, p, now, reason),
                   (d: Device) => d.(pending := None))
  }

  predicate ReleaseHolds(t: Tables, p: Authority, now: int, reason: Reason) {
    && p.deviceId in t.devices && RowIs(t.devices[p.deviceId], p) && t.devices[p.deviceId].pending.None?
    && ReasonStillHolds(t, p, now, reason)
  }

  // ---- the queue ----

  datatype DrainReason = AlreadyFinalized | ArtifactMissing | NoLongerEligible(observed: Status)

  predicate DrainAuthority(t: Tables, id: Id, reason: DrainReason) {
    match reason
    case AlreadyFinalized => HasManifest(t, id)
    case ArtifactMissing => id !in t.artifacts
    case NoLongerEligible(s) => !Active(s) && id in t.artifacts && t.artifacts[id].status == s
  }

  function DrainStatement(id: Id, dueAt: int, now: int, reason: DrainReason): Statement<Tables> {
    (t: Tables) => Dequeue(t, id, && id in t.queue && t.queue[id] == dueAt && Epoch(dueAt) <= Epoch(now)
                                  && DrainAuthority(t, id, reason))
  }

  predicate Quarantinable(t: Tables, id: Id, o: Artifact, dueAt: int, now: int, cutoff: int) {
    && id in t.artifacts && t.artifacts[id].device == o.device && t.artifacts[id].source == o.source
    && t.artifacts[id].status == o.status && t.artifacts[id].imageSha256 == o.imageSha256
    && t.artifacts[id].manifestSha256 == o.manifestSha256 && t.artifacts[id].createdAt == o.createdAt
    && Epoch(o.createdAt) <= Epoch(cutoff)
    && id in t.queue && t.queue[id] == dueAt && Epoch(dueAt) <= Epoch(now)
    && !HasManifest(t, id) && !HasPending(t, o.device)
  }

  function QuarantineStatement(id: Id, o: Artifact, dueAt: int, now: int, cutoff: int): Statement<Tables> {
    (t: Tables) => SetStatus(t, id, (e: Artifact) => Quarantinable(t, id, o, dueAt, now, cutoff), Returned)
  }

  function DequeueReturned(id: Id, dueAt: int): Statement<Tables> {
    (t: Tables) => Dequeue(t, id, && id in t.queue && t.queue[id] == dueAt
                                  && id in t.artifacts && t.artifacts[id].status == Returned)
  }

  predicate Quarantined(t: Tables, id: Id, o: Artifact) {
    && id in t.artifacts && t.artifacts[id].status == Returned && t.artifacts[id].device == o.device
    && t.artifacts[id].source == o.source && t.artifacts[id].imageSha256 == o.imageSha256
    && t.artifacts[id].manifestSha256 == o.manifestSha256 && t.artifacts[id].createdAt == o.createdAt
    && !HasManifest(t, id) && !HasPending(t, t.artifacts[id].device) && id !in t.queue
  }

  // ---- steps ----

  datatype Step =
    | Enroll(device: Id, owner: Id)
    | StoreArtifact(artifactId: Id, artifact: Artifact, receivedAt: int, stale: Option<Id>)
    | Reserve(actor: Id, device: Id, capture: Capture, observedSequence: int, observedHash: Text,
              leaseId: Id, now: int, expiresAt: int)
    | Finalize(request: Request)
    | DrainReplay(request: Request)
    | Revoke(device: Id)
    | Reconcile(authority: Authority, artifactId: Id, artifact: Artifact, now: int)
    | Release(authority: Authority, now: int, reason: Reason)
    | Quarantine(artifactId: Id, observed: Artifact, dueAt: int, now: int, cutoff: int)
    | DrainEntry(artifactId: Id, dueAt: int, now: int, drainReason: DrainReason)
    | Review(artifactId: Id, status: Status)
    | SetUser(user: Id, row: User, revoked: bool)
    | Recollect(artifactId: Id, source: Option<Id>, collector: Id, latest: bool, receivedAt: int, validUntil: int, scan: Id)

  /** An audited batch: its statements, its guard condition and the event it logs. */
  datatype Plan = Plan(statements: seq<Statement<Tables>>, condition: Option<Condition<Tables, ChainEvent>>, event: ChainEvent)

  function PlanEnroll(s: Step): Plan
    requires s.Enroll?
  {
    Plan([(t: Tables) =>
            if s.device in t.devices then Abort
            else Done(t.(devices := t.devices[s.device := Device(s.owner, true, None, None, 0, GENESIS, None)]), 1)],
         None, Logged("capture_device.enrolled", s.device))
  }

  /** New evidence enters the queue in the same batch exactly when a device sent it. */
  function PlanStoreArtifact(s: Step): Plan
    requires s.StoreArtifact?
  {
    Plan([(t: Tables) =>
            if s.stale.Some? then SetStatus(t, s.stale.value, (e: Artifact) => !e.status.Expired? && !e.status.Purged? && e.expiresAt <= s.receivedAt, Expired)
            else Done(t, 0),
          (t: Tables) =>
            if s.artifactId in t.artifacts then Abort
            else Done(t.(artifacts := t.artifacts[s.artifactId := s.artifact.(status := NeedsReview)]), 1),
          (t: Tables) =>
            if s.artifact.device.None? then Done(t, 0)
            else if s.artifactId in t.queue then Abort
            else Done(t.(queue := t.queue[s.artifactId := s.receivedAt + GRACE_MS]), 1)],
         None, Logged("evidence.created", s.artifactId))
  }

  function PlanReserve(s: Step): Plan
    requires s.Reserve?
  {
    Plan([ReserveStatement(s.actor, s.device, s.capture, s.observedSequence, s.observedHash, s.leaseId, s.now, s.expiresAt)],
         Some((db: Db) => s.device in db.data.devices && db.data.devices[s.device].pending.Some?
                          && db.data.devices[s.device].pending.value.leaseId == s.leaseId
                          && db.data.devices[s.device].keyId == Some(s.capture.keyId)),
         Reserved(s.device, s.capture.evidenceId, s.capture.sequence, s.capture.previousHash, s.capture.eventHash,
                  s.capture.keyId))
  }

  function PlanFinalize(r: Request): Plan {
    Plan([InsertManifest(ManifestOf(r)), AdvanceHead(r), DrainQueue(r.artifactId)],
         Some((db: Db) => FinalizeHolds(db.data, r)), Logged("capture_device.uploaded", r.artifactId))
  }

  function PlanDrainReplay(r: Request): Plan {
    Plan([(t: Tables) => Dequeue(t, r.artifactId, ExactExisting(t, r))],
         Some((db: Db) => r.artifactId !in db.data.queue && ExactExisting(db.data, r)),
         Logged("native_provenance.queue_entry_drained", r.artifactId))
  }

  function PlanRevoke(device: Id): Plan {
    Plan([(t: Tables) => UpdateDevice(t, device, (d: Device) => d.active, (d: Device) => d.(active := false, pending := None))],
         Some((db: Db) => device in db.data.devices && !db.data.devices[device].active),
         Logged("capture_device.revoked", device))
  }

  function PlanReconcile(r: Request, p: Authority, a: Artifact, now: int): Plan {
    Plan([InsertManifest(ManifestOf(r)), AdvanceHeadExactly(r, p, a, now), DrainQueue(r.artifactId)],
         Some((db: Db) => FinalizeHolds(db.data, r) && OwnerMayCollect(db.data, p.owner)
                          && ExactArtifact(db.data, r.artifactId, a, now)),
         Logged("native_provenance.reconciled", r.artifactId))
  }

  function PlanRelease(p: Authority, now: int, reason: Reason): Plan {
    Plan([ReleaseStatement(p, now, reason)], Some((db: Db) => ReleaseHolds(db.data, p, now, reason)),
         Logged("native_provenance.reservation_released", p.deviceId))
  }

  function PlanQuarantine(id: Id, o: Artifact, dueAt: int, now: int, cutoff: int): Plan {
    Plan([QuarantineStatement(id, o, dueAt, now, cutoff), DequeueReturned(id, dueAt)],
         Some((db: Db) => Quarantined(db.data, id, o)), Logged("native_provenance.artifact_quarantined", id))
  }

  function PlanDrainEntry(id: Id, dueAt: int, now: int, reason: DrainReason): Plan {
    Plan([DrainStatement(id, dueAt, now, reason)],
         Some((db: Db) => !(id in db.data.queue && db.data.queue[id] == dueAt) && DrainAuthority(db.data, id, reason)),
         Logged("native_provenance.queue_entry_drained", id))
  }

  /** A reconciler request needs a matching chain and a pinned key before it is ever sent. */
  predicate Reconcilable(p: Authority) {
    && 1 <= p.pending.sequence <= 2_147_483_647
    && p.pending.sequence == p.chainSequence + 1 && p.pending.previousHash == p.chainEventHash
    && p.active && p.keyId.Some? && p.publicKey.Some?
  }

  /** The batch of a step, when the checks made before the batch let it be sent. */
  function PlanOf(s: Step): Option<Plan> {
    match s
    case Enroll(_, _) => Some(PlanEnroll(s))
    case StoreArtifact(_, _, _, _) => Some(PlanStoreArtifact(s))
    case Reserve(_, _, c, sequence, hash, _, _, _) =>
      if c.sequence == sequence + 1 && c.previousHash == hash then Some(PlanReserve(s)) else None
    case Finalize(r) => Some(PlanFinalize(r))
    case DrainReplay(r) => Some(PlanDrainReplay(r))
    case Revoke(d) => Some(PlanRevoke(d))
    case Reconcile(p, id, a, now) =>
      if Reconcilable(p) && Active(a.status)
      then Some(PlanReconcile(RequestOf(p, p.keyId.value, p.publicKey.value, id, a), p, a, now)) else None
    case Release(p, now, reason) => Some(PlanRelease(p, now, reason))
    case Quarantine(id, o, dueAt, now, cutoff) => if Active(o.status) then Some(PlanQuarantine(id, o, dueAt, now, cutoff)) else None
    case DrainEntry(id, dueAt, now, reason) => Some(PlanDrainEntry(id, dueAt, now, reason))
    case Review(_, _) => None
    case SetUser(_, _, _) => None
    case Recollect(_, _, _, _, _, _, _) => None
  }

  datatype Act = Act(step: Step, observedHead: Text)

  function Settle(db: Db, plan: Plan, observedHead: Text, seal: Seal): Db {
    match Attempt(db, plan.statements, plan.condition, Prepare(plan.event, observedHead, seal))
    case Committed(next) => next
    case Rejected(_) => db
  }

  /** Revoking a member stands every device of theirs down, and leaves its reservation. */
  function StandDown(devices: map<Id, Device>, owner: Id): map<Id, Device> {
    map id | id in devices :: if devices[id].owner == owner then devices[id].(active := false) else devices[id]
  }

  /** A repeat collection. Its source is the artifact's, so it came from the device that the source
      spells out or from none; the trigger takes that over when the occurrence is the latest. */
  function RecollectEffect(t: Tables, s: Step): Tables
    requires s.Recollect?
  {
    if s.artifactId in t.artifacts
       && !t.artifacts[s.artifactId].status.Expired? && !t.artifacts[s.artifactId].status.Purged?
       && t.artifacts[s.artifactId].expiresAt > s.receivedAt
       && (s.source.Some? ==> s.source.value == t.artifacts[s.artifactId].source.0)
    then
      var e := t.artifacts[s.artifactId];
      t.(artifacts := t.artifacts[s.artifactId := e.(status := NeedsReview, expiresAt := s.validUntil, createdBy := s.collector,
                                                     safety := s.scan, device := if s.latest then s.source else e.device)])
    else t
  }

  /** Steps whose batch is not modelled as such: reviews, user administration and repeat collections. */
  predicate Direct(s: Step) {
    s.Review? || s.SetUser? || s.Recollect?
  }

  function DirectEffect(t: Tables, s: Step): Tables
    requires Direct(s)
  {
    match s
    case Review(id, status) => SetStatus(t, id, (e: Artifact) => true, status).next
    case SetUser(id, row, revoked) =>
      t.(users := t.users[id := row], devices := if revoked then StandDown(t.devices, id) else t.devices)
    case Recollect(_, _, _, _, _, _, _) => RecollectEffect(t, s)
  }

  /** One step on the store. */
  function Apply(db: Db, act: Act, seal: Seal): Db {
    if Direct(act.step) then db.(data := DirectEffect(db.data, act.step))
    else
      match PlanOf(act.step)
      case None => db
      case Some(plan) => Settle(db, plan, act.observedHead, seal)
  }

  function Run(db: Db, acts: seq<Act>, seal: Seal): Db
    decreases |acts|
  {
    if acts == [] then db else Run(Apply(db, acts[0], seal), acts[1..], seal)
  }
}
