/** Copy-switch-delete key rotation of evidence objects, its garbage reconciler, the expiry purge, and
    the collections and reviews that set a row's status, as one state machine over a row, its
    occurrences, the bucket and the workers' positions. Every step may happen late, repeatedly (where
    it is a network request) or never (a crash); a request whose reply is lost is one whose step
    happens without the worker moving on.

    An object key spells out the evidence id it was made for, so the keys of two rows never meet:
    a `World` is one row with the keys made for it, and a `Fleet` holds every row. */
module KeyRotation {
  import opened Texts

  /** Names are only ever compared for equality. */
  type Id = nat
  type Key = nat
  type LeaseId = nat
  type KeyId = nat
  type Iv = nat
  type Bytes = seq<bv8>

  /** SHA-256, taken as injective. */
  datatype Digest = Sha(of: Bytes)

  /** The associated data: id, control, source and capture time of the evidence. */
  datatype Context = Context(id: Id, control: Id, source: Id, capturedAt: int)

  /** AES-GCM under the key named `keyId`. */
  datatype Cipher = Sealed(plain: Bytes, iv: Iv, context: Context, keyId: KeyId)

  function Decrypt(c: Cipher, iv: Iv, context: Context, keyId: KeyId): Option<Bytes> {
    if c.iv == iv && c.context == context && c.keyId == keyId then Some(c.plain) else None
  }

  datatype Review = NeedsReview | Approved | Expiring | TurnedDown | Returned | Superseded

  datatype Status = Current(review: Review) | Expired | Purged

  /** One collection of the evidence, with its own expiry and review. */
  datatype Occurrence = Occurrence(receivedAt: int, expiresAt: int, review: Review)

  datatype Lease = Lease(id: LeaseId, expiresAt: int)

  datatype Row = Row(context: Context, digest: Digest, status: Status, expiresAt: int,
                     r2Key: Option<Key>, iv: Iv, keyId: KeyId,
                     lease: Option<Lease>, pending: Option<Key>, previous: Option<Key>)

  predicate Live(row: Row) {
    row.status.Current?
  }

  predicate LeaseFree(row: Row, now: int) {
    row.lease.None? || row.lease.value.expiresAt <= now
  }

  predicate Holds(row: Row, lease: LeaseId) {
    row.lease.Some? && row.lease.value.id == lease
  }

  function Named(key: Option<Key>): set<Key> {
    if key.Some? then {key.value} else {}
  }

  function Keys(row: Row): set<Key> {
    Named(row.r2Key) + Named(row.pending) + Named(row.previous)
  }

  /** Where a rotation stands, from its claim to the deletion of the former object. */
  datatype Stage =
    | Unheard                     // the claim's reply was lost
    | Claimed
    | Writing(cipher: Cipher)     // the put is on its way
    | Failed
    | Ready(cipher: Cipher)       // the put was acknowledged
    | Sent(cipher: Cipher)        // the switch is on its way
    | Cleaning(cipher: Cipher)    // the switch is known to have committed
    | Ended(cipher: Cipher)

  predicate SwitchInFlight(s: Stage) {
    s.Sent? || s.Cleaning? || s.Ended?
  }

  predicate CipherChosen(s: Stage) {
    s.Writing? || s.Ready? || SwitchInFlight(s)
  }

  /** A rotation away from the object `former`, with what it read of the row. */
  datatype Rotation = Rotation(former: Key, iv: Iv, keyId: KeyId, context: Context, lease: LeaseId, stage: Stage)

  datatype Cleanup = Cleanup(r2Key: Option<Key>, pending: Option<Key>, previous: Option<Key>)

  type Occurrences = map<Id, Occurrence>

  /** Row, occurrences, objects and worker positions, with the histories that the proofs speak of: the
      keys made for the row, what was sealed under each, whose put was acknowledged, which deletes
      were decided, which of them by a purge, which switches committed, and which keys the row can
      never name as current again. */
  datatype World = World(
    row: Row, occurrences: Occurrences, bucket: map<Key, Cipher>, rotations: map<Key, Rotation>, cleanups: map<LeaseId, Cleanup>,
    seen: set<Row>, leases: set<LeaseId>, made: set<Key>, encrypted: map<Key, Cipher>, acked: set<Key>,
    doomed: set<Key>, condemned: set<Key>, switched: set<Key>, retired: set<Key>)

  const ROTATION_LEASE_MS := 300_000

  // ---- steps ----

  /** Any worker reads the row; every later use of a snapshot may be arbitrarily stale. */
  function Read(w: World): World {
    w.(seen := w.seen + {w.row})
  }

  /** A snapshot that the rotation's SELECT returns holds no other key. What else the SELECT asks only
      makes claims rarer. */
  predicate Claimable(w: World, s: Row, next: Key, lease: LeaseId, now: int) {
    && s in w.seen && s.pending.None? && s.previous.None? && next !in w.made && lease !in w.leases
    && s.r2Key.Some? && w.row.r2Key == s.r2Key && w.row.keyId == s.keyId && Live(w.row) && w.row.expiresAt > now
    && w.row.pending.None? && LeaseFree(w.row, now)
  }

  function Claim(w: World, s: Row, next: Key, lease: LeaseId, now: int, heard: bool): World {
    if Claimable(w, s, next, lease, now)
    then
      w.(row := w.row.(lease := Some(Lease(lease, now + ROTATION_LEASE_MS)), pending := Some(next)),
         made := w.made + {next}, leases := w.leases + {lease},
         rotations := w.rotations[next := Rotation(s.r2Key.value, s.iv, s.keyId, s.context, lease,
                                                   if heard then Claimed else Unheard)])
    else w
  }

  function SetStage(w: World, next: Key, stage: Stage): World
    requires next in w.rotations
  {
    w.(rotations := w.rotations[next := w.rotations[next].(stage := stage)])
  }

  /** The former object is gone: nothing was written, the claim is to be released. */
  function Missing(w: World, next: Key): World {
    if next in w.rotations && w.rotations[next].stage.Claimed? && w.rotations[next].former !in w.bucket
    then SetStage(w, next, Failed) else w
  }

  /** What the worker makes of the object it fetched: nothing when it is gone or does not decrypt. */
  function Reencrypt(w: World, r: Rotation, iv: Iv, keyId: KeyId): Option<Cipher> {
    if r.former !in w.bucket then None
    else
      match Decrypt(w.bucket[r.former], r.iv, r.context, r.keyId)
      case None => None
      case Some(plain) => Some(Sealed(plain, iv, r.context, keyId))
  }

  function Encrypt(w: World, next: Key, iv: Iv, keyId: KeyId): World {
    if next in w.rotations && w.rotations[next].stage.Claimed? && Reencrypt(w, w.rotations[next], iv, keyId).Some?
    then
      var cipher := Reencrypt(w, w.rotations[next], iv, keyId).value;
      SetStage(w, next, Writing(cipher)).(encrypted := w.encrypted[next := cipher])
    else w
  }

  /** Decryption or the put failed: the worker deletes the new object, written or not. */
  function Fail(w: World, next: Key): World {
    if next in w.rotations && (w.rotations[next].stage.Claimed? || w.rotations[next].stage.Writing?)
    then SetStage(w, next, Failed).(doomed := w.doomed + {next}, retired := w.retired + {next}) else w
  }

  predicate Armed(w: World, next: Key)
    requires next in w.rotations
  {
    Holds(w.row, w.rotations[next].lease) && w.row.pending == Some(next)
  }

  function Release(w: World, next: Key): World {
    if next in w.rotations && w.rotations[next].stage.Failed? && Armed(w, next)
    then w.(row := w.row.(lease := None, pending := None)) else w
  }

  /** A put request takes effect, however late and however often. */
  function PutLands(w: World, key: Key): World {
    if key in w.encrypted then w.(bucket := w.bucket[key := w.encrypted[key]]) else w
  }

  function PutAcknowledged(w: World, next: Key): World {
    if next in w.rotations && w.rotations[next].stage.Writing?
    then
      var cipher := w.rotations[next].stage.cipher;
      SetStage(w, next, Ready(cipher)).(bucket := w.bucket[next := cipher], acked := w.acked + {next})
    else w
  }

  function Send(w: World, next: Key): World {
    if next in w.rotations && w.rotations[next].stage.Ready?
    then SetStage(w, next, Sent(w.rotations[next].stage.cipher)) else w
  }

  predicate Switchable(w: World, next: Key, now: int) {
    && next in w.rotations && SwitchInFlight(w.rotations[next].stage) && Armed(w, next)
    && w.row.r2Key == Some(w.rotations[next].former) && w.row.keyId == w.rotations[next].keyId && Live(w.row)
    && w.row.expiresAt > now && w.row.lease.value.expiresAt > now
  }

  /** The switch statement takes effect, possibly after the worker gave up on its reply. */
  function SwitchLands(w: World, next: Key, now: int): World {
    if Switchable(w, next, now)
    then
      var r := w.rotations[next];
      w.(row := w.row.(r2Key := Some(next), iv := r.stage.cipher.iv, keyId := r.stage.cipher.keyId,
                       previous := Some(r.former), pending := None, lease := None),
         switched := w.switched + {next}, retired := w.retired + {r.former})
    else w
  }

  /** The reply that one row was changed reaches the worker. */
  function Confirm(w: World, next: Key): World {
    if next in w.rotations && w.rotations[next].stage.Sent? && next in w.switched
    then SetStage(w, next, Cleaning(w.rotations[next].stage.cipher)) else w
  }

  datatype Disposition = Committed | StillReferenced | ProvenLoser

  /** The authoritative read after a switch that failed or whose reply was lost. */
  function Classify(row: Row, next: Key, nextKeyId: KeyId): Disposition {
    if row.r2Key == Some(next) && row.keyId == nextKeyId then Committed
    else if next in Keys(row) then StillReferenced
    else ProvenLoser
  }

  function Learn(w: World, next: Key): World {
    if next in w.rotations && w.rotations[next].stage.Sent?
    then
      var cipher := w.rotations[next].stage.cipher;
      match Classify(w.row, next, cipher.keyId)
      case Committed => SetStage(w, next, Cleaning(cipher))
      case StillReferenced => SetStage(w, next, Ended(cipher))
      case ProvenLoser => SetStage(w, next, Ended(cipher)).(doomed := w.doomed + {next}, retired := w.retired + {next})
    else w
  }

  /** The authoritative read is unavailable: nothing is proven, nothing is deleted. */
  function GiveUp(w: World, next: Key): World {
    if next in w.rotations && w.rotations[next].stage.Sent?
    then SetStage(w, next, Ended(w.rotations[next].stage.cipher)) else w
  }

  function DeleteFormer(w: World, next: Key): World {
    if next in w.rotations && w.rotations[next].stage.Cleaning?
    then w.(doomed := w.doomed + {w.rotations[next].former}) else w
  }

  /** After the delete. */
  function ClearPrevious(w: World, next: Key): World {
    if next in w.rotations && w.rotations[next].stage.Cleaning? && w.rotations[next].former in w.doomed
       && w.row.r2Key == Some(next) && w.row.previous == Some(w.rotations[next].former)
    then w.(row := w.row.(previous := None)) else w
  }

  /** A delete that some worker decided on takes effect, however late and however often. */
  function DeleteLands(w: World, key: Key): World {
    if key in w.doomed then w.(bucket := w.bucket - {key}) else w
  }

  predicate Cleanable(w: World, s: Row, lease: LeaseId, now: int) {
    && s in w.seen && lease !in w.leases
    && w.row.r2Key == s.r2Key && w.row.pending == s.pending && w.row.previous == s.previous
    && (s.pending.Some? || s.previous.Some?) && LeaseFree(w.row, now)
  }

  /** The pending and previous keys other than the current one. */
  function Garbage(row: Row): set<Key> {
    (Named(row.pending) + Named(row.previous)) - Named(row.r2Key)
  }

  function CleanupClaim(w: World, s: Row, lease: LeaseId, now: int): World {
    if Cleanable(w, s, lease, now)
    then
      w.(row := w.row.(lease := Some(Lease(lease, now + ROTATION_LEASE_MS))), leases := w.leases + {lease},
         cleanups := w.cleanups[lease := Cleanup(s.r2Key, s.pending, s.previous)],
         doomed := w.doomed + Garbage(w.row), retired := w.retired + Garbage(w.row))
    else w
  }

  function CleanupFinish(w: World, lease: LeaseId): World {
    if lease in w.cleanups && Holds(w.row, lease)
       && Cleanup(w.row.r2Key, w.row.pending, w.row.previous) == w.cleanups[lease]
    then w.(row := w.row.(pending := None, previous := None, lease := None)) else w
  }

  /** A snapshot that the purge's SELECT returns. Holds and open assessments also guard it and the
      claim; they only make both rarer. */
  predicate PurgeSelects(w: World, s: Row, now: int) {
    s in w.seen && s.expiresAt <= now && !s.status.Purged? && LeaseFree(s, now)
  }

  /** From here on the purge deletes every key of the snapshot, whatever becomes of the row. */
  function Condemn(w: World, s: Row): World {
    w.(condemned := w.condemned + Keys(s), doomed := w.doomed + Keys(s))
  }

  /** The claim looks at neither expiry nor keys again. A worker that hears that its claim changed the
      row goes on to delete without another look; one whose reply is lost stops. */
  function PurgeClaim(w: World, s: Row, now: int, heard: bool): World {
    if PurgeSelects(w, s, now) && Live(w.row) && LeaseFree(w.row, now)
    then
      var claimed := w.(row := w.row.(status := Expired));
      if heard then Condemn(claimed, s) else claimed
    else w
  }

  /** A claim that changed nothing is followed by a look at the status, and that by the deletes. */
  function PurgeReread(w: World, s: Row, now: int): World {
    if PurgeSelects(w, s, now) && w.row.status.Expired? then Condemn(w, s) else w
  }

  function PurgeFinish(w: World): World {
    if w.condemned != {} && !w.row.status.Purged?
    then w.(row := w.row.(status := Purged, r2Key := None, pending := None, previous := None, lease := None)) else w
  }

  /** ORDER BY received_at DESC, id DESC LIMIT 1. */
  predicate IsLatest(occurrences: Occurrences, o: Id) {
    && o in occurrences
    && forall p | p in occurrences ::
         occurrences[p].receivedAt < occurrences[o].receivedAt
         || (occurrences[p].receivedAt == occurrences[o].receivedAt && p <= o)
  }

  /** A repeat collection: its insert needs a row that is live and has not expired, and the batch
      then sets status and expiry of the row, whether or not the new occurrence is the latest. */
  function Collect(w: World, o: Id, receivedAt: int, expiresAt: int): World {
    if o !in w.occurrences && Live(w.row) && w.row.expiresAt > receivedAt
    then w.(occurrences := w.occurrences[o := Occurrence(receivedAt, expiresAt, NeedsReview)],
            row := w.row.(status := Current(NeedsReview), expiresAt := expiresAt))
    else w
  }

  /** Approve, reject, return, reopen and supersede. */
  predicate Moves(before: Review, after: Review) {
    match before
    case NeedsReview => after in {Approved, TurnedDown, Returned}
    case TurnedDown => after == NeedsReview
    case Returned => after == NeedsReview
    case Approved => after == Superseded
    case _ => false
  }

  /** The guards of a review: the latest occurrence, in a status it may leave, and not expired at the
      time the reviewer's clock showed. The row's own status is not among them. */
  predicate ReviewTakes(w: World, o: Id, after: Review, at: int) {
    IsLatest(w.occurrences, o) && Moves(w.occurrences[o].review, after) && w.occurrences[o].expiresAt > at
  }

  /** The trigger copies the status to any row that is not purged. */
  function ReviewLands(w: World, o: Id, after: Review, at: int): World {
    if ReviewTakes(w, o, after, at)
    then w.(occurrences := w.occurrences[o := w.occurrences[o].(review := after)],
            row := if w.row.status.Purged? then w.row else w.row.(status := Current(after)))
    else w
  }

  /** The quarantine of a native capture that was never finalized. */
  function Quarantine(w: World): World {
    if Live(w.row) then w.(row := w.row.(status := Current(Returned))) else w
  }

  /** A new artifact replaces this one, which has expired. */
  function ExpireStale(w: World, receivedAt: int): World {
    if Live(w.row) && w.row.expiresAt <= receivedAt then w.(row := w.row.(status := Expired)) else w
  }

  datatype Step =
    | SRead
    | SClaim(snapshot: Row, next: Key, lease: LeaseId, now: int, heard: bool)
    | SMissing(next: Key)
    | SEncrypt(next: Key, iv: Iv, keyId: KeyId)
    | SFail(next: Key)
    | SRelease(next: Key)
    | SPutLands(key: Key)
    | SPutAcknowledged(next: Key)
    | SSend(next: Key)
    | SSwitchLands(next: Key, now: int)
    | SConfirm(next: Key)
    | SLearn(next: Key)
    | SGiveUp(next: Key)
    | SDeleteFormer(next: Key)
    | SClearPrevious(next: Key)
    | SDeleteLands(key: Key)
    | SCleanupClaim(snapshot: Row, lease: LeaseId, now: int)
    | SCleanupFinish(lease: LeaseId)
    | SPurgeClaim(snapshot: Row, now: int, heard: bool)
    | SPurgeReread(snapshot: Row, now: int)
    | SPurgeFinish
    | SCollect(occurrence: Id, receivedAt: int, expiresAt: int)
    | SReview(occurrence: Id, after: Review, at: int)
    | SQuarantine
    | SExpireStale(receivedAt: int)

  function Apply(w: World, step: Step): World {
    match step
    case SRead => Read(w)
    case SClaim(s, next, lease, now, heard) => Claim(w, s, next, lease, now, heard)
    case SMissing(next) => Missing(w, next)
    case SEncrypt(next, iv, keyId) => Encrypt(w, next, iv, keyId)
    case SFail(next) => Fail(w, next)
    case SRelease(next) => Release(w, next)
    case SPutLands(key) => PutLands(w, key)
    case SPutAcknowledged(next) => PutAcknowledged(w, next)
    case SSend(next) => Send(w, next)
    case SSwitchLands(next, now) => SwitchLands(w, next, now)
    case SConfirm(next) => Confirm(w, next)
    case SLearn(next) => Learn(w, next)
    case SGiveUp(next) => GiveUp(w, next)
    case SDeleteFormer(next) => DeleteFormer(w, next)
    case SClearPrevious(next) => ClearPrevious(w, next)
    case SDeleteLands(key) => DeleteLands(w, key)
    case SCleanupClaim(s, lease, now) => CleanupClaim(w, s, lease, now)
    case SCleanupFinish(lease) => CleanupFinish(w, lease)
    case SPurgeClaim(s, now, heard) => PurgeClaim(w, s, now, heard)
    case SPurgeReread(s, now) => PurgeReread(w, s, now)
    case SPurgeFinish => PurgeFinish(w)
    case SCollect(o, receivedAt, expiresAt) => Collect(w, o, receivedAt, expiresAt)
    case SReview(o, after, at) => ReviewLands(w, o, after, at)
    case SQuarantine => Quarantine(w)
    case SExpireStale(receivedAt) => ExpireStale(w, receivedAt)
  }

  // ---- the invariant ----

  /** A purge has set out to delete the current object. */
  predicate Condemned(w: World) {
    w.row.r2Key.Some? && w.row.r2Key.value in w.condemned
  }

  /** The key the row names as current was acknowledged, is not retired, and is sealed as the row
      says; a previous key is retired; a pending key is not the current one, and no purge set out to
      delete it without the current one. */
  ghost predicate RowOk(w: World) {
    && (w.row.r2Key.None? <==> w.row.status.Purged?)
    && (w.row.r2Key.Some? ==>
          && var key := w.row.r2Key.value;
             key in w.acked && key !in w.retired && key in w.encrypted
             && w.encrypted[key].iv == w.row.iv && w.encrypted[key].keyId == w.row.keyId)
    && (w.row.pending.Some? ==> w.row.r2Key.Some? && w.row.pending.value in w.made && w.row.pending != w.row.r2Key)
    && (w.row.previous.Some? ==> w.row.previous.value in w.retired)
    && (w.row.lease.Some? ==> w.row.lease.value.id in w.leases)
    && (w.row.pending.Some? && w.row.pending.value in w.condemned ==> Condemned(w))
  }

  /** Whatever was sealed for the row has its bytes; what is in the bucket is what was sealed; an
      acknowledged object leaves the bucket only by a decided delete, and deletes are decided only
      for retired keys or by a purge. */
  ghost predicate KeysOk(w: World) {
    && (forall key | key in w.encrypted ::
          key in w.made && w.encrypted[key].context == w.row.context && Sha(w.encrypted[key].plain) == w.row.digest)
    && (forall key | key in w.bucket :: key in w.encrypted && w.bucket[key] == w.encrypted[key])
    && (forall key | key in w.acked :: key in w.encrypted && (key in w.bucket || key in w.doomed))
    && (forall key | key in w.doomed :: key in w.retired || key in w.condemned)
    && w.retired <= w.made && w.switched <= w.made && w.condemned <= w.made && w.condemned <= w.doomed
  }

  /** Snapshots name keys that were made, and one that names the pending key has the current one too. */
  ghost predicate SnapshotsOk(w: World) {
    forall s | s in w.seen ::
      && Keys(s) <= w.made
      && (w.row.pending.Some? && w.row.pending.value in Keys(s) ==> s.r2Key == w.row.r2Key)
  }

  ghost predicate RotationOk(w: World, next: Key)
    requires next in w.rotations
  {
    var r := w.rotations[next];
    && next in w.made && r.former in w.made && r.former != next && r.lease in w.leases
    && (CipherChosen(r.stage) ==> next in w.encrypted && w.encrypted[next] == r.stage.cipher)
    && (next in w.encrypted ==> CipherChosen(r.stage) || r.stage.Failed?)
    && (next in w.acked <==> r.stage.Ready? || SwitchInFlight(r.stage))
    && (!r.stage.Failed? && Armed(w, next) ==> next !in w.retired)
    && (next in w.switched || w.row.r2Key == Some(next) ==> r.former in w.retired)
    && (r.stage.Cleaning? ==> r.former in w.retired)
  }

  ghost predicate RotationsOk(w: World) {
    forall next | next in w.rotations :: RotationOk(w, next)
  }

  ghost predicate Inv(w: World) {
    RowOk(w) && KeysOk(w) && SnapshotsOk(w) && RotationsOk(w)
  }

  /** The row names an object that is in the bucket and decrypts, under the row's iv and key id, to
      bytes with the row's digest. */
  predicate Readable(w: World) {
    && w.row.r2Key.Some? && w.row.r2Key.value in w.bucket
    && var plain := Decrypt(w.bucket[w.row.r2Key.value], w.row.iv, w.row.context, w.row.keyId);
       plain.Some? && Sha(plain.value) == w.row.digest
  }

  /** A live row is readable unless a purge has set out to delete its object. */
  lemma LiveIsReadable(w: World)
    requires Inv(w) && Live(w.row) && !Condemned(w)
    ensures Readable(w)
  {
    assert w.row.r2Key.value !in w.doomed;
  }

  lemma StepKeeps(w: World, step: Step)
    requires Inv(w)
    ensures Inv(Apply(w, step))
  {
    hide Inv, Apply;
    if Bystander(step) {
      BystanderKeeps(w, step);
    } else {
      RotatorKeeps(w, step);
    }
  }

  /** Steps that no rotation in progress takes itself. */
  predicate Bystander(step: Step) {
    step.SRead? || step.SPutLands? || step.SDeleteLands? || step.SCleanupClaim? || step.SCleanupFinish?
    || step.SPurgeClaim? || step.SPurgeReread? || step.SPurgeFinish?
    || step.SCollect? || step.SReview? || step.SQuarantine? || step.SExpireStale?
  }

  lemma BystanderKeeps(w: World, step: Step)
    requires Inv(w) && Bystander(step)
    ensures Inv(Apply(w, step))
  {
    hide Inv, Read, PutLands, DeleteLands, CleanupClaim, CleanupFinish, PurgeClaim, PurgeReread, PurgeFinish, Collect, ReviewLands, Quarantine, ExpireStale;
    match step
    case SRead => KeepRead(w);
    case SPutLands(key) => KeepPutLands(w, key);
    case SDeleteLands(key) => KeepDeleteLands(w, key);
    case SCleanupClaim(s, lease, now) => KeepCleanup(w, s, lease, now);
    case SCleanupFinish(lease) => KeepCleanupFinish(w, lease);
    case SPurgeClaim(s, now, heard) => KeepPurge(w, s, now, heard);
    case SPurgeReread(s, now) => KeepPurge(w, s, now, true);
    case SPurgeFinish => KeepPurgeFinish(w);
    case SCollect(o, receivedAt, expiresAt) => KeepCollect(w, o, receivedAt, expiresAt);
    case SReview(o, after, at) => KeepReview(w, o, after, at);
    case SQuarantine => KeepReview(w, 0, NeedsReview, 0);
    case SExpireStale(receivedAt) => KeepCollect(w, 0, receivedAt, 0);
  }

  lemma RotatorKeeps(w: World, step: Step)
    requires Inv(w) && !Bystander(step)
    ensures Inv(Apply(w, step))
  {
    hide Inv, Claim, Missing, Encrypt, Fail, Release, PutAcknowledged, Send, SwitchLands, Confirm, Learn, GiveUp, DeleteFormer, ClearPrevious;
    match step
    case SClaim(s, next, lease, now, heard) => KeepClaim(w, s, next, lease, now, heard);
    case SMissing(next) => KeepMissing(w, next);
    case SEncrypt(next, iv, keyId) => KeepEncrypt(w, next, iv, keyId);
    case SFail(next) => KeepFail(w, next);
    case SRelease(next) => KeepRelease(w, next);
    case SPutAcknowledged(next) => KeepPut(w, next);
    case SSend(next) => KeepSend(w, next);
    case SSwitchLands(next, now) => KeepSwitch(w, next, now);
    case SConfirm(next) => KeepConfirm(w, next);
    case SLearn(next) => KeepLearn(w, next);
    case SGiveUp(next) => KeepGiveUp(w, next);
    case SDeleteFormer(next) => KeepDeleteFormer(w, next);
    case SClearPrevious(next) => KeepClearPrevious(w, next);
  }

  lemma KeepRead(w: World)
    requires Inv(w)
    ensures Inv(Read(w))
  {
  }

  lemma KeepPutLands(w: World, key: Key)
    requires Inv(w)
    ensures Inv(PutLands(w, key))
  {
  }

  lemma KeepDeleteLands(w: World, key: Key)
    requires Inv(w)
    ensures Inv(DeleteLands(w, key))
  {
  }

  lemma KeepDeleteFormer(w: World, next: Key)
    requires Inv(w)
    ensures Inv(DeleteFormer(w, next))
  {
  }

  lemma KeepClearPrevious(w: World, next: Key)
    requires Inv(w)
    ensures Inv(ClearPrevious(w, next))
  {
  }

  lemma KeepCleanupFinish(w: World, lease: LeaseId)
    requires Inv(w)
    ensures Inv(CleanupFinish(w, lease))
  {
  }

  lemma KeepCondemn(w: World, s: Row)
    requires Inv(w) && s in w.seen
    ensures Inv(Condemn(w, s))
  {
  }

  lemma KeepPurge(w: World, s: Row, now: int, heard: bool)
    requires Inv(w)
    ensures Inv(PurgeClaim(w, s, now, heard)) && Inv(PurgeReread(w, s, now))
  {
    if PurgeSelects(w, s, now) {
      if Live(w.row) {
        KeepStatus(w, Expired, w.row.expiresAt);
        KeepCondemn(w.(row := w.row.(status := Expired, expiresAt := w.row.expiresAt)), s);
      }
      KeepCondemn(w, s);
    }
  }

  lemma KeepPurgeFinish(w: World)
    requires Inv(w)
    ensures Inv(PurgeFinish(w))
  {
  }

  /** Neither status, unless it is `purged`, nor expiry nor occurrences are part of the invariant. */
  lemma KeepStatus(w: World, status: Status, expiresAt: int)
    requires Inv(w) && !w.row.status.Purged? && !status.Purged?
    ensures forall occurrences: Occurrences ::
              Inv(w.(row := w.row.(status := status, expiresAt := expiresAt), occurrences := occurrences))
  {
  }

  lemma KeepCollect(w: World, o: Id, receivedAt: int, expiresAt: int)
    requires Inv(w)
    ensures Inv(Collect(w, o, receivedAt, expiresAt)) && Inv(ExpireStale(w, receivedAt))
  {
    hide Inv;
    if Live(w.row) {
      KeepStatus(w, Current(NeedsReview), expiresAt);
      KeepStatus(w, Expired, w.row.expiresAt);
    }
  }

  lemma KeepReview(w: World, o: Id, after: Review, at: int)
    requires Inv(w)
    ensures Inv(ReviewLands(w, o, after, at)) && Inv(Quarantine(w))
  {
    hide Inv, ReviewTakes;
    KeepOccurrences(w);
    if !w.row.status.Purged? {
      KeepStatus(w, Current(after), w.row.expiresAt);
      KeepStatus(w, Current(Returned), w.row.expiresAt);
    }
  }

  lemma KeepOccurrences(w: World)
    requires Inv(w)
    ensures forall occurrences: Occurrences :: Inv(w.(occurrences := occurrences))
  {
  }

  lemma KeepClaim(w: World, s: Row, next: Key, lease: LeaseId, now: int, heard: bool)
    requires Inv(w)
    ensures Inv(Claim(w, s, next, lease, now, heard))
  {
  }

  lemma KeepMissing(w: World, next: Key)
    requires Inv(w)
    ensures Inv(Missing(w, next))
  {
  }

  lemma KeepEncrypt(w: World, next: Key, iv: Iv, keyId: KeyId)
    requires Inv(w)
    ensures Inv(Encrypt(w, next, iv, keyId))
  {
    hide Reencrypt;
    if next in w.rotations && Reencrypt(w, w.rotations[next], iv, keyId).Some? {
      ReencryptKeepsBytes(w, next, iv, keyId);
    }
  }

  lemma ReencryptKeepsBytes(w: World, next: Key, iv: Iv, keyId: KeyId)
    requires Inv(w) && next in w.rotations && Reencrypt(w, w.rotations[next], iv, keyId).Some?
    ensures var cipher := Reencrypt(w, w.rotations[next], iv, keyId).value;
            cipher.context == w.row.context && Sha(cipher.plain) == w.row.digest
  {
    assert w.rotations[next].former in w.encrypted;
  }

  lemma KeepFail(w: World, next: Key)
    requires Inv(w)
    ensures Inv(Fail(w, next))
  {
  }

  lemma KeepRelease(w: World, next: Key)
    requires Inv(w)
    ensures Inv(Release(w, next))
  {
  }

  lemma KeepPut(w: World, next: Key)
    requires Inv(w)
    ensures Inv(PutAcknowledged(w, next))
  {
  }

  lemma KeepSend(w: World, next: Key)
    requires Inv(w)
    ensures Inv(Send(w, next))
  {
  }

  /** The switch: the armed next key becomes current, and the former key is never current again. */
  lemma KeepSwitch(w: World, next: Key, now: int)
    requires Inv(w)
    ensures Inv(SwitchLands(w, next, now))
  {
  }

  lemma KeepConfirm(w: World, next: Key)
    requires Inv(w)
    ensures Inv(Confirm(w, next))
  {
  }

  lemma KeepEnd(w: World, next: Key, stage: Stage)
    requires Inv(w) && next in w.rotations && w.rotations[next].stage.Sent?
    requires stage == Ended(w.rotations[next].stage.cipher)
             || (stage == Cleaning(w.rotations[next].stage.cipher) && w.rotations[next].former in w.retired)
    ensures Inv(SetStage(w, next, stage))
  {
  }

  /** A key that the row no longer names anywhere is never named again. */
  lemma KeepLoser(w: World, next: Key)
    requires Inv(w) && next in w.rotations && next !in Keys(w.row)
    ensures Inv(w.(doomed := w.doomed + {next}, retired := w.retired + {next}))
  {
  }

  lemma KeepLearn(w: World, next: Key)
    requires Inv(w)
    ensures Inv(Learn(w, next))
  {
    if next in w.rotations && w.rotations[next].stage.Sent? {
      var cipher := w.rotations[next].stage.cipher;
      assert RotationOk(w, next);
      match Classify(w.row, next, cipher.keyId)
      case Committed => KeepEnd(w, next, Cleaning(cipher));
      case StillReferenced => KeepEnd(w, next, Ended(cipher));
      case ProvenLoser =>
        KeepEnd(w, next, Ended(cipher));
        KeepLoser(SetStage(w, next, Ended(cipher)), next);
    }
  }

  lemma KeepGiveUp(w: World, next: Key)
    requires Inv(w)
    ensures Inv(GiveUp(w, next))
  {
  }

  /** The reconciler's claim takes the lease from whoever held it, so the pending key can no longer
      be switched to, and the previous key never could. */
  lemma KeepCleanup(w: World, s: Row, lease: LeaseId, now: int)
    requires Inv(w)
    ensures Inv(CleanupClaim(w, s, lease, now))
  {
  }

  function Run(w: World, steps: seq<Step>): World
    decreases |steps|
  {
    if steps == [] then w else Run(Apply(w, steps[0]), steps[1..])
  }

  /** What no step undoes. */
  ghost predicate Grows(w: World, v: World) {
    && v.row.context == w.row.context && v.row.digest == w.row.digest
    && w.retired <= v.retired && w.doomed <= v.doomed && w.made <= v.made && w.leases <= v.leases && w.seen <= v.seen
    && w.condemned <= v.condemned
    && (w.row.status.Purged? ==> v.row.status.Purged?)
  }

  lemma WorkerGrows(w: World, next: Key, iv: Iv, keyId: KeyId)
    ensures Grows(w, Missing(w, next)) && Grows(w, Encrypt(w, next, iv, keyId)) && Grows(w, Fail(w, next))
    ensures Grows(w, Release(w, next)) && Grows(w, PutAcknowledged(w, next)) && Grows(w, Send(w, next))
  {
    hide Reencrypt, Armed;
  }

  lemma SwitchGrows(w: World, next: Key, now: int)
    ensures Grows(w, SwitchLands(w, next, now)) && Grows(w, Confirm(w, next)) && Grows(w, GiveUp(w, next))
  {
    hide Switchable;
  }

  lemma CleanGrows(w: World, next: Key)
    ensures Grows(w, Learn(w, next)) && Grows(w, DeleteFormer(w, next)) && Grows(w, ClearPrevious(w, next))
  {
    hide Classify;
  }

  lemma OthersGrow(w: World, s: Row, key: Key, lease: LeaseId, now: int)
    ensures Grows(w, Read(w)) && Grows(w, PutLands(w, key)) && Grows(w, DeleteLands(w, key))
    ensures Grows(w, CleanupClaim(w, s, lease, now)) && Grows(w, CleanupFinish(w, lease))
  {
    hide Cleanable, Garbage;
  }

  lemma PurgeGrows(w: World, s: Row, now: int, heard: bool)
    ensures Grows(w, PurgeClaim(w, s, now, heard)) && Grows(w, PurgeReread(w, s, now)) && Grows(w, PurgeFinish(w))
    ensures Grows(w, Quarantine(w)) && Grows(w, ExpireStale(w, now))
  {
    hide PurgeSelects, Keys;
  }

  lemma ReviewGrows(w: World, o: Id, receivedAt: int, expiresAt: int, after: Review, at: int)
    ensures Grows(w, Collect(w, o, receivedAt, expiresAt)) && Grows(w, ReviewLands(w, o, after, at))
  {
    hide ReviewTakes;
  }

  lemma ClaimGrows(w: World, s: Row, next: Key, lease: LeaseId, now: int, heard: bool)
    ensures Grows(w, Claim(w, s, next, lease, now, heard))
  {
    hide Claimable;
  }

  lemma StepGrows(w: World, step: Step)
    ensures Grows(w, Apply(w, step))
  {
    hide Grows, Read, Claim, Missing, Encrypt, Fail, Release, PutLands, PutAcknowledged, Send, SwitchLands, Confirm, Learn, GiveUp,
         DeleteFormer, ClearPrevious, DeleteLands, CleanupClaim, CleanupFinish, PurgeClaim, PurgeReread, PurgeFinish, Collect,
         ReviewLands, Quarantine, ExpireStale;
    match step
    case SRead => OthersGrow(w, w.row, 0, 0, 0);
    case SClaim(s, next, lease, now, heard) => ClaimGrows(w, s, next, lease, now, heard);
    case SMissing(next) => WorkerGrows(w, next, 0, 0);
    case SEncrypt(next, iv, keyId) => WorkerGrows(w, next, iv, keyId);
    case SFail(next) => WorkerGrows(w, next, 0, 0);
    case SRelease(next) => WorkerGrows(w, next, 0, 0);
    case SPutLands(key) => OthersGrow(w, w.row, key, 0, 0);
    case SPutAcknowledged(next) => WorkerGrows(w, next, 0, 0);
    case SSend(next) => WorkerGrows(w, next, 0, 0);
    case SSwitchLands(next, now) => SwitchGrows(w, next, now);
    case SConfirm(next) => SwitchGrows(w, next, 0);
    case SLearn(next) => CleanGrows(w, next);
    case SGiveUp(next) => SwitchGrows(w, next, 0);
    case SDeleteFormer(next) => CleanGrows(w, next);
    case SClearPrevious(next) => CleanGrows(w, next);
    case SDeleteLands(key) => OthersGrow(w, w.row, key, 0, 0);
    case SCleanupClaim(s, lease, now) => OthersGrow(w, s, 0, lease, now);
    case SCleanupFinish(lease) => OthersGrow(w, w.row, 0, lease, 0);
    case SPurgeClaim(s, now, heard) => PurgeGrows(w, s, now, heard);
    case SPurgeReread(s, now) => PurgeGrows(w, s, now, true);
    case SPurgeFinish => PurgeGrows(w, w.row, 0, true);
    case SCollect(o, receivedAt, expiresAt) => ReviewGrows(w, o, receivedAt, expiresAt, NeedsReview, 0);
    case SReview(o, after, at) => ReviewGrows(w, o, 0, 0, after, at);
    case SQuarantine => PurgeGrows(w, w.row, 0, true);
    case SExpireStale(receivedAt) => PurgeGrows(w, w.row, receivedAt, true);
  }

  lemma {:induction false} RunKeeps(w: World, steps: seq<Step>)
    requires Inv(w)
    ensures Inv(Run(w, steps)) && Grows(w, Run(w, steps))
    decreases |steps|
  {
    hide Apply, Inv;
    if steps != [] {
      StepKeeps(w, steps[0]);
      StepGrows(w, steps[0]);
      RunKeeps(Apply(w, steps[0]), steps[1..]);
    }
  }

  /** A row whose object has just been stored, before any worker touched it. */
  ghost predicate Initial(w: World) {
    && Live(w.row) && w.row.r2Key.Some? && w.row.lease.None? && w.row.pending.None? && w.row.previous.None?
    && (exists plain :: w.bucket == map[w.row.r2Key.value := Sealed(plain, w.row.iv, w.row.context, w.row.keyId)]
                        && Sha(plain) == w.row.digest)
    && w.encrypted == w.bucket && w.made == {w.row.r2Key.value} && w.acked == w.made
    && w.rotations == map[] && w.cleanups == map[] && w.seen == {} && w.leases == {}
    && w.doomed == {} && w.condemned == {} && w.switched == {} && w.retired == {}
  }

  lemma InitialKeeps(w: World)
    requires Initial(w)
    ensures Inv(w)
  {
  }

  // ---- reviews of rows that a purge deletes ----

  /** A review that brings back an expired row whose current object a purge has set out to delete. */
  predicate Revives(w: World, step: Step) {
    step.SReview? && ReviewTakes(w, step.occurrence, step.after, step.at) && w.row.status.Expired? && Condemned(w)
  }

  predicate Sparing(w: World, steps: seq<Step>)
    decreases |steps|
  {
    steps == [] || (!Revives(w, steps[0]) && Sparing(Apply(w, steps[0]), steps[1..]))
  }

  predicate Spared(w: World) {
    Live(w.row) ==> !Condemned(w)
  }

  lemma RotatorSpares(w: World, step: Step)
    requires Inv(w) && Spared(w) && !Bystander(step)
    ensures Spared(Apply(w, step))
  {
    hide Claimable, Reencrypt, Classify, RotationsOk, KeysOk, SnapshotsOk;
  }

  lemma BystanderSpares(w: World, step: Step)
    requires Inv(w) && Spared(w) && Bystander(step) && !Revives(w, step)
    ensures Spared(Apply(w, step))
  {
    hide PurgeSelects, Cleanable, Garbage, Keys, ReviewTakes, Inv;
  }

  lemma {:induction false} RunSpares(w: World, steps: seq<Step>)
    requires Inv(w) && Spared(w) && Sparing(w, steps)
    ensures Spared(Run(w, steps))
    decreases |steps|
  {
    hide Apply, Inv, Spared, Revives, Bystander;
    if steps != [] {
      if Bystander(steps[0]) { BystanderSpares(w, steps[0]); } else { RotatorSpares(w, steps[0]); }
      StepKeeps(w, steps[0]);
      RunSpares(Apply(w, steps[0]), steps[1..]);
    }
  }

  // ---- every row at once ----

  type Fleet = map<Id, World>

  datatype Act = Act(id: Id, step: Step)

  function ApplyAct(f: Fleet, act: Act): Fleet {
    if act.id in f then f[act.id := Apply(f[act.id], act.step)] else f
  }

  function RunFleet(f: Fleet, acts: seq<Act>): Fleet
    decreases |acts|
  {
    if acts == [] then f else RunFleet(ApplyAct(f, acts[0]), acts[1..])
  }

  /** No review in the run brings this row back after a purge has set out to delete its object. */
  predicate SparingFleet(f: Fleet, acts: seq<Act>, id: Id)
    requires id in f
    decreases |acts|
  {
    acts == []
    || ((acts[0].id == id ==> !Revives(f[id], acts[0].step)) && SparingFleet(ApplyAct(f, acts[0]), acts[1..], id))
  }

  /** The steps that touch one row are a run of that row. */
  lemma {:induction false} FleetRowRuns(f: Fleet, acts: seq<Act>, id: Id) returns (steps: seq<Step>)
    requires id in f
    ensures id in RunFleet(f, acts) && RunFleet(f, acts)[id] == Run(f[id], steps)
    ensures SparingFleet(f, acts, id) ==> Sparing(f[id], steps)
    decreases |acts|
  {
    hide Apply, Revives;
    if acts == [] {
      steps := [];
    } else {
      var rest := FleetRowRuns(ApplyAct(f, acts[0]), acts[1..], id);
      if acts[0].id == id {
        steps := [acts[0].step] + rest;
        assert steps[1..] == rest;
      } else {
        steps := rest;
      }
    }
  }

  /** In every interleaving of rotations, garbage reconcilers, purges, collections and reviews over
      every row, a row that is neither expired nor purged, and whose current object no purge has set
      out to delete, names an object in the bucket that decrypts, as the row says, to the very bytes
      it was stored with. Nor does a purge ever set out to delete the object of such a row, unless a
      review brings the row back after that. */
  lemma LiveRowsStayReadable(f: Fleet, acts: seq<Act>, id: Id)
    requires id in f && Initial(f[id])
    ensures id in RunFleet(f, acts)
    ensures var w := RunFleet(f, acts)[id];
            && w.row.digest == f[id].row.digest && w.row.context == f[id].row.context
            && (Live(w.row) && !Condemned(w) ==> Readable(w))
            && (SparingFleet(f, acts, id) && Live(w.row) ==> Readable(w))
            && (w.row.status.Expired? ==> w.row.r2Key.Some?)
  {
    var steps := FleetRowRuns(f, acts, id);
    InitialKeeps(f[id]);
    RunKeeps(f[id], steps);
    var w := Run(f[id], steps);
    if SparingFleet(f, acts, id) {
      RunSpares(f[id], steps);
    }
    if Live(w.row) && !Condemned(w) {
      LiveIsReadable(w);
    }
  }

  // ---- a rotation that nothing disturbs ----

  /** From the claim to the acknowledged put, in order. */
  function WholeWriting(w: World, next: Key, lease: LeaseId, now: int, iv: Iv, keyId: KeyId): World {
    PutAcknowledged(Encrypt(Claim(w, w.row, next, lease, now, true), next, iv, keyId), next)
  }

  /** From the switch to the cleared row, in order. */
  function WholeSwitch(w: World, former: Key, next: Key, later: int): World {
    ClearPrevious(DeleteLands(DeleteFormer(Confirm(SwitchLands(Send(w, next), next, later), next), next), former), next)
  }

  lemma UndisturbedWriting(w: World, next: Key, lease: LeaseId, now: int, iv: Iv, keyId: KeyId)
    requires Claimable(w, w.row, next, lease, now) && Readable(w)
    ensures var v, former := WholeWriting(w, next, lease, now, iv, keyId), w.row.r2Key.value;
            var copy := w.bucket[former].(iv := iv, keyId := keyId);
            && v.row == w.row.(lease := Some(Lease(lease, now + ROTATION_LEASE_MS)), pending := Some(next))
            && v.bucket == w.bucket[next := copy] && next in v.rotations
            && v.rotations[next] == Rotation(former, w.row.iv, w.row.keyId, w.row.context, lease, Ready(copy))
  {
  }

  lemma UndisturbedSwitch(w: World, next: Key, later: int)
    requires next in w.rotations && w.rotations[next].stage.Ready? && w.rotations[next].former != next
    requires Switchable(Send(w, next), next, later)
    ensures var r, v := w.rotations[next], WholeSwitch(w, w.rotations[next].former, next, later);
            && v.row == w.row.(r2Key := Some(next), iv := r.stage.cipher.iv, keyId := r.stage.cipher.keyId,
                               lease := None, pending := None, previous := None)
            && v.bucket == w.bucket - {r.former}
  {
  }

  /** A rotation that nothing disturbs leaves the row under the new key, iv and key id and holding
      nothing else, the same bytes in the new object, and the former object gone. */
  lemma UndisturbedRotation(w: World, next: Key, lease: LeaseId, now: int, iv: Iv, keyId: KeyId, later: int)
    requires Inv(w) && Readable(w) && Claimable(w, w.row, next, lease, now)
    requires now <= later < now + 300_000 && later < w.row.expiresAt
    ensures var former := w.row.r2Key.value;
            var v := WholeSwitch(WholeWriting(w, next, lease, now, iv, keyId), former, next, later);
            && v.row == w.row.(r2Key := Some(next), iv := iv, keyId := keyId, lease := None, pending := None, previous := None)
            && former in w.bucket && former !in v.bucket && next in v.bucket
            && Decrypt(v.bucket[next], iv, v.row.context, keyId) == Decrypt(w.bucket[former], w.row.iv, w.row.context, w.row.keyId)
            && (forall key | key != former && key != next :: key in v.bucket <==> key in w.bucket)
  {
    assert w.row.r2Key != Some(next);
    hide Inv, WholeSwitch, WholeWriting, Claimable;
    assert Live(w.row) && w.row.r2Key.Some?;
    UndisturbedWriting(w, next, lease, now, iv, keyId);
    UndisturbedSwitch(WholeWriting(w, next, lease, now, iv, keyId), next, later);
  }

  /** The garbage reconciler on its own: it sets out to delete the pending and the previous object, but
      not one that is the current one, and then the row holds nothing else. */
  lemma UndisturbedCleanup(w: World, lease: LeaseId, now: int, emptied: map<Key, Cipher>)
    requires Cleanable(w, w.row, lease, now)
    ensures var claimed := CleanupClaim(w, w.row, lease, now);
            && claimed.bucket == w.bucket
            && (forall key :: key in claimed.doomed <==>
                  key in w.doomed || (w.row.r2Key != Some(key) && (w.row.pending == Some(key) || w.row.previous == Some(key))))
            && CleanupFinish(claimed.(bucket := emptied), lease).row == w.row.(pending := None, previous := None, lease := None)
  {
    hide LeaseFree;
  }

  /** The purge on its own: every object that the row named is gone, and the row names none. */
  lemma UndisturbedPurge(w: World, now: int)
    requires PurgeSelects(w, w.row, now) && Live(w.row) && w.row.r2Key.Some?
    ensures var claimed := PurgeClaim(w, w.row, now, true);
            var first := DeleteLands(claimed, w.row.r2Key.value);
            var second := if w.row.pending.Some? then DeleteLands(first, w.row.pending.value) else first;
            var third := if w.row.previous.Some? then DeleteLands(second, w.row.previous.value) else second;
            var v := PurgeFinish(third);
            && v.row == w.row.(status := Purged, r2Key := None, pending := None, previous := None, lease := None)
            && forall key :: key in v.bucket <==> key in w.bucket && Some(key) !in {w.row.r2Key, w.row.pending, w.row.previous}
  {
    assert w.row.r2Key.value in Keys(w.row);
  }

  // ---- what guards the row ----

  /** Nobody takes over a lease before it has run out: neither rotation, nor reconciler, nor purge. */
  lemma LeasesHold(w: World, s: Row, next: Key, lease: LeaseId, now: int, heard: bool)
    requires w.row.lease.Some? && now < w.row.lease.value.expiresAt
    ensures Claim(w, s, next, lease, now, heard) == w && CleanupClaim(w, s, lease, now) == w && PurgeClaim(w, s, now, heard) == w
  {
  }

  /** An expired, purged or overdue row is not rotated, and a row read before its expiry is not purged. */
  lemma ExpiryHolds(w: World, s: Row, next: Key, lease: LeaseId, now: int, heard: bool)
    ensures !Live(w.row) || w.row.expiresAt <= now ==> Claim(w, s, next, lease, now, heard) == w && SwitchLands(w, next, now) == w
    ensures now < s.expiresAt ==> PurgeClaim(w, s, now, heard) == w && PurgeReread(w, s, now) == w
    ensures w.row.expiresAt > now && Live(w.row) && next in w.rotations && w.row.lease.None? ==> SwitchLands(w, next, now) == w
  {
  }

  /** A repeat collection and a review come before the expiry, a replacement after it, and nothing is
      emptied that no purge set out to delete. */
  lemma OthersRespectExpiry(w: World, o: Id, after: Review, at: int, expiresAt: int)
    ensures !Live(w.row) || w.row.expiresAt <= at ==> Collect(w, o, at, expiresAt) == w
    ensures o in w.occurrences && w.occurrences[o].expiresAt <= at ==> ReviewLands(w, o, after, at) == w
    ensures !Live(w.row) || at < w.row.expiresAt ==> ExpireStale(w, at) == w
    ensures w.condemned == {} ==> PurgeFinish(w) == w
  {
  }

  /** Only the newest occurrence is reviewed, and only along the review's own moves. */
  lemma ReviewsFollowTheTable(w: World, o: Id, after: Review, at: int)
    requires ReviewLands(w, o, after, at) != w
    ensures o in w.occurrences && forall p | p in w.occurrences && p != o ::
              w.occurrences[p].receivedAt < w.occurrences[o].receivedAt || (w.occurrences[p].receivedAt == w.occurrences[o].receivedAt && p < o)
    ensures (w.occurrences[o].review, after) in {(NeedsReview, Approved), (NeedsReview, TurnedDown), (NeedsReview, Returned),
                                                 (TurnedDown, NeedsReview), (Returned, NeedsReview), (Approved, Superseded)}
  {
  }

  /** Giving a claim back and finishing a cleanup need their own lease too. */
  lemma OnlyTheHolderClears(w: World, next: Key, lease: LeaseId)
    ensures Release(w, next) != w ==> next in w.rotations && w.row.pending == Some(next) && Holds(w.row, w.rotations[next].lease)
    ensures CleanupFinish(w, lease) != w ==> Holds(w.row, lease)
  {
  }

  /** A claim needs a row that still names the object and the key it was read with, and nothing else. */
  lemma ClaimNeedsAFreeRow(w: World, s: Row, next: Key, lease: LeaseId, now: int, heard: bool)
    requires Claim(w, s, next, lease, now, heard) != w
    ensures w.row.r2Key.Some? && w.row.r2Key == s.r2Key && w.row.keyId == s.keyId && w.row.pending.None?
    ensures Claim(w, s, next, lease, now, heard).row == w.row.(lease := Some(Lease(lease, now + 300_000)), pending := Some(next))
  {
  }

  /** A switch needs its own lease, unexpired, on a row that still names what the worker read. */
  lemma SwitchNeedsItsLease(w: World, next: Key, now: int)
    requires SwitchLands(w, next, now) != w
    ensures next in w.rotations && w.row.pending == Some(next) && w.row.r2Key == Some(w.rotations[next].former)
    ensures w.row.lease.Some? && w.row.lease.value.id == w.rotations[next].lease && now < w.row.lease.value.expiresAt
    ensures w.row.keyId == w.rotations[next].keyId
  {
  }

  // ---- exactly which reviews lose an object ----

  /** No review in the run touches an expired or purged row. */
  predicate Guarded(w: World, steps: seq<Step>)
    decreases |steps|
  {
    steps == [] || ((steps[0].SReview? ==> Live(w.row)) && Guarded(Apply(w, steps[0]), steps[1..]))
  }

  lemma {:induction false} GuardedSpares(w: World, steps: seq<Step>)
    requires Guarded(w, steps)
    ensures Sparing(w, steps)
    decreases |steps|
  {
    hide Apply;
    if steps != [] {
      GuardedSpares(Apply(w, steps[0]), steps[1..]);
    }
  }

  /** However the run goes on without another review of an expired row, the row is readable while it
      is live. */
  ghost predicate Secure(w: World) {
    forall steps: seq<Step> | Guarded(w, steps) :: Live(Run(w, steps).row) ==> Readable(Run(w, steps))
  }

  /** A state is secure exactly when its row is not both live and condemned: otherwise the delete is
      still to come. */
  lemma SecureExactly(w: World)
    requires Inv(w)
    ensures Secure(w) <==> Spared(w)
  {
    if Spared(w) {
      forall steps: seq<Step> | Guarded(w, steps)
        ensures Live(Run(w, steps).row) ==> Readable(Run(w, steps))
      {
        StaysReadable(w, steps);
      }
    } else {
      DeleteIsToCome(w);
    }
  }

  lemma StaysReadable(w: World, steps: seq<Step>)
    requires Inv(w) && Spared(w) && Guarded(w, steps)
    ensures Live(Run(w, steps).row) ==> Readable(Run(w, steps))
  {
    hide Inv, Run, Sparing, Guarded, Readable;
    GuardedSpares(w, steps);
    RunKeeps(w, steps);
    RunSpares(w, steps);
    if Live(Run(w, steps).row) {
      LiveIsReadable(Run(w, steps));
    }
  }

  lemma DeleteIsToCome(w: World)
    requires Inv(w) && Live(w.row) && Condemned(w)
    ensures !Secure(w)
  {
    var steps := [SDeleteLands(w.row.r2Key.value)];
    assert steps[1..] == [];
    assert Guarded(w, steps);
    assert Run(w, steps) == DeleteLands(w, w.row.r2Key.value);
    assert !Readable(Run(w, steps));
  }

  /** A review leaves a secure state insecure exactly when the row had expired and a purge had set out
      to delete its current object. */
  lemma ReviewKeepsExactly(w: World, o: Id, after: Review, at: int)
    requires Inv(w) && Secure(w) && ReviewTakes(w, o, after, at)
    ensures Secure(ReviewLands(w, o, after, at)) <==> !(w.row.status.Expired? && Condemned(w))
  {
    hide Inv, Secure, IsLatest;
    SecureExactly(w);
    KeepReview(w, o, after, at);
    SecureExactly(ReviewLands(w, o, after, at));
  }

  /** The tables do not show which: after a claim whose worker goes on to delete and after one whose
      reply was lost they are the same, and the same review is harmful in one and harmless in the other. */
  lemma TablesCannotTell(w: World, now: int, o: Id, after: Review, at: int)
    requires Inv(w) && Secure(w) && Live(w.row) && PurgeSelects(w, w.row, now) && ReviewTakes(w, o, after, at)
    ensures var heard, unheard := PurgeClaim(w, w.row, now, true), PurgeClaim(w, w.row, now, false);
            && heard.row == unheard.row && heard.occurrences == unheard.occurrences
            && Secure(ReviewLands(unheard, o, after, at)) && !Secure(ReviewLands(heard, o, after, at))
  {
    assert w.row.r2Key.Some?;
    hide Inv, Secure, IsLatest;
    var heard, unheard := PurgeClaim(w, w.row, now, true), PurgeClaim(w, w.row, now, false);
    KeepPurge(w, w.row, now, true);
    KeepPurge(w, w.row, now, false);
    SecureExactly(w);
    SecureExactly(heard);
    SecureExactly(unheard);
    ReviewKeepsExactly(heard, o, after, at);
    ReviewKeepsExactly(unheard, o, after, at);
  }

  /** The review with a trigger that also leaves expired rows alone. */
  function GuardedApply(w: World, step: Step): World {
    if step.SReview? && !Live(w.row) then Apply(w, step).(row := w.row) else Apply(w, step)
  }

  function GuardedRun(w: World, steps: seq<Step>): World
    decreases |steps|
  {
    if steps == [] then w else GuardedRun(GuardedApply(w, steps[0]), steps[1..])
  }

  lemma GuardedStepKeeps(w: World, step: Step)
    requires Inv(w) && Spared(w)
    ensures Inv(GuardedApply(w, step)) && Spared(GuardedApply(w, step))
  {
    if step.SReview? && !Live(w.row) {
    } else {
      hide Inv, Apply;
      StepKeeps(w, step);
      if Bystander(step) { BystanderSpares(w, step); } else { RotatorSpares(w, step); }
    }
  }

  /** With that guard on the triggers, every live row is readable in every run. */
  lemma {:induction false} GuardSuffices(w: World, steps: seq<Step>)
    requires Inv(w) && Spared(w)
    ensures Live(GuardedRun(w, steps).row) ==> Readable(GuardedRun(w, steps))
    decreases |steps|
  {
    hide Inv, GuardedApply, Spared, Readable;
    if steps == [] {
      if Live(w.row) {
        assert !Condemned(w) by { SparedMeans(w); }
        LiveIsReadable(w);
      }
    } else {
      GuardedStepKeeps(w, steps[0]);
      GuardSuffices(GuardedApply(w, steps[0]), steps[1..]);
    }
  }

  lemma SparedMeans(w: World)
    requires Spared(w) && Live(w.row)
    ensures !Condemned(w)
  {
  }

  /** One schedule that every guard lets through, for every freshly stored row. The purge reads the row
      when it has expired; a repeat collection that began before lands and extends it; the claim, which
      looks at no expiry, marks it expired all the same; a review of the new occurrence commits, long
      before that expires; and the delete lands. */
  lemma RevivedRowIsLost(w: World, first: Id, second: Id, began: int, now: int, at: int, extended: int)
    requires Initial(w) && first != second && w.occurrences.Keys == {first}
    requires w.occurrences[first].receivedAt < began < w.row.expiresAt <= now <= at < extended
    ensures var lost := Run(w, [SRead, SCollect(second, began, extended), SPurgeClaim(w.row, now, true),
                                SReview(second, Approved, at), SDeleteLands(w.row.r2Key.value)]);
            && Live(lost.row) && lost.row == w.row.(status := Current(Approved), expiresAt := extended)
            && second in lost.occurrences && lost.occurrences[second].review == Approved && !Readable(lost)
  {
    var steps := [SRead, SCollect(second, began, extended), SPurgeClaim(w.row, now, true),
                  SReview(second, Approved, at), SDeleteLands(w.row.r2Key.value)];
    RunFive(w, steps);
    ClaimedMidway(w, first, second, began, now, at, extended);
    hide Run, Initial, PurgeSelects, ReviewTakes, Apply;
    LostInTheEnd(Apply(Apply(Apply(w, steps[0]), steps[1]), steps[2]), second, at, w.row.r2Key.value);
  }

  lemma ClaimedMidway(w: World, first: Id, second: Id, began: int, now: int, at: int, extended: int)
    requires Live(w.row) && w.row.r2Key.Some? && w.row.lease.None? && first != second && w.occurrences.Keys == {first}
    requires w.occurrences[first].receivedAt < began < w.row.expiresAt <= now <= at < extended
    ensures var claimed := Apply(Apply(Apply(w, SRead), SCollect(second, began, extended)), SPurgeClaim(w.row, now, true));
            && claimed.row == w.row.(status := Expired, expiresAt := extended)
            && w.row.r2Key.value in claimed.doomed && ReviewTakes(claimed, second, Approved, at)
  {
  }

  lemma LostInTheEnd(w: World, o: Id, at: int, key: Key)
    requires ReviewTakes(w, o, Approved, at) && w.row.r2Key == Some(key) && key in w.doomed && w.row.status.Expired?
    ensures var lost := Apply(Apply(w, SReview(o, Approved, at)), SDeleteLands(key));
            && lost.row == w.row.(status := Current(Approved)) && o in lost.occurrences
            && lost.occurrences[o].review == Approved && !Readable(lost)
  {
    hide Moves;
  }

  lemma RunFive(w: World, steps: seq<Step>)
    requires |steps| == 5
    ensures Run(w, steps) == Apply(Apply(Apply(Apply(Apply(w, steps[0]), steps[1]), steps[2]), steps[3]), steps[4])
  {
    hide Apply;
    assert steps[1..][1..] == steps[2..] && steps[2..][1..] == steps[3..] && steps[3..][1..] == steps[4..] && steps[4..][1..] == [];
    var a := Apply(w, steps[0]);
    var b := Apply(a, steps[1]);
    var c := Apply(b, steps[2]);
    var d := Apply(c, steps[3]);
    assert Run(d, steps[4..]) == Apply(d, steps[4]);
    assert Run(c, steps[3..]) == Run(d, steps[4..]);
    assert Run(b, steps[2..]) == Run(c, steps[3..]);
  }
}
