/** No sealed object is forgotten: as long as an object may be in the bucket, the row names it or its
    delete has been decided. */
module RotationGarbage {
  import opened Texts
  import opened KeyRotation

  predicate Known(w: World, key: Key) {
    key in Keys(w.row) || key in w.doomed
  }

  ghost predicate RotationsTracked(w: World) {
    forall next | next in w.rotations ::
      if w.rotations[next].stage.Failed? then next in w.encrypted ==> next in w.doomed else Known(w, next)
  }

  /** A row that no snapshot shows with a previous object has none, so a switch overwrites none. */
  ghost predicate PreviousSeen(w: World) {
    && (w.row.pending.Some? ==> w.row.previous.None?)
    && forall s | s in w.seen && s.r2Key.Some? && s.r2Key == w.row.r2Key && s.previous.None? :: w.row.previous.None?
  }

  ghost predicate CleanupsTracked(w: World) {
    forall lease | lease in w.cleanups ::
      (Named(w.cleanups[lease].pending) + Named(w.cleanups[lease].previous)) - Named(w.cleanups[lease].r2Key) <= w.doomed
  }

  /** Every object that was ever sealed for the row is known. */
  ghost predicate NothingForgotten(w: World) {
    forall key | key in w.encrypted :: Known(w, key)
  }

  ghost predicate Tracked(w: World) {
    NothingForgotten(w) && RotationsTracked(w) && PreviousSeen(w) && CleanupsTracked(w)
  }

  /** The purge that finishes has set out to delete everything the row names now. */
  predicate Finishes(w: World, step: Step) {
    step.SPurgeFinish? && w.condemned != {} && !w.row.status.Purged?
  }

  predicate Thorough(w: World, step: Step) {
    Finishes(w, step) ==> Keys(w.row) <= w.doomed
  }

  lemma InitialTracked(w: World)
    requires Initial(w)
    ensures Tracked(w)
  {
  }

  lemma ClaimTracks(w: World, s: Row, next: Key, lease: LeaseId, now: int, heard: bool)
    requires Inv(w) && Tracked(w)
    ensures Tracked(Claim(w, s, next, lease, now, heard))
  {
  }

  lemma WritingTracks(w: World, next: Key, iv: Iv, keyId: KeyId)
    requires Inv(w) && Tracked(w)
    ensures Tracked(Encrypt(w, next, iv, keyId))
  {
    hide Reencrypt;
  }

  lemma MissingTracks(w: World, next: Key)
    requires Inv(w) && Tracked(w)
    ensures Tracked(Missing(w, next))
  {
  }

  lemma FailTracks(w: World, next: Key)
    requires Tracked(w)
    ensures Tracked(Fail(w, next))
  {
  }

  lemma PuttingTracks(w: World, next: Key)
    requires Inv(w) && Tracked(w)
    ensures Tracked(PutAcknowledged(w, next)) && Tracked(Send(w, next))
  {
  }

  lemma ReleaseTracks(w: World, next: Key)
    requires Inv(w) && Tracked(w)
    ensures Tracked(Release(w, next))
  {
  }

  lemma SwitchTracks(w: World, next: Key, now: int)
    requires Inv(w) && Tracked(w)
    ensures Tracked(SwitchLands(w, next, now))
  {
  }

  lemma LearningTracks(w: World, next: Key)
    requires Inv(w) && Tracked(w)
    ensures Tracked(Confirm(w, next)) && Tracked(Learn(w, next)) && Tracked(GiveUp(w, next))
  {
    hide Inv, PreviousSeen, CleanupsTracked, Classify;
    if next in w.rotations && w.rotations[next].stage.Sent? {
      var cipher := w.rotations[next].stage.cipher;
      StageTracks(w, next, Cleaning(cipher), {});
      StageTracks(w, next, Ended(cipher), {});
      StageTracks(w, next, Ended(cipher), {next});
    }
  }

  /** A rotation that goes on, and more deletes that are decided. */
  lemma StageTracks(w: World, next: Key, stage: Stage, more: set<Key>)
    requires Tracked(w) && next in w.rotations && !w.rotations[next].stage.Failed? && !stage.Failed?
    ensures Tracked(SetStage(w, next, stage))
    ensures Tracked(SetStage(w, next, stage).(doomed := w.doomed + more, retired := w.retired + more))
  {
  }

  lemma DeletingTracks(w: World, next: Key)
    requires Inv(w) && Tracked(w)
    ensures Tracked(DeleteFormer(w, next)) && Tracked(ClearPrevious(w, next))
  {
  }

  lemma CleanupTracks(w: World, s: Row, lease: LeaseId, now: int)
    requires Inv(w) && Tracked(w)
    ensures Tracked(CleanupClaim(w, s, lease, now))
  {
    hide LeaseFree;
  }

  lemma CleanupFinishTracks(w: World, lease: LeaseId)
    requires Inv(w) && Tracked(w)
    ensures Tracked(CleanupFinish(w, lease))
  {
  }

  lemma PurgeTracks(w: World, s: Row, now: int, heard: bool)
    requires Inv(w) && Tracked(w)
    ensures Tracked(PurgeClaim(w, s, now, heard)) && Tracked(PurgeReread(w, s, now))
  {
    hide Inv, PurgeSelects, LeaseFree;
  }

  lemma PurgeFinishTracks(w: World)
    requires Inv(w) && Tracked(w) && (Finishes(w, SPurgeFinish) ==> Keys(w.row) <= w.doomed)
    ensures Tracked(PurgeFinish(w))
  {
  }

  lemma OthersTrack(w: World, step: Step)
    requires Tracked(w)
    requires step.SRead? || step.SPutLands? || step.SDeleteLands? || step.SCollect? || step.SReview? || step.SQuarantine? || step.SExpireStale?
    ensures Tracked(Apply(w, step))
  {
    hide Tracked, Collect, ReviewLands, Quarantine, ExpireStale;
    match step
    case SRead => SameKeysTrack(w, Read(w));
    case SPutLands(key) => SameKeysTrack(w, PutLands(w, key));
    case SDeleteLands(key) => SameKeysTrack(w, DeleteLands(w, key));
    case SCollect(o, receivedAt, expiresAt) => CollectionTracks(w, o, receivedAt, expiresAt);
    case SReview(o, after, at) => ReviewTracks(w, o, after, at);
    case SQuarantine => StatusTracks(w, 0);
    case SExpireStale(receivedAt) => StatusTracks(w, receivedAt);
  }

  lemma CollectionTracks(w: World, o: Id, receivedAt: int, expiresAt: int)
    requires Tracked(w)
    ensures Tracked(Collect(w, o, receivedAt, expiresAt))
  {
    hide Tracked;
    SameKeysTrack(w, Collect(w, o, receivedAt, expiresAt));
  }

  lemma ReviewTracks(w: World, o: Id, after: Review, at: int)
    requires Tracked(w)
    ensures Tracked(ReviewLands(w, o, after, at))
  {
    hide Tracked, ReviewTakes;
    if ReviewTakes(w, o, after, at) {
      ReviewedOccurs(w, o, after, at);
    }
    SameKeysTrack(w, ReviewLands(w, o, after, at));
  }

  lemma ReviewedOccurs(w: World, o: Id, after: Review, at: int)
    requires ReviewTakes(w, o, after, at)
    ensures o in w.occurrences
  {
  }

  lemma StatusTracks(w: World, receivedAt: int)
    requires Tracked(w)
    ensures Tracked(Quarantine(w)) && Tracked(ExpireStale(w, receivedAt))
  {
    hide Tracked;
    SameKeysTrack(w, Quarantine(w));
    SameKeysTrack(w, ExpireStale(w, receivedAt));
  }

  /** What changes neither the keys of the row nor a worker's position. */
  lemma SameKeysTrack(w: World, v: World)
    requires Tracked(w)
    requires v.row.r2Key == w.row.r2Key && v.row.pending == w.row.pending && v.row.previous == w.row.previous
    requires v.rotations == w.rotations && v.cleanups == w.cleanups && v.encrypted == w.encrypted && v.doomed == w.doomed
    requires v.seen == w.seen || v.seen == w.seen + {w.row}
    ensures Tracked(v)
  {
  }

  lemma StepTracks(w: World, step: Step)
    requires Inv(w) && Tracked(w) && Thorough(w, step)
    ensures Tracked(Apply(w, step))
  {
    hide Inv, Tracked;
    match step
    case SClaim(s, next, lease, now, heard) => ClaimTracks(w, s, next, lease, now, heard);
    case SMissing(next) => MissingTracks(w, next);
    case SFail(next) => FailTracks(w, next);
    case SEncrypt(next, iv, keyId) => WritingTracks(w, next, iv, keyId);
    case SRelease(next) => ReleaseTracks(w, next);
    case SPutAcknowledged(next) => PuttingTracks(w, next);
    case SSend(next) => PuttingTracks(w, next);
    case SSwitchLands(next, now) => SwitchTracks(w, next, now);
    case SConfirm(next) => LearningTracks(w, next);
    case SLearn(next) => LearningTracks(w, next);
    case SGiveUp(next) => LearningTracks(w, next);
    case SDeleteFormer(next) => DeletingTracks(w, next);
    case SClearPrevious(next) => DeletingTracks(w, next);
    case SCleanupClaim(s, lease, now) => CleanupTracks(w, s, lease, now);
    case SCleanupFinish(lease) => CleanupFinishTracks(w, lease);
    case SPurgeClaim(s, now, heard) => PurgeTracks(w, s, now, heard);
    case SPurgeReread(s, now) => PurgeTracks(w, s, now, true);
    case SPurgeFinish => PurgeFinishTracks(w);
    case _ => OthersTrack(w, step);
  }

  predicate AllThorough(w: World, steps: seq<Step>)
    decreases |steps|
  {
    steps == [] || (Thorough(w, steps[0]) && AllThorough(Apply(w, steps[0]), steps[1..]))
  }

  lemma {:induction false} RunTracks(w: World, steps: seq<Step>)
    requires Inv(w) && Tracked(w) && AllThorough(w, steps)
    ensures Tracked(Run(w, steps)) && Inv(Run(w, steps))
    decreases |steps|
  {
    hide Apply, Inv, Tracked, Thorough;
    if steps != [] {
      StepKeeps(w, steps[0]);
      StepTracks(w, steps[0]);
      RunTracks(Apply(w, steps[0]), steps[1..]);
    }
  }

  /** In every run in which each purge that finishes has set out to delete all that the row then names,
      whatever was ever sealed for the row, in the bucket or on its way there, is named by the row or its
      delete has been decided. */
  lemma NoObjectIsForgotten(w: World, steps: seq<Step>, key: Key)
    requires Initial(w) && AllThorough(w, steps)
    ensures var v := Run(w, steps);
            key in v.bucket || key in v.encrypted ==> key in v.doomed || Some(key) in {v.row.r2Key, v.row.pending, v.row.previous}
  {
    InitialKeeps(w);
    InitialTracked(w);
    hide Initial;
    RunTracks(w, steps);
    hide Run;
    var v := Run(w, steps);
    assert key in v.bucket ==> key in v.encrypted;
  }

  /** What a purge that finishes forgets: exactly the sealed objects that the row names by then and that
      it never set out to delete. */
  lemma FinishForgetsExactly(w: World, key: Key)
    requires Inv(w) && Tracked(w) && Finishes(w, SPurgeFinish)
    ensures key in w.encrypted && !Known(PurgeFinish(w), key)
            <==> key in w.encrypted && key !in w.doomed && Some(key) in {w.row.r2Key, w.row.pending, w.row.previous}
  {
  }

  /** A finish that looks at the keys again forgets nothing. */
  lemma KeyGuardSuffices(w: World)
    requires Inv(w) && Keys(w.row) <= w.condemned
    ensures Thorough(w, SPurgeFinish)
  {
  }

  // ---- a purge that leaves the bytes behind ----

  lemma {:induction false} RunAppend(w: World, first: seq<Step>, second: seq<Step>)
    ensures Run(w, first + second) == Run(Run(w, first), second)
    decreases |first|
  {
    hide Apply;
    if first == [] {
      assert first + second == second;
    } else {
      assert (first + second)[1..] == first[1..] + second;
      RunAppend(Apply(w, first[0]), first[1..], second);
    }
  }

  lemma RunTwo(w: World, a: Step, b: Step)
    ensures Run(w, [a, b]) == Apply(Apply(w, a), b)
  {
    hide Apply;
    assert [a, b][1..] == [b] && [b][1..] == [];
    assert Run(Apply(w, a), [b]) == Apply(Apply(w, a), b);
  }

  lemma RunThree(w: World, a: Step, b: Step, c: Step)
    ensures Run(w, [a, b, c]) == Apply(Apply(Apply(w, a), b), c)
  {
    hide Apply;
    assert [a, b, c][1..] == [b, c];
    RunTwo(Apply(w, a), b, c);
  }

  /** The steps of a rotation that nothing disturbs. */
  function Rotating(s: Row, former: Key, next: Key, lease: LeaseId, at: int, iv: Iv, keyId: KeyId, later: int): seq<Step> {
    [SClaim(s, next, lease, at, true), SEncrypt(next, iv, keyId), SPutAcknowledged(next)]
    + [SSend(next), SSwitchLands(next, later), SConfirm(next)]
    + [SDeleteFormer(next), SDeleteLands(former), SClearPrevious(next)]
  }

  lemma RotatingRuns(w: World, former: Key, next: Key, lease: LeaseId, at: int, iv: Iv, keyId: KeyId, later: int)
    ensures Run(w, Rotating(w.row, former, next, lease, at, iv, keyId, later))
            == WholeSwitch(WholeWriting(w, next, lease, at, iv, keyId), former, next, later)
  {
    hide Run, Apply, Claim, Encrypt, PutAcknowledged, Send, SwitchLands, Confirm, DeleteFormer, DeleteLands, ClearPrevious;
    var a := [SClaim(w.row, next, lease, at, true), SEncrypt(next, iv, keyId), SPutAcknowledged(next)];
    var b := [SSend(next), SSwitchLands(next, later), SConfirm(next)];
    var c := [SDeleteFormer(next), SDeleteLands(former), SClearPrevious(next)];
    RunAppend(w, a + b, c);
    RunAppend(w, a, b);
    WritingRuns(w, next, lease, at, iv, keyId);
    SwitchingRuns(Run(w, a), next, later);
    DeletingRuns(Run(w, a + b), former, next);
  }

  lemma WritingRuns(w: World, next: Key, lease: LeaseId, at: int, iv: Iv, keyId: KeyId)
    ensures Run(w, [SClaim(w.row, next, lease, at, true), SEncrypt(next, iv, keyId), SPutAcknowledged(next)])
            == WholeWriting(w, next, lease, at, iv, keyId)
  {
    hide Run, Claim, Encrypt, PutAcknowledged;
    RunThree(w, SClaim(w.row, next, lease, at, true), SEncrypt(next, iv, keyId), SPutAcknowledged(next));
  }

  lemma SwitchingRuns(w: World, next: Key, later: int)
    ensures Run(w, [SSend(next), SSwitchLands(next, later), SConfirm(next)]) == Confirm(SwitchLands(Send(w, next), next, later), next)
  {
    hide Run, Send, SwitchLands, Confirm;
    RunThree(w, SSend(next), SSwitchLands(next, later), SConfirm(next));
  }

  lemma DeletingRuns(w: World, former: Key, next: Key)
    ensures Run(w, [SDeleteFormer(next), SDeleteLands(former), SClearPrevious(next)])
            == ClearPrevious(DeleteLands(DeleteFormer(w, next), former), next)
  {
    hide Run, DeleteFormer, DeleteLands, ClearPrevious;
    RunThree(w, SDeleteFormer(next), SDeleteLands(former), SClearPrevious(next));
  }

  /** The same snapshots, and no more deletes than those of `keys`. */
  predicate Leaves(w: World, v: World, keys: set<Key>) {
    && v.seen == w.seen && v.condemned == w.condemned && v.doomed <= w.doomed + keys
    && forall next | next in w.rotations :: next in v.rotations && v.rotations[next].former == w.rotations[next].former
  }

  lemma ClaimLeaves(w: World, next: Key, lease: LeaseId, at: int)
    requires next !in w.rotations
    ensures Leaves(w, Claim(w, w.row, next, lease, at, true), {})
  {
    hide Claimable;
  }

  lemma WritingLeaves(w: World, next: Key, iv: Iv, keyId: KeyId)
    ensures Leaves(w, Encrypt(w, next, iv, keyId), {}) && Leaves(w, PutAcknowledged(w, next), {}) && Leaves(w, Send(w, next), {})
  {
    hide Reencrypt;
  }

  lemma SwitchingLeaves(w: World, next: Key, later: int)
    ensures Leaves(w, SwitchLands(w, next, later), {}) && Leaves(w, Confirm(w, next), {})
  {
    hide Switchable;
  }

  lemma DeletingLeaves(w: World, former: Key, next: Key)
    ensures next in w.rotations && w.rotations[next].former == former ==> Leaves(w, DeleteFormer(w, next), {former})
    ensures Leaves(w, DeleteLands(w, former), {}) && Leaves(w, ClearPrevious(w, next), {})
  {
  }

  lemma RotationLeaves(w: World, former: Key, next: Key, lease: LeaseId, at: int, iv: Iv, keyId: KeyId, later: int)
    requires next !in w.rotations
    requires var r := WholeWriting(w, next, lease, at, iv, keyId).rotations; next in r && r[next].former == former
    ensures var v := WholeSwitch(WholeWriting(w, next, lease, at, iv, keyId), former, next, later);
            v.seen == w.seen && v.condemned == w.condemned && v.doomed <= w.doomed + {former}
  {
    hide Claim, Encrypt, PutAcknowledged, Send, SwitchLands, Confirm, DeleteFormer, DeleteLands, ClearPrevious;
    ClaimLeaves(w, next, lease, at);
    var claimed := Claim(w, w.row, next, lease, at, true);
    WritingLeaves(claimed, next, iv, keyId);
    WritingLeaves(Encrypt(claimed, next, iv, keyId), next, iv, keyId);
    var written := WholeWriting(w, next, lease, at, iv, keyId);
    WritingLeaves(written, next, iv, keyId);
    SwitchingLeaves(Send(written, next), next, later);
    SwitchingLeaves(SwitchLands(Send(written, next), next, later), next, later);
    var switched := Confirm(SwitchLands(Send(written, next), next, later), next);
    DeletingLeaves(switched, former, next);
    DeletingLeaves(DeleteFormer(switched, next), former, next);
    DeletingLeaves(DeleteLands(DeleteFormer(switched, next), former), former, next);
  }

  /** One schedule that every guard lets through, for every freshly stored row. The purge reads the row
      when it has expired; a repeat collection that began before lands and extends it; a rotation moves
      it to another object; and the purge goes on with the keys it read. The row ends as purged and
      names nothing, and the bytes are still there, under a key that nobody is going to delete. */
  lemma PurgeLeavesTheBytes(w: World, second: Id, began: int, now: int, extended: int,
                            next: Key, lease: LeaseId, at: int, iv: Iv, keyId: KeyId, later: int)
    requires Initial(w) && second !in w.occurrences && next !in w.made
    requires began < w.row.expiresAt <= now && at <= later < at + 300_000 && later < extended
    ensures var renewed, former := w.row.(status := Current(NeedsReview), expiresAt := extended), w.row.r2Key.value;
            var v := Run(w, [SRead, SCollect(second, began, extended), SRead]
                            + Rotating(renewed, former, next, lease, at, iv, keyId, later)
                            + [SPurgeClaim(w.row, now, true), SPurgeFinish]);
            && v.row.status.Purged? && Keys(v.row) == {} && next !in v.doomed && next in v.bucket
            && Decrypt(v.bucket[next], iv, w.row.context, keyId).Some?
            && Sha(Decrypt(v.bucket[next], iv, w.row.context, keyId).value) == w.row.digest
  {
    var former := w.row.r2Key.value;
    var a := [SRead, SCollect(second, began, extended), SRead];
    var mid := Run(w, a);
    RunThree(w, a[0], a[1], a[2]);
    Renewed(w, mid, second, began, extended);
    var b, c := Rotating(mid.row, former, next, lease, at, iv, keyId, later), [SPurgeClaim(w.row, now, true), SPurgeFinish];
    RunAppend(w, a + b, c);
    RunAppend(w, a, b);
    RotatingRuns(mid, former, next, lease, at, iv, keyId, later);
    UndisturbedRotation(mid, next, lease, at, iv, keyId, later);
    UndisturbedWriting(mid, next, lease, at, iv, keyId);
    RotationLeaves(mid, former, next, lease, at, iv, keyId, later);
    var rotated := Run(w, a + b);
    RunTwo(rotated, c[0], c[1]);
    hide Run, WholeWriting, WholeSwitch, Initial, Inv, Rotating, Claimable;
    FinishesOnOldKeys(rotated, w.row, former, now);
  }

  /** The row as the repeat collection leaves it, ready to be rotated. */
  lemma Renewed(w: World, mid: World, second: Id, began: int, extended: int)
    requires Initial(w) && second !in w.occurrences && began < w.row.expiresAt
    requires mid == Apply(Apply(Apply(w, SRead), SCollect(second, began, extended)), SRead)
    ensures mid.row == w.row.(status := Current(NeedsReview), expiresAt := extended) && mid.seen == {w.row, mid.row}
    ensures mid.bucket == w.bucket && mid.rotations == map[] && mid.doomed == {} && mid.condemned == {} && mid.made == w.made && mid.leases == {}
    ensures Inv(mid) && Readable(mid)
  {
    InitialKeeps(w);
    StepKeeps(w, SRead);
    StepKeeps(Apply(w, SRead), SCollect(second, began, extended));
    StepKeeps(Apply(Apply(w, SRead), SCollect(second, began, extended)), SRead);
    hide Inv;
  }

  lemma FinishesOnOldKeys(w: World, s: Row, former: Key, now: int)
    requires s in w.seen && s.expiresAt <= now && !s.status.Purged? && s.lease.None? && Keys(s) == {former}
    requires Live(w.row) && w.row.lease.None?
    ensures var v := Apply(Apply(w, SPurgeClaim(s, now, true)), SPurgeFinish);
            v.row.status.Purged? && Keys(v.row) == {} && v.doomed == w.doomed + {former} && v.bucket == w.bucket
  {
    assert former in Keys(s);
  }
}
