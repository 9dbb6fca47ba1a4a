/** The rotation of one evidence object as the worker runs it, in place on the row and the bucket,
    with whatever other workers do at each point where it waits. */
module KeyRotationWorker {
  import opened Texts
  import opened KeyRotation

  class Vault {
    var world: World

    constructor (world: World)
      ensures this.world == world
    {
      this.world := world;
    }

    method Take(step: Step)
      modifies this
      ensures world == Apply(old(world), step)
    {
      world := Apply(world, step);
    }

    method Others(steps: seq<Step>)
      modifies this
      ensures world == Run(old(world), steps)
    {
      world := Run(world, steps);
    }
  }

  /** The steps that only the worker holding `next` takes. */
  predicate Own(step: Step, next: Key) {
    (step.SClaim? || step.SMissing? || step.SEncrypt? || step.SFail? || step.SRelease? || step.SPutAcknowledged? || step.SSend?
     || step.SConfirm? || step.SLearn? || step.SGiveUp? || step.SDeleteFormer? || step.SClearPrevious?) && step.next == next
  }

  predicate Foreign(steps: seq<Step>, next: Key) {
    forall step | step in steps :: !Own(step, next)
  }

  lemma OthersLeaveRotations(w: World, step: Step)
    requires Bystander(step)
    ensures Apply(w, step).rotations == w.rotations
  {
    hide Cleanable, Garbage, Keys, LeaseFree, Live, Holds, PurgeSelects, ReviewTakes;
  }

  lemma ForeignStep(w: World, step: Step, next: Key)
    requires !Own(step, next) && next in w.rotations
    ensures next in Apply(w, step).rotations && Apply(w, step).rotations[next] == w.rotations[next]
  {
    hide Claimable, Reencrypt, Switchable, Classify, Cleanable, Garbage, Armed, Keys, LeaseFree, Live, Holds,
         Read, PutLands, DeleteLands, CleanupClaim, CleanupFinish, PurgeClaim, PurgeReread, PurgeFinish,
         Collect, ReviewLands, Quarantine, ExpireStale;
    if Bystander(step) {
      OthersLeaveRotations(w, step);
    }
  }

  lemma {:induction false} ForeignRun(w: World, steps: seq<Step>, next: Key)
    requires Foreign(steps, next) && next in w.rotations
    ensures next in Run(w, steps).rotations && Run(w, steps).rotations[next] == w.rotations[next]
    decreases |steps|
  {
    hide Apply, Own;
    if steps != [] {
      ForeignStep(w, steps[0], next);
      ForeignRun(Apply(w, steps[0]), steps[1..], next);
    }
  }

  lemma {:induction false} RunAppend(w: World, first: seq<Step>, second: seq<Step>)
    ensures Run(w, first + second) == Run(Run(w, first), second)
    decreases |first|
  {
    hide Apply;
    if first == [] {
      assert first + second == second;
    } else {
      assert (first + second)[1..] == first[1..] + second;
      RunAppend(Apply(w, first[0]), first[1..], second);
    }
  }

  lemma RunTake(w: World, steps: seq<Step>, step: Step)
    ensures Run(w, steps + [step]) == Apply(Run(w, steps), step)
  {
    hide Apply;
    RunAppend(w, steps, [step]);
    assert [step][1..] == [];
  }

  /** What goes wrong from the worker's point of view. */
  datatype Weather = Weather(claimHeard: bool, putFails: bool, switchHeard: bool, readFails: bool)

  /** What others do after the claim, after the put, and around the switch. */
  datatype Between = Between(afterClaim: seq<Step>, afterPut: seq<Step>, afterSend: seq<Step>, beforeRead: seq<Step>)

  datatype Outcome = NotClaimed | Rotated | Threw

  /** The worker's own position after one of its steps, and how far it has come. */
  predicate At(w: World, next: Key, former: Key, stages: set<nat>) {
    next in w.rotations && w.rotations[next].former == former && StageNumber(w.rotations[next].stage) in stages
  }

  function StageNumber(s: Stage): nat {
    match s
    case Unheard => 0
    case Claimed => 1
    case Writing(_) => 2
    case Failed => 3
    case Ready(_) => 4
    case Sent(_) => 5
    case Cleaning(_) => 6
    case Ended(_) => 7
  }

  lemma ClaimMoves(w: World, s: Row, next: Key, lease: LeaseId, now: int, heard: bool)
    requires Claimable(w, s, next, lease, now)
    ensures At(Apply(w, SClaim(s, next, lease, now, heard)), next, s.r2Key.value, if heard then {1} else {0})
  {
  }

  lemma EncryptMoves(w: World, next: Key, former: Key, iv: Iv, keyId: KeyId)
    requires At(w, next, former, {1})
    ensures At(Apply(w, SEncrypt(next, iv, keyId)), next, former, {1, 2})
  {
  }

  lemma PutMoves(w: World, next: Key, former: Key)
    requires At(w, next, former, {2})
    ensures At(Apply(w, SPutAcknowledged(next)), next, former, {4})
  {
  }

  lemma SendMoves(w: World, next: Key, former: Key)
    requires At(w, next, former, {4})
    ensures At(Apply(w, SSend(next)), next, former, {5})
  {
  }

  lemma SwitchMoves(w: World, next: Key, former: Key, now: int)
    requires At(w, next, former, {5})
    ensures At(Apply(w, SSwitchLands(next, now)), next, former, {5})
    ensures At(Apply(w, SConfirm(next)), next, former, {5, 6})
  {
  }

  lemma ReadMoves(w: World, next: Key, former: Key, step: Step)
    requires At(w, next, former, {5}) && (step == SLearn(next) || step == SGiveUp(next))
    ensures At(Apply(w, step), next, former, {6, 7})
  {
  }

  lemma DeleteMoves(w: World, next: Key, former: Key)
    requires At(w, next, former, {6})
    ensures former in Apply(w, SDeleteFormer(next)).doomed
  {
  }

  // ---- the worker on its own ----

  /** The same row, objects and decided deletes. */
  predicate Untouched(w: World, v: World) {
    v.row == w.row && v.bucket == w.bucket && v.doomed == w.doomed
  }

  /** The row is under the next key, with the sealed copy's iv and key id and nothing else held; the
      former object is gone, and no other object has changed. */
  predicate SwitchedOver(w: World, v: World, next: Key, former: Key, copy: Cipher) {
    && v.row == w.row.(r2Key := Some(next), iv := copy.iv, keyId := copy.keyId, lease := None, pending := None, previous := None)
    && v.bucket == w.bucket - {former} && v.doomed == w.doomed + {former}
  }

  /** The claim is given back; nothing else has changed. */
  predicate GivenBack(w: World, v: World) {
    v.row == w.row.(lease := None, pending := None) && v.bucket == w.bucket
  }

  predicate Stands(w: World, next: Key, former: Key, stage: Stage) {
    && next in w.rotations && w.rotations[next].former == former && w.rotations[next].stage == stage
    && w.row.r2Key == Some(former) && w.rotations[next].keyId == w.row.keyId && Armed(w, next)
  }

  lemma ClaimStands(w: World, next: Key, lease: LeaseId, now: int, heard: bool)
    requires Claimable(w, w.row, next, lease, now)
    ensures var v := Apply(w, SClaim(w.row, next, lease, now, heard));
            && v.row == w.row.(lease := Some(Lease(lease, now + ROTATION_LEASE_MS)), pending := Some(next))
            && v.bucket == w.bucket && v.doomed == w.doomed && v.switched == w.switched
            && Stands(v, next, w.row.r2Key.value, if heard then Claimed else Unheard)
            && (heard && Readable(w) ==> Opens(v, next, w.row.r2Key.value))
  {
  }

  lemma MissingGivesBack(w: World, next: Key, former: Key)
    requires Stands(w, next, former, Claimed) && former !in w.bucket
    ensures var v := Apply(Apply(w, SMissing(next)), SRelease(next));
            GivenBack(w, v) && v.doomed == w.doomed
  {
  }

  lemma FailureGivesBack(w: World, next: Key, former: Key, copy: Cipher)
    requires Stands(w, next, former, Writing(copy))
    ensures var v := Apply(Apply(w, SFail(next)), SRelease(next));
            GivenBack(w, v) && v.doomed == w.doomed + {next}
    ensures At(w, next, former, {2})
  {
  }

  /** The claim is held, and the former object decrypts under what the worker read of the row. */
  predicate Opens(w: World, next: Key, former: Key) {
    && Stands(w, next, former, Claimed) && former in w.bucket
    && Decrypt(w.bucket[former], w.rotations[next].iv, w.rotations[next].context, w.rotations[next].keyId).Some?
  }

  lemma EncryptStands(w: World, next: Key, former: Key, iv: Iv, keyId: KeyId)
    requires Opens(w, next, former)
    ensures var v := Apply(w, SEncrypt(next, iv, keyId));
            Untouched(w, v) && v.switched == w.switched && Stands(v, next, former, Writing(w.bucket[former].(iv := iv, keyId := keyId)))
  {
  }

  lemma PutStands(w: World, next: Key, former: Key, copy: Cipher)
    ensures Stands(w, next, former, Writing(copy)) ==>
              var v := Apply(w, SPutAcknowledged(next));
              && v.row == w.row && v.bucket == w.bucket[next := copy] && v.doomed == w.doomed && v.switched == w.switched
              && Stands(v, next, former, Ready(copy))
    ensures Stands(w, next, former, Ready(copy)) ==>
              var v := Apply(w, SSend(next));
              Untouched(w, v) && v.switched == w.switched && Stands(v, next, former, Sent(copy))
  {
  }

  /** In time for lease and expiry the switch takes effect, however its worker learns of it. */
  lemma SwitchTakes(w: World, next: Key, former: Key, copy: Cipher, later: int)
    requires Stands(w, next, former, Sent(copy)) && Switchable(w, next, later) && next != former
    ensures var v := Apply(w, SSwitchLands(next, later));
            && v.row == w.row.(r2Key := Some(next), iv := copy.iv, keyId := copy.keyId, previous := Some(former), pending := None, lease := None)
            && v.bucket == w.bucket && v.doomed == w.doomed
            && Untouched(v, Apply(v, SConfirm(next))) && At(Apply(v, SConfirm(next)), next, former, {6})
            && Untouched(v, Apply(v, SLearn(next))) && At(Apply(v, SLearn(next)), next, former, {6})
            && Untouched(v, Apply(v, SGiveUp(next))) && !At(Apply(v, SGiveUp(next)), next, former, {6})
            && !At(v, next, former, {6})
  {
    hide Claimable, Reencrypt;
  }

  lemma SwitchMisses(w: World, next: Key, former: Key, copy: Cipher, later: int)
    requires Stands(w, next, former, Sent(copy)) && next !in w.switched && next != former
    ensures !Switchable(w, next, later) ==> Apply(Apply(w, SSwitchLands(next, later)), SConfirm(next)) == w
    ensures Untouched(w, Apply(w, SLearn(next))) && !At(Apply(w, SLearn(next)), next, former, {6})
    ensures Untouched(w, Apply(w, SGiveUp(next))) && !At(Apply(w, SGiveUp(next)), next, former, {6})
    ensures !At(w, next, former, {6})
  {
    hide Claimable, Reencrypt;
  }

  lemma DeleteEnds(w: World, next: Key, former: Key)
    requires At(w, next, former, {6}) && w.row.r2Key == Some(next) && w.row.previous == Some(former) && next != former
    ensures var v := Apply(Apply(Apply(w, SDeleteFormer(next)), SDeleteLands(former)), SClearPrevious(next));
            v.row == w.row.(previous := None) && v.bucket == w.bucket - {former} && v.doomed == w.doomed + {former}
  {
    DeleteKeepsRow(w, next, former);
    DeleteLandsOn(Apply(w, SDeleteFormer(next)), former);
    ClearForgets(Apply(Apply(w, SDeleteFormer(next)), SDeleteLands(former)), next, former);
    hide Apply, StageNumber;
  }

  lemma DeleteKeepsRow(w: World, next: Key, former: Key)
    requires At(w, next, former, {6})
    ensures var v := Apply(w, SDeleteFormer(next));
            v.row == w.row && v.bucket == w.bucket && v.doomed == w.doomed + {former} && v.rotations == w.rotations
  {
  }

  lemma DeleteLandsOn(w: World, key: Key)
    ensures var v := Apply(w, SDeleteLands(key));
            v.row == w.row && v.doomed == w.doomed && v.rotations == w.rotations && (key in w.doomed ==> v.bucket == w.bucket - {key})
  {
  }

  lemma ClearForgets(w: World, next: Key, former: Key)
    ensures At(w, next, former, {6}) && w.row.r2Key == Some(next) && w.row.previous == Some(former) && former in w.doomed ==>
              var v := Apply(w, SClearPrevious(next));
              v.row == w.row.(previous := None) && v.bucket == w.bucket && v.doomed == w.doomed
  {
  }

  method Advance(vault: Vault, ghost start: World, ghost trace: seq<Step>, step: Step)
    returns (ghost longer: seq<Step>)
    requires vault.world == Run(start, trace)
    modifies vault
    ensures vault.world == Apply(old(vault.world), step) && vault.world == Run(start, longer)
    ensures Grows(old(vault.world), vault.world)
  {
    StepGrows(vault.world, step);
    RunTake(start, trace, step);
    vault.Take(step);
    longer := trace + [step];
  }

  /** The worker waits while others act: its own position does not move, and nothing decided is undone. */
  method Wait(vault: Vault, ghost start: World, ghost trace: seq<Step>, steps: seq<Step>, next: Key)
    returns (ghost longer: seq<Step>)
    requires vault.world == Run(start, trace) && Inv(start)
    requires Foreign(steps, next) && next in vault.world.rotations
    modifies vault
    ensures vault.world == Run(start, longer)
    ensures next in vault.world.rotations && vault.world.rotations[next] == old(vault.world.rotations[next])
    ensures steps == [] ==> vault.world == old(vault.world)
    ensures forall step :: steps == [step] ==> vault.world == Apply(old(vault.world), step)
  {
    hide Apply, Own;
    assert forall step: Step :: [step][1..] == [];
    hide Run;
    RunAppend(start, trace, steps);
    ForeignRun(vault.world, steps, next);
    vault.Others(steps);
    longer := trace + steps;
  }

  /** The row as the claim leaves it. */
  function ClaimedRow(w: World, next: Key, lease: LeaseId, now: int): Row {
    w.row.(lease := Some(Lease(lease, now + 300_000)), pending := Some(next))
  }

  /** What a worker on its own has done by the time the switch is on its way. */
  predicate Writes(w: World, v: World, sent: bool, next: Key, lease: LeaseId, now: int, iv: Iv, keyId: KeyId, weather: Weather)
    requires w.row.r2Key.Some?
  {
    var former := w.row.r2Key.value;
    && (!weather.claimHeard ==> !sent && v.row == ClaimedRow(w, next, lease, now) && v.bucket == w.bucket && v.doomed == w.doomed)
    && (weather.claimHeard && former !in w.bucket ==> !sent && GivenBack(w, v) && v.doomed == w.doomed)
    && (weather.claimHeard && Readable(w) ==>
          if weather.putFails then !sent && GivenBack(w, v) && v.doomed == w.doomed + {next}
          else
            var copy := w.bucket[former].(iv := iv, keyId := keyId);
            && sent && v.row == ClaimedRow(w, next, lease, now) && v.bucket == w.bucket[next := copy] && v.doomed == w.doomed
            && v.switched == w.switched && Stands(v, next, former, Sent(copy)))
  }

  /** How a rotation ends for a worker on its own: done, with the same plain bytes under the next key,
      when nothing fails and the switch is in time, whether its reply or the read tells; given back when
      the object is gone or the put fails; and otherwise left for later, with nothing deleted. */
  predicate RotationEnds(w: World, v: World, outcome: Outcome, next: Key, lease: LeaseId, now: int, iv: Iv, keyId: KeyId, later: int,
                         weather: Weather, beforeRead: seq<Step>)
    requires w.row.r2Key.Some?
  {
    var former := w.row.r2Key.value;
    && (!weather.claimHeard ==>
          outcome == Threw && v.row == ClaimedRow(w, next, lease, now) && v.bucket == w.bucket && v.doomed == w.doomed)
    && (weather.claimHeard && former !in w.bucket ==> outcome == Threw && GivenBack(w, v) && v.doomed == w.doomed)
    && (weather.claimHeard && Readable(w) && weather.putFails ==> outcome == Threw && GivenBack(w, v) && v.doomed == w.doomed + {next})
    && (weather.claimHeard && Readable(w) && !weather.putFails ==>
          var copy := w.bucket[former].(iv := iv, keyId := keyId);
          var inTime := later < now + 300_000 && later < w.row.expiresAt;
          var switched := w.row.(r2Key := Some(next), iv := iv, keyId := keyId, lease := None, pending := None, previous := None);
          && (inTime && (weather.switchHeard || (beforeRead == [SSwitchLands(next, later)] && !weather.readFails)) ==>
                outcome == Rotated && v.row == switched && v.bucket == w.bucket[next := copy] - {former} && v.doomed == w.doomed + {former})
          && (inTime && !weather.switchHeard && beforeRead == [SSwitchLands(next, later)] && weather.readFails ==>
                outcome == Threw && v.row == switched.(previous := Some(former)) && v.bucket == w.bucket[next := copy] && v.doomed == w.doomed)
          && (beforeRead == [] && !(inTime && weather.switchHeard) ==>
                outcome == Threw && v.row == ClaimedRow(w, next, lease, now) && v.bucket == w.bucket[next := copy] && v.doomed == w.doomed))
  }

  /** Rotates the object of the row that snapshot `s` describes. A rotation that is reported as done
      has moved the row off the former object for good, by whichever reply it learnt of that; and
      whatever the outcome, a live row can still be read, unless a review brought it back after a purge
      had set out to delete its object. On its own the worker ends exactly as `RotationEnds` says. */
  method RotateEvidenceObject(vault: Vault, s: Row, next: Key, lease: LeaseId, now: int, iv: Iv, keyId: KeyId, later: int,
                              weather: Weather, between: Between)
    returns (outcome: Outcome, ghost trace: seq<Step>)
    requires Inv(vault.world) && s in vault.world.seen && next !in vault.world.made && lease !in vault.world.leases
    requires Foreign(between.afterClaim, next) && Foreign(between.afterPut, next)
    requires Foreign(between.afterSend, next) && Foreign(between.beforeRead, next)
    modifies vault
    ensures vault.world == Run(old(vault.world), trace) && Inv(vault.world)
    ensures Live(vault.world.row) && !Condemned(vault.world) ==> Readable(vault.world)
    ensures Spared(old(vault.world)) && Sparing(old(vault.world), trace) && Live(vault.world.row) ==> Readable(vault.world)
    ensures outcome == NotClaimed <==> !Claimable(old(vault.world), s, next, lease, now)
    ensures outcome == NotClaimed ==> vault.world == old(vault.world)
    ensures outcome == Rotated ==>
              s.r2Key.Some? && s.r2Key.value in vault.world.retired && s.r2Key.value in vault.world.doomed
              && vault.world.row.r2Key != s.r2Key
    ensures outcome == Rotated ==> weather.claimHeard && !weather.putFails
    ensures s == old(vault.world).row && Claimable(old(vault.world), s, next, lease, now)
            && between.afterClaim == [] && between.afterPut == [] && between.afterSend == [] ==>
              RotationEnds(old(vault.world), vault.world, outcome, next, lease, now, iv, keyId, later, weather, between.beforeRead)
  {
    ghost var start := vault.world;
    outcome, trace := Rotate(vault, s, next, lease, now, iv, keyId, later, weather, between);
    hide Claimable, RotationEnds;
    RunKeeps(start, trace);
    if Spared(start) && Sparing(start, trace) {
      RunSpares(start, trace);
    }
    if Live(vault.world.row) && !Condemned(vault.world) {
      LiveIsReadable(vault.world);
    }
    if outcome == Rotated {
      RetiredIsNotCurrent(vault.world, s.r2Key.value);
    }
  }

  lemma RetiredIsNotCurrent(w: World, key: Key)
    requires Inv(w) && key in w.retired
    ensures w.row.r2Key != Some(key)
  {
  }

  method Rotate(vault: Vault, s: Row, next: Key, lease: LeaseId, now: int, iv: Iv, keyId: KeyId, later: int,
                weather: Weather, between: Between)
    returns (outcome: Outcome, ghost trace: seq<Step>)
    requires Inv(vault.world) && s in vault.world.seen && next !in vault.world.made && lease !in vault.world.leases
    requires Foreign(between.afterClaim, next) && Foreign(between.afterPut, next)
    requires Foreign(between.afterSend, next) && Foreign(between.beforeRead, next)
    modifies vault
    ensures vault.world == Run(old(vault.world), trace)
    ensures outcome == NotClaimed <==> !Claimable(old(vault.world), s, next, lease, now)
    ensures outcome == NotClaimed ==> vault.world == old(vault.world)
    ensures outcome == Rotated ==> s.r2Key.Some? && s.r2Key.value in vault.world.retired && s.r2Key.value in vault.world.doomed
    ensures outcome == Rotated ==> weather.claimHeard && !weather.putFails
    ensures s == old(vault.world).row && Claimable(old(vault.world), s, next, lease, now)
            && between.afterClaim == [] && between.afterPut == [] && between.afterSend == [] ==>
              RotationEnds(old(vault.world), vault.world, outcome, next, lease, now, iv, keyId, later, weather, between.beforeRead)
  {
    ghost var start := vault.world;
    if !Claimable(vault.world, s, next, lease, now) {
      return NotClaimed, [];
    }
    var former := s.r2Key.value;
    var sent;
    sent, trace := ClaimAndWrite(vault, s, next, lease, now, iv, keyId, weather, between);
    ghost var ready := vault.world;
    ghost var copy := if former in start.bucket then start.bucket[former].(iv := iv, keyId := keyId) else Sealed([], 0, s.context, 0);
    hide Run, Inv, Foreign, Claimable;
    if !sent {
      return Threw, trace;
    }
    outcome, trace := SwitchAndDelete(vault, start, trace, former, next, later, weather, between.beforeRead, copy);
    if s == start.row && between.afterClaim == [] && between.afterPut == [] && between.afterSend == [] && Readable(start) {
      EndsTogether(start, ready, vault.world, outcome, next, lease, now, iv, keyId, later, weather, between.beforeRead);
    }
  }

  /** Writing and switching, put together. */
  lemma EndsTogether(w: World, ready: World, v: World, outcome: Outcome, next: Key, lease: LeaseId, now: int, iv: Iv, keyId: KeyId,
                     later: int, weather: Weather, beforeRead: seq<Step>)
    requires Inv(w) && Claimable(w, w.row, next, lease, now) && Readable(w) && weather.claimHeard && !weather.putFails
    requires Writes(w, ready, true, next, lease, now, iv, keyId, weather)
    requires var copy, former := w.bucket[w.row.r2Key.value].(iv := iv, keyId := keyId), w.row.r2Key.value;
             Stands(ready, next, former, Sent(copy)) && next != former && next !in ready.switched ==>
               SwitchEnds(ready, v, outcome, next, former, copy, later, weather, beforeRead)
    ensures RotationEnds(w, v, outcome, next, lease, now, iv, keyId, later, weather, beforeRead)
  {
    assert w.row.r2Key.value in w.made && w.switched <= w.made;
    hide Inv;
  }

  /** Claims, copies, puts and sends the switch on its way. */
  method ClaimAndWrite(vault: Vault, s: Row, next: Key, lease: LeaseId, now: int, iv: Iv, keyId: KeyId, weather: Weather, between: Between)
    returns (sent: bool, ghost trace: seq<Step>)
    requires Inv(vault.world) && Claimable(vault.world, s, next, lease, now)
    requires Foreign(between.afterClaim, next) && Foreign(between.afterPut, next) && Foreign(between.afterSend, next)
    modifies vault
    ensures vault.world == Run(old(vault.world), trace)
    ensures sent ==> At(vault.world, next, s.r2Key.value, {5}) && weather.claimHeard && !weather.putFails
    ensures s == old(vault.world).row && between.afterClaim == [] && between.afterPut == [] && between.afterSend == [] ==>
              Writes(old(vault.world), vault.world, sent, next, lease, now, iv, keyId, weather)
  {
    hide Own, Inv, Foreign, Apply, StageNumber, Grows, Stands, Opens, Readable;
    ghost var start := vault.world;
    trace := [];
    assert start == Run(start, trace);
    var former := s.r2Key.value;
    hide Run, Claimable;
    ClaimMoves(start, s, next, lease, now, weather.claimHeard);
    if s == start.row {
      ClaimStands(start, next, lease, now, weather.claimHeard);
    }
    trace := Advance(vault, start, trace, SClaim(s, next, lease, now, weather.claimHeard));
    if !weather.claimHeard {
      return false, trace;
    }
    trace := Wait(vault, start, trace, between.afterClaim, next);
    sent, trace := CopyAndSend(vault, start, trace, former, next, iv, keyId, weather.putFails, between);
  }

  /** From the claim on: nothing to copy, a copy that could not be put, or the switch is on its way. */
  method CopyAndSend(vault: Vault, ghost start: World, ghost trace: seq<Step>, former: Key, next: Key, iv: Iv, keyId: KeyId,
                     putFails: bool, between: Between)
    returns (sent: bool, ghost longer: seq<Step>)
    requires vault.world == Run(start, trace) && Inv(start) && At(vault.world, next, former, {1})
    requires Foreign(between.afterPut, next) && Foreign(between.afterSend, next)
    modifies vault
    ensures vault.world == Run(start, longer)
    ensures sent ==> At(vault.world, next, former, {5}) && !putFails
    ensures Stands(old(vault.world), next, former, Claimed) && former !in old(vault.world).bucket ==>
              !sent && GivenBack(old(vault.world), vault.world) && vault.world.doomed == old(vault.world).doomed
    ensures Opens(old(vault.world), next, former) && between.afterPut == [] && between.afterSend == [] ==>
              var w, copy := old(vault.world), old(vault.world).bucket[former].(iv := iv, keyId := keyId);
              if putFails then !sent && GivenBack(w, vault.world) && vault.world.doomed == w.doomed + {next}
              else sent && vault.world.row == w.row && vault.world.bucket == w.bucket[next := copy] && vault.world.doomed == w.doomed
                   && vault.world.switched == w.switched && Stands(vault.world, next, former, Sent(copy))
  {
    if former !in vault.world.bucket {
      if Stands(vault.world, next, former, Claimed) {
        MissingGivesBack(vault.world, next, former);
      }
      hide Run, Apply, Inv, StageNumber, Stands, Grows;
      longer := Advance(vault, start, trace, SMissing(next));
      longer := Advance(vault, start, longer, SRelease(next));
      return false, longer;
    }
    ghost var copy := vault.world.bucket[former].(iv := iv, keyId := keyId);
    sent, longer := WriteCopy(vault, start, trace, former, next, iv, keyId, putFails);
    hide Run, Apply, Inv, StageNumber, Stands, Grows;
    if sent {
      longer := SendSwitch(vault, start, longer, former, next, copy, between);
    }
  }

  /** After the put: the switch is sent, and others act before and after. */
  method SendSwitch(vault: Vault, ghost start: World, ghost trace: seq<Step>, former: Key, next: Key, ghost copy: Cipher, between: Between)
    returns (ghost longer: seq<Step>)
    requires vault.world == Run(start, trace) && Inv(start) && At(vault.world, next, former, {4})
    requires Foreign(between.afterPut, next) && Foreign(between.afterSend, next)
    modifies vault
    ensures vault.world == Run(start, longer)
    ensures At(vault.world, next, former, {5})
    ensures Stands(old(vault.world), next, former, Ready(copy)) && between.afterPut == [] && between.afterSend == [] ==>
              Untouched(old(vault.world), vault.world) && vault.world.switched == old(vault.world).switched
              && Stands(vault.world, next, former, Sent(copy))
  {
    hide Run, Own, Inv, Foreign, Apply, StageNumber, Grows, Stands;
    longer := Wait(vault, start, trace, between.afterPut, next);
    PutStands(vault.world, next, former, copy);
    SendMoves(vault.world, next, former);
    longer := Advance(vault, start, longer, SSend(next));
    longer := Wait(vault, start, longer, between.afterSend, next);
  }

  /** Decrypts the former object and puts the copy; when either fails, deletes the copy and gives back. */
  method WriteCopy(vault: Vault, ghost start: World, ghost trace: seq<Step>, former: Key, next: Key, iv: Iv, keyId: KeyId, putFails: bool)
    returns (written: bool, ghost longer: seq<Step>)
    requires vault.world == Run(start, trace) && At(vault.world, next, former, {1}) && former in vault.world.bucket
    modifies vault
    ensures vault.world == Run(start, longer)
    ensures written ==> At(vault.world, next, former, {4}) && !putFails
    ensures Opens(old(vault.world), next, former) ==>
              var w, copy := old(vault.world), old(vault.world).bucket[former].(iv := iv, keyId := keyId);
              if putFails then !written && GivenBack(w, vault.world) && vault.world.doomed == w.doomed + {next}
              else written && vault.world.row == w.row && vault.world.bucket == w.bucket[next := copy] && vault.world.doomed == w.doomed
                   && vault.world.switched == w.switched && Stands(vault.world, next, former, Ready(copy))
  {
    ghost var opens, copy := Opens(vault.world, next, former), vault.world.bucket[former].(iv := iv, keyId := keyId);
    EncryptMoves(vault.world, next, former, iv, keyId);
    if opens {
      EncryptStands(vault.world, next, former, iv, keyId);
    }
    hide Run, Apply, StageNumber, Grows, Stands, Opens;
    longer := Advance(vault, start, trace, SEncrypt(next, iv, keyId));
    if opens {
      FailureGivesBack(vault.world, next, former, copy);
    }
    if putFails || !At(vault.world, next, former, {2}) {
      longer := Advance(vault, start, longer, SFail(next));
      longer := Advance(vault, start, longer, SRelease(next));
      return false, longer;
    }
    PutStands(vault.world, next, former, copy);
    PutMoves(vault.world, next, former);
    longer := Advance(vault, start, longer, SPutAcknowledged(next));
    return true, longer;
  }

  /** The row names the next object, the former one is still to be deleted. */
  predicate JustSwitched(w: World, v: World, next: Key, former: Key, copy: Cipher) {
    && v.row == w.row.(r2Key := Some(next), iv := copy.iv, keyId := copy.keyId, previous := Some(former), pending := None, lease := None)
    && v.bucket == w.bucket && v.doomed == w.doomed
  }

  /** What a worker on its own knows after the switch: that it committed when its reply or the read says
      so, and nothing when it never landed. */
  predicate Learns(w: World, v: World, known: bool, next: Key, former: Key, copy: Cipher, later: int, weather: Weather, beforeRead: seq<Step>) {
    && (weather.switchHeard && Switchable(w, next, later) ==> known && JustSwitched(w, v, next, former, copy))
    && (!weather.switchHeard && beforeRead == [SSwitchLands(next, later)] && Switchable(w, next, later) ==>
          (known <==> !weather.readFails) && JustSwitched(w, v, next, former, copy))
    && (beforeRead == [] && !(weather.switchHeard && Switchable(w, next, later)) ==> !known && Untouched(w, v))
  }

  /** How it ends: the former object is deleted exactly when the switch is known to have committed. */
  predicate SwitchEnds(w: World, v: World, outcome: Outcome, next: Key, former: Key, copy: Cipher, later: int,
                       weather: Weather, beforeRead: seq<Step>)
  {
    && (weather.switchHeard && Switchable(w, next, later) ==> outcome == Rotated && SwitchedOver(w, v, next, former, copy))
    && (!weather.switchHeard && beforeRead == [SSwitchLands(next, later)] && Switchable(w, next, later) ==>
          if weather.readFails then outcome == Threw && JustSwitched(w, v, next, former, copy)
          else outcome == Rotated && SwitchedOver(w, v, next, former, copy))
    && (beforeRead == [] && !(weather.switchHeard && Switchable(w, next, later)) ==> outcome == Threw && Untouched(w, v))
  }

  /** The switch, then its reply or the authoritative read. */
  method SwitchOrRead(vault: Vault, ghost start: World, ghost trace: seq<Step>, former: Key, next: Key, later: int,
                      weather: Weather, beforeRead: seq<Step>, ghost copy: Cipher)
    returns (known: bool, ghost longer: seq<Step>)
    requires vault.world == Run(start, trace) && Inv(start) && Foreign(beforeRead, next)
    requires At(vault.world, next, former, {5})
    modifies vault
    ensures vault.world == Run(start, longer)
    ensures known ==> At(vault.world, next, former, {6})
    ensures Stands(old(vault.world), next, former, Sent(copy)) && next != former && next !in old(vault.world).switched ==>
              Learns(old(vault.world), vault.world, known, next, former, copy, later, weather, beforeRead)
  {
    hide Run, Own, Inv, Foreign, Apply, StageNumber, Switchable, Stands, Grows;
    ghost var before := vault.world;
    if Stands(before, next, former, Sent(copy)) && next != former && next !in before.switched {
      SwitchMisses(before, next, former, copy, later);
      if Switchable(before, next, later) {
        SwitchTakes(before, next, former, copy, later);
      }
    }
    longer := trace;
    if weather.switchHeard {
      SwitchMoves(vault.world, next, former, later);
      longer := Advance(vault, start, longer, SSwitchLands(next, later));
      SwitchMoves(vault.world, next, former, later);
      longer := Advance(vault, start, longer, SConfirm(next));
    }
    if At(vault.world, next, former, {6}) {
      return true, longer;
    }
    longer := Wait(vault, start, longer, beforeRead, next);
    var step := if weather.readFails then SGiveUp(next) else SLearn(next);
    ReadMoves(vault.world, next, former, step);
    longer := Advance(vault, start, longer, step);
    return At(vault.world, next, former, {6}), longer;
  }

  /** From the switch on: its reply, or the authoritative read when it failed or went unheard, and
      then the former object's deletion, only once the switch is known to have committed. */
  method SwitchAndDelete(vault: Vault, ghost start: World, ghost trace: seq<Step>, former: Key, next: Key, later: int,
                         weather: Weather, beforeRead: seq<Step>, ghost copy: Cipher)
    returns (outcome: Outcome, ghost longer: seq<Step>)
    requires vault.world == Run(start, trace) && Inv(start) && Foreign(beforeRead, next)
    requires At(vault.world, next, former, {5})
    modifies vault
    ensures vault.world == Run(start, longer)
    ensures outcome == Rotated ==> former in vault.world.retired && former in vault.world.doomed
    ensures outcome != NotClaimed
    ensures Stands(old(vault.world), next, former, Sent(copy)) && next != former && next !in old(vault.world).switched ==>
              SwitchEnds(old(vault.world), vault.world, outcome, next, former, copy, later, weather, beforeRead)
  {
    var known;
    known, longer := SwitchOrRead(vault, start, trace, former, next, later, weather, beforeRead, copy);
    if !known {
      return Threw, longer;
    }
    if vault.world.row.r2Key == Some(next) && vault.world.row.previous == Some(former) && next != former {
      DeleteEnds(vault.world, next, former);
    }
    CleaningIsRetired(start, longer, vault.world, next, former);
    DeleteMoves(vault.world, next, former);
    hide Run, Own, Inv, Foreign, Apply, StageNumber, Switchable, Stands;
    longer := Advance(vault, start, longer, SDeleteFormer(next));
    longer := Advance(vault, start, longer, SDeleteLands(former));
    longer := Advance(vault, start, longer, SClearPrevious(next));
    return Rotated, longer;
  }

  lemma CleaningIsRetired(start: World, trace: seq<Step>, w: World, next: Key, former: Key)
    requires Inv(start) && w == Run(start, trace) && At(w, next, former, {6})
    ensures former in w.retired
  {
    RunKeeps(start, trace);
    assert RotationOk(w, next);
  }
}
