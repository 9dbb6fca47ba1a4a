/** How failed key rotations are counted and put off. */
module RotationRetry {
  import opened Powers
  import opened Texts

  type Id = nat

  datatype Status = Retrying | ActionRequired | Resolved

  datatype Attempts = Attempts(count: nat, status: Status, nextAttemptAt: Option<int>)

  const MAX_COUNT := 1_000_000
  const MINUTE := 60_000
  const DAY := 24 * 60

  function DelayMinutes(count: nat): int {
    Min(DAY, 5 * Pow2(Min(count, 9)))
  }

  /** The record after one more failure. */
  function Fail(previous: Option<Attempts>, at: int, actionRequiredAfter: int): Attempts {
    var raw := if previous.Some? && previous.value.status.Resolved? then 1
               else (if previous.Some? then previous.value.count else 0) + 1;
    var count := Min(if raw < 1 then 1 else raw, MAX_COUNT);
    Attempts(count, if count >= actionRequiredAfter then ActionRequired else Retrying,
             Some(at + DelayMinutes(count) * MINUTE))
  }

  /** Failures at the given times, one after the other. */
  function FailAll(previous: Option<Attempts>, times: seq<int>, actionRequiredAfter: int): Option<Attempts> {
    if times == [] then previous
    else Some(Fail(FailAll(previous, times[..|times| - 1], actionRequiredAfter), times[|times| - 1], actionRequiredAfter))
  }

  /** From no record or a resolved one, n failures in a row are counted as n up to the limit; action is
      required exactly once enough have failed; and the next attempt waits from the last failure on,
      ten minutes at first, doubling, a day at most. */
  lemma {:induction false} FailuresCount(previous: Option<Attempts>, times: seq<int>, actionRequiredAfter: int)
    requires previous.None? || previous.value.status.Resolved?
    requires times != [] && 1 <= actionRequiredAfter
    ensures var r := FailAll(previous, times, actionRequiredAfter);
            && r.Some? && r.value.count == Min(|times|, 1_000_000)
            && (r.value.status.ActionRequired? <==> Min(|times|, 1_000_000) >= actionRequiredAfter) && !r.value.status.Resolved?
            && r.value.nextAttemptAt == Some(times[|times| - 1] + DelayMinutes(r.value.count) * 60_000)
            && 10 <= DelayMinutes(r.value.count) <= 1_440
  {
    var before := times[..|times| - 1];
    if before != [] {
      FailuresCount(previous, before, actionRequiredAfter);
    }
    DelayInRange(Min(|times|, MAX_COUNT));
    hide DelayMinutes;
  }

  lemma DelayInRange(count: nat)
    requires count >= 1
    ensures 10 <= DelayMinutes(count) <= DAY
  {
    assert Pow2(1) == 2;
    PowersGrow(1, Min(count, 9));
  }

  /** Ten minutes at first, doubling up to the eighth failure, a day from the ninth on. */
  lemma DelayDoubles(count: nat)
    requires count >= 1
    ensures DelayMinutes(1) == 10 && (count >= 9 ==> DelayMinutes(count) == 1_440)
    ensures count <= 7 ==> DelayMinutes(count + 1) == 2 * DelayMinutes(count)
  {
    assert Pow2(1) == 2 && Pow2(8) == 256 && Pow2(9) == 512;
    if count <= 7 {
      PowersGrow(count + 1, 8);
    }
  }
}
