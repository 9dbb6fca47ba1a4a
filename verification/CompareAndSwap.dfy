/** Records that only change through pure transitions committed by a revision compare-and-swap, by any
    number of workers holding copies of any age. */
module CompareAndSwap {
  import opened Texts

  /** A point in time as JavaScript has it; comparisons with an invalid date are false. */
  datatype Clock = At(ms: int) | InvalidDate

  predicate Lt(a: Clock, b: Clock) {
    a.At? && b.At? && a.ms < b.ms
  }

  predicate Le(a: Clock, b: Clock) {
    a.At? && b.At? && a.ms <= b.ms
  }

  type Transition<!T, !I> = (T, I) -> Option<T>

  /** One transition after the other, as long as all are allowed. */
  function RunAll<T, I>(step: Transition<T, I>, record: T, inputs: seq<I>): Option<T>
    decreases |inputs|
  {
    if inputs == [] then Some(record)
    else
      match RunAll(step, record, inputs[..|inputs| - 1])
      case None => None
      case Some(last) => step(last, inputs[|inputs| - 1])
  }

  /** Every allowed transition raises the revision by one. */
  ghost predicate Counts<T(!new), I(!new)>(step: Transition<T, I>, revision: T -> nat) {
    forall t, i :: step(t, i).Some? ==> revision(step(t, i).value) == revision(t) + 1
  }

  lemma {:induction false} RunRaisesRevision<T(!new), I(!new)>(step: Transition<T, I>, revision: T -> nat, record: T, inputs: seq<I>)
    requires Counts(step, revision) && RunAll(step, record, inputs).Some?
    ensures revision(RunAll(step, record, inputs).value) == revision(record) + |inputs|
    decreases |inputs|
  {
    if inputs != [] {
      RunRaisesRevision(step, revision, record, inputs[..|inputs| - 1]);
    }
  }

  /** The stored record, the copies that workers hold, and the transitions committed so far. */
  datatype Shared<T, I> = Shared(stored: T, copies: map<nat, T>, committed: seq<I>)

  /** A worker loads the record, or computes a transition from its copy and swaps it in if the stored
      revision is still the copy's. A failed swap changes nothing. */
  datatype Action<I> = Load(worker: nat) | Swap(worker: nat, input: I)

  function Act<T, I>(s: Shared<T, I>, action: Action<I>, step: Transition<T, I>, revision: T -> nat): Shared<T, I> {
    match action
    case Load(w) => s.(copies := s.copies[w := s.stored])
    case Swap(w, input) =>
      if w in s.copies && step(s.copies[w], input).Some? && revision(s.copies[w]) == revision(s.stored)
      then s.(stored := step(s.copies[w], input).value, committed := s.committed + [input])
      else s
  }

  function ActAll<T, I>(s: Shared<T, I>, actions: seq<Action<I>>, step: Transition<T, I>, revision: T -> nat): Shared<T, I>
    decreases |actions|
  {
    if actions == [] then s else ActAll(Act(s, actions[0], step, revision), actions[1..], step, revision)
  }

  /** A swap of a copy just loaded commits whatever is allowed; a stale one changes nothing. */
  lemma SwapExactly<T, I>(s: Shared<T, I>, w: nat, input: I, step: Transition<T, I>, revision: T -> nat)
    ensures step(s.stored, input).Some? ==>
              Act(Act(s, Load(w), step, revision), Swap(w, input), step, revision)
              == Shared(step(s.stored, input).value, s.copies[w := s.stored], s.committed + [input])
    ensures step(s.stored, input).None? ==>
              Act(Act(s, Load(w), step, revision), Swap(w, input), step, revision) == Act(s, Load(w), step, revision)
    ensures w in s.copies && revision(s.copies[w]) != revision(s.stored) ==> Act(s, Swap(w, input), step, revision) == s
  {
  }

  /** The stored record is the sequential run of what was committed, and a copy with the stored
      revision is the stored record itself. */
  ghost predicate Sequential<T, I>(s: Shared<T, I>, initial: T, step: Transition<T, I>, revision: T -> nat) {
    && RunAll(step, initial, s.committed) == Some(s.stored)
    && forall w | w in s.copies ::
         revision(s.copies[w]) <= revision(s.stored) && (revision(s.copies[w]) == revision(s.stored) ==> s.copies[w] == s.stored)
  }

  lemma ActKeepsSequential<T(!new), I(!new)>(s: Shared<T, I>, action: Action<I>, initial: T, step: Transition<T, I>, revision: T -> nat)
    requires Counts(step, revision) && Sequential(s, initial, step, revision)
    ensures Sequential(Act(s, action, step, revision), initial, step, revision)
  {
    var next := Act(s, action, step, revision);
    if next.committed != s.committed {
      assert next.committed[..|s.committed|] == s.committed;
    }
  }

  /** Whatever the workers do, the stored record is a sequential run of the committed transitions, and
      each revision was consumed by exactly one of them. */
  lemma {:induction false} WorkersAreSequential<T(!new), I(!new)>(s: Shared<T, I>, actions: seq<Action<I>>, initial: T,
                                                                  step: Transition<T, I>, revision: T -> nat)
    requires Counts(step, revision) && Sequential(s, initial, step, revision)
    ensures var v := ActAll(s, actions, step, revision);
            && Sequential(v, initial, step, revision)
            && revision(v.stored) == revision(initial) + |v.committed|
    decreases |actions|
  {
    if actions == [] {
      RunRaisesRevision(step, revision, initial, s.committed);
    } else {
      ActKeepsSequential(s, actions[0], initial, step, revision);
      WorkersAreSequential(Act(s, actions[0], step, revision), actions[1..], initial, step, revision);
    }
  }
}
