/** The audited transaction: "change, check, append" as one all-or-nothing batch over any
    tables `S`, with an audit trail whose payloads are any `E`. */
module AuditBatch {
  import opened Texts

  const GENESIS: Text := Ascii("GENESIS")

  datatype Entry<+E> = Entry(payload: E, previousHash: Text, eventHash: Text)

  datatype Store<+S, +E> = Store(data: S, audit: seq<Entry<E>>)

  /** What one SQL statement does: abort on a constraint, or a new state and a row count. */
  datatype Effect<+S> = Abort | Done(next: S, changes: nat)

  type Statement<!S> = S -> Effect<S>

  type Condition<!S, !E> = Store<S, E> -> bool

  datatype Rejection = StatementAborted | GuardRejected | HeadChanged

  datatype Outcome<+S, +E> = Committed(store: Store<S, E>) | Rejected(why: Rejection)

  function Head<E>(audit: seq<Entry<E>>): Text {
    if audit == [] then GENESIS else audit[|audit| - 1].eventHash
  }

  /** Every event names the hash of the event before it, GENESIS at the start. */
  ghost predicate Linked<E>(audit: seq<Entry<E>>) {
    forall i | 0 <= i < |audit| :: audit[i].previousHash == Head(audit[..i])
  }

  /** The statements in order; row counts add up, and the first abort ends the run. */
  function RunStatements<S>(statements: seq<Statement<S>>, data: S): Effect<S> {
    if statements == [] then Done(data, 0)
    else
      match statements[0](data)
      case Abort => Abort
      case Done(next, changes) =>
        match RunStatements(statements[1..], next)
        case Abort => Abort
        case Done(last, more) => Done(last, changes + more)
  }

  /** The row count each statement reports to the caller of a batch that ran to its end. */
  function RowCounts<S>(statements: seq<Statement<S>>, data: S): seq<nat> {
    if statements == [] then []
    else
      match statements[0](data)
      case Abort => []
      case Done(next, changes) => [changes] + RowCounts(statements[1..], next)
  }

  /** One batch on the store it meets: the mutations, the guard check, the event insert
      (which the append-only trigger refuses when the head has moved). */
  function Attempt<S, E>(store: Store<S, E>, statements: seq<Statement<S>>,
                         condition: Option<Condition<S, E>>, entry: Entry<E>): Outcome<S, E>
  {
    match RunStatements(statements, store.data)
    case Abort => Rejected(StatementAborted)
    case Done(next, changes) =>
      var mid := Store(next, store.audit);
      if condition.Some? && statements != [] && changes != 0 && !condition.value(mid) then Rejected(GuardRejected)
      else if condition.Some? && (if statements != [] then changes == 0 else !condition.value(mid)) then Committed(mid)
      else if entry.previousHash != Head(store.audit) then Rejected(HeadChanged)
      else Committed(mid.(audit := store.audit + [entry]))
  }

  /** A statement that reports no changed row changed nothing. */
  ghost predicate Honest<S(!new)>(statement: Statement<S>) {
    forall d :: statement(d).Done? && statement(d).changes == 0 ==> statement(d).next == d
  }

  lemma {:induction false} NoRowsNoChange<S(!new)>(statements: seq<Statement<S>>, data: S)
    requires forall s | s in statements :: Honest(s)
    requires RunStatements(statements, data).Done? && RunStatements(statements, data).changes == 0
    ensures RunStatements(statements, data).next == data
  {
    if statements != [] {
      assert Honest(statements[0]);
      NoRowsNoChange(statements[1..], statements[0](data).next);
    }
  }

  /** A committed conditional batch either touched nothing and logged nothing, or changed rows,
      met its condition right after the mutations, and logged exactly one event linked to the head. */
  lemma ConditionalBatchCommits<S(!new), E(!new)>(store: Store<S, E>, statements: seq<Statement<S>>,
                                                  condition: Condition<S, E>, entry: Entry<E>, next: Store<S, E>)
    requires forall s | s in statements :: Honest(s)
    requires statements != []
    requires Attempt(store, statements, Some(condition), entry) == Committed(next)
    ensures next == store
            || (&& condition(next.(audit := store.audit))
                && RunStatements(statements, store.data).changes > 0
                && next.audit == store.audit + [entry]
                && entry.previousHash == Head(store.audit))
    ensures RunStatements(statements, store.data).changes == 0 <==> next.audit == store.audit
  {
    if RunStatements(statements, store.data).changes == 0 {
      NoRowsNoChange(statements, store.data);
    }
  }

  /** When a batch is refused, and that otherwise it commits with its event: an abort before all else, a
      guard whose condition fails after changed rows, and a head that has moved. */
  lemma RefusedExactly<S, E>(store: Store<S, E>, statements: seq<Statement<S>>, condition: Option<Condition<S, E>>, entry: Entry<E>)
    ensures var run, outcome := RunStatements(statements, store.data), Attempt(store, statements, condition, entry);
            && (outcome == Rejected(StatementAborted) <==> run == Abort)
            && (outcome == Rejected(GuardRejected) <==>
                  condition.Some? && statements != [] && run.Done? && run.changes > 0 && !condition.value(Store(run.next, store.audit)))
            && (outcome == Rejected(HeadChanged) ==> entry.previousHash != Head(store.audit))
            && (run.Done? && entry.previousHash == Head(store.audit) && statements != []
                && (condition.None? || (run.changes > 0 && condition.value(Store(run.next, store.audit)))) ==>
                  outcome == Committed(Store(run.next, store.audit + [entry])))
  {
  }

  lemma AttemptKeepsLinks<S, E>(store: Store<S, E>, statements: seq<Statement<S>>,
                                condition: Option<Condition<S, E>>, entry: Entry<E>, next: Store<S, E>)
    requires Linked(store.audit)
    requires Attempt(store, statements, condition, entry) == Committed(next)
    ensures Linked(next.audit)
    ensures next.audit == store.audit || next.audit == store.audit + [entry]
  {
    if next.audit == store.audit + [entry] && next.audit != store.audit {
      forall i | 0 <= i < |next.audit|
        ensures next.audit[i].previousHash == Head(next.audit[..i])
      {
        assert next.audit[..i] == store.audit[..i];
      }
    }
  }

  lemma RunFirst<S>(statements: seq<Statement<S>>, data: S)
    requires statements != []
    ensures RunStatements(statements, data) ==
            match statements[0](data)
            case Abort => Abort
            case Done(next, changes) =>
              match RunStatements(statements[1..], next)
              case Abort => Abort
              case Done(last, more) => Done(last, changes + more)
    ensures RowCounts(statements, data) ==
            match statements[0](data)
            case Abort => []
            case Done(next, changes) => [changes] + RowCounts(statements[1..], next)
  {
  }

  lemma RunNone<S>(data: S)
    ensures RunStatements([], data) == Done(data, 0) && RowCounts([], data) == []
  {
  }

  /** Unfoldings for the batches of one, two and three statements that the callers send. */
  lemma RunOne<S>(a: Statement<S>, data: S)
    ensures RunStatements([a], data) == a(data)
  {
    assert [a][1..] == [];
  }

  lemma RunTwo<S>(a: Statement<S>, b: Statement<S>, data: S)
    ensures RunStatements([a, b], data) ==
            match a(data)
            case Abort => Abort
            case Done(d, n) =>
              match b(d)
              case Abort => Abort
              case Done(e, m) => Done(e, n + m)
  {
    assert [a, b][1..] == [b];
    if a(data).Done? {
      RunOne(b, a(data).next);
    }
  }

  lemma RunThree<S>(a: Statement<S>, b: Statement<S>, c: Statement<S>, data: S)
    ensures RunStatements([a, b, c], data) ==
            match a(data)
            case Abort => Abort
            case Done(d, n) =>
              match b(d)
              case Abort => Abort
              case Done(e, m) =>
                match c(e)
                case Abort => Abort
                case Done(f, k) => Done(f, n + m + k)
  {
    assert [a, b, c][1..] == [b, c];
    if a(data).Done? {
      RunTwo(b, c, a(data).next);
    }
  }

  lemma CountOne<S>(a: Statement<S>, data: S)
    requires a(data).Done?
    ensures RowCounts([a], data) == [a(data).changes]
  {
    assert [a][1..] == [];
  }

  lemma CountThree<S>(a: Statement<S>, b: Statement<S>, c: Statement<S>, data: S)
    requires a(data).Done? && b(a(data).next).Done? && c(b(a(data).next).next).Done?
    ensures RowCounts([a, b, c], data) == [a(data).changes, b(a(data).next).changes, c(b(a(data).next).next).changes]
  {
    assert [a, b, c][1..] == [b, c] && [b, c][1..] == [c];
    CountOne(c, b(a(data).next).next);
  }

  /** The event the writer prepares from the head it read. */
  function Prepare<E>(payload: E, observedHead: Text, seal: (E, Text) -> Text): Entry<E> {
    Entry(payload, observedHead, seal(payload, observedHead))
  }

  /** The store after other writers have acted before each of the first k attempts. */
  ghost function Interfered<S, E>(store: Store<S, E>, others: (nat, Store<S, E>) -> Store<S, E>, k: nat): Store<S, E> {
    if k == 0 then store else others(k - 1, Interfered(store, others, k - 1))
  }

  /** The outcome of attempt k: its head was read before, its batch runs after, others acted. */
  ghost function AttemptAt<S, E>(store: Store<S, E>, others: (nat, Store<S, E>) -> Store<S, E>, k: nat,
                                 draft: nat -> E, seal: (E, Text) -> Text,
                                 statements: seq<Statement<S>>, condition: Option<Condition<S, E>>): Outcome<S, E>
  {
    Attempt(Interfered(store, others, k + 1), statements, condition,
            Prepare(draft(k), Head(Interfered(store, others, k).audit), seal))
  }

  /** The tables and the audit trail that the batches update in place. */
  class Database<S, E> {
    var data: S
    var audit: seq<Entry<E>>

    constructor (data: S)
      ensures View() == Store(data, [])
    {
      this.data := data;
      this.audit := [];
    }

    ghost function View(): Store<S, E>
      reads this
    {
      Store(data, audit)
    }

    /** One SQLite batch: statement by statement in place, restored as a whole on any abort. */
    method Batch(statements: seq<Statement<S>>, condition: Option<Condition<S, E>>, entry: Entry<E>)
      returns (failure: Option<Rejection>, changes: seq<nat>)
      modifies this
      ensures match Attempt(old(View()), statements, condition, entry)
              case Committed(next) => failure == None && View() == next && changes == RowCounts(statements, old(data))
              case Rejected(why) => failure == Some(why) && View() == old(View())
    {
      hide RunStatements, RowCounts;
      var before := data;
      var total := 0;
      changes := [];
      assert statements[0..] == statements;
      while |changes| < |statements|
        invariant |changes| <= |statements|
        invariant audit == old(audit) && before == old(data)
        invariant RowCounts(statements, before) == changes + RowCounts(statements[|changes|..], data)
        invariant match RunStatements(statements[|changes|..], data)
                  case Abort => RunStatements(statements, before) == Abort
                  case Done(last, more) => RunStatements(statements, before) == Done(last, total + more)
      {
        var rest := statements[|changes|..];
        assert rest[1..] == statements[|changes| + 1..];
        RunFirst(rest, data);
        match rest[0](data) {
          case Abort =>
            data := before;
            return Some(StatementAborted), changes;
          case Done(next, n) =>
            data := next;
            total := total + n;
            changes := changes + [n];
        }
      }
      RunNone<S>(data);
      assert statements[|changes|..] == [];
      if condition.Some? {
        var holds := condition.value(Store(data, audit));
        if statements != [] && total != 0 && !holds {
          data := before;
          return Some(GuardRejected), changes;
        }
        if (if statements != [] then total == 0 else !holds) {
          return None, changes;
        }
      }
      if entry.previousHash != Head(audit) {
        data := before;
        return Some(HeadChanged), changes;
      }
      audit := audit + [entry];
      return None, changes;
    }

    /** Three attempts; only a moved head is tried again. `others(k, _)` is what concurrent
        writers do between attempt k's head read and its batch. */
    method ExecuteAuditedBatch(draft: nat -> E, seal: (E, Text) -> Text,
                               statements: seq<Statement<S>>, condition: Option<Condition<S, E>>,
                               others: (nat, Store<S, E>) -> Store<S, E>)
      returns (failure: Option<Rejection>, attempt: nat, changes: seq<nat>)
      modifies this
      ensures attempt < 3
      ensures forall j | 0 <= j < attempt ::
                AttemptAt(old(View()), others, j, draft, seal, statements, condition) == Rejected(HeadChanged)
      ensures match AttemptAt(old(View()), others, attempt, draft, seal, statements, condition)
              case Committed(next) =>
                && failure == None && View() == next
                && changes == RowCounts(statements, Interfered(old(View()), others, attempt + 1).data)
              case Rejected(why) =>
                && failure == Some(why)
                && View() == Interfered(old(View()), others, attempt + 1)
                && (why == HeadChanged ==> attempt == 2)
    {
      attempt := 0;
      while true
        invariant attempt < 3
        invariant View() == Interfered(old(View()), others, attempt)
        invariant forall j | 0 <= j < attempt ::
                    AttemptAt(old(View()), others, j, draft, seal, statements, condition) == Rejected(HeadChanged)
        decreases 3 - attempt
      {
        var entry := Prepare(draft(attempt), Head(audit), seal);
        var left := others(attempt, Store(data, audit));
        data, audit := left.data, left.audit;
        failure, changes := Batch(statements, condition, entry);
        if failure != Some(HeadChanged) || attempt == 2 {
          return;
        }
        attempt := attempt + 1;
      }
    }
  }
}
