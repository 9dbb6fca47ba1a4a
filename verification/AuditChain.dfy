/** The audit chain and its paged verifier. `Sha` is any function that is injective and never yields
    the word GENESIS; `Mac` gives nothing when the named key is unavailable. */
module AuditChain {
  import opened Texts
  import opened JsonText
  import opened CanonicalJson
  import AuditBatch

  type Hash = Text -> Text
  type Mac = (Text, Text) -> Option<Text>

  const GENESIS: Text := AuditBatch.GENESIS

  datatype Row = Row(sequence: nat, id: Text, occurredAt: Text, actorId: Text, actorEmail: Text, action: Text,
                     resourceType: Text, resourceId: Text, detailsJson: Text, previousHash: Text,
                     eventHash: Text, signature: Text, hmacKeyId: Text)

  const ID: Text := Ascii("id")
  const OCCURRED_AT: Text := Ascii("occurredAt")
  const ACTOR_ID: Text := Ascii("actorId")
  const ACTOR_EMAIL: Text := Ascii("actorEmail")
  const ACTION: Text := Ascii("action")
  const RESOURCE_TYPE: Text := Ascii("resourceType")
  const RESOURCE_ID: Text := Ascii("resourceId")
  const DETAILS: Text := Ascii("details")
  const PREVIOUS_HASH: Text := Ascii("previousHash")

  /** The members that are hashed. */
  function Event(r: Row, details: Json): Json {
    Obj([Field(ID, Str(r.id)), Field(OCCURRED_AT, Str(r.occurredAt)), Field(ACTOR_ID, Str(r.actorId)),
         Field(ACTOR_EMAIL, Str(r.actorEmail)), Field(ACTION, Str(r.action)), Field(RESOURCE_TYPE, Str(r.resourceType)),
         Field(RESOURCE_ID, Str(r.resourceId)), Field(DETAILS, details), Field(PREVIOUS_HASH, Str(r.previousHash))])
  }

  /** Every string and key is well-formed UTF-16, so the serializer does not refuse the value. */
  predicate WellPaired(v: Json)
    decreases v
  {
    match v
    case Str(t) => Paired(t)
    case Arr(items) => forall i | 0 <= i < |items| :: WellPaired(items[i])
    case Obj(fields) => forall i | 0 <= i < |fields| :: Paired(fields[i].key) && WellPaired(fields[i].value)
    case _ => true
  }

  /** The serializer prints every hashed column beside the details. */
  predicate ColumnsPaired(r: Row) {
    && Paired(r.id) && Paired(r.occurredAt) && Paired(r.actorId) && Paired(r.actorEmail) && Paired(r.action)
    && Paired(r.resourceType) && Paired(r.resourceId) && Paired(r.previousHash)
  }

  /** `Thrown` is no answer of the source: printing the event of a row with an unpaired surrogate in
      another column throws, and the exception leaves the verifier. */
  datatype Reason = InvalidDetailsJson | NonCanonicalDetails | Thrown | ChainMismatch | CheckpointInvalid | VerificationLimitExceeded

  /** The checks on one row, in their order. */
  function Problem(row: Row, previousHash: Text, sha: Hash, mac: Mac): Option<Reason> {
    match Read(if row.detailsJson == [] then [LBRACE, RBRACE] else row.detailsJson)
    case None => Some(InvalidDetailsJson)
    case Some(details) =>
      if !WellPaired(details) || Canon(details) != row.detailsJson then Some(NonCanonicalDetails)
      else if !ColumnsPaired(row) then Some(Thrown)
      else
        var eventHash := sha(Canon(Event(row, details)));
        var signature := mac(eventHash, if row.hmacKeyId == [] then Ascii("legacy-v1") else row.hmacKeyId);
        if signature.None? || row.previousHash != previousHash || row.eventHash != eventHash || row.signature != signature.value
        then Some(ChainMismatch) else None
  }

  datatype Verdict = Verdict(valid: bool, checked: nat, anchoredAt: nat, failedAt: Option<nat>, reason: Option<Reason>)

  /** One pass over the rows, each against the hash of the row before it. */
  function Fold(rows: seq<Row>, previousHash: Text, anchoredAt: nat, verified: nat, sha: Hash, mac: Mac): Verdict
    decreases |rows|
  {
    if rows == [] then Verdict(true, anchoredAt + verified, anchoredAt, None, None)
    else if Problem(rows[0], previousHash, sha, mac).Some?
    then Verdict(false, anchoredAt + verified, anchoredAt, Some(rows[0].sequence), Problem(rows[0], previousHash, sha, mac))
    else Fold(rows[1..], rows[0].eventHash, anchoredAt, verified + 1, sha, mac)
  }

  predicate Increasing(table: seq<Row>) {
    forall i, j | 0 <= i < j < |table| :: table[i].sequence < table[j].sequence
  }

  /** The rows with a sequence above `after`. */
  function Above(table: seq<Row>, after: nat): (r: seq<Row>)
    ensures |r| <= |table|
  {
    if table == [] || table[0].sequence > after then table else Above(table[1..], after)
  }

  lemma {:induction false} AboveAdvances(table: seq<Row>, after: nat, k: nat)
    requires Increasing(table) && k < |Above(table, after)|
    ensures Above(table, Above(table, after)[k].sequence) == Above(table, after)[k + 1..]
    decreases |table|
  {
    if table[0].sequence > after {
      AboveItself(table, k);
    } else {
      AboveAdvances(table[1..], after, k);
      assert Above(table[1..], after)[k] in table[1..] by {
        AboveSuffix(table[1..], after);
      }
    }
  }

  lemma {:induction false} AboveSuffix(table: seq<Row>, after: nat)
    ensures var r := Above(table, after);
            r == table[|table| - |r|..]
  {
    if table != [] && table[0].sequence <= after {
      AboveSuffix(table[1..], after);
    }
  }

  lemma {:induction false} AboveItself(table: seq<Row>, k: nat)
    requires Increasing(table) && k < |table|
    ensures Above(table, table[k].sequence) == table[k + 1..]
  {
    if k == 0 {
      assert |table| > 1 ==> table[1..][0].sequence > table[0].sequence;
    } else {
      assert table[0].sequence <= table[k].sequence;
      AboveItself(table[1..], k - 1);
    }
  }

  datatype Checkpoint = Checkpoint(sequence: nat, eventHash: Text)

  const PAGE_SIZE := 500

  function Page(table: seq<Row>, after: nat): (r: seq<Row>)
    ensures |r| <= |Above(table, after)| && r == Above(table, after)[..|r|] && (r == [] ==> Above(table, after) == [])
  {
    var rows := Above(table, after);
    if |rows| <= PAGE_SIZE then rows else rows[..PAGE_SIZE]
  }

  function Anchor(checkpoint: Option<Checkpoint>): Checkpoint {
    if checkpoint.Some? then checkpoint.value else Checkpoint(0, GENESIS)
  }

  /** The answer in one pass. `latest` is what verifying the latest checkpoint returned. */
  function Answer(table: seq<Row>, checkpoint: Option<Checkpoint>, latest: (bool, nat), maximumEvents: nat, sha: Hash, mac: Mac): Verdict {
    var anchor := Anchor(checkpoint);
    if checkpoint.Some? && (!latest.0 || latest.1 != anchor.sequence)
    then Verdict(false, 0, 0, Some(anchor.sequence), Some(CheckpointInvalid))
    else if |Above(table, anchor.sequence)| > maximumEvents
    then Verdict(false, anchor.sequence, anchor.sequence, None, Some(VerificationLimitExceeded))
    else Fold(Above(table, anchor.sequence), anchor.eventHash, anchor.sequence, 0, sha, mac)
  }

  /** The paged verifier, which agrees with the single pass. */
  method VerifyAuditChain(table: seq<Row>, checkpoint: Option<Checkpoint>, latest: (bool, nat), maximumEvents: nat, sha: Hash, mac: Mac)
    returns (verdict: Verdict)
    requires Increasing(table)
    ensures verdict == Answer(table, checkpoint, latest, maximumEvents, sha, mac)
    ensures checkpoint.Some? && (!latest.0 || latest.1 != checkpoint.value.sequence) ==>
              verdict == Verdict(false, 0, 0, Some(checkpoint.value.sequence), Some(CheckpointInvalid))
    ensures checkpoint.None? && |Above(table, 0)| > maximumEvents ==>
              verdict == Verdict(false, 0, 0, None, Some(VerificationLimitExceeded))
  {
    hide Problem, Above, Page;
    var previousHash, anchoredAt: nat := GENESIS, 0;
    if checkpoint.Some? {
      if !latest.0 || latest.1 != checkpoint.value.sequence {
        return Verdict(false, 0, 0, Some(checkpoint.value.sequence), Some(CheckpointInvalid));
      }
      anchoredAt, previousHash := checkpoint.value.sequence, checkpoint.value.eventHash;
    }
    var count := |Above(table, anchoredAt)|;
    if count > maximumEvents {
      return Verdict(false, anchoredAt, anchoredAt, None, Some(VerificationLimitExceeded));
    }
    var verifiedTail: nat, afterSequence: nat := 0, anchoredAt;
    ghost var answer := Fold(Above(table, anchoredAt), previousHash, anchoredAt, 0, sha, mac);
    while verifiedTail < maximumEvents
      invariant verifiedTail + |Above(table, afterSequence)| == count
      invariant Fold(Above(table, afterSequence), previousHash, anchoredAt, verifiedTail, sha, mac) == answer
    {
      var rows := Page(table, afterSequence);
      if rows == [] {
        break;
      }
      ghost var rest := Above(table, afterSequence);
      ghost var before := verifiedTail;
      for index := 0 to |rows|
        invariant verifiedTail == before + index
        invariant Above(table, afterSequence) == rest[index..]
        invariant Fold(rest[index..], previousHash, anchoredAt, verifiedTail, sha, mac) == answer
      {
        var row := rows[index];
        assert row == rest[index..][0] && rest[index..][1..] == rest[index + 1..];
        AboveAdvances(table, afterSequence, 0);
        var problem := Problem(row, previousHash, sha, mac);
        if problem.Some? {
          return Verdict(false, anchoredAt + verifiedTail, anchoredAt, Some(row.sequence), problem);
        }
        previousHash, afterSequence, verifiedTail := row.eventHash, row.sequence, verifiedTail + 1;
      }
    }
    return Verdict(true, anchoredAt + verifiedTail, anchoredAt, None, None);
  }

  // ---- what the verifier accepts ----

  function Before(rows: seq<Row>, previousHash: Text, i: nat): Text
    requires i <= |rows|
  {
    if i == 0 then previousHash else rows[i - 1].eventHash
  }

  lemma {:induction false} FoldAccepts(rows: seq<Row>, previousHash: Text, anchoredAt: nat, verified: nat, sha: Hash, mac: Mac)
    ensures Fold(rows, previousHash, anchoredAt, verified, sha, mac).valid
            <==> forall i | 0 <= i < |rows| :: Problem(rows[i], Before(rows, previousHash, i), sha, mac).None?
    ensures Fold(rows, previousHash, anchoredAt, verified, sha, mac).valid ==>
              Fold(rows, previousHash, anchoredAt, verified, sha, mac) == Verdict(true, anchoredAt + verified + |rows|, anchoredAt, None, None)
    decreases |rows|
  {
    hide Problem;
    if rows != [] {
      var rest := rows[1..];
      FoldAccepts(rest, rows[0].eventHash, anchoredAt, verified + 1, sha, mac);
      assert forall i | 0 < i < |rows| :: rows[i] == rest[i - 1] && Before(rows, previousHash, i) == Before(rest, rows[0].eventHash, i - 1);
      assert Problem(rows[0], Before(rows, previousHash, 0), sha, mac) == Problem(rows[0], previousHash, sha, mac);
      if forall i | 0 <= i < |rows| :: Problem(rows[i], Before(rows, previousHash, i), sha, mac).None? {
        forall i | 0 <= i < |rest| ensures Problem(rest[i], Before(rest, rows[0].eventHash, i), sha, mac).None? {
          assert Problem(rows[i + 1], Before(rows, previousHash, i + 1), sha, mac).None?;
        }
      }
    }
  }

  // ---- the writer's tables are accepted ----

  /** What the writer is asked to log, and the key it signs with. */
  datatype Draft = Draft(id: Text, occurredAt: Text, actorId: Text, actorEmail: Text, action: Text,
                         resourceType: Text, resourceId: Text, details: Json, hmacKeyId: Text)

  function RowOf(sequence: nat, d: Draft, previousHash: Text, eventHash: Text, mac: Mac): Row {
    var signature := mac(eventHash, d.hmacKeyId);
    Row(sequence, d.id, d.occurredAt, d.actorId, d.actorEmail, d.action, d.resourceType, d.resourceId, Canon(d.details),
        previousHash, eventHash, if signature.Some? then signature.value else [], d.hmacKeyId)
  }

  /** The hash that the writer computes from the details it was given. */
  function Seal(sha: Hash): (Draft, Text) -> Text {
    (d: Draft, previousHash: Text) => sha(Canon(Event(RowOf(0, d, previousHash, [], (h: Text, k: Text) => None), d.details)))
  }

  /** An event that the serializer prints, a hash in hexadecimal, and a key that is available. */
  predicate Loggable(d: Draft, eventHash: Text, mac: Mac) {
    && Wellformed(d.details) && WellPaired(d.details) && Paired(eventHash) && d.hmacKeyId != [] && mac(eventHash, d.hmacKeyId).Some?
    && ColumnsPaired(RowOf(0, d, GENESIS, eventHash, mac))
  }

  /** A trail that audited batches can leave: linked, each entry sealed by the writer. */
  ghost predicate Produced(audit: seq<AuditBatch.Entry<Draft>>, sha: Hash, mac: Mac) {
    && AuditBatch.Linked(audit)
    && forall i | 0 <= i < |audit| ::
         audit[i].eventHash == Seal(sha)(audit[i].payload, audit[i].previousHash) && Loggable(audit[i].payload, audit[i].eventHash, mac)
  }

  /** One more committed batch keeps a trail one that the writer can leave. */
  lemma BatchKeepsProduced<S>(store: AuditBatch.Store<S, Draft>, statements: seq<AuditBatch.Statement<S>>,
                              condition: Option<AuditBatch.Condition<S, Draft>>, draft: Draft, head: Text, sha: Hash, mac: Mac,
                              next: AuditBatch.Store<S, Draft>)
    requires Produced(store.audit, sha, mac) && Loggable(draft, Seal(sha)(draft, head), mac)
    requires AuditBatch.Attempt(store, statements, condition, AuditBatch.Prepare(draft, head, Seal(sha))) == AuditBatch.Committed(next)
    ensures Produced(next.audit, sha, mac)
  {
    AuditBatch.AttemptKeepsLinks(store, statements, condition, AuditBatch.Prepare(draft, head, Seal(sha)), next);
    hide AuditBatch.Attempt;
  }

  predicate Numbering(numbers: seq<nat>) {
    (forall i | 0 <= i < |numbers| :: numbers[i] > 0) && forall i, j | 0 <= i < j < |numbers| :: numbers[i] < numbers[j]
  }

  /** The table that holds the trail under the given sequence numbers. */
  function Table(audit: seq<AuditBatch.Entry<Draft>>, numbers: seq<nat>, mac: Mac): (r: seq<Row>)
    requires |numbers| == |audit|
    ensures |r| == |audit|
    ensures forall i | 0 <= i < |r| :: r[i] == RowOf(numbers[i], audit[i].payload, audit[i].previousHash, audit[i].eventHash, mac)
  {
    seq(|audit|, i requires 0 <= i < |audit| => RowOf(numbers[i], audit[i].payload, audit[i].previousHash, audit[i].eventHash, mac))
  }

  lemma {:induction false} NormalizePaired(v: Json)
    requires WellPaired(v)
    ensures WellPaired(Normalize(v))
    decreases v
  {
    match v
    case Arr(items) =>
      forall i | 0 <= i < |items| ensures WellPaired(NormalItems(items)[i]) { NormalizePaired(items[i]); }
    case Obj(fields) =>
      var normal := NormalFields(fields);
      var sorted := SortFields(normal);
      SortMembers(normal);
      forall i | 0 <= i < |fields| ensures WellPaired(normal[i].value) { NormalizePaired(fields[i].value); }
      forall i | 0 <= i < |sorted| ensures Paired(sorted[i].key) && WellPaired(sorted[i].value) { assert sorted[i] in normal; }
    case _ =>
  }

  lemma NormalizeReplaces(fields: seq<Field<Json>>, i: nat, value: Json)
    requires i < |fields| && Normalize(value) == Normalize(fields[i].value)
    ensures Canon(Obj(fields[i := Field(fields[i].key, value)])) == Canon(Obj(fields))
  {
    var other := fields[i := Field(fields[i].key, value)];
    assert NormalFields(other) == NormalFields(fields);
    CanonWrites(Obj(fields));
    CanonWrites(Obj(other));
  }

  /** The hash does not depend on the order in which the details came. */
  lemma EventIgnoresOrder(r: Row, details: Json)
    requires Wellformed(details)
    ensures Canon(Event(r, Normalize(details))) == Canon(Event(r, details))
  {
    NormalizeTwice(details);
    var a, b := Event(r, details), Event(r, Normalize(details));
    NormalizeReplaces(a.fields, 7, Normalize(details));
    hide Canon, Normalize;
    assert b.fields == a.fields[7 := Field(a.fields[7].key, Normalize(details))];
  }

  lemma EventOf(r: Row, q: Row, details: Json)
    requires r.(sequence := 0, detailsJson := [], eventHash := [], signature := [], hmacKeyId := [])
             == q.(sequence := 0, detailsJson := [], eventHash := [], signature := [], hmacKeyId := [])
    ensures Event(r, details) == Event(q, details)
  {
  }

  lemma RowAccepted(sequence: nat, d: Draft, previousHash: Text, sha: Hash, mac: Mac)
    requires Loggable(d, Seal(sha)(d, previousHash), mac) && Paired(previousHash)
    ensures Problem(RowOf(sequence, d, previousHash, Seal(sha)(d, previousHash), mac), previousHash, sha, mac).None?
  {
    var row := RowOf(sequence, d, previousHash, Seal(sha)(d, previousHash), mac);
    ReadUndoesCanon(d.details);
    CanonUndoesRead(d.details);
    NormalizePaired(d.details);
    EventIgnoresOrder(row, d.details);
    EventOf(row, RowOf(0, d, previousHash, [], (h: Text, k: Text) => None), d.details);
    CanonWrites(d.details);
    WriteStarts(Normalize(d.details));
    hide Read, Canon, Event, Normalize, Wellformed, WellPaired, Write, Paired;
    assert row.detailsJson != [];
  }

  lemma ProducedRows(audit: seq<AuditBatch.Entry<Draft>>, numbers: seq<nat>, sha: Hash, mac: Mac)
    requires Produced(audit, sha, mac) && |numbers| == |audit|
    ensures var table := Table(audit, numbers, mac);
            forall i | 0 <= i < |table| :: Problem(table[i], Before(table, GENESIS, i), sha, mac).None?
  {
    var table := Table(audit, numbers, mac);
    hide Problem, Canon, RowOf, Seal, Loggable;
    forall i | 0 <= i < |table|
      ensures Problem(table[i], Before(table, GENESIS, i), sha, mac).None?
    {
      var e := audit[i];
      assert e.previousHash == AuditBatch.Head(audit[..i]);
      PreviousPaired(audit, i, sha, mac);
      RowAccepted(numbers[i], e.payload, e.previousHash, sha, mac);
      RowKeeps(numbers, audit, mac, i);
    }
  }

  lemma PreviousPaired(audit: seq<AuditBatch.Entry<Draft>>, i: nat, sha: Hash, mac: Mac)
    requires Produced(audit, sha, mac) && i < |audit|
    ensures Paired(audit[i].previousHash)
  {
    assert audit[i].previousHash == AuditBatch.Head(audit[..i]);
    hide Seal, WellPaired, ColumnsPaired;
    if i > 0 {
      assert Loggable(audit[i - 1].payload, audit[i - 1].eventHash, mac);
    }
  }

  lemma RowKeeps(numbers: seq<nat>, audit: seq<AuditBatch.Entry<Draft>>, mac: Mac, i: nat)
    requires |numbers| == |audit| && i < |audit|
    ensures var table := Table(audit, numbers, mac);
            table[i].eventHash == audit[i].eventHash && table[i].sequence == numbers[i]
            && Before(table, GENESIS, i) == AuditBatch.Head(audit[..i])
  {
  }

  /** Every table that audited batches can leave is accepted, from GENESIS and from a checkpoint at
      any row alike, as long as the rows after it are within the limit. */
  lemma ProducedIsAccepted(audit: seq<AuditBatch.Entry<Draft>>, numbers: seq<nat>, k: nat, maximumEvents: nat, sha: Hash, mac: Mac)
    requires Produced(audit, sha, mac) && |numbers| == |audit| && Numbering(numbers)
    requires k <= |audit| && |audit| - k <= maximumEvents
    ensures var checkpoint := if k == 0 then None else Some(Checkpoint(numbers[k - 1], audit[k - 1].eventHash));
            var anchor := Anchor(checkpoint);
            Answer(Table(audit, numbers, mac), checkpoint, (true, anchor.sequence), maximumEvents, sha, mac)
            == Verdict(true, anchor.sequence + |audit| - k, anchor.sequence, None, None)
    ensures Fold(Table(audit, numbers, mac), GENESIS, 0, 0, sha, mac).valid
  {
    hide Problem, Produced, Fold, Above;
    var table := Table(audit, numbers, mac);
    ProducedRows(audit, numbers, sha, mac);
    FoldAccepts(table, GENESIS, 0, 0, sha, mac);
    forall i | 0 <= i < |table| ensures table[i].sequence == numbers[i] { RowKeeps(numbers, audit, mac, i); }
    if k > 0 { RowKeeps(numbers, audit, mac, k - 1); }
    hide Table;
    TailAccepted(table, k, sha, mac);
  }

  /** Where every row fits the one before it, the pass from any row on is accepted too. */
  lemma TailAccepted(table: seq<Row>, k: nat, sha: Hash, mac: Mac)
    requires k <= |table| && Increasing(table) && (|table| > 0 ==> table[0].sequence > 0)
    requires forall i | 0 <= i < |table| :: Problem(table[i], Before(table, GENESIS, i), sha, mac).None?
    ensures var after, hash := if k == 0 then 0 else table[k - 1].sequence, Before(table, GENESIS, k);
            && |Above(table, after)| == |table| - k
            && Fold(Above(table, after), hash, after, 0, sha, mac) == Verdict(true, after + |table| - k, after, None, None)
  {
    hide Problem;
    var tail, hash := table[k..], Before(table, GENESIS, k);
    if k == 0 {
      assert tail == table && Above(table, 0) == table;
    } else {
      AboveItself(table, k - 1);
    }
    forall i | 0 <= i < |tail|
      ensures Problem(tail[i], Before(tail, hash, i), sha, mac).None?
    {
      assert tail[i] == table[k + i] && Before(tail, hash, i) == Before(table, GENESIS, k + i);
    }
    FoldAccepts(tail, hash, if k == 0 then 0 else table[k - 1].sequence, 0, sha, mac);
  }

  // ---- what a row must be ----

  /** A row that belongs after the given hash: details in canonical form, columns that can be printed,
      the hash of the whole event, the predecessor's hash, and a signature of the hash under the row's
      own key, "legacy-v1" when it names none. */
  ghost predicate Genuine(row: Row, previousHash: Text, sha: Hash, mac: Mac) {
    && ColumnsPaired(row) && row.previousHash == previousHash
    && mac(row.eventHash, if row.hmacKeyId == [] then Ascii("legacy-v1") else row.hmacKeyId) == Some(row.signature)
    && exists details :: Describes(row, details) && row.eventHash == sha(Canon(Event(row, details)))
  }

  ghost predicate Describes(row: Row, details: Json) {
    Wellformed(details) && WellPaired(details) && Canon(details) == row.detailsJson
  }

  lemma DescribedIsRead(row: Row, details: Json)
    requires Describes(row, details)
    ensures Read(if row.detailsJson == [] then [LBRACE, RBRACE] else row.detailsJson) == Some(Normalize(details))
    ensures WellPaired(Normalize(details)) && Canon(Normalize(details)) == row.detailsJson
    ensures Canon(Event(row, Normalize(details))) == Canon(Event(row, details))
  {
    ReadUndoesCanon(details);
    CanonUndoesRead(details);
    NormalizePaired(details);
    EventIgnoresOrder(row, details);
    CanonWrites(details);
    WriteStarts(Normalize(details));
    hide Read, Canon, Event, Normalize, Wellformed, WellPaired, Write;
    assert row.detailsJson != [];
  }

  lemma PassesExactly(row: Row, previousHash: Text, sha: Hash, mac: Mac)
    ensures Problem(row, previousHash, sha, mac).None? <==> Genuine(row, previousHash, sha, mac)
  {
    if Problem(row, previousHash, sha, mac).None? {
      var details := Read(if row.detailsJson == [] then [LBRACE, RBRACE] else row.detailsJson).value;
      ReadWellformed(if row.detailsJson == [] then [LBRACE, RBRACE] else row.detailsJson);
      hide Read, Canon, Event, Wellformed, WellPaired, ColumnsPaired;
      assert Describes(row, details);
    }
    if Genuine(row, previousHash, sha, mac) {
      var details :| Describes(row, details) && row.eventHash == sha(Canon(Event(row, details)));
      DescribedIsRead(row, details);
      hide Read, Canon, Event, Normalize, Wellformed, WellPaired, ColumnsPaired, Describes;
    }
  }

  /** Which refusal a row gets: details that no reader takes, details in no canonical form, then the rest. */
  lemma RefusalReasons(row: Row, previousHash: Text, sha: Hash, mac: Mac)
    ensures Problem(row, previousHash, sha, mac) == Some(InvalidDetailsJson)
            <==> Read(if row.detailsJson == [] then [LBRACE, RBRACE] else row.detailsJson).None?
    ensures Problem(row, previousHash, sha, mac) in {None, Some(Thrown), Some(ChainMismatch)} <==> exists details :: Describes(row, details)
    ensures (exists details :: Describes(row, details)) ==>
              (Problem(row, previousHash, sha, mac) == Some(Thrown) <==> !ColumnsPaired(row))
  {
    var text := if row.detailsJson == [] then [LBRACE, RBRACE] else row.detailsJson;
    if Problem(row, previousHash, sha, mac) in {None, Some(Thrown), Some(ChainMismatch)} {
      ReadWellformed(text);
      hide Read, Canon, Event, Wellformed, WellPaired, ColumnsPaired;
      assert Describes(row, Read(text).value);
    }
    if details :| Describes(row, details) {
      DescribedIsRead(row, details);
      hide Read, Canon, Event, Normalize, Wellformed, WellPaired, ColumnsPaired, Describes;
    }
  }

  /** A table is accepted exactly when every row is genuine after the one before it. */
  lemma AcceptedExactly(rows: seq<Row>, previousHash: Text, anchoredAt: nat, verified: nat, sha: Hash, mac: Mac)
    ensures Fold(rows, previousHash, anchoredAt, verified, sha, mac).valid
            <==> forall i | 0 <= i < |rows| :: Genuine(rows[i], Before(rows, previousHash, i), sha, mac)
  {
    FoldAccepts(rows, previousHash, anchoredAt, verified, sha, mac);
    hide Problem, Genuine, Fold;
    forall i | 0 <= i < |rows|
      ensures Problem(rows[i], Before(rows, previousHash, i), sha, mac).None? <==> Genuine(rows[i], Before(rows, previousHash, i), sha, mac)
    {
      PassesExactly(rows[i], Before(rows, previousHash, i), sha, mac);
    }
  }

  /** A refusal names the first row that is not genuine and counts the rows before it. */
  lemma {:induction false} RefusedAtFirst(rows: seq<Row>, previousHash: Text, anchoredAt: nat, verified: nat, sha: Hash, mac: Mac, k: nat)
    requires k < |rows| && !Genuine(rows[k], Before(rows, previousHash, k), sha, mac)
    requires forall i | 0 <= i < k :: Genuine(rows[i], Before(rows, previousHash, i), sha, mac)
    ensures Fold(rows, previousHash, anchoredAt, verified, sha, mac)
            == Verdict(false, anchoredAt + verified + k, anchoredAt, Some(rows[k].sequence),
                       Problem(rows[k], Before(rows, previousHash, k), sha, mac))
    decreases k
  {
    hide Problem, Genuine, Fold, Before;
    var first := rows[0];
    PassesExactly(first, previousHash, sha, mac);
    FoldFirst(rows, previousHash, anchoredAt, verified, sha, mac);
    BeforeNext(rows, previousHash, 0);
    if k > 0 {
      var rest := rows[1..];
      BeforeNext(rows, previousHash, k);
      assert Genuine(first, Before(rows, previousHash, 0), sha, mac);
      forall i | 0 <= i < k - 1 ensures Genuine(rest[i], Before(rest, first.eventHash, i), sha, mac) {
        BeforeNext(rows, previousHash, i + 1);
        assert Genuine(rows[i + 1], Before(rows, previousHash, i + 1), sha, mac);
      }
      RefusedAtFirst(rest, first.eventHash, anchoredAt, verified + 1, sha, mac, k - 1);
    }
  }

  lemma BeforeNext(rows: seq<Row>, previousHash: Text, i: nat)
    requires i < |rows|
    ensures Before(rows, previousHash, i) == if i == 0 then previousHash else Before(rows[1..], rows[0].eventHash, i - 1)
  {
  }

  lemma FoldFirst(rows: seq<Row>, previousHash: Text, anchoredAt: nat, verified: nat, sha: Hash, mac: Mac)
    requires rows != []
    ensures Fold(rows, previousHash, anchoredAt, verified, sha, mac)
            == if Problem(rows[0], previousHash, sha, mac).Some?
               then Verdict(false, anchoredAt + verified, anchoredAt, Some(rows[0].sequence), Problem(rows[0], previousHash, sha, mac))
               else Fold(rows[1..], rows[0].eventHash, anchoredAt, verified + 1, sha, mac)
  {
    hide Problem;
  }

  /** Another signature or another hash in one row of an accepted table: refused there, as a mismatch. */
  lemma TamperedRowIsRefused(rows: seq<Row>, previousHash: Text, anchoredAt: nat, verified: nat, sha: Hash, mac: Mac, k: nat,
                             eventHash: Text, signature: Text)
    requires Fold(rows, previousHash, anchoredAt, verified, sha, mac).valid && k < |rows|
    requires eventHash != rows[k].eventHash || signature != rows[k].signature
    ensures Fold(rows[k := rows[k].(eventHash := eventHash, signature := signature)], previousHash, anchoredAt, verified, sha, mac)
            == Verdict(false, anchoredAt + verified + k, anchoredAt, Some(rows[k].sequence), Some(ChainMismatch))
  {
    var bad := rows[k].(eventHash := eventHash, signature := signature);
    var table := rows[k := bad];
    FoldAccepts(rows, previousHash, anchoredAt, verified, sha, mac);
    TamperedRow(rows[k], Before(rows, previousHash, k), sha, mac, eventHash, signature);
    hide Problem, Genuine, Fold;
    forall i | 0 <= i < k ensures Genuine(table[i], Before(table, previousHash, i), sha, mac) {
      assert table[i] == rows[i] && Before(table, previousHash, i) == Before(rows, previousHash, i);
      PassesExactly(rows[i], Before(rows, previousHash, i), sha, mac);
    }
    assert Before(table, previousHash, k) == Before(rows, previousHash, k);
    PassesExactly(bad, Before(rows, previousHash, k), sha, mac);
    RefusedAtFirst(table, previousHash, anchoredAt, verified, sha, mac, k);
  }

  lemma TamperedRow(row: Row, previousHash: Text, sha: Hash, mac: Mac, eventHash: Text, signature: Text)
    requires Problem(row, previousHash, sha, mac).None? && (eventHash != row.eventHash || signature != row.signature)
    ensures Problem(row.(eventHash := eventHash, signature := signature), previousHash, sha, mac) == Some(ChainMismatch)
  {
    var other := row.(eventHash := eventHash, signature := signature);
    EventOf(row, other, Read(if row.detailsJson == [] then [LBRACE, RBRACE] else row.detailsJson).value);
    hide Canon, Read, WellPaired, Event;
  }

  /** The rows the verifier looks at: those with a higher sequence, all of them, in their order. */
  lemma {:induction false} AboveExactly(table: seq<Row>, after: nat)
    requires Increasing(table)
    ensures var r := Above(table, after);
            && r == table[|table| - |r|..]
            && forall i | 0 <= i < |table| :: table[i].sequence > after <==> i >= |table| - |r|
  {
    if table != [] && table[0].sequence <= after {
      AboveExactly(table[1..], after);
      assert forall i | 0 < i < |table| :: table[i] == table[1..][i - 1];
    }
  }

  // ---- what an accepted table's head commits to ----

  ghost predicate Injective(sha: Hash) {
    (forall x, y :: sha(x) == sha(y) ==> x == y) && forall x :: sha(x) != GENESIS
  }

  /** The columns that are hashed, and the hash. */
  function Content(r: Row): Row {
    r.(sequence := 0, signature := [], hmacKeyId := [])
  }

  lemma KeysDiffer()
    ensures |ID| == 2 && |ACTOR_ID| == |DETAILS| == 7 && |ACTION| == 6
    ensures |OCCURRED_AT| == |ACTOR_EMAIL| == |RESOURCE_ID| == 10 && |RESOURCE_TYPE| == |PREVIOUS_HASH| == 12
    ensures ACTOR_ID[0] != DETAILS[0] && RESOURCE_TYPE[0] != PREVIOUS_HASH[0]
    ensures OCCURRED_AT[0] != ACTOR_EMAIL[0] && OCCURRED_AT[0] != RESOURCE_ID[0] && ACTOR_EMAIL[0] != RESOURCE_ID[0]
  {
  }

  lemma EventWellformed(r: Row, details: Json)
    requires Wellformed(details)
    ensures Wellformed(Event(r, details))
  {
    KeysDiffer();
  }

  lemma EventKeys(r: Row, details: Json)
    ensures DistinctKeys(Event(r, details).fields)
  {
    KeysDiffer();
  }

  lemma SameObjects(f: seq<Field<Json>>, g: seq<Field<Json>>)
    requires Same(Obj(f), Obj(g))
    ensures forall i | 0 <= i < |f| :: MatchedBy(f[i], g)
  {
  }

  lemma SamePlace(f: seq<Field<Json>>, g: seq<Field<Json>>, i: nat)
    requires i < |f| == |g| && DistinctKeys(g) && f[i].key == g[i].key && Same(Obj(f), Obj(g))
    ensures Same(f[i].value, g[i].value)
  {
    SameObjects(f, g);
    assert MatchedBy(f[i], g);
    var j :| 0 <= j < |g| && f[i].key == g[j].key && Same(f[i].value, g[j].value);
    hide Same;
    assert j == i;
  }

  lemma SameTexts(s: Text, t: Text)
    requires Same(Str(s), Str(t))
    ensures s == t
  {
  }

  lemma SameTextPlace(f: seq<Field<Json>>, g: seq<Field<Json>>, i: nat)
    requires i < |f| == |g| && DistinctKeys(g) && f[i].key == g[i].key && Same(Obj(f), Obj(g))
    requires f[i].value.Str? && g[i].value.Str?
    ensures f[i].value == g[i].value
  {
    SamePlace(f, g, i);
    SameTexts(f[i].value.text, g[i].value.text);
  }

  lemma SameEventPlace(a: Row, b: Row, x: Json, y: Json, i: nat)
    requires Same(Event(a, x), Event(b, y)) && i < 9
    ensures Same(Event(a, x).fields[i].value, Event(b, y).fields[i].value)
    ensures i != 7 ==> Event(a, x).fields[i].value == Event(b, y).fields[i].value
  {
    var f, g := Event(a, x).fields, Event(b, y).fields;
    EventKeys(b, y);
    hide Same, DistinctKeys, Ascii;
    SamePlace(f, g, i);
    if i != 7 {
      SameTextPlace(f, g, i);
    }
  }

  /** Equal events have equal members, place by place. */
  lemma SameEvents(a: Row, b: Row, x: Json, y: Json)
    requires Same(Event(a, x), Event(b, y))
    ensures Same(x, y) && a.id == b.id && a.occurredAt == b.occurredAt && a.actorId == b.actorId && a.actorEmail == b.actorEmail
    ensures a.action == b.action && a.resourceType == b.resourceType && a.resourceId == b.resourceId && a.previousHash == b.previousHash
  {
    hide Same, Ascii;
    SameEventPlace(a, b, x, y, 0);
    SameEventPlace(a, b, x, y, 1);
    SameEventPlace(a, b, x, y, 2);
    SameEventPlace(a, b, x, y, 3);
    SameEventPlace(a, b, x, y, 4);
    SameEventPlace(a, b, x, y, 5);
    SameEventPlace(a, b, x, y, 6);
    SameEventPlace(a, b, x, y, 7);
    SameEventPlace(a, b, x, y, 8);
  }

  lemma SameHashSameContent(a: Row, b: Row, p: Text, q: Text, sha: Hash, mac: Mac)
    requires Injective(sha)
    requires Problem(a, p, sha, mac).None? && Problem(b, q, sha, mac).None?
    requires a.eventHash == b.eventHash
    ensures Content(a) == Content(b) && p == q
  {
    var x := Details(a, p, sha, mac);
    var y := Details(b, q, sha, mac);
    assert Canon(Event(a, x)) == Canon(Event(b, y));
    EventWellformed(a, x);
    EventWellformed(b, y);
    CanonIdentifies(Event(a, x), Event(b, y));
    SameEvents(a, b, x, y);
    CanonIdentifies(x, y);
  }

  /** The details of an accepted row, and what was checked of them. */
  lemma Details(row: Row, previousHash: Text, sha: Hash, mac: Mac) returns (details: Json)
    requires Problem(row, previousHash, sha, mac).None?
    ensures Wellformed(details) && Canon(details) == row.detailsJson
    ensures row.eventHash == sha(Canon(Event(row, details))) && row.previousHash == previousHash
  {
    var text := if row.detailsJson == [] then [LBRACE, RBRACE] else row.detailsJson;
    details := Read(text).value;
    ReadWellformed(text);
  }

  /** Every row passes, each against the row before it. */
  ghost predicate Fits(rows: seq<Row>, sha: Hash, mac: Mac) {
    forall i | 0 <= i < |rows| :: Problem(rows[i], Before(rows, GENESIS, i), sha, mac).None?
  }

  lemma LastFits(rows: seq<Row>, sha: Hash, mac: Mac)
    requires Injective(sha) && Fits(rows, sha, mac) && rows != []
    ensures Problem(rows[|rows| - 1], Before(rows, GENESIS, |rows| - 1), sha, mac).None?
    ensures Before(rows, GENESIS, |rows|) == rows[|rows| - 1].eventHash != GENESIS
    ensures Fits(rows[..|rows| - 1], sha, mac)
    ensures Before(rows[..|rows| - 1], GENESIS, |rows| - 1) == Before(rows, GENESIS, |rows| - 1)
  {
    var details := Details(rows[|rows| - 1], Before(rows, GENESIS, |rows| - 1), sha, mac);
    hide Problem, Canon, Event;
    var p := rows[..|rows| - 1];
    forall i | 0 <= i < |p| ensures Problem(p[i], Before(p, GENESIS, i), sha, mac).None? {
      assert p[i] == rows[i] && Before(p, GENESIS, i) == Before(rows, GENESIS, i);
    }
  }

  lemma {:induction false} SameHeadFits(a: seq<Row>, b: seq<Row>, sha: Hash, mac: Mac)
    requires Injective(sha) && Fits(a, sha, mac) && Fits(b, sha, mac)
    requires Before(a, GENESIS, |a|) == Before(b, GENESIS, |b|)
    ensures |a| == |b| && forall i | 0 <= i < |a| :: Content(a[i]) == Content(b[i])
    decreases |a|
  {
    hide Problem, Fits, Injective;
    if a != [] { LastFits(a, sha, mac); }
    if b != [] { LastFits(b, sha, mac); }
    if a != [] && b != [] {
      var m, n := |a| - 1, |b| - 1;
      SameHashSameContent(a[m], b[n], Before(a, GENESIS, m), Before(b, GENESIS, n), sha, mac);
      SameHeadFits(a[..m], b[..n], sha, mac);
      assert forall i | 0 <= i < m :: a[i] == a[..m][i] && b[i] == b[..n][i];
    }
  }

  /** Two accepted tables with the same head hash hold the same events in the same order. */
  lemma SameHeadSameEvents(a: seq<Row>, b: seq<Row>, sha: Hash, mac: Mac)
    requires Injective(sha)
    requires Fold(a, GENESIS, 0, 0, sha, mac).valid && Fold(b, GENESIS, 0, 0, sha, mac).valid
    requires Before(a, GENESIS, |a|) == Before(b, GENESIS, |b|)
    ensures |a| == |b| && forall i | 0 <= i < |a| :: Content(a[i]) == Content(b[i])
  {
    hide Problem, Fold, Fits, Injective;
    AcceptedFits(a, sha, mac);
    AcceptedFits(b, sha, mac);
    SameHeadFits(a, b, sha, mac);
  }

  lemma AcceptedFits(rows: seq<Row>, sha: Hash, mac: Mac)
    requires Fold(rows, GENESIS, 0, 0, sha, mac).valid
    ensures Fits(rows, sha, mac)
  {
    FoldAccepts(rows, GENESIS, 0, 0, sha, mac);
    hide Problem;
  }

  /** The head does not commit to a row's sequence number, key id or signature: re-signed under
      another available key and renumbered, the row passes the same checks with the same hash. */
  lemma HashLeavesKeyOpen(row: Row, previousHash: Text, sequence: nat, keyId: Text, sha: Hash, mac: Mac)
    requires Problem(row, previousHash, sha, mac).None?
    requires keyId != [] && mac(row.eventHash, keyId).Some?
    ensures var other := row.(sequence := sequence, hmacKeyId := keyId, signature := mac(row.eventHash, keyId).value);
            Problem(other, previousHash, sha, mac).None? && Content(other) == Content(row)
  {
    var other := row.(sequence := sequence, hmacKeyId := keyId, signature := mac(row.eventHash, keyId).value);
    var details := Details(row, previousHash, sha, mac);
    EventOf(row, other, Read(if row.detailsJson == [] then [LBRACE, RBRACE] else row.detailsJson).value);
    hide Canon, Read, WellPaired;
  }
}