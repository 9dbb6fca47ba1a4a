/** Publication of an assessor package: what was selected and packed earlier is published only under a
    fence per selected row and a fence on the counts, both evaluated in the publishing statement. */
module PackagePublication {
  import opened Texts

  type Id = nat

  /** `safe` and `finalized` are the screenshot and native-provenance conditions of the eligibility query. */
  datatype Artifact = Artifact(assessment: Option<Id>, safe: bool, finalized: bool)

  datatype Occurrence = Occurrence(artifact: Id, approved: bool, expiresAt: int, partial: bool, receivedAt: int)

  datatype Tables = Tables(artifacts: map<Id, Artifact>, occurrences: map<Id, Occurrence>)

  /** ORDER BY received_at DESC, id DESC LIMIT 1, per artifact. */
  predicate IsLatest(t: Tables, o: Id) {
    && o in t.occurrences
    && forall p | p in t.occurrences && t.occurrences[p].artifact == t.occurrences[o].artifact ::
         t.occurrences[p].receivedAt < t.occurrences[o].receivedAt
         || (t.occurrences[p].receivedAt == t.occurrences[o].receivedAt && p <= o)
  }

  /** The conditions that selection, count and row fence share, leaving out the assessment. */
  predicate Fit(t: Tables, o: Id, at: int) {
    && IsLatest(t, o)
    && var c := t.occurrences[o];
       c.approved && c.expiresAt > at && !c.partial
       && c.artifact in t.artifacts && t.artifacts[c.artifact].safe && t.artifacts[c.artifact].finalized
  }

  predicate InAssessment(t: Tables, o: Id, assessment: Id) {
    && o in t.occurrences && t.occurrences[o].artifact in t.artifacts
    && t.artifacts[t.occurrences[o].artifact].assessment == Some(assessment)
  }

  function Eligible(t: Tables, assessment: Id, at: int): set<Id> {
    set o | o in t.occurrences && InAssessment(t, o, assessment) && Fit(t, o, at)
  }

  /** The eligible occurrences in plain words: an approved, unexpired, complete one of an artifact of the
      assessment that is safe and finalized, with none of the same artifact received after it, nor at
      the same time under a greater id. */
  lemma EligibleExactly(t: Tables, assessment: Id, at: int, o: Id)
    ensures o in Eligible(t, assessment, at)
            <==> (&& o in t.occurrences && t.occurrences[o].approved && !t.occurrences[o].partial && at < t.occurrences[o].expiresAt
                  && t.occurrences[o].artifact in t.artifacts
                  && t.artifacts[t.occurrences[o].artifact] == Artifact(Some(assessment), true, true)
                  && !exists p | p in t.occurrences && p != o && t.occurrences[p].artifact == t.occurrences[o].artifact ::
                       t.occurrences[p].receivedAt > t.occurrences[o].receivedAt
                       || (t.occurrences[p].receivedAt == t.occurrences[o].receivedAt && p > o))
  {
  }

  /** The total of the count query: artifacts of the assessment, each by its latest occurrence. */
  function InScope(t: Tables, assessment: Id): set<Id> {
    set o | o in t.occurrences && InAssessment(t, o, assessment) && IsLatest(t, o)
  }

  /** A selected row: an occurrence and the artifact it is of. */
  datatype Pick = Pick(occurrence: Id, artifact: Id)

  function Occurrences(rows: seq<Pick>): set<Id> {
    set r | r in rows :: r.occurrence
  }

  /** The fence on one selected row, which does not look at the assessment again. */
  predicate RowFence(t: Tables, r: Pick, at: int) {
    Fit(t, r.occurrence, at) && t.occurrences[r.occurrence].artifact == r.artifact
  }

  /** Every row fence, and the totals of the assessment as they were when the rows were selected. */
  predicate PublishFence(t: Tables, assessment: Id, rows: seq<Pick>, total: nat, at: int) {
    && (forall r | r in rows :: RowFence(t, r, at))
    && |InScope(t, assessment)| == total && |Eligible(t, assessment, at)| == |rows|
  }

  predicate Distinct(rows: seq<Pick>) {
    forall i, j | 0 <= i < j < |rows| :: rows[i].occurrence != rows[j].occurrence
  }

  lemma {:induction false} DistinctSize(rows: seq<Pick>)
    requires Distinct(rows)
    ensures |Occurrences(rows)| == |rows|
  {
    if rows != [] {
      DistinctSize(rows[1..]);
      assert rows == [rows[0]] + rows[1..];
      assert Occurrences(rows) == {rows[0].occurrence} + Occurrences(rows[1..]);
    }
  }

  lemma SubsetOfSameSize(a: set<Id>, b: set<Id>)
    requires a <= b && |a| == |b|
    ensures a == b
  {
    assert b == a + (b - a);
  }

  /** Selected rows that are each still eligible, and just as many eligible rows, are the same rows:
      the fences force equal sets exactly when every selected artifact still belongs to the assessment. */
  lemma FencesForceEquality(t: Tables, assessment: Id, rows: seq<Pick>, total: nat, at: int)
    requires Distinct(rows) && PublishFence(t, assessment, rows, total, at)
    ensures Occurrences(rows) == Eligible(t, assessment, at)
            <==> forall r | r in rows :: InAssessment(t, r.occurrence, assessment)
  {
    DistinctSize(rows);
    if forall r | r in rows :: InAssessment(t, r.occurrence, assessment) {
      assert Occurrences(rows) <= Eligible(t, assessment, at);
      SubsetOfSameSize(Occurrences(rows), Eligible(t, assessment, at));
    } else {
      var r :| r in rows && !InAssessment(t, r.occurrence, assessment);
      assert r.occurrence in Occurrences(rows) && r.occurrence !in Eligible(t, assessment, at);
    }
  }

  // ---- the store while a package is built ----

  /** What other statements may do: anything but remove an artifact or move it to another assessment.
      No statement of the repository updates that column. */
  predicate Evolves(t: Tables, u: Tables) {
    forall a | a in t.artifacts :: a in u.artifacts && u.artifacts[a].assessment == t.artifacts[a].assessment
  }

  datatype RowStatus = Building | Ready | Failed

  datatype Row = Row(status: RowStatus, namesCandidate: bool, completedAt: Option<int>)

  /** Where the builder stands. */
  datatype Stage =
    | Requested
    | Selected(rows: seq<Pick>, total: nat)
    | Packed(rows: seq<Pick>, total: nat)                      // the put was acknowledged
    | Sent(rows: seq<Pick>, total: nat, completedAt: int)      // the publishing batch is on its way
    | Failing(sent: Option<(seq<Pick>, nat, int)>)             // an error was caught; a sent batch may still land
    | Done(published: (seq<Pick>, nat, int))

  /** `published` remembers the tables that the publishing statement saw, and the list it published. */
  datatype Publication = Publication(tables: Tables, rows: seq<Pick>, completedAt: int)

  datatype World = World(assessment: Id, tables: Tables, row: Row, stage: Stage, putSent: bool, inBucket: bool, doomed: bool,
                         publication: Option<Publication>)

  const MAXIMUM_ARTIFACTS := 100

  /** The batch that was sent, if any: it lands late as well as on time. */
  function InFlight(s: Stage): Option<(seq<Pick>, nat, int)> {
    match s
    case Sent(rows, total, at) => Some((rows, total, at))
    case Failing(sent) => sent
    case Done(published) => Some(published)
    case _ => None
  }

  datatype Step =
    | Change(tables: Tables)
    | Select(rows: seq<Pick>, total: nat, eligibleCount: nat, at: int)
    | SendPut
    | PutLands
    | PutAcknowledged
    | Send(completedAt: int)
    | PublishLands(scopeUnchanged: bool, nothingPending: bool)
    | Confirm
    | Error
    | FailLands(at: int)
    | Learn(matches: bool, readable: bool)
    | DeleteLands

  predicate SelectionTaken(w: World, rows: seq<Pick>, total: nat, eligibleCount: nat, at: int) {
    && w.stage.Requested? && eligibleCount <= MAXIMUM_ARTIFACTS && |rows| == eligibleCount && rows != []
    && Distinct(rows) && Occurrences(rows) == Eligible(w.tables, w.assessment, at)
    && forall r | r in rows :: r.occurrence in w.tables.occurrences && w.tables.occurrences[r.occurrence].artifact == r.artifact
  }

  function Publish(w: World, scopeUnchanged: bool, nothingPending: bool): World {
    var sent := InFlight(w.stage);
    if sent.Some? && w.row.status.Building? && scopeUnchanged && nothingPending
       && PublishFence(w.tables, w.assessment, sent.value.0, sent.value.1, sent.value.2)
    then w.(row := Row(Ready, true, Some(sent.value.2)),
            publication := Some(Publication(w.tables, sent.value.0, sent.value.2)))
    else w
  }

  /** A package becomes ready only while it is built, on an unchanged scope with nothing pending and as
      many artifacts as were counted, and lists what was selected, each row of the artifact it was. */
  lemma PublishNeedsItsFences(w: World, scopeUnchanged: bool, nothingPending: bool)
    requires Publish(w, scopeUnchanged, nothingPending) != w
    ensures w.row.status.Building? && scopeUnchanged && nothingPending && InFlight(w.stage).Some?
    ensures var (rows, total, at) := InFlight(w.stage).value;
            && |set o | o in w.tables.occurrences && InAssessment(w.tables, o, w.assessment) && IsLatest(w.tables, o)| == total
            && (forall r | r in rows ::
                  r.occurrence in w.tables.occurrences && w.tables.occurrences[r.occurrence].artifact == r.artifact
                  && w.tables.occurrences[r.occurrence].approved && at < w.tables.occurrences[r.occurrence].expiresAt)
            && Publish(w, scopeUnchanged, nothingPending).publication == Some(Publication(w.tables, rows, at))
  {
  }

  datatype Disposition = Committed | Referenced | Unreferenced

  /** `matches` says whether every published column is the expected one. */
  function Classify(row: Row, matches: bool): Disposition {
    if row.status.Ready? && row.namesCandidate && matches then Committed
    else if row.namesCandidate then Referenced
    else Unreferenced
  }

  /** After an error with a stored candidate: keep a committed package, and delete the candidate only
      when the row, read again, has failed without naming it. */
  function LearnOutcome(w: World, matches: bool): World {
    if !w.stage.Failing? || !w.putSent then w
    else
      match Classify(w.row, matches)
      case Committed => if w.stage.sent.Some? then w.(stage := Done(w.stage.sent.value)) else w
      case Referenced => w
      case Unreferenced => if w.row.status.Failed? && !w.row.namesCandidate then w.(doomed := true) else w
  }

  function Apply(w: World, step: Step): World {
    match step
    case Change(tables) => if Evolves(w.tables, tables) then w.(tables := tables) else w
    case Select(rows, total, eligibleCount, at) =>
      if SelectionTaken(w, rows, total, eligibleCount, at) then w.(stage := Selected(rows, total)) else w
    case SendPut => if w.stage.Selected? then w.(putSent := true) else w
    case PutLands => if w.putSent then w.(inBucket := true) else w
    case PutAcknowledged =>
      if w.stage.Selected? && w.putSent then w.(stage := Packed(w.stage.rows, w.stage.total), inBucket := true) else w
    case Send(completedAt) => if w.stage.Packed? then w.(stage := Sent(w.stage.rows, w.stage.total, completedAt)) else w
    case PublishLands(scopeUnchanged, nothingPending) => Publish(w, scopeUnchanged, nothingPending)
    case Confirm =>
      if w.stage.Sent? && w.publication.Some? then w.(stage := Done((w.stage.rows, w.stage.total, w.stage.completedAt))) else w
    case Error => if w.stage.Done? then w else w.(stage := Failing(InFlight(w.stage)))
    case FailLands(at) =>
      if w.stage.Failing? && w.row.status.Building? then w.(row := w.row.(status := Failed, completedAt := Some(at))) else w
    case Learn(matches, readable) => if readable then LearnOutcome(w, matches) else w
    case DeleteLands => if w.doomed then w.(inBucket := false) else w
  }

  function Run(w: World, steps: seq<Step>): World
    decreases |steps|
  {
    if steps == [] then w else Run(Apply(w, steps[0]), steps[1..])
  }

  /** The rows chosen once still belong to the assessment, and are few. */
  ghost predicate RowsOk(w: World, rows: seq<Pick>) {
    && Distinct(rows) && 1 <= |rows| <= MAXIMUM_ARTIFACTS
    && forall r | r in rows ::
         r.artifact in w.tables.artifacts && w.tables.artifacts[r.artifact].assessment == Some(w.assessment)
  }

  ghost predicate StageOk(w: World) {
    match w.stage
    case Requested => true
    case Selected(rows, _) => RowsOk(w, rows)
    case Packed(rows, _) => RowsOk(w, rows) && w.putSent
    case Sent(rows, _, _) => RowsOk(w, rows) && w.putSent
    case Failing(sent) => sent.Some? ==> RowsOk(w, sent.value.0) && w.putSent
    case Done(sent) => RowsOk(w, sent.0) && w.putSent
  }

  /** The list is the assessment's eligible occurrences at the completion instant. */
  predicate PublishedExactly(p: Publication, assessment: Id) {
    && Occurrences(p.rows) == Eligible(p.tables, assessment, p.completedAt)
    && Distinct(p.rows) && 1 <= |p.rows| <= 100
  }

  ghost predicate Inv(w: World) {
    && StageOk(w)
    && (w.row.status.Ready? <==> w.publication.Some?) && (w.row.namesCandidate <==> w.row.status.Ready?)
    && (w.publication.Some? ==>
          PublishedExactly(w.publication.value, w.assessment) && w.row.completedAt == Some(w.publication.value.completedAt))
    && (w.doomed ==> w.row.status.Failed?)
    && (InFlight(w.stage).Some? || w.stage.Packed? ==> w.inBucket || w.doomed)
    && (w.publication.Some? ==> InFlight(w.stage).Some?)
  }

  lemma ChangeKeeps(w: World, tables: Tables)
    requires Inv(w) && Evolves(w.tables, tables)
    ensures Inv(w.(tables := tables))
  {
  }

  lemma PublishKeeps(w: World, scopeUnchanged: bool, nothingPending: bool)
    requires Inv(w)
    ensures Inv(Publish(w, scopeUnchanged, nothingPending))
  {
    var v := Publish(w, scopeUnchanged, nothingPending);
    if v != w {
      var (rows, total, at) := InFlight(w.stage).value;
      forall r | r in rows ensures InAssessment(w.tables, r.occurrence, w.assessment) {
        assert RowFence(w.tables, r, at);
      }
      FencesForceEquality(w.tables, w.assessment, rows, total, at);
      hide Eligible, Occurrences, PublishFence;
    }
  }

  lemma SelectKeeps(w: World, rows: seq<Pick>, total: nat, eligibleCount: nat, at: int)
    requires Inv(w) && SelectionTaken(w, rows, total, eligibleCount, at)
    ensures Inv(w.(stage := Selected(rows, total)))
  {
    forall r | r in rows ensures InAssessment(w.tables, r.occurrence, w.assessment) {
      assert r.occurrence in Occurrences(rows);
    }
  }

  lemma StepKeeps(w: World, step: Step)
    requires Inv(w)
    ensures Inv(Apply(w, step))
  {
    hide Eligible, Occurrences, PublishFence, Distinct, Evolves, PublishedExactly, RowsOk, SelectionTaken;
    if step.Change? {
      if Evolves(w.tables, step.tables) { ChangeKeeps(w, step.tables); }
    } else if step.Select? {
      if SelectionTaken(w, step.rows, step.total, step.eligibleCount, step.at) {
        SelectKeeps(w, step.rows, step.total, step.eligibleCount, step.at);
      }
    } else if step.PublishLands? {
      PublishKeeps(w, step.scopeUnchanged, step.nothingPending);
    } else {
      RowsStay(w, Apply(w, step));
    }
  }

  lemma RowsStay(w: World, v: World)
    requires v.tables == w.tables && v.assessment == w.assessment
    ensures forall rows :: RowsOk(w, rows) <==> RowsOk(v, rows)
  {
  }

  /** Once published, a package stays as it was published. */
  ghost predicate Grows(w: World, v: World) {
    w.row.status.Building? || (v.row == w.row && v.publication == w.publication)
  }

  lemma StepGrows(w: World, step: Step)
    ensures Grows(w, Apply(w, step)) && Apply(w, step).assessment == w.assessment
  {
  }

  lemma {:induction false} RunKeeps(w: World, steps: seq<Step>)
    requires Inv(w)
    ensures Inv(Run(w, steps)) && Grows(w, Run(w, steps)) && Run(w, steps).assessment == w.assessment
    decreases |steps|
  {
    hide Apply, Inv;
    if steps != [] {
      StepKeeps(w, steps[0]);
      StepGrows(w, steps[0]);
      RunKeeps(Apply(w, steps[0]), steps[1..]);
    }
  }

  ghost predicate Initial(w: World) {
    w.row == Row(Building, false, None) && w.stage.Requested? && !w.putSent && !w.inBucket && !w.doomed && w.publication.None?
  }

  /** In every interleaving, with crashes, late statements and lost replies: when a package is ready,
      the occurrences it lists are exactly the assessment's eligible ones at its completion instant in
      the tables that the publishing statement saw, and its object is in the bucket. */
  lemma ReadyListsExactlyTheEligible(w: World, steps: seq<Step>)
    requires Initial(w)
    ensures var v := Run(w, steps);
            v.row.status.Ready? ==>
              && v.publication.Some? && v.row.completedAt == Some(v.publication.value.completedAt) && v.inBucket
              && var p := v.publication.value;
                 Occurrences(p.rows) == Eligible(p.tables, w.assessment, p.completedAt) && 1 <= |p.rows| <= 100
  {
    assert Inv(w);
    RunKeeps(w, steps);
  }

  // ---- a build that nothing disturbs ----

  function WholeBuild(w: World, rows: seq<Pick>, total: nat, eligibleCount: nat, at: int, completedAt: int): World {
    var packed := Apply(Apply(Apply(w, Select(rows, total, eligibleCount, at)), SendPut), PutAcknowledged);
    Apply(Apply(Apply(packed, Send(completedAt)), PublishLands(true, true)), Confirm)
  }

  /** It publishes exactly the selected rows when they are still eligible at the completion instant. */
  lemma UndisturbedBuild(w: World, rows: seq<Pick>, at: int, completedAt: int)
    requires Initial(w) && SelectionTaken(w, rows, |InScope(w.tables, w.assessment)|, |rows|, at)
    requires Eligible(w.tables, w.assessment, completedAt) == Eligible(w.tables, w.assessment, at)
    ensures var v := WholeBuild(w, rows, |InScope(w.tables, w.assessment)|, |rows|, at, completedAt);
            && v.row == Row(Ready, true, Some(completedAt)) && v.inBucket && !v.doomed
            && v.publication == Some(Publication(w.tables, rows, completedAt)) && v.stage.Done?
  {
    DistinctSize(rows);
    forall r | r in rows ensures RowFence(w.tables, r, completedAt) {
      assert r.occurrence in Occurrences(rows);
    }
  }

  // ---- why the assessment must not move ----

  /** Were an artifact moved to another assessment, the fences could hold for a different list. */
  lemma MovedArtifactSlipsThrough(assessment: Id, other: Id, at: int)
    requires assessment != other
    ensures exists t: Tables, rows: seq<Pick> ::
              Distinct(rows) && PublishFence(t, assessment, rows, 1, at) && Occurrences(rows) != Eligible(t, assessment, at)
  {
    var fit := Occurrence(1, true, at + 1, false, 0);
    var t := Tables(map[1 := Artifact(Some(other), true, true), 2 := Artifact(Some(assessment), true, true)],
                    map[10 := fit, 20 := fit.(artifact := 2)]);
    var rows := [Pick(10, 1)];
    assert IsLatest(t, 10) && IsLatest(t, 20);
    assert Eligible(t, assessment, at) == {20};
    assert InScope(t, assessment) == {20};
    assert RowFence(t, rows[0], at);
    assert rows[0].occurrence in Occurrences(rows);
    assert PublishFence(t, assessment, rows, 1, at);
  }
}
