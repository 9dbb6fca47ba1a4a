/** The builder of one assessor package as it runs, in place on the package row and the bucket, with
    whatever other statements change at each point where it waits. */
module PackageBuilder {
  import opened Texts
  import opened PackagePublication

  class Exports {
    var world: World

    constructor (world: World)
      ensures this.world == world
    {
      this.world := world;
    }
  }

  /** What happens without the builder: other statements, and requests that take effect late. */
  predicate Outside(steps: seq<Step>) {
    forall step | step in steps ::
      step.Change? || step.PutLands? || step.PublishLands? || step.FailLands? || step.DeleteLands?
  }

  lemma {:induction false} OutsideKeepsStage(w: World, steps: seq<Step>)
    requires Outside(steps)
    ensures Run(w, steps).stage == w.stage && (w.putSent ==> Run(w, steps).putSent)
    decreases |steps|
  {
    if steps != [] {
      var next := Apply(w, steps[0]);
      assert next.stage == w.stage && next.putSent == w.putSent;
      hide Apply;
      OutsideKeepsStage(next, steps[1..]);
    }
  }

  lemma {:induction false} RunAppend(w: World, first: seq<Step>, second: seq<Step>)
    ensures Run(w, first + second) == Run(Run(w, first), second)
    decreases |first|
  {
    hide Apply;
    if first == [] {
      assert first + second == second;
    } else {
      assert (first + second)[1..] == first[1..] + second;
      RunAppend(Apply(w, first[0]), first[1..], second);
    }
  }

  method Advance(db: Exports, ghost start: World, ghost trace: seq<Step>, step: Step) returns (ghost longer: seq<Step>)
    requires db.world == Run(start, trace)
    modifies db
    ensures db.world == Apply(old(db.world), step) && db.world == Run(start, longer)
  {
    hide Apply;
    RunAppend(start, trace, [step]);
    assert [step][1..] == [];
    db.world := Apply(db.world, step);
    longer := trace + [step];
  }

  method Wait(db: Exports, ghost start: World, ghost trace: seq<Step>, steps: seq<Step>) returns (ghost longer: seq<Step>)
    requires db.world == Run(start, trace) && Outside(steps)
    modifies db
    ensures db.world == Run(start, longer) && db.world.stage == old(db.world).stage
    ensures old(db.world).putSent ==> db.world.putSent
    ensures steps == [] ==> db.world == old(db.world)
  {
    hide Apply, Outside;
    RunAppend(start, trace, steps);
    OutsideKeepsStage(db.world, steps);
    db.world := Run(db.world, steps);
    longer := trace + steps;
  }

  /** What the builder meets: whether packing and the put succeed, whether the batch reaches the
      database and its reply comes back, and what the tables and the reads say then. */
  datatype Weather = Weather(packed: bool, stored: bool, lands: bool, heard: bool, scopeUnchanged: bool, nothingPending: bool,
                             failLands: bool, readable: bool, matches: bool, completedAt: int, failedAt: int)

  datatype Between = Between(whilePacking: seq<Step>, afterPut: seq<Step>, afterSend: seq<Step>, afterFail: seq<Step>)

  datatype Outcome = Built | Threw

  predicate Quiet(between: Between) {
    between == Between([], [], [], [])
  }

  /** The selection is taken and still stands when the package is published. */
  predicate Stands(w: World, rows: seq<Pick>, total: nat, eligibleCount: nat, generatedAt: int, weather: Weather) {
    && SelectionTaken(w, rows, total, eligibleCount, generatedAt) && total == |InScope(w.tables, w.assessment)|
    && Eligible(w.tables, w.assessment, weather.completedAt) == Eligible(w.tables, w.assessment, generatedAt)
    && weather.scopeUnchanged && weather.nothingPending
  }

  /** The row and the object after a package has been published and confirmed. */
  predicate PublishedAs(w: World, rows: seq<Pick>, completedAt: int, tables: Tables) {
    && w.row == Row(Ready, true, Some(completedAt)) && w.publication == Some(Publication(tables, rows, completedAt))
    && w.inBucket && !w.doomed
  }

  function SendAll(w: World, rows: seq<Pick>, total: nat, eligibleCount: nat, generatedAt: int, weather: Weather): World {
    var packed := Apply(Apply(Apply(w, Select(rows, total, eligibleCount, generatedAt)), SendPut), PutAcknowledged);
    var sent := Apply(packed, Send(weather.completedAt));
    if weather.lands then Apply(sent, PublishLands(weather.scopeUnchanged, weather.nothingPending)) else sent
  }

  function Erred(w: World, weather: Weather): World {
    var failing := Apply(w, Error);
    if weather.failLands then Apply(failing, FailLands(weather.failedAt)) else failing
  }

  predicate Believed(w: World, weather: Weather) {
    weather.readable && w.putSent && w.stage.Failing? && Classify(w.row, weather.matches) == Committed
  }

  /** How the build ends when nothing interferes: published whether the reply is heard or only the read
      tells; otherwise failed, and the candidate of a package that failed is deleted once that is read. */
  ghost predicate QuietlyEnds(w: World, v: World, outcome: Outcome, rows: seq<Pick>, total: nat, eligibleCount: nat,
                              generatedAt: int, weather: Weather)
  {
    && (Stands(w, rows, total, eligibleCount, generatedAt, weather) && weather.packed && weather.stored && weather.lands ==>
          (outcome == Built <==> weather.heard || (weather.readable && weather.matches))
          && PublishedAs(v, rows, weather.completedAt, w.tables))
    && (weather.failLands
        && !(SelectionTaken(w, rows, total, eligibleCount, generatedAt) && weather.packed && weather.stored
             && weather.lands && weather.scopeUnchanged && weather.nothingPending) ==>
          outcome == Threw && v.row == Row(Failed, false, Some(weather.failedAt)))
    && (weather.failLands && SelectionTaken(w, rows, total, eligibleCount, generatedAt)
        && weather.packed && weather.stored && !weather.lands ==>
          (v.doomed <==> weather.readable))
  }

  lemma SelectTaken(w: World, rows: seq<Pick>, total: nat, eligibleCount: nat, at: int)
    ensures w.stage.Requested? ==>
              (Apply(w, Select(rows, total, eligibleCount, at)).stage.Selected? <==> SelectionTaken(w, rows, total, eligibleCount, at))
    ensures var v := Apply(w, Select(rows, total, eligibleCount, at));
            v.row == w.row && v.publication == w.publication && v.doomed == w.doomed
    ensures !SelectionTaken(w, rows, total, eligibleCount, at) ==> Apply(w, Select(rows, total, eligibleCount, at)) == w
  {
    hide SelectionTaken;
  }

  lemma ErrsAsFailed(w: World, weather: Weather)
    requires w.row == Row(Building, false, None) && !w.stage.Done? && weather.failLands
    ensures var erred := Erred(w, weather);
            erred.row == Row(Failed, false, Some(weather.failedAt)) && !Believed(erred, weather)
            && Apply(erred, Learn(weather.matches, weather.readable)).row == erred.row
  {
  }

  /** When the batch lands on a selection that stands, the package is ready, heard of or not. */
  lemma SentIsPublished(w: World, rows: seq<Pick>, total: nat, eligibleCount: nat, generatedAt: int, weather: Weather)
    requires Initial(w) && Stands(w, rows, total, eligibleCount, generatedAt, weather) && weather.lands
    ensures var sent := SendAll(w, rows, total, eligibleCount, generatedAt, weather);
            && PublishedAs(sent, rows, weather.completedAt, w.tables)
            && PublishedAs(Apply(sent, Confirm), rows, weather.completedAt, w.tables)
            && var erred := Erred(sent, weather);
               && PublishedAs(Apply(erred, Learn(weather.matches, weather.readable)), rows, weather.completedAt, w.tables)
               && (Believed(erred, weather) <==> weather.readable && weather.matches)
  {
    DistinctSize(rows);
    forall r | r in rows ensures RowFence(w.tables, r, weather.completedAt) {
      assert r.occurrence in Occurrences(rows);
    }
    hide Occurrences, Eligible, InScope, Distinct, RowFence, Evolves, IsLatest;
  }

  /** When the batch does not land, or is refused, the failed package loses its candidate. */
  lemma SentIsRefused(w: World, rows: seq<Pick>, total: nat, eligibleCount: nat, generatedAt: int, weather: Weather)
    requires Initial(w) && SelectionTaken(w, rows, total, eligibleCount, generatedAt)
    requires !weather.lands || !weather.scopeUnchanged || !weather.nothingPending
    ensures var sent := SendAll(w, rows, total, eligibleCount, generatedAt, weather);
            && sent.row == w.row && !sent.stage.Done?
            && (weather.failLands ==>
                  (Apply(Erred(sent, weather), Learn(weather.matches, weather.readable)).doomed <==> weather.readable))
  {
    hide PublishFence, SelectionTaken, Evolves;
    assert SelectionTaken(w, rows, total, eligibleCount, generatedAt);
  }

  /** Builds one package. A result that is returned is one that is published, with exactly the
      eligible occurrences; and a candidate object is deleted only of a package that has failed. */
  method BuildAssessorPackage(db: Exports, rows: seq<Pick>, total: nat, eligibleCount: nat, generatedAt: int,
                              weather: Weather, between: Between)
    returns (outcome: Outcome, ghost trace: seq<Step>)
    requires Initial(db.world)
    requires Outside(between.whilePacking) && Outside(between.afterPut) && Outside(between.afterSend) && Outside(between.afterFail)
    modifies db
    ensures db.world == Run(old(db.world), trace) && Inv(db.world)
    ensures outcome == Built ==>
              db.world.row.status.Ready? && db.world.publication.Some?
              && PublishedExactly(db.world.publication.value, old(db.world).assessment) && db.world.inBucket
    ensures db.world.doomed ==> db.world.row.status.Failed?
    ensures Quiet(between) ==> QuietlyEnds(old(db.world), db.world, outcome, rows, total, eligibleCount, generatedAt, weather)
  {
    ghost var start := db.world;
    assert Inv(start);
    outcome, trace := Build(db, rows, total, eligibleCount, generatedAt, weather, between);
    RunKeeps(start, trace);
    hide PublishedExactly, Apply;
  }

  method Build(db: Exports, rows: seq<Pick>, total: nat, eligibleCount: nat, generatedAt: int, weather: Weather, between: Between)
    returns (outcome: Outcome, ghost trace: seq<Step>)
    requires Initial(db.world)
    requires Outside(between.whilePacking) && Outside(between.afterPut) && Outside(between.afterSend) && Outside(between.afterFail)
    modifies db
    ensures db.world == Run(old(db.world), trace)
    ensures outcome == Built ==> db.world.row.status.Ready?
    ensures Quiet(between) ==> QuietlyEnds(old(db.world), db.world, outcome, rows, total, eligibleCount, generatedAt, weather)
  {
    ghost var start := db.world;
    trace := [];
    assert start == Run(start, trace);
    var published;
    if Stands(start, rows, total, eligibleCount, generatedAt, weather) && weather.lands {
      SentIsPublished(start, rows, total, eligibleCount, generatedAt, weather);
    } else if SelectionTaken(start, rows, total, eligibleCount, generatedAt)
              && (!weather.lands || !weather.scopeUnchanged || !weather.nothingPending) {
      SentIsRefused(start, rows, total, eligibleCount, generatedAt, weather);
    }
    hide Run, Apply, Outside, SelectionTaken, SendAll, Erred, Believed, Stands;
    published, trace := PackAndPublish(db, rows, total, eligibleCount, generatedAt, weather, between, start, trace);
    if published {
      return Built, trace;
    }
    if Quiet(between) && weather.failLands && db.world.row == start.row && !db.world.stage.Done? {
      ErrsAsFailed(db.world, weather);
    }
    outcome, trace := Recover(db, weather, between.afterFail, start, trace);
  }

  /** Select, pack, store and send; true when the reply says that the package row was changed. */
  method PackAndPublish(db: Exports, rows: seq<Pick>, total: nat, eligibleCount: nat, generatedAt: int, weather: Weather, between: Between,
                        ghost start: World, ghost trace: seq<Step>)
    returns (published: bool, ghost longer: seq<Step>)
    requires db.world == Run(start, trace)
    requires Outside(between.whilePacking) && Outside(between.afterPut) && Outside(between.afterSend)
    modifies db
    ensures db.world == Run(start, longer)
    ensures published ==> db.world.row.status.Ready?
    ensures Quiet(between) && old(db.world).stage.Requested? && weather.packed && weather.stored
            && SelectionTaken(old(db.world), rows, total, eligibleCount, generatedAt) ==>
              var sent := SendAll(old(db.world), rows, total, eligibleCount, generatedAt, weather);
              && (published <==> weather.lands && weather.heard && sent.row.status.Ready?)
              && db.world == if published then Apply(sent, Confirm) else sent
    ensures Quiet(between) && old(db.world).stage.Requested?
            && !(weather.packed && weather.stored && SelectionTaken(old(db.world), rows, total, eligibleCount, generatedAt)) ==>
              !published && db.world.row == old(db.world).row && !db.world.stage.Done?
  {
    SelectTaken(db.world, rows, total, eligibleCount, generatedAt);
    hide Run, Outside, Apply, SelectionTaken;
    longer := Advance(db, start, trace, Select(rows, total, eligibleCount, generatedAt));
    longer := Wait(db, start, longer, between.whilePacking);
    if !db.world.stage.Selected? || !weather.packed {
      return false, longer;
    }
    longer := Advance(db, start, longer, SendPut);
    if !weather.stored {
      return false, longer;
    }
    longer := Advance(db, start, longer, PutAcknowledged);
    longer := Wait(db, start, longer, between.afterPut);
    longer := Advance(db, start, longer, Send(weather.completedAt));
    if weather.lands {
      longer := Advance(db, start, longer, PublishLands(weather.scopeUnchanged, weather.nothingPending));
    }
    if weather.lands && weather.heard && db.world.row.status.Ready? {
      ConfirmLeavesRow(db.world);
      longer := Advance(db, start, longer, Confirm);
      return true, longer;
    }
    longer := Wait(db, start, longer, between.afterSend);
    return false, longer;
  }

  lemma ConfirmLeavesRow(w: World)
    ensures Apply(w, Confirm).row == w.row
  {
  }

  /** After an error: mark the row failed, read it again, and believe only what it says. */
  method Recover(db: Exports, weather: Weather, afterFail: seq<Step>, ghost start: World, ghost trace: seq<Step>)
    returns (outcome: Outcome, ghost longer: seq<Step>)
    requires db.world == Run(start, trace) && Outside(afterFail)
    modifies db
    ensures db.world == Run(start, longer)
    ensures outcome == Built ==> db.world.row.status.Ready?
    ensures afterFail == [] ==>
              var erred := Erred(old(db.world), weather);
              (outcome == Built <==> Believed(erred, weather)) && db.world == Apply(erred, Learn(weather.matches, weather.readable))
  {
    hide Run, Outside, Apply;
    longer := Advance(db, start, trace, Error);
    if weather.failLands {
      longer := Advance(db, start, longer, FailLands(weather.failedAt));
    }
    longer := Wait(db, start, longer, afterFail);
    var committed := Believed(db.world, weather);
    LearnLeavesRow(db.world, weather.matches, weather.readable);
    longer := Advance(db, start, longer, Learn(weather.matches, weather.readable));
    return if committed then Built else Threw, longer;
  }

  lemma LearnLeavesRow(w: World, matches: bool, readable: bool)
    ensures Apply(w, Learn(matches, readable)).row == w.row
  {
  }
}
