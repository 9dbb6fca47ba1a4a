/** The reconciliation queue: no device artifact that stays reviewable is ever forgotten. */
module CaptureQueue {
  import opened Texts
  import opened AuditBatch
  import opened CaptureTables
  import opened CaptureChain

  predicate Covered(t: Tables, id: Id) {
    id in t.queue || HasManifest(t, id)
  }

  /** The artifact is stored, came from a device and can still be reviewed or exported. */
  predicate NativeActive(t: Tables, id: Id) {
    id in t.artifacts && t.artifacts[id].device.Some? && Active(t.artifacts[id].status)
  }

  /** Absent, no longer active, or covered. */
  predicate Accounted(t: Tables, id: Id) {
    NativeActive(t, id) ==> Covered(t, id)
  }

  lemma ManifestsGrow(t: Tables, u: Tables, id: Id)
    requires t.manifests <= u.manifests && HasManifest(t, id)
    ensures HasManifest(u, id)
  {
    var n :| n in t.manifests && n.artifactId == id;
    assert n in u.manifests;
  }

  lemma StoreCovers(s: Step, t: Tables, id: Id)
    requires s.StoreArtifact? && (id !in t.artifacts || Covered(t, id))
    ensures var e := RunStatements(PlanStoreArtifact(s).statements, t);
            e.Done? ==> Accounted(e.next, id)
  {
    var ss := PlanStoreArtifact(s).statements;
    RunThree(ss[0], ss[1], ss[2], t);
  }

  lemma QuarantineCovers(id: Id, o: Artifact, dueAt: int, now: int, cutoff: int, t: Tables, other: Id)
    requires other !in t.artifacts || Covered(t, other)
    ensures var e := RunStatements(PlanQuarantine(id, o, dueAt, now, cutoff).statements, t);
            e.Done? && Accounted(e.next, other)
  {
    RunTwo(QuarantineStatement(id, o, dueAt, now, cutoff), DequeueReturned(id, dueAt), t);
  }

  lemma SingleCovers(s: Step, t: Tables, id: Id)
    requires s.Enroll? || s.Reserve? || s.DrainReplay? || s.Revoke? || s.Release? || s.DrainEntry?
    requires PlanOf(s).Some? && (id !in t.artifacts || Covered(t, id))
    ensures var e := RunStatements(PlanOf(s).value.statements, t);
            e.Done? ==> Accounted(e.next, id)
  {
    RunOne(PlanOf(s).value.statements[0], t);
    if s.DrainReplay? && ExactExisting(t, s.request) {
      assert HasManifest(t, s.request.artifactId) by {
        assert ManifestOf(s.request) in t.manifests;
      }
    }
  }

  lemma FinalizedCovers(t: Tables, r: Request, id: Id)
    requires r.device in t.devices && (id !in t.artifacts || Covered(t, id))
    ensures Accounted(Finalized(t, r), id)
  {
    var u := Finalized(t, r);
    if id in t.artifacts {
      if id == r.artifactId {
        assert u.manifests[|t.manifests|] == ManifestOf(r);
      } else if HasManifest(t, id) {
        ManifestsGrow(t, u, id);
      }
    }
  }

  /** One step never leaves an active device artifact with neither queue row nor manifest,
      unless it had neither before. */
  lemma StepAccounts(db: Db, act: Act, seal: Seal, id: Id)
    requires ChainInv(db) && (id !in db.data.artifacts || Covered(db.data, id))
    ensures Accounted(Apply(db, act, seal).data, id)
  {
    var s := act.step;
    if Direct(s) {
      hide PlanOf, Settle, ChainInv;
    } else if PlanOf(s).Some? {
      hide PlanOf, Settle, ChainInv, Finalized, HeadGuard, Clashes, Accounted;
      if s.Finalize? || s.Reconcile? {
        var next, r := FinalizeStep(db, s, act.observedHead, seal);
        if next == db { Unchanged(db.data, id); } else { FinalizedCovers(db.data, r, id); }
      } else {
        BatchAccounts(db, s, act.observedHead, seal, id);
      }
    } else {
      hide Settle, ChainInv;
    }
  }

  lemma Unchanged(t: Tables, id: Id)
    requires id !in t.artifacts || Covered(t, id)
    ensures Accounted(t, id)
  {
  }

  lemma BatchAccounts(db: Db, s: Step, head: Text, seal: Seal, id: Id)
    requires ChainInv(db) && (id !in db.data.artifacts || Covered(db.data, id))
    requires PlanOf(s).Some? && !s.Finalize? && !s.Reconcile?
    ensures Accounted(Settle(db, PlanOf(s).value, head, seal).data, id)
  {
    Unchanged(db.data, id);
    assert s.StoreArtifact? ==> PlanOf(s) == Some(PlanStoreArtifact(s));
    assert s.Quarantine? ==> PlanOf(s) == Some(PlanQuarantine(s.artifactId, s.observed, s.dueAt, s.now, s.cutoff));
    assert Linked(db.audit);
    hide PlanOf, Settle, ChainInv, Linked, Accounted, RunStatements, Covered, PlanStoreArtifact, PlanQuarantine;
    var next := Committing(db, PlanOf(s).value, head, seal);
    if s.StoreArtifact? {
      StoreCovers(s, db.data, id);
    } else if s.Quarantine? {
      QuarantineCovers(s.artifactId, s.observed, s.dueAt, s.now, s.cutoff, db.data, id);
    } else {
      SingleCovers(s, db.data, id);
    }
  }

  lemma {:induction false} RunStep(db: Db, acts: seq<Act>, seal: Seal, j: nat)
    requires j < |acts|
    ensures Run(db, acts[..j + 1], seal) == Apply(Run(db, acts[..j], seal), acts[j], seal)
    decreases |acts|
  {
    if j == 0 {
      assert acts[..1][1..] == [];
    } else {
      assert acts[..j + 1][1..] == acts[1..][..j] && acts[..j][1..] == acts[1..][..j - 1];
      RunStep(Apply(db, acts[0], seal), acts[1..], seal, j - 1);
    }
  }

  /** An artifact that came from a device and was never out of the active statuses since it was
      stored has a queue row or a committed manifest after every interleaving. */
  lemma {:induction false} ActiveArtifactsAreCovered(db: Db, acts: seq<Act>, seal: Seal, id: Id)
    requires ChainInv(db) && id !in db.data.artifacts
    requires forall j | 0 <= j <= |acts| ::
               var t := Run(db, acts[..j], seal).data; id in t.artifacts ==> NativeActive(t, id)
    ensures var t := Run(db, acts, seal).data; id in t.artifacts ==> Covered(t, id)
    decreases |acts|
  {
    assert acts[..|acts|] == acts;
    if acts != [] {
      var n := |acts| - 1;
      var before := acts[..n];
      forall j | 0 <= j <= n
        ensures var t := Run(db, before[..j], seal).data; id in t.artifacts ==> NativeActive(t, id)
      {
        assert before[..j] == acts[..j];
      }
      ActiveArtifactsAreCovered(db, before, seal, id);
      RunKeepsChain(db, before, seal);
      RunStep(db, acts, seal, n);
      StepAccounts(Run(db, before, seal), acts[n], seal, id);
      assert Run(db, acts[..|acts|], seal) == Run(db, acts, seal);
    }
  }
}
