/** The observation tables as an object: revisions, heads, run links, run columns and evidence are
    updated in place, and every write checks the run's lease first. */
module ObservationStore {
  import opened Base
  import opened Jobs
  import opened Leases
  import R = Revisions
  import J = JobStore

  class ObservationStore {
    const jobs: J.JobStore
    // observation_revision and its unique index, record_stream_head, run_observation, run columns, run_evidence
    var revisions: map<Id, R.Revision>
    var revisionAt: map<(R.Stream, nat), Id>
    var heads: map<R.Stream, R.Head>
    var links: map<Id, set<Id>>
    var meta: map<Id, R.RunMeta>
    var evidence: map<Id, map<Id, bool>>

    ghost function Obs(): R.Obs
      reads this
    {
      R.Obs(revisions, revisionAt, heads, links, meta, evidence)
    }

    ghost predicate Valid()
      reads this
    {
      R.StreamsOk(Obs())
    }

    constructor (store: J.JobStore)
      ensures Valid() && Obs() == R.EMPTY_OBS && jobs == store
    {
      jobs := store;
      revisions, revisionAt, heads, links, meta, evidence := map[], map[], map[], map[], map[], map[];
    }

    method PersistEvidence(h: RunHandle, id: Id, required: bool, now: Time) returns (r: Result<()>)
      requires Valid()
      modifies `evidence
      ensures Valid()
      ensures r.Ok? == Owns(jobs.Core(), h.lease, now)
      ensures Obs() == if r.Ok? then R.PersistEvidence(old(Obs()), h.run, id, required) else old(Obs())
    {
      hide R.HeadsOk, R.NumbersOk, R.ChainOk, R.AppendOnly;
      ghost var before := Obs();
      if !jobs.OwnsNow(h.lease, now) {
        return Err(NotOwned);
      }
      var own := if h.run in evidence then evidence[h.run] else map[];
      evidence := evidence[h.run := own[id := required]];
      R.ColumnsOnly(before, Obs());
      r := Ok(());
    }

    method PersistObservation(h: RunHandle, d: Definition, key: string, e: R.Envelope, items: set<Id>, now: Time,
                              id: Id)
      returns (r: Result<Id>)
      requires Valid() && id !in revisions && jobs.Valid() && Genuine(jobs.Core(), h)
      modifies `revisions, `revisionAt, `heads, `links, `meta
      ensures Valid()
      ensures !Owns(jobs.Core(), h.lease, now) ==> r.Err? && Obs() == old(Obs())
      ensures Owns(jobs.Core(), h.lease, now) ==> (Obs(), r) == R.Persist(old(Obs()), h, d, key, e, items, id, true)
    {
      hide R.StreamsOk, R.GrowsBy, R.Append, R.Link, Owns, Genuine, RunIsRunning, Consistent;
      ghost var before := Obs();
      R.PersistRefinesHistory(before, h, d, key, e, items, id);
      if items == {} {
        return Err(EvidenceMissing);
      }
      if !jobs.OwnsNow(h.lease, now) {
        return Err(NotOwned);
      }
      if !(items <= (if h.run in evidence then evidence[h.run].Keys else {})) {
        return Err(EvidenceMissing);
      }
      var scope := if h.run in meta then meta[h.run].scope else None;
      if d.fullSnapshot && scope.None? {
        return Err(ScopeMissing);
      }
      var s, digest := R.StreamOf(h, d, key), R.UpsertDigest(h, e);
      var observation := id;
      if s in heads && heads[s].digest == digest && heads[s].action.Upsert? {
        observation := heads[s].observation;
      } else {
        AppendRevision(id, s, R.Upsert, digest, scope);
      }
      OwnedNow(jobs, h, now);
      LinkRun(h.run, observation);
      r := Ok(observation);
    }

    method AppendRevision(id: Id, s: R.Stream, action: R.Action, digest: R.Digest, scope: Option<string>)
      modifies `revisions, `revisionAt, `heads
      ensures Obs() == R.Append(old(Obs()), id, R.NextRevision(old(Obs()), s, action, digest, scope))
    {
      var no, supersedes := 1, None;
      if s in heads {
        no, supersedes := heads[s].no + 1, Some(heads[s].observation);
      }
      revisions := revisions[id := R.Revision(s, no, action, digest, scope, supersedes)];
      revisionAt := revisionAt[(s, no) := id];
      heads := heads[s := R.Head(id, digest, no, action)];
    }

    method LinkRun(run: Id, id: Id)
      modifies `links, `meta
      ensures Obs() == R.Link(old(Obs()), run, id, RunIsRunning(jobs.Core(), run))
    {
      var linked := if run in links then links[run] else {};
      if id !in linked {
        var row := if run in meta then meta[run] else R.RunMeta(None, false, 0);
        links := links[run := linked + {id}];
        if jobs.RunningNow(run) {
          meta := meta[run := row.(recordCount := row.recordCount + 1)];
        }
      }
    }

    method BeginFullSnapshot(h: RunHandle, d: Definition, scope: string, now: Time) returns (r: Result<()>)
      requires Valid() && jobs.Valid() && Genuine(jobs.Core(), h)
      modifies `meta
      ensures Valid()
      ensures !Owns(jobs.Core(), h.lease, now) ==> r.Err? && Obs() == old(Obs())
      ensures Owns(jobs.Core(), h.lease, now) ==> (Obs(), r) == R.BeginSnapshot(old(Obs()), h, d, scope, true)
    {
      hide R.StreamsOk, R.AppendOnly, Owns, Genuine, RunIsRunning, Consistent;
      R.BeginKeeps(Obs(), h, d, scope);
      if !d.fullSnapshot {
        return Err(NotPermitted);
      }
      if !jobs.OwnsNow(h.lease, now) {
        return Err(NotOwned);
      }
      var row := if h.run in meta then meta[h.run] else R.RunMeta(None, false, 0);
      OwnedNow(jobs, h, now);
      if !jobs.RunningNow(h.run) || row.scope.Some? {
        return Err(ScopeAlreadySet);
      }
      meta := meta[h.run := row.(scope := Some(scope), complete := false)];
      r := Ok(());
    }

    /** Tombstones the heads of the declared scope that the run's own rows do not show; `plan` is the
        order in which they were written and the id each one received. */
    method FinalizeFullSnapshot(h: RunHandle, d: Definition, proof: R.Proof, now: Time, ids: seq<Id>)
      returns (r: Result<()>, ghost plan: seq<(R.Stream, Id)>)
      requires Valid() && jobs.Valid() && Genuine(jobs.Core(), h)
      requires forall i, j :: 0 <= i < j < |ids| ==> ids[i] != ids[j]
      requires forall i :: 0 <= i < |ids| ==> ids[i] !in revisions
      requires |heads| <= |ids|
      modifies `revisions, `revisionAt, `heads, `links, `meta
      ensures Valid()
      ensures !Owns(jobs.Core(), h.lease, now) ==> r.Err? && Obs() == old(Obs())
      ensures Owns(jobs.Core(), h.lease, now) ==>
                && R.PlanOk(old(Obs()), plan)
                && (R.Meta(old(Obs()), h.run).scope.Some? ==>
                      R.PlanStreams(plan) == R.Missing(old(Obs()), h, d, R.Meta(old(Obs()), h.run).scope.value)
                      || r.Err?)
                && (Obs(), r) == R.Finalize(old(Obs()), h, d, proof, plan, true)
    {
      hide R.StreamsOk, R.Missing, R.TombstoneAll, R.PlanOk, R.PlanStreams, R.AppendOnly, R.SnapshotExact, Owns,
           Genuine, RunIsRunning, Consistent;
      ghost var before := Obs();
      plan := [];
      R.NoPlan(before);
      if !d.fullSnapshot {
        return Err(NotPermitted), plan;
      }
      if !jobs.OwnsNow(h.lease, now) {
        return Err(NotOwned), plan;
      }
      OwnedNow(jobs, h, now);
      var declared := if h.run in meta then meta[h.run].scope else None;
      if !jobs.RunningNow(h.run) || declared.None? {
        return Err(ScopeMissing), plan;
      }
      var scope := declared.value;
      if !(proof.complete && proof.scope == Some(scope) && proof.hasSchemaVersion) {
        return Err(ProofRejected), plan;
      }
      var required := HasRequired(h.run);
      if !required {
        return Err(EvidenceMissing), plan;
      }
      var missing := MissingNow(h, d, scope);
      SubsetSize(missing, heads.Keys);
      plan := TombstoneMissing(h, scope, missing, ids);
      var row := if h.run in meta then meta[h.run] else R.RunMeta(None, false, 0);
      meta := meta[h.run := row.(complete := true)];
      r := Ok(());
      R.FinalizeExact(before, h, d, proof, plan);
    }

    method HasRequired(run: Id) returns (found: bool)
      ensures found == R.HasRequiredEvidence(Obs(), run)
    {
      var own := if run in evidence then evidence[run] else map[];
      var required := set e | e in own && own[e];
      found := required != {};
      if found {
        ghost var e :| e in required;
        assert e in R.Evidence(Obs(), run) && R.Evidence(Obs(), run)[e];
      } else {
        assert forall e :: e in own && own[e] ==> e in required;
      }
    }

    /** One tombstone for each missing head. */
    method TombstoneMissing(h: RunHandle, scope: string, missing: set<R.Stream>, ids: seq<Id>)
      returns (ghost plan: seq<(R.Stream, Id)>)
      requires forall i, j :: 0 <= i < j < |ids| ==> ids[i] != ids[j]
      requires forall i :: 0 <= i < |ids| ==> ids[i] !in revisions
      requires RunIsRunning(jobs.Core(), h.run)
      requires |missing| <= |ids| && forall s :: s in missing ==> s in heads && heads[s].action.Upsert?
      modifies `revisions, `revisionAt, `heads, `links, `meta
      ensures R.PlanOk(old(Obs()), plan) && R.PlanStreams(plan) == missing
      ensures Obs() == R.TombstoneAll(old(Obs()), h, scope, plan)
    {
      hide R.TombstoneAll, R.TombstoneOne, R.PlanOk, R.PlanStreams, R.PlanIds, RunIsRunning;
      ghost var before := Obs();
      plan := [];
      R.NoPlan(before);
      R.NoTombstones(before, h, scope);
      var todo, k := missing, 0;
      while todo != {}
        invariant todo <= missing && R.PlanStreams(plan) == missing - todo
        invariant k == |plan| == |missing| - |todo| && k <= |ids|
        invariant R.PlanOk(before, plan) && forall i :: k <= i < |ids| ==> ids[i] !in R.PlanIds(plan)
        invariant Obs() == R.TombstoneAll(before, h, scope, plan) && todo <= heads.Keys
        decreases |todo|
      {
        var s :| s in todo;
        ExtendPlan(before, plan, s, ids[k], h, scope);
        WriteTombstone(h, scope, s, ids[k]);
        plan := plan + [(s, ids[k])];
        todo, k := todo - {s}, k + 1;
      }
    }

    method WriteTombstone(h: RunHandle, scope: string, s: R.Stream, id: Id)
      requires s in heads && RunIsRunning(jobs.Core(), h.run)
      modifies `revisions, `revisionAt, `heads, `links, `meta
      ensures Obs() == R.TombstoneOne(old(Obs()), h, scope, s, id) && heads.Keys == old(heads).Keys
    {
      var envelope := heads[s].digest.envelope;
      AppendRevision(id, s, R.Tombstone, R.TombstoneDigest(h, envelope, scope), Some(scope));
      LinkRun(h.run, id);
    }

    function MissingNow(h: RunHandle, d: Definition, scope: string): (m: set<R.Stream>)
      reads this
      ensures m == R.Missing(Obs(), h, d, scope) && m <= heads.Keys
      ensures forall s :: s in m ==> heads[s].action.Upsert?
    {
      var linked := if h.run in links then links[h.run] else {};
      var seen := set id | id in linked && id in revisions && revisions[id].action.Upsert? :: revisions[id].stream.key;
      set s | s in heads && s.datasource == h.datasource && s.lane == h.lane && s.keyVersion == d.keyVersion
              && heads[s].action.Upsert? && heads[s].observation in revisions
              && revisions[heads[s].observation].scope == Some(scope) && s.key !in seen
    }

  }

  /** A handle that owns its job has a running run, so the guards on the run's row hold. */
  lemma OwnedNow(jobs: J.JobStore, h: RunHandle, now: Time)
    requires jobs.Valid() && Genuine(jobs.Core(), h) && Owns(jobs.Core(), h.lease, now)
    ensures RunIsRunning(jobs.Core(), h.run)
  {
    hide TableOk, RowsOk, AttemptsOk, TokensOk, Owns, Genuine;
    OwnedRunIsRunning(jobs.Core(), h, now);
  }

  lemma {:induction false} SubsetSize(a: set<R.Stream>, b: set<R.Stream>)
    requires a <= b
    ensures |a| <= |b|
  {
    if s :| s in a {
      SubsetSize(a - {s}, b - {s});
    }
  }

  lemma ExtendPlan(o: R.Obs, plan: seq<(R.Stream, Id)>, s: R.Stream, id: Id, h: RunHandle, scope: string)
    requires R.PlanOk(o, plan) && s in o.heads && o.heads[s].action.Upsert? && s !in R.PlanStreams(plan)
    requires id !in o.revisions && id !in R.PlanIds(plan)
    ensures var longer := plan + [(s, id)];
            && R.PlanOk(o, longer)
            && R.PlanStreams(longer) == R.PlanStreams(plan) + {s}
            && R.PlanIds(longer) == R.PlanIds(plan) + {id}
            && R.TombstoneAll(o, h, scope, longer) == R.TombstoneOne(R.TombstoneAll(o, h, scope, plan), h, scope, s, id)
  {
    var longer := plan + [(s, id)];
    assert longer[..|longer| - 1] == plan;
  }
}
