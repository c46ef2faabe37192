/** What the observation tables say about a run, told by the operations of the whole history: the keys it saw
    are the keys it persisted, its scope the one it declared, its evidence what it saved, and its snapshot is
    complete when it finalized; so a finalization buries exactly the heads that the run never persisted. */
module SnapshotRuns {
  import opened Base
  import opened Jobs
  import opened Leases
  import opened Revisions
  import Store

  type States = seq<Store.Db>
  type Events = seq<Store.Event>

  // ---------------------------------------------------------------- operations that were accepted

  ghost predicate Persisted(db: Store.Db, e: Store.Event) {
    && e.op.SaveObservation? && Owns(db.core, e.op.h.lease, e.now)
    && Persist(db.obs, e.op.h, e.op.d, e.op.key, e.op.e, e.op.evidence, e.op.id, true).1.Ok?
  }

  /** The answer to an accepted persist. */
  ghost function Answer(db: Store.Db, e: Store.Event): Id
    requires Persisted(db, e)
  {
    Persist(db.obs, e.op.h, e.op.d, e.op.key, e.op.e, e.op.evidence, e.op.id, true).1.value
  }

  ghost predicate Declared(db: Store.Db, e: Store.Event) {
    && e.op.BeginSnapshotOp? && Owns(db.core, e.op.h.lease, e.now)
    && BeginSnapshot(db.obs, e.op.h, e.op.d, e.op.scope, true).1.Ok?
  }

  ghost predicate Finalized(db: Store.Db, e: Store.Event) {
    && e.op.FinalizeOp? && Owns(db.core, e.op.h.lease, e.now)
    && Finalize(db.obs, e.op.h, e.op.d, e.op.proof, e.op.plan, true).1.Ok?
  }

  ghost predicate Saved(db: Store.Db, e: Store.Event) {
    e.op.SaveEvidence? && Owns(db.core, e.op.h.lease, e.now)
  }

  // ---------------------------------------------------------------- one step

  /** Revisions stay, and the columns of every run change exactly by that run's own accepted operations. */
  ghost predicate StepTells(db: Store.Db, e: Store.Event, db': Store.Db, run: Id, k: string, x: Id) {
    && RevisionsKept(db.obs, db'.obs)
    && (k in Seen(db'.obs, run) <==>
          k in Seen(db.obs, run) || (Persisted(db, e) && e.op.h.run == run && e.op.key == k))
    && Meta(db'.obs, run).scope ==
         (if Declared(db, e) && e.op.h.run == run then Some(e.op.scope) else Meta(db.obs, run).scope)
    && Meta(db'.obs, run).complete == (if Finalized(db, e) && e.op.h.run == run then true
                                       else if Declared(db, e) && e.op.h.run == run then false
                                       else Meta(db.obs, run).complete)
    && (x in Evidence(db'.obs, run) <==>
          x in Evidence(db.obs, run) || (Saved(db, e) && e.op.h.run == run && e.op.evidenceId == x))
    && (Required(db'.obs, run, x) <==>
          if Saved(db, e) && e.op.h.run == run && e.op.evidenceId == x then e.op.required else Required(db.obs, run, x))
  }

  predicate Required(o: Obs, run: Id, x: Id) {
    x in Evidence(o, run) && Evidence(o, run)[x]
  }

  lemma NothingTold(db: Store.Db, e: Store.Event, db': Store.Db, run: Id, k: string, x: Id)
    requires db'.obs == db.obs && !Persisted(db, e) && !Declared(db, e) && !Finalized(db, e) && !Saved(db, e)
    ensures StepTells(db, e, db', run, k, x)
  {
    hide Persisted, Declared, Finalized, Saved, Seen, Meta, Evidence;
  }

  lemma PersistTells(db: Store.Db, e: Store.Event, db': Store.Db, run: Id, k: string, x: Id)
    requires StreamsOk(db.obs) && Persisted(db, e) && e.op.id !in db.obs.revisions
    requires db'.obs == Persist(db.obs, e.op.h, e.op.d, e.op.key, e.op.e, e.op.evidence, e.op.id, true).0
    ensures StepTells(db, e, db', run, k, x)
  {
    hide StreamsOk, Seen, Owns, Persist, RevisionsKept;
    SeenAfterPersist(db.obs, e.op.h, e.op.d, e.op.key, e.op.e, e.op.evidence, e.op.id, run, k);
    PersistKeepsRevisions(db.obs, e.op.h, e.op.d, e.op.key, e.op.e, e.op.evidence, e.op.id);
    PersistColumns(db.obs, e.op.h, e.op.d, e.op.key, e.op.e, e.op.evidence, e.op.id, run);
  }

  lemma PersistColumns(o: Obs, h: RunHandle, d: Definition, key: string, e: Envelope, evidence: set<Id>, id: Id,
                       run: Id)
    ensures var o' := Persist(o, h, d, key, e, evidence, id, true).0;
            && Meta(o', run).scope == Meta(o, run).scope && Meta(o', run).complete == Meta(o, run).complete
            && Evidence(o', run) == Evidence(o, run)
  {
    hide NextRevision, UpsertDigest, StreamOf, Link, Append, Meta;
    var s := StreamOf(h, d, key);
    var r := NextRevision(o, s, Upsert, UpsertDigest(h, e), Meta(o, h.run).scope);
    LinkColumns(Append(o, id, r), h.run, id, run);
    AppendColumns(o, id, r, run);
    if s in o.heads {
      LinkColumns(o, h.run, o.heads[s].observation, run);
    }
  }

  lemma LinkColumns(o: Obs, owner: Id, id: Id, run: Id)
    ensures var o' := Link(o, owner, id, true);
            && Meta(o', run).scope == Meta(o, run).scope && Meta(o', run).complete == Meta(o, run).complete
            && Evidence(o', run) == Evidence(o, run)
  {
  }

  lemma AppendColumns(o: Obs, id: Id, r: Revision, run: Id)
    ensures var o' := Append(o, id, r); Meta(o', run) == Meta(o, run) && Evidence(o', run) == Evidence(o, run)
  {
  }

  lemma FinalizeTells(db: Store.Db, e: Store.Event, db': Store.Db, run: Id, k: string, x: Id)
    requires StreamsOk(db.obs) && Finalized(db, e) && PlanOk(db.obs, e.op.plan)
    requires db'.obs == Finalize(db.obs, e.op.h, e.op.d, e.op.proof, e.op.plan, true).0
    ensures StepTells(db, e, db', run, k, x)
  {
    hide StreamsOk, Owns, PlanOk, TombstoneAll, BuriedHeads, Seen;
    var o, h, plan := db.obs, e.op.h, e.op.plan;
    var scope := Meta(o, h.run).scope.value;
    var o1 := TombstoneAll(o, h, scope, plan);
    TombstoneAllOk(o, h, scope, plan);
    PlanIdsNew(o, plan);
    SeenKept(o, o1, h.run, PlanStreams(plan), PlanIds(plan), scope, run);
    SameSeen(o1, db'.obs, run);
    TombstoneColumns(o, h, scope, plan, run);
    hide AppendOnly;
  }

  lemma SameSeen(o: Obs, o': Obs, run: Id)
    requires o'.links == o.links && o'.revisions == o.revisions
    ensures Seen(o', run) == Seen(o, run)
  {
  }

  lemma {:induction false} TombstoneColumns(o: Obs, h: RunHandle, scope: string, plan: seq<(Stream, Id)>, run: Id)
    ensures var o' := TombstoneAll(o, h, scope, plan);
            && Meta(o', run).scope == Meta(o, run).scope && Meta(o', run).complete == Meta(o, run).complete
            && Evidence(o', run) == Evidence(o, run)
  {
    if plan != [] {
      TombstoneColumns(o, h, scope, plan[..|plan| - 1], run);
    }
  }

  lemma ColumnTells(db: Store.Db, e: Store.Event, db': Store.Db, run: Id, k: string, x: Id)
    requires Declared(db, e) || Saved(db, e)
    requires Declared(db, e) ==> db'.obs == BeginSnapshot(db.obs, e.op.h, e.op.d, e.op.scope, true).0
    requires Saved(db, e) ==> db'.obs == Revisions.PersistEvidence(db.obs, e.op.h.run, e.op.evidenceId, e.op.required)
    ensures StepTells(db, e, db', run, k, x)
  {
    hide Seen, Owns;
    SameSeen(db.obs, db'.obs, run);
  }

  lemma StepIsTold(db: Store.Db, now: Time, e: Store.Event, db': Store.Db, run: Id, k: string, x: Id)
    requires Store.StoreOk(db, now) && Store.Next(db, e, db')
    ensures StepTells(db, e, db', run, k, x)
  {
    hide Consistent, StreamsOk, StepTells, Store.CoreStep, Store.PromoStep, Store.Finish;
    assert RunsOk(db.core.attempts, db.core.runs) by { CoreRuns(db.core); }
    assert db'.obs == Store.ObsStep(db, e.now, e.op) by { ObsOfStep(db, e.now, e.op); }
    if Store.LeaseOf(e.op).Some? && !e.op.FinishSystemOp? && Owns(db.core, e.op.h.lease, e.now) {
      OwnedRunIsRunning(db.core, e.op.h, e.now);
    }
    hide Store.Step, Owns, Genuine, RunIsRunning;
    if Persisted(db, e) {
      PersistTells(db, e, db', run, k, x);
    } else if Finalized(db, e) {
      FinalizeTells(db, e, db', run, k, x);
    } else if Declared(db, e) || Saved(db, e) {
      ColumnTells(db, e, db', run, k, x);
    } else {
      RefusedTells(db, e);
      NothingTold(db, e, db', run, k, x);
    }
  }

  lemma CoreRuns(c: Core)
    requires Consistent(c)
    ensures RunsOk(c.attempts, c.runs)
  {
  }

  lemma ObsOfStep(db: Store.Db, now: Time, op: Store.Op)
    requires Store.WellIndexed(db.core)
    ensures Store.Step(db, now, op).obs == Store.ObsStep(db, now, op)
  {
    hide Store.CoreStep, Store.PromoStep, FinishRun, Store.WellIndexed;
  }

  /** Whatever was not accepted left the observation tables alone. */
  lemma RefusedTells(db: Store.Db, e: Store.Event)
    requires !Persisted(db, e) && !Declared(db, e) && !Finalized(db, e) && !Saved(db, e)
    requires Store.LeaseOf(e.op).Some? && !e.op.FinishSystemOp? && Owns(db.core, e.op.h.lease, e.now) ==>
               RunIsRunning(db.core, e.op.h.run)
    ensures Store.ObsStep(db, e.now, e.op) == db.obs
  {
    hide Owns, RunIsRunning, TombstoneAll;
  }

  // ---------------------------------------------------------------- whole runs

  /** An accepted persist of `key` by `run` among the first `k` events. */
  ghost predicate WasPersisted(states: States, events: Events, k: nat, run: Id, key: string)
    requires k <= |events| < |states|
  {
    exists m: nat :: m < k && Persisted(states[m], events[m]) && events[m].op.h.run == run && events[m].op.key == key
  }

  ghost predicate WasDeclared(states: States, events: Events, k: nat, run: Id, scope: string)
    requires k <= |events| < |states|
  {
    exists m: nat :: m < k && Declared(states[m], events[m]) && events[m].op.h.run == run && events[m].op.scope == scope
  }

  ghost predicate WasFinalized(states: States, events: Events, k: nat, run: Id)
    requires k <= |events| < |states|
  {
    exists m: nat :: m < k && Finalized(states[m], events[m]) && events[m].op.h.run == run
  }

  ghost predicate WasSaved(states: States, events: Events, k: nat, run: Id, x: Id)
    requires k <= |events| < |states|
  {
    exists m: nat :: m < k && Saved(states[m], events[m]) && events[m].op.h.run == run && events[m].op.evidenceId == x
  }

  ghost predicate WasRequired(states: States, events: Events, k: nat, run: Id, x: Id)
    requires k <= |events| < |states|
  {
    exists m: nat :: m < k && Saved(states[m], events[m]) && events[m].op.h.run == run && events[m].op.evidenceId == x
                     && events[m].op.required
  }

  lemma StepAt(states: States, events: Events, k: nat, run: Id, key: string, x: Id)
    requires Store.Trace(states, events) && k < |events|
    ensures StepTells(states[k], events[k], states[k + 1], run, key, x)
  {
    hide Store.StoreOk, Store.Next, StepTells;
    Store.TraceOk(states, events, k);
    StepIsTold(states[k], Store.Seen(events, k), events[k], states[k + 1], run, key, x);
  }

  /** The keys that a run's rows show as present are exactly the keys it persisted. */
  lemma {:induction false} SeenIsPersisted(states: States, events: Events, k: nat, run: Id, key: string)
    requires Store.Trace(states, events) && k <= |events|
    ensures key in Seen(states[k].obs, run) <==> WasPersisted(states, events, k, run, key)
  {
    hide Persisted, Declared, Finalized, Saved, Seen, Meta, Evidence, Required, RevisionsKept, Store.Next;
    if k == 0 {
      NothingSeen(run);
    } else {
      SeenIsPersisted(states, events, k - 1, run, key);
      StepAt(states, events, k - 1, run, key, 0);
      OneMorePersist(states, events, k - 1, run, key);
    }
  }

  lemma OneMorePersist(states: States, events: Events, k: nat, run: Id, key: string)
    requires k < |events| < |states|
    ensures WasPersisted(states, events, k + 1, run, key) <==>
              WasPersisted(states, events, k, run, key)
              || (Persisted(states[k], events[k]) && events[k].op.h.run == run && events[k].op.key == key)
  {
    hide Persist, Owns;
  }

  /** A run's scope is the one it declared, and it declared at most one; its snapshot is complete exactly when
      it finalized; its evidence is what it saved. */
  lemma {:induction false} ColumnsAreTold(states: States, events: Events, k: nat, run: Id, scope: string, x: Id)
    requires Store.Trace(states, events) && k <= |events|
    ensures Meta(states[k].obs, run).scope == Some(scope) <==> WasDeclared(states, events, k, run, scope)
    ensures Meta(states[k].obs, run).complete <==> WasFinalized(states, events, k, run)
    ensures Meta(states[k].obs, run).complete ==> Meta(states[k].obs, run).scope.Some?
    ensures x in Evidence(states[k].obs, run) <==> WasSaved(states, events, k, run, x)
    ensures Required(states[k].obs, run, x) ==> WasRequired(states, events, k, run, x)
  {
    hide Persisted, Declared, Finalized, Saved, Seen, RevisionsKept, Store.Next;
    if k == 0 {
    } else {
      ColumnsAreTold(states, events, k - 1, run, scope, x);
      StepAt(states, events, k - 1, run, "", x);
      FirstDeclaration(states[k - 1], events[k - 1]);
      hide Meta, Evidence, Required;
      Extends(states, events, k - 1, run, scope, x);
    }
  }

  /** A scope is declared only where none is, and finalized only where one is. */
  lemma FirstDeclaration(db: Store.Db, e: Store.Event)
    ensures Declared(db, e) ==> Meta(db.obs, e.op.h.run).scope.None?
    ensures Finalized(db, e) ==> Meta(db.obs, e.op.h.run).scope.Some? && !Declared(db, e)
  {
    hide Owns, TombstoneAll;
  }

  lemma Extends(states: States, events: Events, k: nat, run: Id, scope: string, x: Id)
    requires k < |events| < |states|
    ensures WasDeclared(states, events, k + 1, run, scope) <==>
              WasDeclared(states, events, k, run, scope)
              || (Declared(states[k], events[k]) && events[k].op.h.run == run && events[k].op.scope == scope)
    ensures WasFinalized(states, events, k + 1, run) <==>
              WasFinalized(states, events, k, run) || (Finalized(states[k], events[k]) && events[k].op.h.run == run)
    ensures WasSaved(states, events, k + 1, run, x) <==>
              WasSaved(states, events, k, run, x)
              || (Saved(states[k], events[k]) && events[k].op.h.run == run && events[k].op.evidenceId == x)
    ensures WasRequired(states, events, k + 1, run, x) <==>
              WasRequired(states, events, k, run, x)
              || (Saved(states[k], events[k]) && events[k].op.h.run == run && events[k].op.evidenceId == x
                  && events[k].op.required)
  {
    hide Declared, Finalized, Saved;
  }

  /** A live head of the finalizing run's datasource, lane and key version that was recorded under `scope`. */
  ghost predicate Judged(o: Obs, h: RunHandle, d: Definition, scope: string, s: Stream) {
    && s in o.heads && o.heads[s].action.Upsert?
    && s.datasource == h.datasource && s.lane == h.lane && s.keyVersion == d.keyVersion
    && o.heads[s].observation in o.revisions && o.revisions[o.heads[s].observation].scope == Some(scope)
  }

  /** Full-snapshot tombstones over whole runs: an accepted finalization buries, under the scope its run declared
      and with required evidence its run saved, exactly the live heads of that scope whose key the run itself never
      persisted; every other head stays as it was. */
  lemma FinalizeBuries(states: States, events: Events, k: nat, s: Stream) returns (scope: string)
    requires Store.Trace(states, events) && k < |events| && Finalized(states[k], events[k])
    ensures WasDeclared(states, events, k, events[k].op.h.run, scope)
    ensures events[k].op.proof.complete && events[k].op.proof.scope == Some(scope)
    ensures exists x :: WasRequired(states, events, k, events[k].op.h.run, x)
    ensures var o, o', op := states[k].obs, states[k + 1].obs, events[k].op;
            && o'.heads.Keys == o.heads.Keys
            && (s in o.heads ==>
                  if Judged(o, op.h, op.d, scope, s) && !WasPersisted(states, events, k, op.h.run, s.key)
                  then o'.heads[s].action.Tombstone? && o'.heads[s].no == o.heads[s].no + 1
                  else o'.heads[s] == o.heads[s])
  {
    hide Store.StoreOk, StreamsOk, Owns, WasDeclared, WasSaved, WasRequired, WasPersisted, WasFinalized, PlanOk,
         AppendOnly, Seen, TombstoneAll;
    var o, e := states[k].obs, events[k];
    var run := e.op.h.run;
    scope := Meta(o, run).scope.value;
    var x :| x in Evidence(o, run) && Evidence(o, run)[x];
    ColumnsAreTold(states, events, k, run, scope, x);
    SeenIsPersisted(states, events, k, run, s.key);
    Store.TraceOk(states, events, k);
    FinalizedStep(states[k], Store.Seen(events, k), e, states[k + 1]);
    hide Store.Trace, Finalized, Finalize;
    assert s in Missing(o, e.op.h, e.op.d, scope) <==>
             Judged(o, e.op.h, e.op.d, scope, s) && s.key !in Seen(o, run);
  }

  lemma FinalizedStep(db: Store.Db, now: Time, e: Store.Event, db': Store.Db)
    requires Store.StoreOk(db, now) && Store.Next(db, e, db') && Finalized(db, e)
    ensures Meta(db.obs, e.op.h.run).scope.Some? && e.op.proof.complete
            && e.op.proof.scope == Meta(db.obs, e.op.h.run).scope
    ensures HasRequiredEvidence(db.obs, e.op.h.run)
    ensures BuriedHeads(db.obs.heads, db'.obs.heads,
                        Missing(db.obs, e.op.h, e.op.d, Meta(db.obs, e.op.h.run).scope.value))
  {
    hide Consistent, StreamsOk, Store.CoreStep, Store.PromoStep, Owns, Missing, TombstoneAll, PlanOk;
    CoreRuns(db.core);
    OwnedRunIsRunning(db.core, e.op.h, e.now);
    hide RunIsRunning, Genuine;
    FinalizeExact(db.obs, e.op.h, e.op.d, e.op.proof, e.op.plan);
  }

  // ---------------------------------------------------------------- answers and content

  lemma {:induction false} RevisionsStay(states: States, events: Events, i: nat, k: nat)
    requires Store.Trace(states, events) && i <= k <= |events|
    ensures RevisionsKept(states[i].obs, states[k].obs)
    decreases k - i
  {
    hide Store.Trace, Persisted, Declared, Finalized, Saved, Seen, Meta, Evidence;
    if i < k {
      RevisionsStay(states, events, i + 1, k);
      StepAt(states, events, i, 0, "", 0);
    }
  }

  /** An observation id stands for one content: two accepted persists, at any points of any run, are answered with
      the same id only for the same key of the same datasource, lane and key version, with the same envelope of the
      same definition version; and if the stream's head did not move in between, exactly then. */
  lemma AnswersTellContent(states: States, events: Events, i: nat, k: nat)
    requires Store.Trace(states, events) && i < k < |events| && Persisted(states[i], events[i])
             && Persisted(states[k], events[k])
    ensures var a, b := events[i].op, events[k].op;
            var stream := Stream(a.h.datasource, a.h.lane, a.d.keyVersion, a.key);
            var same := && b.h.datasource == a.h.datasource && b.h.lane == a.h.lane && b.d.keyVersion == a.d.keyVersion
                        && b.key == a.key && b.e == a.e && b.h.version == a.h.version;
            && (Answer(states[i], events[i]) == Answer(states[k], events[k]) ==> same)
            && (same && SameHead(states[i + 1].obs, states[k].obs, stream) ==>
                  Answer(states[i], events[i]) == Answer(states[k], events[k]))
  {
    hide Store.StoreOk, StreamsOk, Store.Next, Persist, RevisionsKept;
    Store.TraceOk(states, events, i);
    Store.TraceOk(states, events, k);
    RevisionsStay(states, events, i + 1, k);
    RevisionsStay(states, events, k, k + 1);
    PersistedStep(states[i], Store.Seen(events, i), events[i], states[i + 1]);
    PersistedStep(states[k], Store.Seen(events, k), events[k], states[k + 1]);
    hide Store.Trace, Persisted;
    KeptTwice(states[i + 1].obs, states[k].obs, states[k + 1].obs, Answer(states[i], events[i]));
  }

  predicate SameHead(o: Obs, o': Obs, s: Stream) {
    s in o.heads && s in o'.heads && o.heads[s] == o'.heads[s]
  }

  lemma KeptTwice(o: Obs, o1: Obs, o2: Obs, x: Id)
    requires RevisionsKept(o, o1) && RevisionsKept(o1, o2) && x in o.revisions
    ensures x in o2.revisions && o2.revisions[x] == o.revisions[x]
  {
  }

  lemma PersistedStep(db: Store.Db, now: Time, e: Store.Event, db': Store.Db)
    requires Store.StoreOk(db, now) && Store.Next(db, e, db') && Persisted(db, e)
    ensures var s, x := Stream(e.op.h.datasource, e.op.h.lane, e.op.d.keyVersion, e.op.key), Answer(db, e);
            && x in db'.obs.revisions && db'.obs.revisions[x].stream == s
            && db'.obs.revisions[x].digest == Digest(e.op.h.version, Upsert, e.op.e, None)
            && s in db'.obs.heads
               && db'.obs.heads[s] == Head(x, Digest(e.op.h.version, Upsert, e.op.e, None), db'.obs.heads[s].no, Upsert)
            && (s in db.obs.heads && db.obs.heads[s] == db'.obs.heads[s].(observation := db.obs.heads[s].observation,
                                                                          no := db.obs.heads[s].no) ==>
                  x == db.obs.heads[s].observation)
  {
    hide Consistent, StreamsOk, Store.CoreStep, Store.PromoStep, Owns, GrowsBy;
    CoreRuns(db.core);
    OwnedRunIsRunning(db.core, e.op.h, e.now);
    hide RunIsRunning, Genuine;
    AnswerIsUpsert(db.obs, e.op.h, e.op.d, e.op.key, e.op.e, e.op.evidence, e.op.id);
    PersistRefinesHistory(db.obs, e.op.h, e.op.d, e.op.key, e.op.e, e.op.evidence, e.op.id);
    PersistAnswers(db.obs, e.op.h, e.op.d, e.op.key, e.op.e, e.op.evidence, e.op.id);
    hide Persist;
  }
}
