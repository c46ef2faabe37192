/** The operational store as one state machine: every public operation is one atomic step, and any
    interleaving of workers, recoveries, operators and readers is a sequence of such steps. */
module Store {
  import opened Base
  import opened Jobs
  import opened Leases
  import R = Revisions
  import P = Promotions
  import Refresh

  datatype Db = Db(core: Core, obs: R.Obs, promo: P.Promo)

  datatype Op =
    | EnqueueJob(args: EnqueueArgs, id: Id, instance: Id)
    | EnqueueProjection(body: string, trigger: Trigger, at: Time, id: Id)
    | ClaimOp(job: Id, worker: string, seconds: int, token: Id)
    | StartRunOp(claim: Claim, worker: string, attempt: Id, run: Id)
    | StartSystemOp(claim: Claim, worker: string, attempt: Id)
    | RecoverOp
    | CancelOp(job: Id)
    | HeartbeatOp(h: RunHandle, seconds: int)
    | SaveEvidence(h: RunHandle, evidenceId: Id, required: bool)
    | SaveObservation(h: RunHandle, d: Definition, key: string, e: R.Envelope, evidence: set<Id>, id: Id)
    | BeginSnapshotOp(h: RunHandle, d: Definition, scope: string)
    | FinalizeOp(h: RunHandle, d: Definition, proof: R.Proof, plan: seq<(R.Stream, Id)>)
    | FinishOp(h: RunHandle, d: Definition, status: AttemptStatus, retryable: bool, retryAt: Option<Time>,
               promote: bool, id: Id)
    | FinishSystemOp(lease: Lease, systemStatus: AttemptStatus)
    | OpenReviewOp(review: Id, row: P.Review)
    | DecideReviewOp(review: Id, approve: bool)
    | PromoteOp(review: Id, id: Id)
    | RevokeOp(run: Id, id: Id)

  datatype Event = Event(now: Time, op: Op)

  /** The lease that an operation must still hold. */
  function LeaseOf(op: Op): Option<Lease> {
    match op
    case HeartbeatOp(h, _) => Some(h.lease)
    case SaveEvidence(h, _, _) => Some(h.lease)
    case SaveObservation(h, _, _, _, _, _) => Some(h.lease)
    case BeginSnapshotOp(h, _, _) => Some(h.lease)
    case FinalizeOp(h, _, _, _) => Some(h.lease)
    case FinishOp(h, _, _, _, _, _, _) => Some(h.lease)
    case FinishSystemOp(l, _) => Some(l)
    case _ => None
  }

  /** `finish_run`: close the attempt and, when asked, append the automatic approval in the same
      transaction; a refused promotion rolls the close back. */
  function Finish(db: Db, h: RunHandle, d: Definition, status: AttemptStatus, retryable: bool, retryAt: Option<Time>,
                  promote: bool, id: Id, now: Time): (Db, Result<()>)
  {
    if status.Running? || (retryAt.Some? && !retryable) then (db, Err(InvalidArgument))
    else if promote && !(status.Succeeded? && h.lane.ProductionIngestion? && d.automaticPromotion)
    then (db, Err(NotPermitted))
    else
      var (core', r) := FinishRun(db.core, h, status, retryable, retryAt, now);
      if r.Err? then (db, r)
      else if promote && d.fullSnapshot && !R.Meta(db.obs, h.run).complete then (db, Err(NotPermitted))
      else
        var promo' := if promote then P.Record(db.promo, id, h.run, P.Approved, P.Automatic, now) else db.promo;
        (db.(core := core', promo := promo'), Ok(()))
  }

  function WithTable(c: Core, t: JobTable): Core {
    c.(table := t)
  }

  predicate WellIndexed(c: Core) {
    forall k :: k in c.table.byKey ==> c.table.byKey[k] in c.table.rows
  }

  function CoreStep(c: Core, now: Time, op: Op): Core
    requires WellIndexed(c)
  {
    match op
    case EnqueueJob(a, id, instance) => WithTable(c, Enqueue(c.table, a, id, instance).0)
    case EnqueueProjection(body, trigger, at, id) => WithTable(c, EnqueueDelivery(c.table, body, trigger, at, id).0)
    case ClaimOp(j, worker, seconds, token) => ClaimJob(c, j, worker, now, seconds, token).0
    case StartRunOp(claim, worker, attempt, run) => StartRun(c, claim, worker, now, attempt, run).0
    case StartSystemOp(claim, worker, attempt) => StartSystem(c, claim, worker, now, attempt).0
    case RecoverOp => Recover(c, now)
    case CancelOp(j) => Cancel(c, j).0
    case HeartbeatOp(h, seconds) => Heartbeat(c, h.lease, now, seconds).0
    case FinishSystemOp(l, status) => FinishSystem(c, l, status, now).0
    case _ => c
  }

  function ObsStep(db: Db, now: Time, op: Op): R.Obs {
    match op
    case SaveEvidence(h, id, required) =>
      if Owns(db.core, h.lease, now) then R.PersistEvidence(db.obs, h.run, id, required) else db.obs
    case SaveObservation(h, d, key, e, evidence, id) =>
      if Owns(db.core, h.lease, now)
      then R.Persist(db.obs, h, d, key, e, evidence, id, RunIsRunning(db.core, h.run)).0 else db.obs
    case BeginSnapshotOp(h, d, scope) =>
      if Owns(db.core, h.lease, now) then R.BeginSnapshot(db.obs, h, d, scope, RunIsRunning(db.core, h.run)).0
      else db.obs
    case FinalizeOp(h, d, proof, plan) =>
      if Owns(db.core, h.lease, now) then R.Finalize(db.obs, h, d, proof, plan, RunIsRunning(db.core, h.run)).0
      else db.obs
    case _ => db.obs
  }

  function PromoStep(db: Db, now: Time, op: Op): P.Promo {
    match op
    case OpenReviewOp(review, row) => P.OpenReview(db.promo, review, row)
    case DecideReviewOp(review, approve) => P.DecideReview(db.promo, review, approve).0
    case PromoteOp(review, id) => P.PromoteReview(db.promo, db.core, review, now, id).0
    case RevokeOp(run, id) => P.Revoke(db.promo, db.core, run, now, id).0
    case _ => db.promo
  }

  function Step(db: Db, now: Time, op: Op): Db
    requires WellIndexed(db.core)
  {
    match op
    case FinishOp(h, d, status, retryable, retryAt, promote, id) =>
      Finish(db, h, d, status, retryable, retryAt, promote, id, now).0
    case _ => Db(CoreStep(db.core, now, op), ObsStep(db, now, op), PromoStep(db, now, op))
  }

  /** Identities are new, handles were handed out by a start, and a finalization's plan lists what its
      query returned. */
  ghost predicate Allowed(db: Db, op: Op) {
    match op
    case EnqueueJob(a, id, instance) =>
      id !in db.core.table.rows && (a.trigger.Manual? && a.instance.None? ==> FreshInstance(db.core.table, a, instance))
    case EnqueueProjection(_, _, _, id) => id !in db.core.table.rows
    case ClaimOp(_, _, _, token) => token !in db.core.tokens
    case StartRunOp(_, _, attempt, run) => attempt !in db.core.attempts && run !in db.core.runs
    case StartSystemOp(_, _, attempt) => attempt !in db.core.attempts
    case HeartbeatOp(h, _) => Genuine(db.core, h)
    case SaveEvidence(h, _, _) => Genuine(db.core, h)
    case SaveObservation(h, _, _, _, _, id) => Genuine(db.core, h) && id !in db.obs.revisions
    case BeginSnapshotOp(h, _, _) => Genuine(db.core, h)
    case FinalizeOp(h, d, _, plan) =>
      && Genuine(db.core, h) && R.PlanOk(db.obs, plan)
      && var scope := R.Meta(db.obs, h.run).scope;
         scope.Some? ==> R.PlanStreams(plan) == R.Missing(db.obs, h, d, scope.value)
    case FinishOp(h, _, _, _, _, _, _) => Genuine(db.core, h)
    case FinishSystemOp(l, _) =>
      l in db.core.issued && forall r :: r in db.core.runs ==> db.core.runs[r].attempt != l.attempt
    case _ => true
  }

  ghost predicate StoreOk(db: Db, now: Time) {
    && Consistent(db.core)
    && R.StreamsOk(db.obs)
    && P.LedgerOk(db.promo, now)
    && P.DecidedRunsOk(db.promo, db.core.runs)
  }

  // ---------------------------------------------------------------- one step

  lemma Indexed(c: Core)
    requires Consistent(c)
    ensures WellIndexed(c)
  {
    hide RowsOk, AttemptsOk, RunsOk, TokensOk;
  }

  lemma CoreStepOk(c: Core, db: Db, now: Time, op: Op)
    requires c == db.core && Consistent(c) && Allowed(db, op) && !op.FinishOp?
    ensures WellIndexed(c) && Consistent(CoreStep(c, now, op)) && Progress(c, CoreStep(c, now, op), now)
  {
    hide Consistent, Progress, Keeps, Enqueue, EnqueueDelivery, ClaimJob, StartRun, StartSystem, RecoverSet,
         Cancel, Heartbeat, FinishSystem;
    Indexed(c);
    match op
    case EnqueueJob(a, id, instance) =>
      EnqueueConsistent(c, a, id, instance);
      EnqueueProgress(c, a, id, instance, now);
    case EnqueueProjection(body, trigger, at, id) =>
      EnqueueDeliveryConsistent(c, body, trigger, at, id);
      DeliveryProgress(c, body, trigger, at, id, now);
    case ClaimOp(j, worker, seconds, token) =>
      ClaimConsistent(c, j, worker, now, seconds, token);
      ClaimJobProgress(c, j, worker, now, seconds, token);
    case StartRunOp(claim, worker, attempt, run) =>
      StartConsistent(c, claim, worker, now, attempt, run);
      StartProgress(c, claim, worker, now, attempt, run);
    case StartSystemOp(claim, worker, attempt) =>
      StartSystemConsistent(c, claim, worker, now, attempt);
      StartProgress(c, claim, worker, now, attempt, 0);
    case RecoverOp =>
      RecoverConsistent(c, now);
      RecoverProgress(c, ExpiredJobs(c, now), now);
    case CancelOp(j) =>
      CancelConsistent(c, j);
      CancelProgress(c, j, now);
    case HeartbeatOp(h, seconds) =>
      HeartbeatConsistent(c, h.lease, now, seconds);
      HeartbeatProgress(c, h.lease, now, seconds);
    case FinishSystemOp(l, status) =>
      FinishSystemConsistent(c, l, status, now);
      FinishSystemProgress(c, l, status, now);
    case _ =>
      NoProgress(c, now);
  }

  lemma CoreStepKeeps(c: Core, db: Db, now: Time, op: Op)
    requires c == db.core && Consistent(c) && Allowed(db, op) && !op.FinishOp?
    ensures WellIndexed(c) && Keeps(c.table, CoreStep(c, now, op).table)
  {
    hide Consistent, Keeps, Enqueue, EnqueueDelivery, ClaimJob, StartRun, StartSystem, Recover, Cancel, Heartbeat,
         FinishSystem;
    Indexed(c);
    match op
    case EnqueueJob(a, id, instance) => EnqueueConsistent(c, a, id, instance);
    case EnqueueProjection(body, trigger, at, id) => EnqueueDeliveryConsistent(c, body, trigger, at, id);
    case ClaimOp(j, worker, seconds, token) => ClaimConsistent(c, j, worker, now, seconds, token);
    case StartRunOp(claim, worker, attempt, run) => StartConsistent(c, claim, worker, now, attempt, run);
    case StartSystemOp(claim, worker, attempt) => StartSystemConsistent(c, claim, worker, now, attempt);
    case RecoverOp => RecoverConsistent(c, now);
    case CancelOp(j) => CancelConsistent(c, j);
    case HeartbeatOp(h, seconds) => HeartbeatConsistent(c, h.lease, now, seconds);
    case FinishSystemOp(l, status) => FinishSystemConsistent(c, l, status, now);
    case _ => KeepsSelf(c.table);
  }

  lemma NoProgress(c: Core, now: Time)
    ensures Progress(c, c, now)
  {
  }

  lemma DeliveryProgress(c: Core, body: string, trigger: Trigger, at: Time, id: Id, now: Time)
    requires Consistent(c) && id !in c.table.rows
    ensures Progress(c, WithTable(c, EnqueueDelivery(c.table, body, trigger, at, id).0), now)
  {
    var (t', r) := EnqueueDelivery(c.table, body, trigger, at, id);
    hide TableOk, RowsOk, AttemptsOk, RunsOk, TokensOk, Progress;
    if r.Ok? && r.value.disposition.Accepted? {
      AddedProgress(c, t', id, now);
    } else {
      NoProgress(c, now);
    }
  }

  lemma StartProgress(c: Core, claim: Claim, worker: string, now: Time, attempt: Id, run: Id)
    requires Consistent(c) && attempt !in c.attempts
    ensures run !in c.runs ==> Progress(c, StartRun(c, claim, worker, now, attempt, run).0, now)
    ensures Progress(c, StartSystem(c, claim, worker, now, attempt).0, now)
  {
    hide TableOk, RowsOk, AttemptsOk, RunsOk, TokensOk, Progress;
    NoProgress(c, now);
    if Startable(c, claim, now) {
      BeginProgress(c, claim, worker, now, attempt, c.runs);
      if run !in c.runs && StartRun(c, claim, worker, now, attempt, run).1.Ok? {
        BeginProgress(c, claim, worker, now, attempt, StartRun(c, claim, worker, now, attempt, run).0.runs);
      }
    }
  }

  lemma FinishSystemProgress(c: Core, l: Lease, status: AttemptStatus, now: Time)
    ensures Progress(c, FinishSystem(c, l, status, now).0, now)
  {
    hide Progress;
    NoProgress(c, now);
    var (c', r) := FinishSystem(c, l, status, now);
    if r.Ok? {
      CloseProgress(c, l.job, c'.table.rows[l.job], l.attempt, status, c.runs, now);
    }
  }

  lemma FinishRunProgress(c: Core, h: RunHandle, status: AttemptStatus, retryable: bool, retryAt: Option<Time>,
                          now: Time)
    requires Consistent(c) && Genuine(c, h)
    ensures Progress(c, FinishRun(c, h, status, retryable, retryAt, now).0, now)
  {
    hide TableOk, RowsOk, AttemptsOk, TokensOk, Progress;
    NoProgress(c, now);
    var (c', r) := FinishRun(c, h, status, retryable, retryAt, now);
    if r.Ok? {
      assert c.runs[h.run].status.Running?;
      CloseProgress(c, h.lease.job, c'.table.rows[h.lease.job], h.lease.attempt, status, c'.runs, now);
    }
  }

  lemma ObsStepOk(db: Db, now: Time, op: Op)
    requires R.StreamsOk(db.obs) && Allowed(db, op) && RunsOk(db.core.attempts, db.core.runs)
    ensures R.StreamsOk(ObsStep(db, now, op)) && R.AppendOnly(db.obs, ObsStep(db, now, op))
  {
    hide R.HeadsOk, R.NumbersOk, R.ChainOk, R.CountsOk, R.History, Genuine, RunsOk, Owns, RunIsRunning;
    var o, o' := db.obs, ObsStep(db, now, op);
    if LeaseOf(op).Some? && Owns(db.core, LeaseOf(op).value, now) && (op.SaveObservation? || op.FinalizeOp?) {
      OwnedRunIsRunning(db.core, op.h, now);
    }
    if op.SaveObservation? {
      hide R.AppendOnly, R.GrowsBy;
      R.PersistRefinesHistory(o, op.h, op.d, op.key, op.e, op.evidence, op.id);
      PersistAppends(o, op);
    } else if op.FinalizeOp? {
      hide R.AppendOnly;
      R.FinalizeExact(o, op.h, op.d, op.proof, op.plan);
      R.SameAppends(o);
    } else {
      hide R.AppendOnly;
      R.ColumnsOnly(o, o');
    }
  }

  lemma PersistAppends(o: R.Obs, op: Op)
    requires R.StreamsOk(o) && op.SaveObservation? && op.id !in o.revisions
    ensures var o' := R.Persist(o, op.h, op.d, op.key, op.e, op.evidence, op.id, true).0;
            R.StreamsOk(o') && R.AppendOnly(o, o') && R.AppendOnly(o, o)
  {
    R.SameAppends(o);
    R.PersistRefinesHistory(o, op.h, op.d, op.key, op.e, op.evidence, op.id);
    hide R.HeadsOk, R.NumbersOk, R.ChainOk, R.CountsOk, R.GrowsBy, R.AppendOnly, R.Append, R.Link;
    var (o', r) := R.Persist(o, op.h, op.d, op.key, op.e, op.evidence, op.id, true);
    var s := R.StreamOf(op.h, op.d, op.key);
    if r.Ok? {
      R.GrowsAppendOnly(o, o', s, if R.Reuses(o, s, R.UpsertDigest(op.h, op.e)) then [] else [o'.revisions[r.value]]);
    }
  }

  lemma PromoStepOk(db: Db, before: Time, now: Time, op: Op)
    requires P.LedgerOk(db.promo, before) && before <= now && P.DecidedRunsOk(db.promo, db.core.runs)
    ensures P.LedgerOk(PromoStep(db, now, op), now) && P.DecidedRunsOk(PromoStep(db, now, op), db.core.runs)
  {
    hide P.LedgerOk, P.PromoteReview, P.Revoke, P.DecidedRunsOk;
    P.LedgerLater(db.promo, before, now);
    match op
    case PromoteOp(review, id) =>
      P.PromoteKeepsShape(db.promo, db.core, review, now, id, before);
      PromoteDecides(db.promo, db.core, review, now, id);
    case RevokeOp(run, id) =>
      P.RevokeOnce(db.promo, db.core, run, now, id, before, now, id);
      RevokeDecides(db.promo, db.core, run, now, id);
    case OpenReviewOp(review, row) =>
      SameLedger(db.promo, P.OpenReview(db.promo, review, row), now, db.core.runs);
    case DecideReviewOp(review, approve) =>
      SameLedger(db.promo, P.DecideReview(db.promo, review, approve).0, now, db.core.runs);
    case _ =>
  }

  lemma PromoteDecides(p: P.Promo, c: Core, review: Id, now: Time, id: Id)
    requires P.DecidedRunsOk(p, c.runs)
    ensures P.DecidedRunsOk(P.PromoteReview(p, c, review, now, id).0, c.runs)
  {
    hide P.MaxSeq, P.HasApproval;
  }

  lemma RevokeDecides(p: P.Promo, c: Core, run: Id, now: Time, id: Id)
    requires P.DecidedRunsOk(p, c.runs)
    ensures P.DecidedRunsOk(P.Revoke(p, c, run, now, id).0, c.runs)
  {
    hide P.MaxSeq, P.LatestAsOf;
  }

  /** Reviews come and are decided without touching the ledger. */
  lemma SameLedger(p: P.Promo, p': P.Promo, now: Time, runs: map<Id, Run>)
    requires P.LedgerOk(p, now) && P.DecidedRunsOk(p, runs) && p'.ledger == p.ledger
    ensures P.LedgerOk(p', now) && P.DecidedRunsOk(p', runs)
  {
  }

  lemma DecidedStay(p: P.Promo, c: Core, c': Core)
    requires P.DecidedRunsOk(p, c.runs) && Later(c, c')
    ensures P.DecidedRunsOk(p, c'.runs)
  {
  }

  /** The run that finishes was running, so nobody had decided on it: its automatic approval is the
      first entry of its history. */
  lemma FinishPromoOk(p: P.Promo, c: Core, c': Core, run: Id, id: Id, before: Time, now: Time, promote: bool)
    requires P.LedgerOk(p, before) && before <= now && P.DecidedRunsOk(p, c.runs) && Later(c, c')
    requires promote ==>
               run in c.runs && c.runs[run].status.Running? && run in c'.runs && c'.runs[run].status.Succeeded?
               && c'.runs[run].lane.ProductionIngestion?
    ensures var p' := if promote then P.Record(p, id, run, P.Approved, P.Automatic, now) else p;
            P.LedgerOk(p', now) && P.DecidedRunsOk(p', c'.runs)
  {
    DecidedStay(p, c, c');
    if promote {
      P.AutoKeepsShape(p, run, now, id, before);
    }
  }

  lemma FinishingRun(c: Core, h: RunHandle, status: AttemptStatus, retryable: bool, retryAt: Option<Time>, now: Time)
    requires RunsOk(c.attempts, c.runs) && Genuine(c, h)
    ensures var (c', r) := FinishRun(c, h, status, retryable, retryAt, now);
            r.Ok? ==>
              && h.run in c.runs && c.runs[h.run].status.Running? && h.run in c'.runs && c'.runs[h.run].status == status
              && c'.runs[h.run].lane == h.lane
  {
  }

  /** A finish either changes nothing, or closes the run and records at most its own approval. */
  lemma FinishCases(db: Db, now: Time, op: Op)
    requires op.FinishOp?
    ensures var db' := Finish(db, op.h, op.d, op.status, op.retryable, op.retryAt, op.promote, op.id, now).0;
            var (c', r) := FinishRun(db.core, op.h, op.status, op.retryable, op.retryAt, now);
            || db' == db
            || (r.Ok? && (op.promote ==> op.status.Succeeded? && op.h.lane.ProductionIngestion?)
                && db' == Db(c', db.obs,
                             if op.promote then P.Record(db.promo, op.id, op.h.run, P.Approved, P.Automatic, now)
                             else db.promo))
  {
  }

  lemma FinishOk(db: Db, before: Time, now: Time, op: Op)
    requires StoreOk(db, before) && before <= now && Allowed(db, op) && op.FinishOp?
    ensures var db' := Finish(db, op.h, op.d, op.status, op.retryable, op.retryAt, op.promote, op.id, now).0;
            StoreOk(db', now) && Progress(db.core, db'.core, now) && db'.obs == db.obs
  {
    FinishCases(db, now, op);
    FinishingRun(db.core, op.h, op.status, op.retryable, op.retryAt, now);
    FinishConsistent(db.core, op.h, op.status, op.retryable, op.retryAt, now);
    FinishRunProgress(db.core, op.h, op.status, op.retryable, op.retryAt, now);
    hide Consistent, R.StreamsOk, Progress, Keeps, P.LedgerOk, P.DecidedRunsOk, Finish, FinishRun, Genuine, Later;
    NoProgress(db.core, now);
    ProgressIsLater(db.core, db.core, now);
    FinishPromoOk(db.promo, db.core, db.core, op.h.run, op.id, before, now, false);
    var (c', r) := FinishRun(db.core, op.h, op.status, op.retryable, op.retryAt, now);
    if r.Ok? && (op.promote ==> op.status.Succeeded? && op.h.lane.ProductionIngestion?) {
      ProgressIsLater(db.core, c', now);
      FinishPromoOk(db.promo, db.core, c', op.h.run, op.id, before, now, op.promote);
    }
  }

  lemma ProgressIsLater(c: Core, c': Core, now: Time)
    requires Progress(c, c', now)
    ensures Later(c, c')
  {
  }

  /** When a finish goes through and what it then leaves: the closed run and, exactly when asked for, one automatic
      approval of this run; a promotion is refused unless the run is a success on the production lane of a definition
      that promotes automatically and, for a full snapshot, has been finalized; and a refusal changes nothing. */
  lemma FinishExact(db: Db, now: Time, op: Op)
    requires op.FinishOp? && P.Numbered(db.promo.ledger)
    ensures var (db', r) := Finish(db, op.h, op.d, op.status, op.retryable, op.retryAt, op.promote, op.id, now);
            var approval := P.Decision(op.id, |db.promo.ledger| + 1, op.h.run, P.Approved, P.Automatic, now);
            && (r.Ok? <==>
                  && !op.status.Running? && (op.retryAt.Some? ==> op.retryable) && Owns(db.core, op.h.lease, now)
                  && (op.promote ==> op.status.Succeeded? && op.h.lane.ProductionIngestion? && op.d.automaticPromotion
                                     && (op.d.fullSnapshot ==> R.Meta(db.obs, op.h.run).complete)))
            && (r.Err? ==> db' == db)
            && (r.Ok? ==>
                  && db'.core == FinishRun(db.core, op.h, op.status, op.retryable, op.retryAt, now).0
                     && db'.obs == db.obs
                  && db'.promo == db.promo.(ledger := if op.promote then db.promo.ledger + [approval]
                                            else db.promo.ledger))
  {
    P.MaxSeqIsLength(db.promo.ledger);
    hide P.MaxSeq, P.Numbered, Owns, RetryAt, ClosedState, CloseJob, SetJob, CloseAttempt;
  }

  /** Every allowed step keeps the whole store sound, however operations are interleaved. */
  lemma StepOk(db: Db, before: Time, now: Time, op: Op)
    requires StoreOk(db, before) && before <= now && Allowed(db, op)
    ensures WellIndexed(db.core)
    ensures var db' := Step(db, now, op);
            && StoreOk(db', now)
            && Progress(db.core, db'.core, now)
            && R.AppendOnly(db.obs, db'.obs)
  {
    assert WellIndexed(db.core) by {
      hide RowsOk, AttemptsOk, RunsOk, TokensOk, R.StreamsOk, P.LedgerOk, P.DecidedRunsOk;
    }
    if op.FinishOp? {
      hide Consistent, R.HeadsOk, R.NumbersOk, R.ChainOk, R.CountsOk, P.LedgerOk, P.DecidedRunsOk, Progress, Allowed;
      FinishOk(db, before, now, op);
      hide Finish;
      R.SameAppends(db.obs);
    } else {
      hide Consistent, R.HeadsOk, R.NumbersOk, R.ChainOk, R.CountsOk, P.LedgerOk, P.DecidedRunsOk, Allowed,
           StaysDead, Later, R.AppendOnly;
      CoreStepOk(db.core, db, now, op);
      ObsStepOk(db, now, op);
      PromoStepOk(db, before, now, op);
      DecidedStay(PromoStep(db, now, op), db.core, CoreStep(db.core, now, op));
      hide CoreStep, ObsStep, PromoStep;
    }
  }

  /** Between two refresh submissions the rest of the store moves the job table only as the refresh
      ledger expects: rows stay with their immutable columns, and no agent job appears, since only a
      submission enqueues with the agent trigger. */
  lemma StepLeavesAgents(db: Db, before: Time, now: Time, op: Op)
    requires StoreOk(db, before) && before <= now && Allowed(db, op)
    requires op.EnqueueJob? ==> !op.args.trigger.AgentRequest?
    ensures WellIndexed(db.core) && Refresh.OthersMoved(db.core.table, Step(db, now, op).core.table)
  {
    StepOk(db, before, now, op);
    hide RowsOk, AttemptsOk, RunsOk, TokensOk, R.StreamsOk, P.LedgerOk, P.DecidedRunsOk, Progress, R.AppendOnly;
    if op.FinishOp? {
      FinishConsistent(db.core, op.h, op.status, op.retryable, op.retryAt, now);
      KeepsSelf(db.core.table);
      FinishCases(db, now, op);
      hide Finish, FinishRun, TableOk, Keeps;
      assert Keeps(db.core.table, Step(db, now, op).core.table);
      FinishAddsNothing(db.core, op.h, op.status, op.retryable, op.retryAt, now);
    } else {
      CoreStepKeeps(db.core, db, now, op);
      hide TableOk, Keeps;
      NewRowsAreEnqueued(db.core, now, op);
    }
  }

  lemma FinishAddsNothing(c: Core, h: RunHandle, status: AttemptStatus, retryable: bool, retryAt: Option<Time>,
                          now: Time)
    ensures forall j :: j in FinishRun(c, h, status, retryable, retryAt, now).0.table.rows ==> j in c.table.rows
  {
  }

  lemma NewRowsAreEnqueued(c: Core, now: Time, op: Op)
    requires WellIndexed(c)
    requires op.EnqueueJob? ==> !op.args.trigger.AgentRequest?
    ensures forall j :: j in CoreStep(c, now, op).table.rows && j !in c.table.rows ==>
              !Refresh.IsAgent(CoreStep(c, now, op).table.rows[j].info)
  {
  }

  // ---------------------------------------------------------------- whole runs

  const EMPTY_STORE := Db(EMPTY_CORE, R.EMPTY_OBS, P.EMPTY_PROMO)

  /** A run of the store: the states between its events, from empty tables, under a clock that does
      not run backwards. Events of all workers, operators and recoveries are interleaved freely. */
  ghost predicate Trace(states: seq<Db>, events: seq<Event>) {
    && |states| == |events| + 1
    && states[0] == EMPTY_STORE
    && (forall i :: 0 <= i < |events| ==> Next(states[i], events[i], states[i + 1]))
    && (forall i, j :: 0 <= i <= j < |events| ==> events[i].now <= events[j].now)
  }

  ghost predicate Next(db: Db, e: Event, db': Db) {
    WellIndexed(db.core) && Allowed(db, e.op) && db' == Step(db, e.now, e.op)
  }

  /** The time up to which state `k` has seen. */
  function Seen(events: seq<Event>, k: nat): Time
    requires k <= |events|
  {
    if k == 0 then if events == [] then 0 else events[0].now else events[k - 1].now
  }

  lemma EmptyOk(now: Time)
    ensures StoreOk(EMPTY_STORE, now)
  {
  }

  /** In every reachable state: attempts are accounted for exactly, runs mirror their attempts, every
      head is the end of a gapless chain of differing revisions, counts are exact, promotion numbers
      are 1..n and every run's promotion history is empty, approved, or approved then revoked. */
  lemma {:induction false} TraceOk(states: seq<Db>, events: seq<Event>, k: nat)
    requires Trace(states, events) && k <= |events|
    ensures StoreOk(states[k], Seen(events, k))
  {
    hide StoreOk;
    if k == 0 {
      EmptyOk(Seen(events, 0));
    } else {
      TraceOk(states, events, k - 1);
      assert Next(states[k - 1], events[k - 1], states[k]);
      StepOk(states[k - 1], Seen(events, k - 1), events[k - 1].now, events[k - 1].op);
    }
  }

  /** Terminal jobs, closed attempts and closed runs never change again; nothing is deleted. */
  lemma {:induction false} ClosedForEver(states: seq<Db>, events: seq<Event>, i: nat, k: nat)
    requires Trace(states, events) && i <= k <= |events|
    ensures Later(states[i].core, states[k].core)
    decreases k - i
  {
    hide StoreOk, Later, Next, Step;
    if i == k {
      NoProgress(states[i].core, 0);
      ProgressIsLater(states[i].core, states[i].core, 0);
    } else {
      TraceOk(states, events, i);
      assert Next(states[i], events[i], states[i + 1]);
      TraceStep(states[i], Seen(events, i), events[i], states[i + 1]);
      ClosedForEver(states, events, i + 1, k);
      LaterTransitive(states[i].core, states[i + 1].core, states[k].core);
    }
  }

  lemma TraceStep(db: Db, before: Time, e: Event, db': Db)
    requires StoreOk(db, before) && before <= e.now && Next(db, e, db')
    ensures StoreOk(db', e.now) && Later(db.core, db'.core) && StaysDead(db.core, db'.core, e.now)
    ensures R.AppendOnly(db.obs, db'.obs)
  {
    hide StoreOk, Later, StaysDead, Step, R.AppendOnly;
    StepOk(db, before, e.now, e.op);
  }

  lemma LaterTransitive(c: Core, c1: Core, c2: Core)
    requires Later(c, c1) && Later(c1, c2)
    ensures Later(c, c2)
  {
  }

  /** A lease that has lapsed, was recovered or was closed stays dead for the rest of the run. */
  lemma {:induction false} DeadForEver(states: seq<Db>, events: seq<Event>, i: nat, k: nat, l: Lease, t: Time)
    requires Trace(states, events) && i <= k < |events|
    requires l in states[i].core.issued && !Holds(states[i].core, l, t) && t <= events[i].now
    ensures l in states[k].core.issued && !Holds(states[k].core, l, events[k].now)
    decreases k - i
  {
    hide StoreOk, Step, Later;
    HoldsEarlier(states[i].core, l, t, events[i].now);
    if i < k {
      TraceOk(states, events, i);
      assert Next(states[i], events[i], states[i + 1]);
      TraceStep(states[i], Seen(events, i), events[i], states[i + 1]);
      LaterIssued(states[i].core, states[i + 1].core, l);
      hide Next, Holds;
      DeadForEver(states, events, i + 1, k, l, events[i].now);
    }
  }

  lemma HoldsEarlier(c: Core, l: Lease, t: Time, t': Time)
    requires t <= t'
    ensures Holds(c, l, t') ==> Holds(c, l, t)
  {
  }

  lemma LaterIssued(c: Core, c': Core, l: Lease)
    requires Later(c, c') && l in c.issued
    ensures l in c'.issued
  {
  }

  /** Without its lease an operation changes nothing at all. */
  lemma DeadStepIsIdle(db: Db, now: Time, op: Op)
    requires WellIndexed(db.core) && LeaseOf(op).Some? && !Holds(db.core, LeaseOf(op).value, now)
    ensures Step(db, now, op) == db
  {
  }

  /** Lease fencing over whole runs: once a handle's lease does not hold its job any more, no later
      heartbeat, evidence, observation, snapshot or finish call with that handle changes the store,
      whatever other workers and recoveries do in between. */
  lemma Fencing(states: seq<Db>, events: seq<Event>, i: nat, k: nat, l: Lease, t: Time)
    requires Trace(states, events) && i <= k < |events|
    requires l in states[i].core.issued && !Holds(states[i].core, l, t) && t <= events[i].now
    requires LeaseOf(events[k].op) == Some(l)
    ensures states[k + 1] == states[k]
  {
    DeadForEver(states, events, i, k, l, t);
    assert Next(states[k], events[k], states[k + 1]);
    DeadStepIsIdle(states[k], events[k].now, events[k].op);
  }

  /** What makes a lease dead: its expiry, a recovery of its job, or the close of its attempt. */
  lemma WhatKills(c: Core, l: Lease, now: Time, t: Time)
    requires Consistent(c) && l in c.issued
    ensures l.job in c.table.rows && Expired(c.table.rows[l.job], now) ==>
              !Holds(c, l, now) && !Holds(Recover(c, now), l, t)
    ensures !c.attempts[l.attempt].status.Running? ==> !Holds(c, l, now)
  {
    if Holds(c, l, now) {
      HeldAttemptRuns(c, l, now);
    }
    hide TableOk, AttemptsOk, RunsOk, TokensOk, RowsOk;
  }

  /** Revision histories only ever grow, over the whole run. */
  lemma {:induction false} HistoriesOnlyGrow(states: seq<Db>, events: seq<Event>, i: nat, k: nat, s: R.Stream)
    requires Trace(states, events) && i <= k <= |events|
    ensures R.StreamsOk(states[i].obs) && R.StreamsOk(states[k].obs)
    ensures R.History(states[i].obs, s) <= R.History(states[k].obs, s)
    decreases k - i
  {
    TraceOk(states, events, i);
    hide Consistent, R.HeadsOk, R.NumbersOk, R.ChainOk, R.CountsOk, R.History, Later, Next, Step;
    if i < k {
      assert Next(states[i], events[i], states[i + 1]);
      TraceStep(states[i], Seen(events, i), events[i], states[i + 1]);
      HistoriesOnlyGrow(states, events, i + 1, k, s);
    }
  }

  /** Every step appends at most one decision, dated at the step. */
  lemma StepAppendsDecision(db: Db, now: Time, op: Op)
    requires WellIndexed(db.core)
    ensures P.AppendsAt(db.promo.ledger, Step(db, now, op).promo.ledger, now)
  {
    hide P.MaxSeq, P.LatestAsOf, P.Eligible, P.HasApproval, FinishRun, CoreStep, ObsStep;
  }

  /** Readers anchored in the past keep their answer: whatever the store does from some moment on, every
      run's latest decision as of an earlier time stays the same. */
  lemma {:induction false} EarlierAnswersStay(states: seq<Db>, events: seq<Event>, i: nat, k: nat, run: Id, asOf: Time)
    requires Trace(states, events) && i <= k <= |events|
    requires i < |events| ==> asOf < events[i].now
    ensures P.LatestAsOf(states[k].promo.ledger, run, Some(asOf)) ==
              P.LatestAsOf(states[i].promo.ledger, run, Some(asOf))
    decreases k - i
  {
    hide P.LatestAsOf, P.AppendsAt, Step;
    if i < k {
      assert Next(states[i], events[i], states[i + 1]);
      StepAppendsDecision(states[i], events[i].now, events[i].op);
      P.AppendKeepsEarlier(states[i].promo.ledger, states[i + 1].promo.ledger, events[i].now, run, asOf);
      EarlierAnswersStay(states, events, i + 1, k, run, asOf);
    }
  }

  /** A decided review is decided for ever: its row never changes again. */
  lemma {:induction false} ReviewsStayDecided(states: seq<Db>, events: seq<Event>, i: nat, k: nat, review: Id)
    requires Trace(states, events) && i <= k <= |events|
    requires review in states[i].promo.reviews && !states[i].promo.reviews[review].state.Open?
    ensures review in states[k].promo.reviews && states[k].promo.reviews[review] == states[i].promo.reviews[review]
    decreases k - i
  {
    hide Step;
    if i < k {
      assert Next(states[i], events[i], states[i + 1]);
      DecidedStays(states[i], events[i].now, events[i].op, review);
      hide Next;
      ReviewsStayDecided(states, events, i + 1, k, review);
    }
  }

  lemma DecidedStays(db: Db, now: Time, op: Op, review: Id)
    requires WellIndexed(db.core) && review in db.promo.reviews && !db.promo.reviews[review].state.Open?
    ensures review in Step(db, now, op).promo.reviews
    ensures Step(db, now, op).promo.reviews[review] == db.promo.reviews[review]
  {
    hide P.MaxSeq, P.LatestAsOf, P.Eligible, P.HasApproval, FinishRun, CoreStep, ObsStep;
  }

  /** Reviews are promoted only after a person approved them: whoever is promoted through a review, the review was
      decided "approve" earlier in the run. */
  lemma {:induction false} PromotedMeansDecided(states: seq<Db>, events: seq<Event>, k: nat,
                                                review: Id) returns (m: nat)
    requires Trace(states, events) && k <= |events|
    requires review in states[k].promo.links
             || (review in states[k].promo.reviews && Approved(states[k].promo.reviews[review]))
    ensures m < k && events[m].op == DecideReviewOp(review, true)
  {
    hide Step;
    assert Next(states[k - 1], events[k - 1], states[k]);
    ApprovalComesFrom(states[k - 1], events[k - 1].now, events[k - 1].op, review);
    if events[k - 1].op == DecideReviewOp(review, true) {
      m := k - 1;
    } else {
      m := PromotedMeansDecided(states, events, k - 1, review);
    }
  }

  predicate Approved(row: P.Review) {
    row.state.ApprovedReview? || row.hasApproval
  }

  lemma ApprovalComesFrom(db: Db, now: Time, op: Op, review: Id)
    requires WellIndexed(db.core)
    requires var p := Step(db, now, op).promo; review in p.links || (review in p.reviews && Approved(p.reviews[review]))
    ensures || op == DecideReviewOp(review, true)
            || review in db.promo.links || (review in db.promo.reviews && Approved(db.promo.reviews[review]))
  {
    hide P.MaxSeq, P.LatestAsOf, P.Eligible, P.HasApproval, FinishRun, CoreStep, ObsStep;
  }

  /** What the enqueue gate lets in, told by the job itself. */
  predicate Legitimate(info: JobInfo) {
    && (info.key.kind.ProjectionDelivery? <==> info.key.definition.None?)
    && (info.key.definition.Some? ==>
          && info.key.lane.Some?
          && (info.key.lane.value.ProductionIngestion? ==> info.key.definition.value.production)
          && (info.key.kind.BackfillWindow? <==> info.key.window.Some?)
          && (info.key.window.Some? ==>
                info.key.window.value.0 <= info.key.window.value.1 && info.key.request.window == info.key.window))
  }

  /** Every job of every run is legitimate: nothing without a production definition is on the production lane, backfills
      and only they have a window, in order and as requested, and deliveries and only they have no datasource. */
  lemma {:induction false} JobsAreLegitimate(states: seq<Db>, events: seq<Event>, k: nat, j: Id)
    requires Trace(states, events) && k <= |events| && j in states[k].core.table.rows
    ensures Legitimate(states[k].core.table.rows[j].info)
  {
    hide Step, Legitimate, StoreOk;
    if k > 0 {
      var db, e := states[k - 1], events[k - 1];
      assert Next(db, e, states[k]);
      TraceOk(states, events, k - 1);
      if j in db.core.table.rows {
        JobsAreLegitimate(states, events, k - 1, j);
        InfoStays(db, Seen(events, k - 1), e, states[k], j);
      } else {
        NewIsLegitimate(db, e.now, e.op, j);
      }
    }
  }

  lemma InfoStays(db: Db, before: Time, e: Event, db': Db, j: Id)
    requires StoreOk(db, before) && Next(db, e, db') && j in db.core.table.rows
    ensures j in db'.core.table.rows && db'.core.table.rows[j].info == db.core.table.rows[j].info
  {
    hide RowsOk, AttemptsOk, RunsOk, TokensOk, R.StreamsOk, P.LedgerOk, P.DecidedRunsOk, TableOk, Consistent;
    if e.op.FinishOp? {
      FinishConsistent(db.core, e.op.h, e.op.status, e.op.retryable, e.op.retryAt, e.now);
      FinishCases(db, e.now, e.op);
      hide Finish, FinishRun;
    } else {
      CoreStepKeeps(db.core, db, e.now, e.op);
      hide CoreStep, ObsStep, PromoStep;
    }
  }

  lemma NewIsLegitimate(db: Db, now: Time, op: Op, j: Id)
    requires WellIndexed(db.core) && j !in db.core.table.rows && j in Step(db, now, op).core.table.rows
    ensures Legitimate(Step(db, now, op).core.table.rows[j].info)
  {
    hide ObsStep, PromoStep;
  }

  // ---------------------------------------------------------------- default manual dedupe

  lemma EnqueueAlone(db: Db, now: Time, a: EnqueueArgs, id: Id, instance: Id)
    requires WellIndexed(db.core)
    ensures Step(db, now, EnqueueJob(a, id, instance)) ==
              db.(core := WithTable(db.core, Enqueue(db.core.table, a, id, instance).0))
  {
    hide Enqueue, WellIndexed;
  }

  lemma CancelAlone(db: Db, now: Time, j: Id)
    requires WellIndexed(db.core) && j in db.core.table.rows && db.core.table.rows[j].state.Queued?
    ensures Step(db, now, CancelOp(j)) ==
              db.(core := WithTable(db.core, WithState(db.core.table, j, JobState.Cancelled)))
  {
    hide WellIndexed;
  }

  /** One operator asks for the same thing three times, and the first job is cancelled before the second
      request: the third request makes a job of its own although the second still waits. */
  lemma ManualRequestsPileUp() returns (states: seq<Db>, events: seq<Event>)
    ensures Trace(states, events) && |events| == 4
    ensures events[2].op.EnqueueJob? && events[3].op.EnqueueJob? && events[2].op.args == events[3].op.args
    ensures var rows := states[4].core.table.rows;
            && events[2].op.id != events[3].op.id && events[2].op.id in rows && events[3].op.id in rows
            && rows[events[2].op.id].state.Queued? && rows[events[3].op.id].state.Queued?
  {
    hide Enqueue, FreshInstance, WithState, Step, PiledTables;
    var a := SOME_REQUEST;
    PileUp();
    var (t1, t2, t3, t4) := PiledTables();
    events := [Event(0, EnqueueJob(a, 1, 11)), Event(0, CancelOp(1)), Event(0, EnqueueJob(a, 2, 12)),
               Event(0, EnqueueJob(a, 3, 13))];
    var db := EMPTY_STORE;
    states := [db, AtTable(t1), AtTable(t2), AtTable(t3), AtTable(t4)];
    EnqueueAlone(db, 0, a, 1, 11);
    CancelAlone(states[1], 0, 1);
    EnqueueAlone(states[2], 0, a, 2, 12);
    EnqueueAlone(states[3], 0, a, 3, 13);
    assert Next(states[0], events[0], states[1]) && Next(states[1], events[1], states[2]);
    assert Next(states[2], events[2], states[3]) && Next(states[3], events[3], states[4]);
  }

  function AtTable(t: JobTable): Db {
    EMPTY_STORE.(core := WithTable(EMPTY_CORE, t))
  }
}
