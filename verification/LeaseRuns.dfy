/** The other half of fencing: whoever holds a live lease is left alone by everybody else, so the life of
    a job from claim to close goes through whatever other workers, operators and recoveries do. */
module LeaseRuns {
  import opened Base
  import opened Jobs
  import opened Leases
  import opened Lifecycle
  import R = Revisions
  import Store

  // ---------------------------------------------------------------- one step

  /** A row that nothing but its own holder or an operator is entitled to move at `now`: it waits for a later time, its
      lease has not expired, or it is closed. */
  predicate Quiet(job: Job, now: Time) {
    if job.state.Queued? || job.state.RetryWait? then job.availableAt > now
    else job.state.Claimed? || job.state.Running? ==> job.lease.Some? && job.lease.value > now
  }

  /** The operation is not one that ends or moves a lease on row `j`, or cancels it. */
  ghost predicate Spares(c: Core, now: Time, op: Store.Op, j: Id)
    requires j in c.table.rows
  {
    match op
    case CancelOp(i) => i == j ==> c.table.rows[j].state.Running? || Terminal(c.table.rows[j].state)
    case StartRunOp(claim, _, _, _) => claim.job == j ==> !Startable(c, claim, now)
    case StartSystemOp(claim, _, _) => claim.job == j ==> !Startable(c, claim, now)
    case HeartbeatOp(h, _) => h.lease.job == j ==> !Holds(c, h.lease, now)
    case FinishOp(h, _, _, _, _, _, _) => h.lease.job == j ==> !Holds(c, h.lease, now)
    case FinishSystemOp(l, _) => l.job == j ==> !Holds(c, l, now)
    case _ => true
  }

  predicate RowKept(c: Core, c': Core, j: Id) {
    j in c.table.rows && j in c'.table.rows && c'.table.rows[j] == c.table.rows[j]
  }

  lemma EnqueueKeepsRow(c: Core, a: EnqueueArgs, id: Id, instance: Id, j: Id)
    requires Store.WellIndexed(c) && id !in c.table.rows && j in c.table.rows
    ensures RowKept(c, Store.WithTable(c, Enqueue(c.table, a, id, instance).0), j)
  {
    hide Admissible, KeyFor, ManualRestart;
  }

  lemma DeliveryKeepsRow(c: Core, body: string, trigger: Trigger, at: Time, id: Id, j: Id)
    requires Store.WellIndexed(c) && id !in c.table.rows && j in c.table.rows
    ensures RowKept(c, Store.WithTable(c, EnqueueDelivery(c.table, body, trigger, at, id).0), j)
  {
  }

  lemma RecoverKeepsRow(c: Core, now: Time, j: Id)
    requires j in c.table.rows && Quiet(c.table.rows[j], now)
    ensures RowKept(c, Recover(c, now), j)
  {
  }

  lemma ClaimKeepsRow(c: Core, i: Id, worker: string, now: Time, seconds: int, token: Id, j: Id)
    requires j in c.table.rows && Quiet(c.table.rows[j], now)
    ensures RowKept(c, ClaimJob(c, i, worker, now, seconds, token).0, j)
  {
    hide Recover;
    RecoverKeepsRow(c, now, j);
  }

  lemma StartKeepsRow(c: Core, claim: Claim, worker: string, now: Time, attempt: Id, run: Id, j: Id)
    requires j in c.table.rows && (claim.job == j ==> !Startable(c, claim, now))
    ensures RowKept(c, StartRun(c, claim, worker, now, attempt, run).0, j)
    ensures RowKept(c, StartSystem(c, claim, worker, now, attempt).0, j)
  {
  }

  lemma CloseKeepsRow(c: Core, h: RunHandle, status: AttemptStatus, retryable: bool, retryAt: Option<Time>, now: Time,
                      seconds: int, j: Id)
    requires j in c.table.rows && (h.lease.job == j ==> !Holds(c, h.lease, now))
    ensures RowKept(c, FinishRun(c, h, status, retryable, retryAt, now).0, j)
    ensures RowKept(c, FinishSystem(c, h.lease, status, now).0, j)
    ensures RowKept(c, Heartbeat(c, h.lease, now, seconds).0, j)
  {
    hide RetryAt, ClosedState, CloseJob, Policy;
  }

  lemma SystemCloseKeepsRow(c: Core, l: Lease, status: AttemptStatus, now: Time, j: Id)
    requires j in c.table.rows && (l.job == j ==> !Holds(c, l, now))
    ensures RowKept(c, FinishSystem(c, l, status, now).0, j)
  {
    hide RetryAt, ClosedState, CloseJob;
  }

  lemma FinishKeepsRow(db: Store.Db, now: Time, op: Store.Op, j: Id)
    requires op.FinishOp? && j in db.core.table.rows && (op.h.lease.job == j ==> !Holds(db.core, op.h.lease, now))
    ensures RowKept(db.core,
                    Store.Finish(db, op.h, op.d, op.status, op.retryable, op.retryAt, op.promote, op.id, now).0.core, j)
  {
    hide FinishRun, Heartbeat, FinishSystem, Holds, Store.Finish;
    Store.FinishCases(db, now, op);
    CloseKeepsRow(db.core, op.h, op.status, op.retryable, op.retryAt, now, 1, j);
  }

  lemma CoreStepKeepsRow(db: Store.Db, now: Time, op: Store.Op, j: Id)
    requires Store.WellIndexed(db.core) && Store.Allowed(db, op) && !op.FinishOp?
    requires j in db.core.table.rows && Quiet(db.core.table.rows[j], now) && Spares(db.core, now, op, j)
    ensures RowKept(db.core, Store.CoreStep(db.core, now, op), j)
  {
    hide Enqueue, EnqueueDelivery, ClaimJob, StartRun, StartSystem, Recover, Cancel, Heartbeat, FinishSystem,
         Startable, Holds, Genuine, Quiet;
    var c := db.core;
    match op
    case EnqueueJob(a, id, instance) => EnqueueKeepsRow(c, a, id, instance, j);
    case EnqueueProjection(body, trigger, at, id) => DeliveryKeepsRow(c, body, trigger, at, id, j);
    case ClaimOp(i, worker, seconds, token) => ClaimKeepsRow(c, i, worker, now, seconds, token, j);
    case StartRunOp(claim, worker, attempt, run) => StartKeepsRow(c, claim, worker, now, attempt, run, j);
    case StartSystemOp(claim, worker, attempt) => StartKeepsRow(c, claim, worker, now, attempt, 0, j);
    case RecoverOp => RecoverKeepsRow(c, now, j);
    case CancelOp(i) => CancelStops(c, i);
    case HeartbeatOp(h, seconds) => CloseKeepsRow(c, h, AttemptStatus.Failed, false, None, now, seconds, j);
    case FinishSystemOp(l, status) => SystemCloseKeepsRow(c, l, status, now, j);
    case _ =>
  }

  /** An operation that spares a quiet row leaves it exactly as it is. */
  lemma SparedRowKept(db: Store.Db, now: Time, op: Store.Op, j: Id)
    requires Store.WellIndexed(db.core) && Store.Allowed(db, op)
    requires j in db.core.table.rows && Quiet(db.core.table.rows[j], now) && Spares(db.core, now, op, j)
    ensures RowKept(db.core, Store.Step(db, now, op).core, j)
  {
    hide Store.Allowed, Store.CoreStep, Store.ObsStep, Store.PromoStep, Store.Finish, Holds, Quiet, Startable;
    if op.FinishOp? {
      FinishKeepsRow(db, now, op, j);
    } else {
      CoreStepKeepsRow(db, now, op, j);
    }
  }

  /** One job never has two live leases. */
  lemma LiveLeaseUnique(c: Core, l: Lease, t: Time, l': Lease, t': Time)
    requires Consistent(c) && l in c.issued && l' in c.issued && l.job == l'.job
    requires Holds(c, l, t) && Holds(c, l', t')
    ensures l == l'
  {
    hide TableOk, RowsOk, RunsOk;
    assert AttemptOk(c.table.rows, c.attemptAt, l.attempt, c.attempts[l.attempt]);
    assert AttemptOk(c.table.rows, c.attemptAt, l'.attempt, c.attempts[l'.attempt]);
  }

  /** The holder of lease `l` does not itself give it up before `t`: it neither finishes nor moves the
      expiry to `t` or earlier. */
  predicate HoldsOn(op: Store.Op, now: Time, l: Lease, t: Time) {
    && (op.FinishOp? ==> op.h.lease != l)
    && (op.FinishSystemOp? ==> op.lease != l)
    && (op.HeartbeatOp? && op.h.lease == l && ValidLeaseSeconds(op.seconds) ==> t < now + op.seconds * SECOND)
  }

  /** A live lease stands: no operation of anybody else touches its row, and the holder's own operations,
      short of a finish, change at most the expiry. */
  lemma LeaseStands(db: Store.Db, now: Time, op: Store.Op, l: Lease, t: Time)
    requires Consistent(db.core) && Store.Allowed(db, op)
    requires l in db.core.issued && Holds(db.core, l, t) && now <= t && HoldsOn(op, now, l, t)
    ensures Store.WellIndexed(db.core)
    ensures var c, c' := db.core, Store.Step(db, now, op).core;
            && Holds(c', l, t)
            && c'.table.rows[l.job] == c.table.rows[l.job].(lease := c'.table.rows[l.job].lease)
            && (Store.LeaseOf(op) != Some(l) ==> c'.table.rows[l.job] == c.table.rows[l.job])
  {
    hide Consistent, Genuine, Store.Step, Store.WellIndexed, Store.Allowed, Spares;
    Store.Indexed(db.core);
    if op.HeartbeatOp? && op.h.lease == l {
      OwnHeartbeat(db, now, op, l, t);
    } else {
      OthersSpare(db, now, op, l, t);
      SparedRowKept(db, now, op, l.job);
    }
  }

  lemma OwnHeartbeat(db: Store.Db, now: Time, op: Store.Op, l: Lease, t: Time)
    requires Store.WellIndexed(db.core) && op.HeartbeatOp? && op.h.lease == l
    requires Holds(db.core, l, t) && now <= t && HoldsOn(op, now, l, t)
    ensures var c, c' := db.core, Store.Step(db, now, op).core;
            Holds(c', l, t) && c'.table.rows[l.job] == c.table.rows[l.job].(lease := c'.table.rows[l.job].lease)
  {
    hide Store.ObsStep, Store.PromoStep, Store.WellIndexed;
  }

  lemma OthersSpare(db: Store.Db, now: Time, op: Store.Op, l: Lease, t: Time)
    requires Consistent(db.core) && Store.Allowed(db, op) && l in db.core.issued && Holds(db.core, l, t)
    requires op.HeartbeatOp? ==> op.h.lease != l
    requires op.FinishOp? ==> op.h.lease != l
    requires op.FinishSystemOp? ==> op.lease != l
    ensures Spares(db.core, now, op, l.job)
  {
    hide Consistent;
    var other := Store.LeaseOf(op);
    if other.Some? && other.value in db.core.issued && other.value.job == l.job && Holds(db.core, other.value, now) {
      LiveLeaseUnique(db.core, l, t, other.value, now);
    }
  }

  /** The operation is neither a start of this claim nor a cancel of its job. */
  predicate LeavesClaim(op: Store.Op, claim: Claim) {
    && (op.CancelOp? ==> op.job != claim.job)
    && (op.StartRunOp? || op.StartSystemOp? ==> op.claim != claim)
  }

  /** A live claim stands, too, until it is started or its job is cancelled. */
  lemma ClaimStands(db: Store.Db, now: Time, op: Store.Op, claim: Claim, t: Time)
    requires Store.WellIndexed(db.core) && Store.Allowed(db, op)
    requires Startable(db.core, claim, t) && now <= t && LeavesClaim(op, claim)
    ensures RowKept(db.core, Store.Step(db, now, op).core, claim.job)
  {
    hide Store.Step, Store.WellIndexed, Store.Allowed;
    SparedRowKept(db, now, op, claim.job);
  }

  // ---------------------------------------------------------------- whole runs

  /** Over whole runs: as long as its holder keeps it, a lease holds its job up to its expiry, whatever
      everybody else does. */
  lemma {:induction false} LeaseStandsOn(states: seq<Store.Db>, events: seq<Store.Event>, i: nat, k: nat, l: Lease,
                                         t: Time)
    requires Store.Trace(states, events) && i <= k <= |events|
    requires l in states[i].core.issued && Holds(states[i].core, l, t)
    requires forall m :: i <= m < k ==> events[m].now <= t && HoldsOn(events[m].op, events[m].now, l, t)
    ensures l in states[k].core.issued && Holds(states[k].core, l, t)
    ensures states[k].core.table.rows[l.job] ==
            states[i].core.table.rows[l.job].(lease := states[k].core.table.rows[l.job].lease)
    decreases k - i
  {
    hide Store.StoreOk, Store.Step, Later, HoldsOn, Store.Allowed;
    if i < k {
      Store.TraceOk(states, events, i);
      assert Store.Next(states[i], events[i], states[i + 1]);
      Store.TraceStep(states[i], Store.Seen(events, i), events[i], states[i + 1]);
      Store.LaterIssued(states[i].core, states[i + 1].core, l);
      SoundCore(states[i], Store.Seen(events, i));
      hide Consistent;
      LeaseStands(states[i], events[i].now, events[i].op, l, t);
      hide Store.Next;
      LeaseStandsOn(states, events, i + 1, k, l, t);
    }
  }

  lemma SoundCore(db: Store.Db, now: Time)
    requires Store.StoreOk(db, now)
    ensures Consistent(db.core) && Store.WellIndexed(db.core)
  {
    Store.Indexed(db.core);
  }

  lemma {:induction false} ClaimStandsOn(states: seq<Store.Db>, events: seq<Store.Event>, i: nat, k: nat,
                                         claim: Claim, t: Time)
    requires Store.Trace(states, events) && i <= k <= |events| && Startable(states[i].core, claim, t)
    requires forall m :: i <= m < k ==> events[m].now <= t && LeavesClaim(events[m].op, claim)
    ensures RowKept(states[i].core, states[k].core, claim.job)
    decreases k - i
  {
    hide Store.StoreOk, Store.Step, LeavesClaim, Store.Allowed, Store.WellIndexed;
    if i < k {
      assert Store.Next(states[i], events[i], states[i + 1]);
      ClaimStands(states[i], events[i].now, events[i].op, claim, t);
      hide Store.Next;
      ClaimStandsOn(states, events, i + 1, k, claim, t);
    }
  }

  /** Backing off is kept over whole runs: a job that waits until `until`, be it for its first attempt or after a failed
      one, is not touched before that time by anything but a cancel. */
  lemma {:induction false} BackoffHolds(states: seq<Store.Db>, events: seq<Store.Event>, i: nat, k: nat, j: Id,
                                        until: Time)
    requires Store.Trace(states, events) && i <= k <= |events| && j in states[i].core.table.rows
    requires var job := states[i].core.table.rows[j];
             (job.state.Queued? || job.state.RetryWait?) && job.availableAt == until
    requires forall m :: i <= m < k ==> events[m].now < until && events[m].op != Store.CancelOp(j)
    ensures RowKept(states[i].core, states[k].core, j)
    decreases k - i
  {
    hide Store.StoreOk, Store.Step, Store.Allowed, Store.WellIndexed;
    if i < k {
      assert Store.Next(states[i], events[i], states[i + 1]);
      Store.TraceOk(states, events, i);
      SoundCore(states[i], Store.Seen(events, i));
      WaitingIsSpared(states[i].core, events[i].now, events[i].op, j);
      SparedRowKept(states[i], events[i].now, events[i].op, j);
      hide Store.Next;
      BackoffHolds(states, events, i + 1, k, j, until);
    }
  }

  /** Nobody holds a claim or a lease on a job that waits. */
  lemma WaitingIsSpared(c: Core, now: Time, op: Store.Op, j: Id)
    requires Consistent(c) && j in c.table.rows && (c.table.rows[j].state.Queued? || c.table.rows[j].state.RetryWait?)
    requires op != Store.CancelOp(j)
    ensures Spares(c, now, op, j)
  {
    hide Consistent;
  }

  /** A finish that asks for nothing the definition refuses. */
  predicate FinishValid(db: Store.Db, op: Store.Op)
    requires op.FinishOp?
  {
    && !op.status.Running? && (op.retryAt.Some? ==> op.retryable)
    && (op.promote ==> op.status.Succeeded? && op.h.lane.ProductionIngestion? && op.d.automaticPromotion
                       && (op.d.fullSnapshot ==> R.Meta(db.obs, op.h.run).complete))
  }

  /** The claim, start and finish of one job in a run, with anything else in between: nobody starts the
      claim or cancels the job before the start, and between start and finish the worker holds on. */
  ghost predicate OneLife(states: seq<Store.Db>, events: seq<Store.Event>, a: nat, b: nat, z: nat) {
    && Store.Trace(states, events) && a < b < z < |events|
    && events[a].op.ClaimOp? && events[b].op.StartRunOp? && events[z].op.FinishOp?
    && var claim := Claim(events[a].op.job, events[a].op.token);
       var l := Lease(events[b].op.attempt, claim.job, claim.token);
       && events[b].op.claim == claim && events[z].op.h.lease == l
       && (forall m :: a < m < b ==> LeavesClaim(events[m].op, claim))
       && (forall m :: b < m < z ==> HoldsOn(events[m].op, events[m].now, l, events[z].now))
  }

  /** The life of a due job, over whole runs: claimed, started and finished before its lease expires, every
      step succeeds whatever other workers, operators and recoveries do in between; the job ends where the
      reported status puts it, has used exactly one more attempt, and that attempt and its run are closed
      with the same status. */
  lemma LifeOfAJob(states: seq<Store.Db>, events: seq<Store.Event>, a: nat, b: nat, z: nat)
    requires OneLife(states, events, a, b, z)
    requires var e, c := events[a], states[a].core;
             && ValidLeaseSeconds(e.op.seconds) && e.op.worker != "" && e.op.job in c.table.rows
             && Due(Recover(c, e.now), e.op.job, e.now) && Ingests(c.table.rows[e.op.job])
             && events[z].now < e.now + e.op.seconds * SECOND
    requires FinishValid(states[z], events[z].op)
    ensures var e, j := events[a], events[a].op.job;
            ClaimJob(states[a].core, j, e.op.worker, e.now, e.op.seconds, e.op.token) ==
              (states[a + 1].core, Ok(Some(Claim(j, e.op.token))))
    ensures var op, r := events[b].op, StartRun(states[b].core, events[b].op.claim, events[b].op.worker,
                                                events[b].now, events[b].op.attempt, events[b].op.run);
            r.0 == states[b + 1].core && r.1.Ok? && r.1.value.lease == events[z].op.h.lease && r.1.value.run == op.run
    ensures var op := events[z].op;
            Store.Finish(states[z], op.h, op.d, op.status, op.retryable, op.retryAt, op.promote, op.id,
                         events[z].now) == (states[z + 1], Ok(()))
    ensures var op, j, c, c' := events[z].op, events[a].op.job, states[z].core, states[z + 1].core;
            && j in c.table.rows && j in c'.table.rows && j in states[a].core.table.rows
            && Closed(c.table.rows[j], c'.table.rows[j], op.status, op.retryable, op.retryAt,
                      Policy(c.table.rows[j]), events[z].now)
            && c'.table.rows[j].attemptCount == states[a].core.table.rows[j].attemptCount + 1
            && op.h.lease.attempt in c'.attempts && c'.attempts[op.h.lease.attempt].status == op.status
            && op.h.run in c'.runs && c'.runs[op.h.run].status == op.status
  {
    hide LeavesClaim, HoldsOn, Store.StoreOk, Store.Step, Due, Recover, Closed, Store.Allowed, Started,
         Startable, Holds, Owns, StartRun, FinishRun, ClaimJob, Store.Finish, FinishValid, Genuine, Consistent;
    ClaimedInRun(states, events, a, b, z);
    StartedInRun(states, events, a, b, z);
    FinishedInRun(states, events, b, z);
  }

  /** The claim succeeds, and the row it leased is the row that the start finds. */
  lemma ClaimedInRun(states: seq<Store.Db>, events: seq<Store.Event>, a: nat, b: nat, z: nat)
    requires OneLife(states, events, a, b, z)
    requires var e, c := events[a], states[a].core;
             && ValidLeaseSeconds(e.op.seconds) && e.op.worker != "" && e.op.job in c.table.rows
             && Due(Recover(c, e.now), e.op.job, e.now) && Ingests(c.table.rows[e.op.job])
             && events[z].now < e.now + e.op.seconds * SECOND
    ensures var e, j := events[a], events[a].op.job;
            ClaimJob(states[a].core, j, e.op.worker, e.now, e.op.seconds, e.op.token) ==
              (states[a + 1].core, Ok(Some(Claim(j, e.op.token))))
    ensures Startable(states[b].core, events[b].op.claim, events[z].now)
    ensures var j := events[a].op.job;
            && Ingests(states[b].core.table.rows[j])
            && states[b].core.table.rows[j].attemptCount == states[a].core.table.rows[j].attemptCount
  {
    hide Store.StoreOk, Recover, Due, LeavesClaim, HoldsOn, Store.Allowed;
    var e, c, claim, t := events[a], states[a].core, events[b].op.claim, events[z].now;
    assert Store.Next(states[a], e, states[a + 1]);
    ClaimLeases(c, claim.job, e.op.worker, e.now, e.op.seconds, e.op.token);
    ClaimedColumns(c, claim.job, e.op.worker, e.now, e.op.seconds, e.op.token);
    SameColumns(c, claim.job, e.now);
    hide ClaimJob, Store.ObsStep, Store.PromoStep;
    assert Startable(states[a + 1].core, claim, t);
    hide Store.Step, Store.Next;
    ClaimStandsOn(states, events, a + 1, b, claim, t);
  }

  /** The start succeeds, and its lease stands until the finish. */
  lemma StartedInRun(states: seq<Store.Db>, events: seq<Store.Event>, a: nat, b: nat, z: nat)
    requires OneLife(states, events, a, b, z) && Startable(states[b].core, events[b].op.claim, events[z].now)
    requires Ingests(states[b].core.table.rows[events[a].op.job])
    ensures var op, r := events[b].op, StartRun(states[b].core, events[b].op.claim, events[b].op.worker,
                                                events[b].now, events[b].op.attempt, events[b].op.run);
            r.0 == states[b + 1].core && r.1.Ok? && r.1.value.lease == events[z].op.h.lease && r.1.value.run == op.run
    ensures events[z].op.h.lease in states[z].core.issued && Holds(states[z].core, events[z].op.h.lease, events[z].now)
    ensures var j := events[a].op.job;
            && j in states[z].core.table.rows
            && states[z].core.table.rows[j].attemptCount == states[b].core.table.rows[j].attemptCount + 1
            && states[z].core.table.rows[j].info == states[b].core.table.rows[j].info
  {
    hide Store.StoreOk, LeavesClaim, HoldsOn, Consistent;
    var e, c, t := events[b], states[b].core, events[z].now;
    assert Store.Next(states[b], e, states[b + 1]);
    Store.TraceOk(states, events, b);
    SoundCore(states[b], Store.Seen(events, b));
    NeverExhausted(c, e.op.claim, e.op.worker, e.now, e.op.attempt, e.op.run);
    hide Store.Allowed, Store.ObsStep, Store.PromoStep;
    assert Holds(states[b + 1].core, events[z].op.h.lease, t);
    hide Store.Step, StartRun, Store.Next;
    LeaseStandsOn(states, events, b + 1, z, events[z].op.h.lease, t);
  }

  /** The finish succeeds. */
  lemma FinishedInRun(states: seq<Store.Db>, events: seq<Store.Event>, b: nat, z: nat)
    requires Store.Trace(states, events) && b < z < |events| && events[z].op.FinishOp?
             && FinishValid(states[z], events[z].op)
    requires events[z].op.h.lease in states[z].core.issued && Holds(states[z].core, events[z].op.h.lease, events[z].now)
    requires Ingests(states[z].core.table.rows[events[z].op.h.lease.job])
    ensures var op := events[z].op;
            Store.Finish(states[z], op.h, op.d, op.status, op.retryable, op.retryAt, op.promote, op.id,
                         events[z].now) == (states[z + 1], Ok(()))
    ensures var op, j, c, c' := events[z].op, events[z].op.h.lease.job, states[z].core, states[z + 1].core;
            && j in c'.table.rows
            && Closed(c.table.rows[j], c'.table.rows[j], op.status, op.retryable, op.retryAt,
                      Policy(c.table.rows[j]), events[z].now)
            && c'.table.rows[j].attemptCount == c.table.rows[j].attemptCount
            && op.h.lease.attempt in c'.attempts && c'.attempts[op.h.lease.attempt].status == op.status
            && op.h.run in c'.runs && c'.runs[op.h.run].status == op.status
  {
    hide Store.StoreOk, Consistent, Genuine;
    var e, c := events[z], states[z].core;
    assert Store.Next(states[z], e, states[z + 1]);
    Store.TraceOk(states, events, z);
    SoundCore(states[z], Store.Seen(events, z));
    HeldAttemptRuns(c, e.op.h.lease, e.now);
    FinishCloses(c, e.op.h, e.op.status, e.op.retryable, e.op.retryAt, e.now);
    hide FinishRun;
  }
}
