/** The job, attempt and run tables as an object: claims, starts, heartbeats, closes and recoveries
    update them in place. */
module JobStore {
  import opened Base
  import opened Jobs
  import opened Leases

  class JobStore {
    // workflow_job and its unique key index, workflow_attempt and its unique index, ingestion_run
    var table: JobTable
    var attempts: map<Id, Attempt>
    var attemptAt: map<(Id, nat), Id>
    var runs: map<Id, Run>
    ghost var tokens: set<Id>
    ghost var issued: set<Lease>

    ghost function Core(): Leases.Core
      reads this
    {
      Leases.Core(table, attempts, attemptAt, runs, tokens, issued)
    }

    ghost predicate Valid()
      reads this
    {
      Consistent(Core())
    }

    constructor ()
      ensures Valid() && Core() == EMPTY_CORE
    {
      table, attempts, attemptAt, runs := JobTable(map[], map[]), map[], map[], map[];
      tokens, issued := {}, {};
    }

    method SetRow(j: Id, job: Job)
      modifies `table
      ensures table == old(table).(rows := old(table).rows[j := job])
    {
      table := table.(rows := table.rows[j := job]);
    }

    // ------------------------------------------------------------ jobs and leases

    method Enqueue(a: EnqueueArgs, id: Id, instance: Id) returns (r: Result<Enqueued>)
      requires Valid() && id !in table.rows
      requires a.trigger.Manual? && a.instance.None? ==> FreshInstance(table, a, instance)
      modifies this
      ensures Valid() && Core() == old(Core()).(table := table)
      ensures (table, r) == Jobs.Enqueue(old(table), a, id, instance)
    {
      ghost var before := Core();
      hide Consistent, Keeps;
      KeysNameRows(before);
      EnqueueConsistent(before, a, id, instance);
      if !Admissible(a) {
        return Err(InvalidArgument);
      }
      var key := KeyFor(a, a.instance);
      if key in table.byKey {
        var existing := table.rows[table.byKey[key]];
        if !(a.trigger.Manual? && a.instance.None? && Terminal(existing.state)) {
          return Ok(Enqueued(table.byKey[key], Deduplicated, existing.state));
        }
        key := KeyFor(a, Some(instance));
      }
      var job := Job(JobInfo(|table.rows|, key, a.at, a.at, a.priority, MaxAttempts(a.definition.retry)),
                     JobState.Queued, 0, a.at, None, None);
      table := JobTable(table.rows[id := job], table.byKey[key := id]);
      r := Ok(Enqueued(id, Accepted, JobState.Queued));
    }

    method EnqueueProjection(body: string, trigger: Trigger, at: Time, id: Id) returns (r: Result<Enqueued>)
      requires Valid() && id !in table.rows
      modifies this
      ensures Valid() && Core() == old(Core()).(table := table)
      ensures (table, r) == EnqueueDelivery(old(table), body, trigger, at, id)
    {
      hide Consistent, Keeps;
      KeysNameRows(Core());
      EnqueueDeliveryConsistent(Core(), body, trigger, at, id);
      if !(trigger.Manual? || trigger.Schedule? || trigger.Recovery?) {
        return Err(InvalidArgument);
      }
      var slot := if trigger.Schedule? then Some(at) else None;
      var key := DedupeKey(None, None, trigger, Request(body, None, None), slot, None, None, 0, None,
                           ProjectionDelivery, None);
      if key in table.byKey {
        return Ok(Enqueued(table.byKey[key], Deduplicated, table.rows[table.byKey[key]].state));
      }
      var job := Job(JobInfo(|table.rows|, key, at, at, 50, 3), JobState.Queued, 0, at, None, None);
      table := JobTable(table.rows[id := job], table.byKey[key := id]);
      r := Ok(Enqueued(id, Accepted, JobState.Queued));
    }

    /** A failed, dead-letter or cancelled job runs again only as a new job that names it. */
    method Retry(j: Id, at: Time, id: Id, instance: Id) returns (r: Result<Enqueued>)
      requires Valid() && id !in table.rows
      modifies this
      ensures Valid() && Core() == old(Core()).(table := table)
      ensures (table, r) == Jobs.Retry(old(table), j, at, id, instance)
    {
      hide Consistent, Keeps, Jobs.Enqueue;
      if j !in table.rows {
        return Err(Unknown);
      }
      var row := table.rows[j];
      if row.state !in {JobState.Failed, JobState.DeadLetter, JobState.Cancelled} {
        return Err(NotPermitted);
      }
      if row.info.key.definition.None? || row.info.key.lane.None? {
        return Err(NotPermitted);
      }
      r := Enqueue(RetryArgs(j, row.info.key, at, instance), id, instance);
    }

    /** Claims due to lapse are reconciled first, one job at a time. */
    method RecoverExpired(now: Time) returns (recovered: set<Id>)
      requires Valid()
      modifies this
      ensures Valid()
      ensures Core() == Recover(old(Core()), now) && recovered == ExpiredJobs(old(Core()), now)
    {
      hide Consistent, Keeps, RecoverSet;
      ghost var before := Core();
      var rows := set j | j in table.rows && Expired(table.rows[j], now);
      assert rows == ExpiredJobs(before, now);
      var todo := rows;
      recovered := {};
      RecoverNothing(before, now);
      while todo != {}
        invariant todo <= rows && recovered == rows - todo
        invariant Core() == RecoverSet(before, recovered, now)
        decreases |todo|
      {
        var j :| j in todo;
        RecoverOneInPlace(before, recovered, j, now);
        todo, recovered := todo - {j}, recovered + {j};
      }
      assert recovered == rows;
      RecoverConsistent(before, now);
    }

    /** One row of the recovery: the job, and its newest attempt and that attempt's run if they run. */
    method RecoverOneInPlace(ghost before: Leases.Core, ghost done: set<Id>, j: Id, now: Time)
      requires Consistent(before) && j !in done && j in before.table.rows && Expired(before.table.rows[j], now)
      requires Core() == RecoverSet(before, done, now)
      modifies this
      ensures Core() == RecoverSet(before, done + {j}, now)
    {
      hide Consistent, RecoverSet, RecoverRow, FailRunOf;
      RecoverOneMore(before, done, j, now);
      var row := table.rows[j];
      if row.state.Running? {
        var newest := (j, row.attemptCount);
        if newest in attemptAt && attemptAt[newest] in attempts && attempts[attemptAt[newest]].status.Running? {
          var a := attemptAt[newest];
          attempts := attempts[a := attempts[a].(status := AttemptStatus.Failed)];
          runs := FailRunOf(runs, a);
        }
      }
      SetRow(j, RecoverRow(row, now));
    }

    method ClaimJob(j: Id, worker: string, now: Time, seconds: int, token: Id) returns (r: Result<Option<Claim>>)
      requires Valid() && token !in tokens
      modifies this
      ensures Valid()
      ensures (Core(), r) == Leases.ClaimJob(old(Core()), j, worker, now, seconds, token)
    {
      ghost var before := Core();
      ClaimConsistent(before, j, worker, now, seconds, token);
      var _ := RecoverExpired(now);
      hide Consistent, Keeps, Recover;
      if !ValidLeaseSeconds(seconds) {
        return Err(InvalidArgument);
      }
      if !(j in table.rows && Claimable(table.rows[j].state) && table.rows[j].availableAt <= now) {
        return Ok(None);
      }
      if worker == "" {
        return Err(InvalidArgument);
      }
      ClaimRowInPlace(j, now, seconds, token);
      r := Ok(Some(Claim(j, token)));
    }

    method ClaimRowInPlace(j: Id, now: Time, seconds: int, token: Id)
      requires Valid() && Due(Core(), j, now) && token !in tokens
      modifies this
      ensures Valid() && Core() == ClaimRow(old(Core()), j, now, seconds, token)
    {
      ghost var before := Core();
      hide Consistent, Keeps;
      ClaimRowConsistent(before, j, now, seconds, token);
      SetRow(j, table.rows[j].(state := JobState.Claimed, token := Some(token), lease := Some(now + seconds * SECOND)));
      tokens := tokens + {token};
    }

    /** `ORDER BY priority, available_at, scheduled_for, job_id LIMIT 1` over the due jobs. */
    method FirstDue(now: Time) returns (first: Option<Id>)
      ensures first.None? ==> forall x: Id :: !Due(Core(), x, now)
      ensures first.Some? ==> First(Core(), now, first.value)
    {
      var todo := set j | j in table.rows && Claimable(table.rows[j].state) && table.rows[j].availableAt <= now;
      if todo == {} {
        assert forall x: Id :: Due(Core(), x, now) ==> x in todo;
        return None;
      }
      ghost var due := todo;
      var best :| best in todo;
      todo := todo - {best};
      while todo != {}
        invariant todo <= due && best in due - todo
        invariant forall x :: x in due - todo && x != best ==> Before(best, table.rows[best], x, table.rows[x])
        decreases |todo|
      {
        var x :| x in todo;
        if Before(x, table.rows[x], best, table.rows[best]) {
          best := x;
        }
        todo := todo - {x};
      }
      first := Some(best);
    }

    /** Lease the first due job, after reconciling what has lapsed. */
    method ClaimNext(worker: string, now: Time, seconds: int, token: Id) returns (r: Result<Option<Claim>>)
      requires Valid() && token !in tokens
      modifies this
      ensures Valid()
      ensures r.Err? ==> Core() == Recover(old(Core()), now) && (!ValidLeaseSeconds(seconds) || worker == "")
      ensures r == Ok(None) ==> Core() == Recover(old(Core()), now) && forall x: Id :: !Due(Core(), x, now)
      ensures r.Ok? && r.value.Some? ==>
                && First(Recover(old(Core()), now), now, r.value.value.job)
                && (Core(), r) == Leases.ClaimJob(old(Core()), r.value.value.job, worker, now, seconds, token)
    {
      var _ := RecoverExpired(now);
      hide Consistent, Recover, Before;
      if !ValidLeaseSeconds(seconds) {
        return Err(InvalidArgument);
      }
      var first := FirstDue(now);
      if first.None? {
        return Ok(None);
      }
      if worker == "" {
        return Err(InvalidArgument);
      }
      ClaimRowInPlace(first.value, now, seconds, token);
      r := Ok(Some(Claim(first.value, token)));
    }

    predicate StartableNow(claim: Claim, now: Time)
      reads this
      ensures StartableNow(claim, now) == Startable(Core(), claim, now)
    {
      && claim.job in table.rows
      && table.rows[claim.job].token == Some(claim.token)
      && table.rows[claim.job].state.Claimed?
      && table.rows[claim.job].lease.Some? && table.rows[claim.job].lease.value > now
    }

    method BeginAttemptInPlace(claim: Claim, worker: string, attempt: Id)
      requires claim.job in table.rows
      modifies this
      ensures Core() == BeginAttempt(old(Core()), claim, worker, attempt) && runs == old(runs)
    {
      var job := table.rows[claim.job];
      var no := job.attemptCount + 1;
      attempts := attempts[attempt := Attempt(claim.job, no, AttemptStatus.Running, worker)];
      attemptAt := attemptAt[(claim.job, no) := attempt];
      issued := issued + {Lease(attempt, claim.job, claim.token)};
      SetRow(claim.job, job.(state := JobState.Running, attemptCount := no));
    }

    method StartRun(claim: Claim, worker: string, now: Time, attempt: Id, run: Id) returns (r: Result<RunHandle>)
      requires Valid() && attempt !in attempts && run !in runs
      modifies this
      ensures Valid()
      ensures (Core(), r) == Leases.StartRun(old(Core()), claim, worker, now, attempt, run)
      ensures r.Ok? ==> Genuine(Core(), r.value)
    {
      hide Consistent, Keeps, Genuine, BeginAttempt;
      StartConsistent(Core(), claim, worker, now, attempt, run);
      if claim.job in table.rows && !Ingests(table.rows[claim.job]) {
        return Err(NotPermitted);
      }
      if !StartableNow(claim, now) {
        return Err(LeaseNotValid);
      }
      var job := table.rows[claim.job];
      if job.attemptCount + 1 > job.info.maxAttempts {
        return Err(AttemptsExhausted);
      }
      var d, lane := job.info.key.definition.value, job.info.key.lane.value;
      BeginAttemptInPlace(claim, worker, attempt);
      runs := runs[run := Run(attempt, claim.job, d.datasource, d.version, lane, AttemptStatus.Running)];
      r := Ok(RunHandle(run, Lease(attempt, claim.job, claim.token), d.datasource, d.version, lane));
    }

    method StartSystemJob(claim: Claim, worker: string, now: Time, attempt: Id) returns (r: Result<Lease>)
      requires Valid() && attempt !in attempts
      modifies this
      ensures Valid()
      ensures (Core(), r) == Leases.StartSystem(old(Core()), claim, worker, now, attempt)
    {
      StartSystemConsistent(Core(), claim, worker, now, attempt);
      hide Consistent, Keeps, BeginAttempt;
      if claim.job in table.rows && !Delivers(table.rows[claim.job]) {
        return Err(NotPermitted);
      }
      if worker == "" {
        return Err(InvalidArgument);
      }
      if !StartableNow(claim, now) {
        return Err(LeaseNotValid);
      }
      var job := table.rows[claim.job];
      if job.attemptCount + 1 > job.info.maxAttempts {
        return Err(AttemptsExhausted);
      }
      BeginAttemptInPlace(claim, worker, attempt);
      r := Ok(Lease(attempt, claim.job, claim.token));
    }

    /** The close of an attempt and its job, without the run. */
    method CloseInPlace(j: Id, job: Job, attempt: Id, status: AttemptStatus)
      modifies this
      ensures Core() == SetJob(old(Core()), j, job).(attempts := CloseAttempt(old(Core()), attempt, status))
    {
      if attempt in attempts && attempts[attempt].status.Running? {
        attempts := attempts[attempt := attempts[attempt].(status := status)];
      }
      SetRow(j, job);
    }

    method FinishSystemJob(l: Lease, status: AttemptStatus, now: Time) returns (r: Result<()>)
      requires Valid() && l in issued && forall x :: x in runs ==> runs[x].attempt != l.attempt
      modifies this
      ensures Valid()
      ensures (Core(), r) == Leases.FinishSystem(old(Core()), l, status, now)
    {
      hide Consistent, Keeps, ClosedState, CloseJob, RetryAt, SetJob, CloseAttempt;
      FinishSystemConsistent(Core(), l, status, now);
      if !(status.Succeeded? || status.Failed? || status.Cancelled?) {
        return Err(InvalidArgument);
      }
      if !HoldsNow(l, now) {
        return Err(NotOwned);
      }
      var job := table.rows[l.job];
      var to := ClosedState(status, status.Failed?, job.attemptCount, job.info.maxAttempts);
      CloseInPlace(l.job, CloseJob(job, to, RetryAt(now, NO_POLICY, job.attemptCount)), l.attempt, status);
      r := Ok(());
    }

    method Heartbeat(h: RunHandle, now: Time, seconds: int) returns (r: Result<()>)
      requires Valid()
      modifies this
      ensures Valid()
      ensures (Core(), r) == Leases.Heartbeat(old(Core()), h.lease, now, seconds)
    {
      ghost var before := Core();
      hide Consistent, Keeps;
      HeartbeatConsistent(before, h.lease, now, seconds);
      if !ValidLeaseSeconds(seconds) {
        return Err(InvalidArgument);
      }
      if !HoldsNow(h.lease, now) {
        return Err(NotOwned);
      }
      SetRow(h.lease.job, table.rows[h.lease.job].(lease := Some(now + seconds * SECOND)));
      r := Ok(());
    }

    predicate HoldsNow(l: Lease, now: Time)
      reads this
      ensures HoldsNow(l, now) == Holds(Core(), l, now)
    {
      && l.job in table.rows
      && table.rows[l.job].token == Some(l.token)
      && table.rows[l.job].state.Running?
      && table.rows[l.job].lease.Some? && table.rows[l.job].lease.value > now
    }

    predicate OwnsNow(l: Lease, now: Time)
      reads this
      ensures OwnsNow(l, now) == Owns(Core(), l, now)
    {
      && HoldsNow(l, now)
      && table.rows[l.job].info.key.definition.Some?
      && l.attempt in attempts
      && attempts[l.attempt].job == l.job
      && attempts[l.attempt].status.Running?
    }

    predicate RunningNow(run: Id)
      reads this
      ensures RunningNow(run) == RunIsRunning(Core(), run)
    {
      run in runs && runs[run].status.Running?
    }

    /** The job half of `finish_run`. */
    method CloseRun(h: RunHandle, status: AttemptStatus, retryable: bool, retryAt: Option<Time>, now: Time)
      returns (r: Result<()>)
      requires Valid() && Genuine(Core(), h)
      modifies this
      ensures Valid()
      ensures (Core(), r) == Leases.FinishRun(old(Core()), h, status, retryable, retryAt, now)
    {
      ghost var before := Core();
      hide Consistent, Keeps, ClosedState, CloseJob, RetryAt, CloseAttempt, Policy;
      FinishConsistent(before, h, status, retryable, retryAt, now);
      if status.Running? || (retryAt.Some? && !retryable) {
        return Err(InvalidArgument);
      }
      if !OwnsNow(h.lease, now) {
        return Err(NotOwned);
      }
      var job := table.rows[h.lease.job];
      var to := ClosedState(status, retryable, job.attemptCount, job.info.maxAttempts);
      var available := RetryAt(now, Policy(job), job.attemptCount);
      if retryAt.Some? {
        available := Max(available, retryAt.value);
      }
      CloseInPlace(h.lease.job, CloseJob(job, to, available), h.lease.attempt, status);
      runs := runs[h.run := runs[h.run].(status := status)];
      r := Ok(());
    }

    method Cancel(j: Id) returns (changed: bool)
      requires Valid()
      modifies this
      ensures Valid() && (Core(), changed) == Leases.Cancel(old(Core()), j)
    {
      ghost var before := Core();
      hide Consistent, Keeps;
      CancelConsistent(before, j);
      changed := j in table.rows && (Claimable(table.rows[j].state) || table.rows[j].state.Claimed?);
      if changed {
        SetRow(j, table.rows[j].(state := JobState.Cancelled));
      }
    }
  }

  // ---------------------------------------------------------------- proofs the methods use

  /** Earlier in `ORDER BY priority, available_at, scheduled_for, job_id`. */
  predicate Before(i: Id, a: Job, j: Id, b: Job) {
    if a.info.priority != b.info.priority then a.info.priority < b.info.priority
    else if a.availableAt != b.availableAt then a.availableAt < b.availableAt
    else if a.info.scheduledFor != b.info.scheduledFor then a.info.scheduledFor < b.info.scheduledFor
    else i < j
  }

  ghost predicate First(c: Core, now: Time, j: Id) {
    && Due(c, j, now)
    && (forall x :: Due(c, x, now) && x != j ==> Before(j, c.table.rows[j], x, c.table.rows[x]))
  }

  /** The first due job has the smallest priority number of all due jobs; among those the earliest available time; then
      the earliest scheduled time; then the smallest id. */
  lemma FirstIsLeast(c: Core, now: Time, j: Id, x: Id)
    requires First(c, now, j) && x in c.table.rows && c.table.rows[x].availableAt <= now
    requires c.table.rows[x].state == JobState.Queued || c.table.rows[x].state == JobState.RetryWait
    ensures j in c.table.rows && c.table.rows[j].availableAt <= now
    ensures c.table.rows[j].state == JobState.Queued || c.table.rows[j].state == JobState.RetryWait
    ensures var a, b := c.table.rows[j], c.table.rows[x];
            && a.info.priority <= b.info.priority
            && (a.info.priority == b.info.priority ==> a.availableAt <= b.availableAt)
            && (a.info.priority == b.info.priority && a.availableAt == b.availableAt ==>
                  && a.info.scheduledFor <= b.info.scheduledFor
                  && (a.info.scheduledFor == b.info.scheduledFor ==> j <= x))
  {
    assert Due(c, x, now);
  }

  lemma KeysNameRows(c: Core)
    requires Consistent(c)
    ensures forall k :: k in c.table.byKey ==> c.table.byKey[k] in c.table.rows
  {
    hide RowsOk, AttemptsOk, RunsOk, TokensOk;
  }

  function FailRunOf(runs: map<Id, Run>, attempt: Id): map<Id, Run> {
    map r | r in runs ::
      if runs[r].attempt == attempt && runs[r].status.Running? then runs[r].(status := AttemptStatus.Failed)
      else runs[r]
  }

  lemma RecoverNothing(c: Core, now: Time)
    ensures RecoverSet(c, {}, now) == c
  {
    var c' := RecoverSet(c, {}, now);
    assert c'.table.rows == c.table.rows && c'.attempts == c.attempts && c'.runs == c.runs;
  }

  /** Recovering one more job is one row update, plus the close of its newest attempt if that runs. */
  lemma RecoverOneMore(c: Core, done: set<Id>, j: Id, now: Time)
    requires Consistent(c) && j !in done && j in c.table.rows && Expired(c.table.rows[j], now)
    ensures var c1, c2, row := RecoverSet(c, done, now), RecoverSet(c, done + {j}, now), c.table.rows[j];
            && j in c1.table.rows && c1.table.rows[j] == row && c1.attemptAt == c.attemptAt
            && c2 == c1.(table := c1.table.(rows := c1.table.rows[j := RecoverRow(row, now)]),
                         attempts := c2.attempts, runs := c2.runs)
            && (var newest := (j, row.attemptCount);
                if row.state.Running? && newest in c1.attemptAt && c1.attemptAt[newest] in c1.attempts
                   && c1.attempts[c1.attemptAt[newest]].status.Running?
                then
                  var a := c1.attemptAt[newest];
                  && c2.attempts == c1.attempts[a := c1.attempts[a].(status := AttemptStatus.Failed)]
                  && c2.runs == FailRunOf(c1.runs, a)
                else c2.attempts == c1.attempts && c2.runs == c1.runs)
  {
    RunningOnlyNewest(c, j);
    RunsFollow(c, j);
    hide Consistent;
    RecoverOneRow(c, done, j, now);
    RecoverOneAttempt(c, done, j, now);
    RecoverOneRun(c, done, j, now);
    hide RecoverSet, RecoverRow, FailRunOf;
  }

  lemma RecoverOneRow(c: Core, done: set<Id>, j: Id, now: Time)
    requires j !in done && j in c.table.rows
    ensures var c1, c2 := RecoverSet(c, done, now), RecoverSet(c, done + {j}, now);
            && j in c1.table.rows && c1.table.rows[j] == c.table.rows[j]
            && c2.table.rows == c1.table.rows[j := RecoverRow(c.table.rows[j], now)] && c2.table.byKey == c1.table.byKey
            && c2.attemptAt == c1.attemptAt == c.attemptAt && c2.tokens == c1.tokens && c2.issued == c1.issued
  {
    hide RecoverRow, FailAttempt, FailRun;
  }

  lemma RecoverOneAttempt(c: Core, done: set<Id>, j: Id, now: Time)
    requires j !in done && j in c.table.rows && OnlyNewestRuns(c, j)
    ensures var c1, c2, row := RecoverSet(c, done, now), RecoverSet(c, done + {j}, now), c.table.rows[j];
            if row.state.Running? then
              var a := c.attemptAt[(j, row.attemptCount)];
              c2.attempts == c1.attempts[a := c1.attempts[a].(status := AttemptStatus.Failed)]
              && a in c1.attempts && c1.attempts[a].status.Running?
            else c2.attempts == c1.attempts
  {
  }

  lemma RecoverOneRun(c: Core, done: set<Id>, j: Id, now: Time)
    requires j !in done && j in c.table.rows && OnlyNewestRuns(c, j)
    requires forall r :: r in c.runs && c.runs[r].status.Running? ==>
               (c.runs[r].job == j <==>
                  c.table.rows[j].state.Running? && c.runs[r].attempt == c.attemptAt[(j, c.table.rows[j].attemptCount)])
    ensures var c1, c2, row := RecoverSet(c, done, now), RecoverSet(c, done + {j}, now), c.table.rows[j];
            c2.runs == if row.state.Running? then FailRunOf(c1.runs, c.attemptAt[(j, row.attemptCount)]) else c1.runs
  {
  }

  ghost predicate OnlyNewestRuns(c: Core, j: Id)
    requires j in c.table.rows
  {
    var row := c.table.rows[j];
    var newest := (j, row.attemptCount);
    && (row.state.Running? ==>
          && newest in c.attemptAt && c.attemptAt[newest] in c.attempts
          && c.attempts[c.attemptAt[newest]].job == j && c.attempts[c.attemptAt[newest]].status.Running?)
    && (forall a :: a in c.attempts && c.attempts[a].job == j && c.attempts[a].status.Running? ==>
          row.state.Running? && a == c.attemptAt[newest])
  }

  /** The running run of a job, if any, belongs to its newest attempt. */
  lemma RunsFollow(c: Core, j: Id)
    requires Consistent(c) && j in c.table.rows && OnlyNewestRuns(c, j)
    ensures forall r :: r in c.runs && c.runs[r].status.Running? ==>
              (c.runs[r].job == j <==>
                 c.table.rows[j].state.Running? && c.runs[r].attempt == c.attemptAt[(j, c.table.rows[j].attemptCount)])
  {
    hide TableOk, RowsOk, AttemptsOk, TokensOk;
  }

  lemma RunningOnlyNewest(c: Core, j: Id)
    requires Consistent(c) && j in c.table.rows
    ensures OnlyNewestRuns(c, j)
  {
    hide TableOk, RunsOk, TokensOk;
    var row := c.table.rows[j];
    assert RowOk(row);
    forall a | a in c.attempts && c.attempts[a].job == j && c.attempts[a].status.Running?
      ensures row.state.Running? && a == c.attemptAt[(j, row.attemptCount)]
    {
      assert AttemptOk(c.table.rows, c.attemptAt, a, c.attempts[a]);
    }
    if row.state.Running? {
      var a := c.attemptAt[(j, row.attemptCount)];
      assert AttemptOk(c.table.rows, c.attemptAt, a, c.attempts[a]);
    }
  }
}
