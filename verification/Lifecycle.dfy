/** What each step of the lease protocol achieves. */
module Lifecycle {
  import opened Base
  import opened Jobs
  import opened Leases

  /** Every row but one is as before. */
  ghost predicate OnlyJob(c: Core, c': Core, j: Id) {
    && c'.table.byKey == c.table.byKey
    && c'.table.rows.Keys == c.table.rows.Keys
    && (forall i :: i in c.table.rows && i != j ==> c'.table.rows[i] == c.table.rows[i])
  }

  /** One row after a recovery: an unexpired one is untouched; a lapsed claim goes back to the queue
      without using an attempt; a lapsed run is retried after its delay while it has budget, and is
      dead-lettered exactly when its budget is spent. */
  predicate Recovered(job: Job, job': Job, now: Time) {
    if !((job.state.Claimed? || job.state.Running?) && job.lease.Some? && job.lease.value <= now) then job' == job
    else
      && job'.info == job.info && job'.attemptCount == job.attemptCount && job'.token.None? && job'.lease.None?
      && (job.state.Claimed? ==> job'.state.Queued? && job'.availableAt == now)
      && (job.state.Running? ==>
            && (job'.state.DeadLetter? <==> job.attemptCount == job.info.maxAttempts)
            && (job'.state.RetryWait? <==> job.attemptCount < job.info.maxAttempts)
            && (job'.state.RetryWait? ==> job'.availableAt == now + RetryDelay(Policy(job), job.attemptCount) * SECOND))
  }

  lemma RecoverRowExact(job: Job, now: Time)
    requires RowOk(job)
    ensures Recovered(job, if Expired(job, now) then RecoverRow(job, now) else job, now)
  {
    hide RetryDelay;
  }

  /** Recovery settles every lapsed lease: each row and attempt ends as it should, nothing stays lapsed,
      and recovering again at once changes nothing. */
  lemma RecoverSettles(c: Core, now: Time)
    requires Consistent(c)
    ensures var c' := Recover(c, now);
            && c'.table.rows.Keys == c.table.rows.Keys && c'.attempts.Keys == c.attempts.Keys
               && c'.runs.Keys == c.runs.Keys
            && (forall j :: j in c.table.rows ==> Recovered(c.table.rows[j], c'.table.rows[j], now))
            && (forall a :: a in c.attempts ==>
                  c'.attempts[a] == if c.attempts[a].status.Running? && c.attempts[a].job in ExpiredJobs(c, now)
                                    then c.attempts[a].(status := AttemptStatus.Failed) else c.attempts[a])
            && ExpiredJobs(c', now) == {}
            && Recover(c', now) == c'
  {
    var c' := Recover(c, now);
    forall j | j in c.table.rows
      ensures Recovered(c.table.rows[j], c'.table.rows[j], now)
    {
      assert RowOk(c.table.rows[j]);
      RecoverRowExact(c.table.rows[j], now);
    }
    hide Consistent, Recovered;
    assert ExpiredJobs(c', now) == {};
    RecoverNobody(c', now);
  }

  lemma RecoverNobody(c: Core, now: Time)
    requires ExpiredJobs(c, now) == {}
    ensures Recover(c, now) == c
  {
    var c' := Recover(c, now);
    assert c'.table.rows == c.table.rows && c'.attempts == c.attempts && c'.runs == c.runs;
  }

  /** A claim succeeds exactly when its arguments are valid and the job is due once lapsed leases are
      reconciled; the lease it gets can be started until it expires and not a moment longer. */
  lemma ClaimLeases(c: Core, j: Id, worker: string, now: Time, seconds: int, token: Id)
    ensures var (c', r) := ClaimJob(c, j, worker, now, seconds, token);
            var before := Recover(c, now);
            && (r == Ok(Some(Claim(j, token))) <==>
                  && 1 <= seconds <= 3600 && worker != "" && j in before.table.rows
                  && (before.table.rows[j].state.Queued? || before.table.rows[j].state.RetryWait?)
                  && before.table.rows[j].availableAt <= now)
            && (r.Err? <==> !(1 <= seconds <= 3600) || (worker == "" && Due(before, j, now)))
            && (r != Ok(Some(Claim(j, token))) ==> c' == before)
            && (r == Ok(Some(Claim(j, token))) ==>
                  && OnlyJob(before, c', j) && c'.attempts == before.attempts && c'.runs == before.runs
                  && c'.table.rows[j].attemptCount == before.table.rows[j].attemptCount
                  && (forall t :: Startable(c', Claim(j, token), t) <==> t < now + seconds * SECOND))
  {
    hide Recover;
  }

  /** What a start leaves behind: one attempt used, its run on record, and a handle that owns the job
      until the claim's own expiry; the claim cannot be started again. */
  ghost predicate Started(c: Core, c': Core, claim: Claim, worker: string, attempt: Id, run: Id, h: RunHandle)
    requires claim.job in c.table.rows && c.table.rows[claim.job].lease.Some?
  {
    var no := c.table.rows[claim.job].attemptCount + 1;
    && OnlyJob(c, c', claim.job) && claim.job in c'.table.rows && c'.table.rows[claim.job].attemptCount == no
    && c'.attempts == c.attempts[attempt := Attempt(claim.job, no, AttemptStatus.Running, worker)]
    && h.run == run && h.lease == Lease(attempt, claim.job, claim.token)
    && (var key := c.table.rows[claim.job].info.key;
        && key.definition.Some? && key.lane == Some(h.lane)
        && h.datasource == key.definition.value.datasource && h.version == key.definition.value.version
        && c'.runs == c.runs[run := Run(attempt, claim.job, key.definition.value.datasource,
                                        key.definition.value.version,
                                        key.lane.value, AttemptStatus.Running)])
    && (forall t :: Owns(c', h.lease, t) <==> t < c.table.rows[claim.job].lease.value)
    && (forall t :: !Startable(c', claim, t))
  }

  /** A start succeeds exactly when the claim still holds and the job has a datasource. */
  lemma StartOwns(c: Core, claim: Claim, worker: string, now: Time, attempt: Id, run: Id)
    requires Consistent(c) && attempt !in c.attempts && run !in c.runs
    ensures var (c', r) := StartRun(c, claim, worker, now, attempt, run);
            && (r.Ok? <==> Startable(c, claim, now) && c.table.rows[claim.job].info.key.definition.Some?
                           && c.table.rows[claim.job].info.key.lane.Some?)
            && (r.Err? ==> c' == c)
            && (r.Ok? ==> Started(c, c', claim, worker, attempt, run, r.value))
  {
    hide Consistent, Started;
    NeverExhausted(c, claim, worker, now, attempt, run);
    if StartRun(c, claim, worker, now, attempt, run).1.Ok? {
      StartLeaves(c, claim, worker, now, attempt, run);
    }
  }

  lemma StartLeaves(c: Core, claim: Claim, worker: string, now: Time, attempt: Id, run: Id)
    requires StartRun(c, claim, worker, now, attempt, run).1.Ok?
    ensures var (c', r) := StartRun(c, claim, worker, now, attempt, run);
            Started(c, c', claim, worker, attempt, run, r.value)
  {
    var (c', r) := StartRun(c, claim, worker, now, attempt, run);
    assert c'.table.rows[claim.job] ==
             c.table.rows[claim.job].(state := JobState.Running,
                                      attemptCount := c.table.rows[claim.job].attemptCount + 1);
    hide StartRun;
  }

  /** A system start succeeds exactly when the claim still holds, a worker is named and the job is a delivery; it uses
      one attempt, makes no run, and holds the job until the claim's own expiry. */
  lemma StartSystemOwns(c: Core, claim: Claim, worker: string, now: Time, attempt: Id)
    requires Consistent(c) && attempt !in c.attempts
    ensures var (c', r) := StartSystem(c, claim, worker, now, attempt);
            && (r.Ok? <==> Startable(c, claim, now) && worker != "" && c.table.rows[claim.job].info.key.definition.None?
                           && c.table.rows[claim.job].info.key.kind.ProjectionDelivery?)
            && (r.Err? ==> c' == c)
            && (r.Ok? ==>
                  && OnlyJob(c, c', claim.job) && c'.runs == c.runs && r.value == Lease(attempt, claim.job, claim.token)
                  && c'.table.rows[claim.job].attemptCount == c.table.rows[claim.job].attemptCount + 1
                  && c'.attempts == c.attempts[attempt := Attempt(claim.job, c'.table.rows[claim.job].attemptCount,
                                                                  AttemptStatus.Running, worker)]
                  && (forall t :: Holds(c', r.value, t) <==> t < c.table.rows[claim.job].lease.value))
  {
    hide Consistent;
    NeverExhausted(c, claim, worker, now, attempt, 0);
  }

  /** A heartbeat succeeds exactly while the lease holds, and moves its expiry, later or earlier, to
      exactly the requested time. */
  lemma HeartbeatMoves(c: Core, l: Lease, now: Time, seconds: int)
    ensures var (c', r) := Heartbeat(c, l, now, seconds);
            && (r.Ok? <==> 1 <= seconds <= 3600 && Holds(c, l, now))
            && (r.Err? ==> c' == c)
            && (r.Ok? ==>
                  && OnlyJob(c, c', l.job) && c'.attempts == c.attempts && c'.runs == c.runs
                  && (forall t :: Holds(c', l, t) <==> t < now + seconds * SECOND))
  {
  }

  /** Where a close leaves its job. */
  predicate Closed(job: Job, job': Job, status: AttemptStatus, retryable: bool, retryAt: Option<Time>,
                   policy: RetryPolicy, now: Time) {
    var again := !status.Succeeded? && !status.Empty? && retryable;
    && job'.info == job.info && job'.attemptCount == job.attemptCount && job'.token.None? && job'.lease.None?
    && (status.Succeeded? <==> job'.state.Succeeded?)
    && (status.Empty? <==> job'.state.Empty?)
    && (again && job.attemptCount < job.info.maxAttempts <==> job'.state.RetryWait?)
    && (again && job.attemptCount >= job.info.maxAttempts <==> job'.state.DeadLetter?)
    && (!again && status.Cancelled? <==> job'.state.Cancelled?)
    && (!again && (status.Failed? || status.Partial?) <==> job'.state.Failed?)
    && job'.availableAt == (if !job'.state.RetryWait? then job.availableAt
                            else Max(now + RetryDelay(policy, job.attemptCount) * SECOND,
                                     if retryAt.Some? then retryAt.value else now))
  }

  /** A finish succeeds exactly while its handle owns the job, and closes attempt, run and job together;
      no lease holds the job afterwards. */
  lemma FinishCloses(c: Core, h: RunHandle, status: AttemptStatus, retryable: bool, retryAt: Option<Time>, now: Time)
    requires Consistent(c) && Genuine(c, h)
    ensures var (c', r) := FinishRun(c, h, status, retryable, retryAt, now);
            && (r.Ok? <==> !status.Running? && (retryAt.Some? ==> retryable) && Owns(c, h.lease, now))
            && (r.Err? ==> c' == c)
            && (r.Ok? ==>
                  && OnlyJob(c, c', h.lease.job)
                  && Closed(c.table.rows[h.lease.job], c'.table.rows[h.lease.job], status, retryable, retryAt,
                            Policy(c.table.rows[h.lease.job]), now)
                  && c'.attempts == c.attempts[h.lease.attempt := c.attempts[h.lease.attempt].(status := status)]
                  && c'.runs == c.runs[h.run := c.runs[h.run].(status := status)]
                  && (forall l: Lease, t :: l.job == h.lease.job ==> !Holds(c', l, t)))
  {
    hide Consistent, Closed, ClosedState, CloseJob, RetryAt;
    if !status.Running? && Owns(c, h.lease, now) {
      CloseIsExact(c.table.rows[h.lease.job], status, retryable, retryAt, Policy(c.table.rows[h.lease.job]), now);
      StateLeft(c.table.rows[h.lease.job], status, retryable);
    }
  }

  /** A system finish succeeds exactly for a success, a failure or a cancellation under a live lease, and closes
      attempt and job together; a failure is retried with the default delays while there is budget. */
  lemma FinishSystemCloses(c: Core, l: Lease, status: AttemptStatus, now: Time)
    requires Consistent(c) && l in c.issued
    ensures var (c', r) := FinishSystem(c, l, status, now);
            && (r.Ok? <==> (status.Succeeded? || status.Failed? || status.Cancelled?) && Holds(c, l, now))
            && (r.Err? ==> c' == c)
            && (r.Ok? ==>
                  && OnlyJob(c, c', l.job) && c'.runs == c.runs
                  && Closed(c.table.rows[l.job], c'.table.rows[l.job], status, status.Failed?, None, NO_POLICY, now)
                  && l.attempt in c.attempts
                  && c'.attempts == c.attempts[l.attempt := c.attempts[l.attempt].(status := status)]
                  && (forall x: Lease, t :: x.job == l.job ==> !Holds(c', x, t)))
  {
    hide Consistent, Closed, ClosedState, CloseJob, RetryAt;
    if !status.Running? && Holds(c, l, now) {
      HeldAttemptRuns(c, l, now);
      CloseIsExact(c.table.rows[l.job], status, status.Failed?, None, NO_POLICY, now);
      StateLeft(c.table.rows[l.job], status, status.Failed?);
    }
  }

  lemma CloseIsExact(job: Job, status: AttemptStatus, retryable: bool, retryAt: Option<Time>, policy: RetryPolicy,
                     now: Time)
    requires !status.Running?
    ensures var normal := RetryAt(now, policy, job.attemptCount);
            var available := match retryAt case Some(t) => Max(normal, t) case None => normal;
            var to := ClosedState(status, retryable, job.attemptCount, job.info.maxAttempts);
            Closed(job, CloseJob(job, to, available), status, retryable, retryAt, policy, now)
  {
    hide RetryDelay;
  }

  lemma StateLeft(job: Job, status: AttemptStatus, retryable: bool)
    requires !status.Running?
    ensures var to := ClosedState(status, retryable, job.attemptCount, job.info.maxAttempts);
            forall at :: !CloseJob(job, to, at).state.Running?
  {
  }

  /** A cancel changes exactly the jobs that are not running and not closed. */
  lemma CancelStops(c: Core, j: Id)
    ensures var (c', changed) := Cancel(c, j);
            && (changed <==> j in c.table.rows && !Terminal(c.table.rows[j].state) && !c.table.rows[j].state.Running?)
            && (!changed ==> c' == c)
            && (changed ==> OnlyJob(c, c', j) && c'.table.rows[j].state.Cancelled? && c'.attempts == c.attempts
                            && forall claim: Claim, t :: claim.job == j ==> !Startable(c', claim, t))
  {
  }

  /** The attempts of a job numbered up to `k`. */
  function AttemptsUpTo(c: Core, j: Id, k: nat): set<Id> {
    set a | a in c.attempts && c.attempts[a].job == j && c.attempts[a].no <= k
  }

  lemma {:induction false} CountUpTo(c: Core, j: Id, k: nat)
    requires AttemptsOk(c.table.rows, c.attempts, c.attemptAt) && j in c.table.rows && k <= c.table.rows[j].attemptCount
    ensures |AttemptsUpTo(c, j, k)| == k
  {
    if k == 0 {
      assert AttemptsUpTo(c, j, 0) == {} by {
        forall a | a in c.attempts
          ensures c.attempts[a].no >= 1
        {
          assert AttemptOk(c.table.rows, c.attemptAt, a, c.attempts[a]);
        }
      }
    } else {
      CountUpTo(c, j, k - 1);
      var newest := c.attemptAt[(j, k)];
      forall a | a in AttemptsUpTo(c, j, k) && a !in AttemptsUpTo(c, j, k - 1)
        ensures a == newest
      {
        assert AttemptOk(c.table.rows, c.attemptAt, a, c.attempts[a]);
      }
      assert AttemptsUpTo(c, j, k) == AttemptsUpTo(c, j, k - 1) + {newest};
    }
  }

  /** Attempts are counted exactly, and starts are bounded: a job has attempt_count attempts, never more
      than its budget. */
  lemma AttemptsAreBounded(c: Core, j: Id)
    requires Consistent(c) && j in c.table.rows
    ensures |(set a | a in c.attempts && c.attempts[a].job == j)| ==
              c.table.rows[j].attemptCount <= c.table.rows[j].info.maxAttempts
  {
    hide TableOk, RunsOk, TokensOk;
    assert RowOk(c.table.rows[j]);
    CountUpTo(c, j, c.table.rows[j].attemptCount);
    assert (set a | a in c.attempts && c.attempts[a].job == j) == AttemptsUpTo(c, j, c.table.rows[j].attemptCount) by {
      forall a | a in c.attempts && c.attempts[a].job == j
        ensures c.attempts[a].no <= c.table.rows[j].attemptCount
      {
        assert AttemptOk(c.table.rows, c.attemptAt, a, c.attempts[a]);
      }
    }
  }

  lemma SameColumns(c: Core, j: Id, now: Time)
    requires j in c.table.rows
    ensures j in Recover(c, now).table.rows
    ensures Recover(c, now).table.rows[j].info == c.table.rows[j].info
    ensures Recover(c, now).table.rows[j].attemptCount == c.table.rows[j].attemptCount
    ensures Recover(c, now).attempts.Keys == c.attempts.Keys && Recover(c, now).runs.Keys == c.runs.Keys
  {
  }

  lemma ClaimedColumns(c: Core, j: Id, worker: string, now: Time, seconds: int, token: Id)
    requires ClaimJob(c, j, worker, now, seconds, token).1 == Ok(Some(Claim(j, token)))
    ensures var c1 := ClaimJob(c, j, worker, now, seconds, token).0;
            && j in c1.table.rows && j in Recover(c, now).table.rows
            && c1.table.rows[j].info == Recover(c, now).table.rows[j].info
            && c1.table.rows[j].lease == Some(now + seconds * SECOND)
            && c1.attempts == Recover(c, now).attempts && c1.runs == Recover(c, now).runs
  {
    hide Recover;
  }
}
