/** The claim / lease / attempt protocol: claim, start, heartbeat, finish, recover and cancel over
    the job, attempt and run tables. Every function is one committed transaction. */
module Leases {
  import opened Base
  import opened Jobs

  datatype AttemptStatus = Running | Succeeded | Empty | Partial | Failed | Cancelled

  datatype Attempt = Attempt(job: Id, no: nat, status: AttemptStatus, worker: string)

  /** The status columns of `ingestion_run`; its snapshot and counter columns are in Revisions. */
  datatype Run = Run(attempt: Id, job: Id, datasource: string, version: nat, lane: Lane, status: AttemptStatus)

  /** What a start hands to its worker: the attempt, its job and the claim token. */
  datatype Lease = Lease(attempt: Id, job: Id, token: Id)

  datatype RunHandle = RunHandle(run: Id, lease: Lease, datasource: string, version: nat, lane: Lane)

  datatype Claim = Claim(job: Id, token: Id)

  /** The three tables, the unique index (job_id, attempt_no) of `workflow_attempt`, and two history
      sets that only the statements below use: claim tokens ever minted and leases ever handed out. */
  datatype Core = Core(
    table: JobTable, attempts: map<Id, Attempt>, attemptAt: map<(Id, nat), Id>, runs: map<Id, Run>,
    tokens: set<Id>, issued: set<Lease>)

  // ---------------------------------------------------------------- operations

  function SetJob(c: Core, j: Id, job: Job): Core {
    c.(table := c.table.(rows := c.table.rows[j := job]))
  }

  predicate Expired(job: Job, now: Time) {
    && (job.state.Claimed? || job.state.Running?)
    && job.lease.Some?
    && job.lease.value <= now
  }

  function Policy(job: Job): RetryPolicy {
    match job.info.key.definition case Some(d) => d.retry case None => NO_POLICY
  }

  function RecoverRow(job: Job, now: Time): Job {
    var cleared := job.(token := None, lease := None);
    if job.state.Claimed? then cleared.(state := JobState.Queued, availableAt := now)
    else if job.attemptCount < job.info.maxAttempts then
      cleared.(state := JobState.RetryWait, availableAt := RetryAt(now, Policy(job), job.attemptCount))
    else cleared.(state := JobState.DeadLetter, availableAt := now)
  }

  /** The jobs whose lease has lapsed at `now`. */
  function ExpiredJobs(c: Core, now: Time): set<Id> {
    set j | j in c.table.rows && Expired(c.table.rows[j], now)
  }

  function FailAttempt(a: Attempt, jobs: set<Id>): Attempt {
    if a.job in jobs && a.status.Running? then a.(status := AttemptStatus.Failed) else a
  }

  function FailRun(r: Run, jobs: set<Id>): Run {
    if r.job in jobs && r.status.Running? then r.(status := AttemptStatus.Failed) else r
  }

  /** The tables once every job of `jobs` has been recovered. */
  function RecoverSet(c: Core, jobs: set<Id>, now: Time): Core {
    c.(table := c.table.(rows := map j | j in c.table.rows ::
                           if j in jobs then RecoverRow(c.table.rows[j], now) else c.table.rows[j]),
       attempts := map a | a in c.attempts :: FailAttempt(c.attempts[a], jobs),
       runs := map r | r in c.runs :: FailRun(c.runs[r], jobs))
  }

  /** `recover_expired` */
  function Recover(c: Core, now: Time): Core {
    RecoverSet(c, ExpiredJobs(c, now), now)
  }

  predicate ValidLeaseSeconds(s: int) {
    1 <= s <= 3600
  }

  predicate Due(c: Core, j: Id, now: Time) {
    && j in c.table.rows
    && Claimable(c.table.rows[j].state)
    && c.table.rows[j].availableAt <= now
  }

  /** `claim_job`: recover first, then lease the job if it is due. */
  function ClaimJob(c: Core, j: Id, worker: string, now: Time, seconds: int, token: Id)
    : (Core, Result<Option<Claim>>)
  {
    var r := Recover(c, now);
    if !ValidLeaseSeconds(seconds) then (r, Err(InvalidArgument))
    else if !Due(r, j, now) then (r, Ok(None))
    else if worker == "" then (r, Err(InvalidArgument))
    else (ClaimRow(r, j, now, seconds, token), Ok(Some(Claim(j, token))))
  }

  /** `_claim_row` */
  function ClaimRow(c: Core, j: Id, now: Time, seconds: int, token: Id): Core
    requires j in c.table.rows
  {
    SetJob(c, j, c.table.rows[j].(state := JobState.Claimed, token := Some(token),
                                  lease := Some(now + seconds * SECOND)))
      .(tokens := c.tokens + {token})
  }

  /** The claim's compare-and-set condition at a start. */
  predicate Startable(c: Core, claim: Claim, now: Time) {
    && claim.job in c.table.rows
    && var job := c.table.rows[claim.job];
       job.token == Some(claim.token) && job.state.Claimed? && job.lease.Some? && job.lease.value > now
  }

  /** A job with a datasource and a lane, which starts as an ingestion run. */
  predicate Ingests(job: Job) {
    job.info.key.definition.Some? && job.info.key.lane.Some?
  }

  /** A job that starts as a system job. */
  predicate Delivers(job: Job) {
    job.info.key.definition.None? && job.info.key.kind.ProjectionDelivery?
  }

  function BeginAttempt(c: Core, claim: Claim, worker: string, attempt: Id): Core
    requires claim.job in c.table.rows
  {
    var job := c.table.rows[claim.job];
    var no := job.attemptCount + 1;
    SetJob(c, claim.job, job.(state := JobState.Running, attemptCount := no))
      .(attempts := c.attempts[attempt := Attempt(claim.job, no, AttemptStatus.Running, worker)],
        attemptAt := c.attemptAt[(claim.job, no) := attempt],
        issued := c.issued + {Lease(attempt, claim.job, claim.token)})
  }

  /** `start_run`: turn a lease into an attempt and its ingestion run. */
  function StartRun(c: Core, claim: Claim, worker: string, now: Time, attempt: Id, run: Id)
    : (Core, Result<RunHandle>)
  {
    if claim.job in c.table.rows && !Ingests(c.table.rows[claim.job]) then (c, Err(NotPermitted))
    else if !Startable(c, claim, now) then (c, Err(LeaseNotValid))
    else
      var job := c.table.rows[claim.job];
      if job.attemptCount + 1 > job.info.maxAttempts then (c, Err(AttemptsExhausted))
      else
        var d, lane := job.info.key.definition.value, job.info.key.lane.value;
        var begun := BeginAttempt(c, claim, worker, attempt);
        (begun.(runs := c.runs[run := Run(attempt, claim.job, d.datasource, d.version, lane, AttemptStatus.Running)]),
         Ok(RunHandle(run, Lease(attempt, claim.job, claim.token), d.datasource, d.version, lane)))
  }

  /** `start_system_job`: an attempt without a run, for jobs without a datasource. */
  function StartSystem(c: Core, claim: Claim, worker: string, now: Time, attempt: Id)
    : (Core, Result<Lease>)
  {
    if claim.job in c.table.rows && !Delivers(c.table.rows[claim.job]) then (c, Err(NotPermitted))
    else if worker == "" then (c, Err(InvalidArgument))
    else if !Startable(c, claim, now) then (c, Err(LeaseNotValid))
    else
      var job := c.table.rows[claim.job];
      if job.attemptCount + 1 > job.info.maxAttempts then (c, Err(AttemptsExhausted))
      else (BeginAttempt(c, claim, worker, attempt), Ok(Lease(attempt, claim.job, claim.token)))
  }

  /** The job-row compare-and-set shared by heartbeats and system finishes. */
  predicate Holds(c: Core, l: Lease, now: Time) {
    && l.job in c.table.rows
    && var job := c.table.rows[l.job];
       job.token == Some(l.token) && job.state.Running? && job.lease.Some? && job.lease.value > now
  }

  /** `_require_running_run`: the token still holds the job and the attempt is still running. */
  predicate Owns(c: Core, l: Lease, now: Time) {
    && Holds(c, l, now)
    && c.table.rows[l.job].info.key.definition.Some?
    && l.attempt in c.attempts
    && c.attempts[l.attempt].job == l.job
    && c.attempts[l.attempt].status.Running?
  }

  /** The guard `status = 'running'` on a run's own row. */
  predicate RunIsRunning(c: Core, run: Id) {
    run in c.runs && c.runs[run].status.Running?
  }

  /** `heartbeat` */
  function Heartbeat(c: Core, l: Lease, now: Time, seconds: int): (Core, Result<()>) {
    if !ValidLeaseSeconds(seconds) then (c, Err(InvalidArgument))
    else if !Holds(c, l, now) then (c, Err(NotOwned))
    else (SetJob(c, l.job, c.table.rows[l.job].(lease := Some(now + seconds * SECOND))), Ok(()))
  }

  /** Where a closing attempt leaves its job. */
  function ClosedState(status: AttemptStatus, retryable: bool, count: nat, limit: nat): JobState {
    match status
    case Succeeded => JobState.Succeeded
    case Empty => JobState.Empty
    case _ =>
      if retryable && count < limit then JobState.RetryWait
      else if retryable then JobState.DeadLetter
      else if status.Cancelled? then JobState.Cancelled
      else JobState.Failed
  }

  function CloseJob(job: Job, to: JobState, availableAt: Time): Job {
    job.(state := to, token := None, lease := None,
         availableAt := if to.RetryWait? then availableAt else job.availableAt)
  }

  /** `UPDATE workflow_attempt ... WHERE attempt_id = ? AND status = 'running'` */
  function CloseAttempt(c: Core, attempt: Id, status: AttemptStatus): map<Id, Attempt> {
    if attempt in c.attempts && c.attempts[attempt].status.Running?
    then c.attempts[attempt := c.attempts[attempt].(status := status)]
    else c.attempts
  }

  /** The part of `finish_run` that closes the attempt, its run and its job. */
  function FinishRun(c: Core, h: RunHandle, status: AttemptStatus, retryable: bool, retryAt: Option<Time>, now: Time)
    : (Core, Result<()>)
  {
    if status.Running? || (retryAt.Some? && !retryable) then (c, Err(InvalidArgument))
    else if !Owns(c, h.lease, now) then (c, Err(NotOwned))
    else
      var job := c.table.rows[h.lease.job];
      var normal := RetryAt(now, Policy(job), job.attemptCount);
      var available := match retryAt case Some(t) => Max(normal, t) case None => normal;
      var to := ClosedState(status, retryable, job.attemptCount, job.info.maxAttempts);
      (SetJob(c, h.lease.job, CloseJob(job, to, available))
         .(attempts := CloseAttempt(c, h.lease.attempt, status),
           runs := if h.run in c.runs then c.runs[h.run := c.runs[h.run].(status := status)] else c.runs),
       Ok(()))
  }

  /** `finish_system_job` */
  function FinishSystem(c: Core, l: Lease, status: AttemptStatus, now: Time): (Core, Result<()>) {
    if !(status.Succeeded? || status.Failed? || status.Cancelled?) then (c, Err(InvalidArgument))
    else if !Holds(c, l, now) then (c, Err(NotOwned))
    else
      var job := c.table.rows[l.job];
      var to := ClosedState(status, status.Failed?, job.attemptCount, job.info.maxAttempts);
      (SetJob(c, l.job, CloseJob(job, to, RetryAt(now, NO_POLICY, job.attemptCount)))
         .(attempts := CloseAttempt(c, l.attempt, status)),
       Ok(()))
  }

  /** `cancel`: the token of a claimed job stays on the cancelled row. */
  function Cancel(c: Core, j: Id): (Core, bool) {
    if j in c.table.rows && (Claimable(c.table.rows[j].state) || c.table.rows[j].state.Claimed?)
    then (SetJob(c, j, c.table.rows[j].(state := JobState.Cancelled)), true)
    else (c, false)
  }

  // ---------------------------------------------------------------- the invariant

  /** Budget and lease columns of one job row. */
  predicate RowOk(job: Job) {
    && job.attemptCount <= job.info.maxAttempts
    && (Claimable(job.state) || job.state.Claimed? ==> job.attemptCount < job.info.maxAttempts)
    && (job.state.DeadLetter? ==> job.attemptCount == job.info.maxAttempts)
    && (job.state.Claimed? || job.state.Running? ==> job.token.Some? && job.lease.Some?)
    && (Claimable(job.state) ==> job.token.None?)
    && (job.state.Running? ==> job.attemptCount >= 1)
  }

  ghost predicate RowsOk(rows: map<Id, Job>) {
    forall j :: j in rows ==> RowOk(rows[j])
  }

  /** Attempt accounting: the attempts of a job are numbered 1..attempt_count without gap or repeat,
      and an attempt is running exactly when it is the newest one of a running job. */
  ghost predicate AttemptsOk(rows: map<Id, Job>, attempts: map<Id, Attempt>, at: map<(Id, nat), Id>) {
    && (forall j, k: nat :: j in rows && 1 <= k <= rows[j].attemptCount ==> (j, k) in at)
    && (forall jk :: jk in at ==> at[jk] in attempts && attempts[at[jk]].job == jk.0 && attempts[at[jk]].no == jk.1)
    && (forall a :: a in attempts ==> AttemptOk(rows, at, a, attempts[a]))
  }

  predicate AttemptOk(rows: map<Id, Job>, at: map<(Id, nat), Id>, id: Id, a: Attempt) {
    && a.job in rows
    && 1 <= a.no <= rows[a.job].attemptCount
    && (a.job, a.no) in at && at[(a.job, a.no)] == id
    && (a.status.Running? <==> rows[a.job].state.Running? && a.no == rows[a.job].attemptCount)
  }

  /** Every run mirrors its own attempt, and no attempt has two runs. */
  ghost predicate RunsOk(attempts: map<Id, Attempt>, runs: map<Id, Run>) {
    && (forall r :: r in runs ==>
          runs[r].attempt in attempts
          && attempts[runs[r].attempt].job == runs[r].job
          && attempts[runs[r].attempt].status == runs[r].status)
    && (forall r, r' :: r in runs && r' in runs && runs[r].attempt == runs[r'].attempt ==> r == r')
  }

  /** A token sits on at most one job, and a handed-out token that is still on a job means that the
      job runs exactly the attempt it was handed out for. */
  ghost predicate TokensOk(rows: map<Id, Job>, attempts: map<Id, Attempt>, tokens: set<Id>, issued: set<Lease>) {
    && (forall j :: j in rows && rows[j].token.Some? ==> rows[j].token.value in tokens)
    && (forall i, j :: i in rows && j in rows && rows[i].token.Some? && rows[i].token == rows[j].token ==> i == j)
    && (forall l :: l in issued ==> l.token in tokens && l.attempt in attempts && attempts[l.attempt].job == l.job)
    && (forall l, j :: l in issued && j in rows && rows[j].token == Some(l.token) ==>
          j == l.job && rows[j].state.Running? && attempts[l.attempt].no == rows[j].attemptCount)
  }

  ghost predicate Consistent(c: Core) {
    && TableOk(c.table)
    && RowsOk(c.table.rows)
    && AttemptsOk(c.table.rows, c.attempts, c.attemptAt)
    && RunsOk(c.attempts, c.runs)
    && TokensOk(c.table.rows, c.attempts, c.tokens, c.issued)
  }

  /** A handle that some start returned. */
  ghost predicate Genuine(c: Core, h: RunHandle) {
    && h.lease in c.issued
    && h.run in c.runs
    && c.runs[h.run].attempt == h.lease.attempt
    && c.runs[h.run].datasource == h.datasource && c.runs[h.run].version == h.version && c.runs[h.run].lane == h.lane
  }

  const EMPTY_CORE := Core(JobTable(map[], map[]), map[], map[], map[], {}, {})

  // ---------------------------------------------------------------- what each step keeps

  lemma RowSet(t: JobTable, j: Id, job: Job)
    requires TableOk(t) && RowsOk(t.rows) && j in t.rows && job.info == t.rows[j].info && RowOk(job)
    ensures var t' := t.(rows := t.rows[j := job]); TableOk(t') && Keeps(t, t') && RowsOk(t'.rows)
  {
    SameInfoTable(t, t.(rows := t.rows[j := job]));
    hide TableOk, Keeps;
  }

  /** A row update that neither starts nor stops the job's running attempt. */
  lemma AttemptsSame(rows: map<Id, Job>, attempts: map<Id, Attempt>, at: map<(Id, nat), Id>, j: Id, job: Job)
    requires AttemptsOk(rows, attempts, at) && j in rows
    requires job.attemptCount == rows[j].attemptCount && job.state.Running? == rows[j].state.Running?
    ensures AttemptsOk(rows[j := job], attempts, at)
  {
  }

  lemma AttemptsBegun(rows: map<Id, Job>, attempts: map<Id, Attempt>, at: map<(Id, nat), Id>, j: Id, job: Job,
                      a: Id, worker: string)
    requires AttemptsOk(rows, attempts, at) && j in rows && a !in attempts
    requires !rows[j].state.Running? && job.state.Running? && job.attemptCount == rows[j].attemptCount + 1
    ensures var no := job.attemptCount;
            AttemptsOk(rows[j := job], attempts[a := Attempt(j, no, AttemptStatus.Running, worker)], at[(j, no) := a])
  {
    assert forall b :: b in attempts && attempts[b].job == j ==> AttemptOk(rows, at, b, attempts[b]);
  }

  /** The running attempt of a running job closes together with the job. */
  lemma AttemptsClosed(rows: map<Id, Job>, attempts: map<Id, Attempt>, at: map<(Id, nat), Id>, j: Id, job: Job,
                       a: Id, status: AttemptStatus)
    requires AttemptsOk(rows, attempts, at) && j in rows && a in attempts && attempts[a].job == j
    requires attempts[a].status.Running? && !status.Running?
    requires !job.state.Running? && job.attemptCount == rows[j].attemptCount
    ensures AttemptsOk(rows[j := job], attempts[a := attempts[a].(status := status)], at)
  {
    assert AttemptOk(rows, at, a, attempts[a]);
    forall b | b in attempts && b != a
      ensures AttemptOk(rows[j := job], at, b, attempts[b])
    {
      assert AttemptOk(rows, at, b, attempts[b]);
    }
  }

  /** The tokens after a row update that keeps the job's token and never leaves the running state. */
  lemma TokensSame(rows: map<Id, Job>, attempts: map<Id, Attempt>, tokens: set<Id>, issued: set<Lease>, j: Id, job: Job)
    requires TokensOk(rows, attempts, tokens, issued) && j in rows
    requires job.token == rows[j].token && job.attemptCount == rows[j].attemptCount
    requires rows[j].state.Running? ==> job.state.Running?
    ensures TokensOk(rows[j := job], attempts, tokens, issued)
  {
  }

  lemma TokensCleared(rows: map<Id, Job>, attempts: map<Id, Attempt>, attempts': map<Id, Attempt>,
                      tokens: set<Id>, issued: set<Lease>, j: Id, job: Job)
    requires TokensOk(rows, attempts, tokens, issued) && j in rows && job.token.None?
    requires SameNumbers(attempts, attempts')
    ensures TokensOk(rows[j := job], attempts', tokens, issued)
  {
  }

  /** Two attempt tables that differ in statuses at most. */
  ghost predicate SameNumbers(attempts: map<Id, Attempt>, attempts': map<Id, Attempt>) {
    && attempts.Keys == attempts'.Keys
    && (forall a :: a in attempts ==> attempts'[a].job == attempts[a].job && attempts'[a].no == attempts[a].no)
  }

  lemma TokensMinted(rows: map<Id, Job>, attempts: map<Id, Attempt>, tokens: set<Id>, issued: set<Lease>, j: Id,
                     job: Job)
    requires TokensOk(rows, attempts, tokens, issued) && j in rows
    requires job.token.Some? && job.token.value !in tokens
    ensures TokensOk(rows[j := job], attempts, tokens + {job.token.value}, issued)
  {
  }

  lemma TokensBegun(rows: map<Id, Job>, attempts: map<Id, Attempt>, tokens: set<Id>, issued: set<Lease>, j: Id,
                    job: Job, a: Id, attempt: Attempt)
    requires TokensOk(rows, attempts, tokens, issued) && j in rows && a !in attempts
    requires rows[j].state.Claimed? && rows[j].token.Some? && job.token == rows[j].token && job.state.Running?
    requires attempt.job == j && attempt.no == job.attemptCount
    ensures TokensOk(rows[j := job], attempts[a := attempt], tokens, issued + {Lease(a, j, job.token.value)})
  {
    assert forall l :: l in issued ==> l.token != rows[j].token.value;
  }

  lemma AddedJobConsistent(c: Core, t': JobTable, id: Id)
    requires Consistent(c) && id !in c.table.rows
    requires TableOk(t') && id in t'.rows && t'.rows == c.table.rows[id := t'.rows[id]]
    requires t'.rows[id].state.Queued? && t'.rows[id].attemptCount == 0
    requires 1 <= t'.rows[id].info.maxAttempts && t'.rows[id].token.None?
    ensures Consistent(c.(table := t'))
  {
    hide TableOk, RunsOk, AttemptsOk, TokensOk;
    AttemptsAdded(c.table.rows, c.attempts, c.attemptAt, id, t'.rows[id]);
    TokensAdded(c.table.rows, c.attempts, c.tokens, c.issued, id, t'.rows[id]);
  }

  lemma AttemptsAdded(rows: map<Id, Job>, attempts: map<Id, Attempt>, at: map<(Id, nat), Id>, j: Id, job: Job)
    requires AttemptsOk(rows, attempts, at) && j !in rows && job.attemptCount == 0
    ensures AttemptsOk(rows[j := job], attempts, at)
  {
  }

  lemma TokensAdded(rows: map<Id, Job>, attempts: map<Id, Attempt>, tokens: set<Id>, issued: set<Lease>, j: Id,
                    job: Job)
    requires TokensOk(rows, attempts, tokens, issued) && j !in rows && job.token.None?
    ensures TokensOk(rows[j := job], attempts, tokens, issued)
  {
  }

  lemma EnqueueConsistent(c: Core, a: EnqueueArgs, id: Id, instance: Id)
    requires Consistent(c) && id !in c.table.rows
    requires a.trigger.Manual? && a.instance.None? ==> FreshInstance(c.table, a, instance)
    ensures Consistent(c.(table := Enqueue(c.table, a, id, instance).0))
    ensures Keeps(c.table, Enqueue(c.table, a, id, instance).0)
  {
    hide RowsOk, AttemptsOk, RunsOk, TokensOk;
    EnqueueSound(c.table, a, id, instance);
    var (t', r) := Enqueue(c.table, a, id, instance);
    if r.Ok? && r.value.disposition.Accepted? {
      AddedJobConsistent(c, t', id);
    }
  }

  lemma EnqueueDeliveryConsistent(c: Core, body: string, trigger: Trigger, at: Time, id: Id)
    requires Consistent(c) && id !in c.table.rows
    ensures Consistent(c.(table := EnqueueDelivery(c.table, body, trigger, at, id).0))
    ensures Keeps(c.table, EnqueueDelivery(c.table, body, trigger, at, id).0)
  {
    hide RowsOk, AttemptsOk, RunsOk, TokensOk;
    var (t', r) := EnqueueDelivery(c.table, body, trigger, at, id);
    if r.Ok? && r.value.disposition.Accepted? {
      InsertKeeps(c.table, id, t'.rows[id]);
      AddedJobConsistent(c, t', id);
    }
  }

  lemma RecoverTable(t: JobTable, t': JobTable, jobs: set<Id>, now: Time)
    requires TableOk(t) && RowsOk(t.rows)
    requires forall j :: j in jobs ==> j in t.rows && Expired(t.rows[j], now)
    requires t'.byKey == t.byKey
    requires t'.rows == map j | j in t.rows :: if j in jobs then RecoverRow(t.rows[j], now) else t.rows[j]
    ensures TableOk(t') && Keeps(t, t') && RowsOk(t'.rows)
  {
    hide TableOk, Keeps, RetryAt, Policy;
    SameInfoTable(t, t');
  }

  /** Rows whose immutable columns are untouched leave the unique index right. */
  lemma SameInfoTable(t: JobTable, t': JobTable)
    requires TableOk(t) && t'.byKey == t.byKey && t'.rows.Keys == t.rows.Keys
    requires forall j :: j in t.rows ==> t'.rows[j].info == t.rows[j].info
    ensures TableOk(t') && Keeps(t, t')
  {
    assert |t'.rows| == |t'.rows.Keys| == |t.rows|;
    assert KeysOk(t') by {
      hide RowidsOk;
      forall j | j in t'.rows
        ensures t'.rows[j].info.key in t'.byKey && t'.byKey[t'.rows[j].info.key] == j
      {
        assert t.rows[j].info == t'.rows[j].info;
      }
    }
  }

  lemma RecoverSetConsistent(c: Core, jobs: set<Id>, now: Time)
    requires Consistent(c)
    requires forall j :: j in jobs ==> j in c.table.rows && Expired(c.table.rows[j], now)
    ensures Consistent(RecoverSet(c, jobs, now))
    ensures Keeps(c.table, RecoverSet(c, jobs, now).table)
  {
    hide TableOk, Keeps, RowsOk, AttemptsOk, RunsOk, TokensOk;
    RecoverTable(c.table, RecoverSet(c, jobs, now).table, jobs, now);
    RecoverAttempts(c, jobs, now);
    RecoverRuns(c, jobs, now);
    RecoverTokens(c, jobs, now);
  }

  lemma RecoverAttempts(c: Core, jobs: set<Id>, now: Time)
    requires AttemptsOk(c.table.rows, c.attempts, c.attemptAt)
    ensures var c' := RecoverSet(c, jobs, now); AttemptsOk(c'.table.rows, c'.attempts, c'.attemptAt)
  {
    hide AttemptsOk, RetryAt, Policy;
    var c' := RecoverSet(c, jobs, now);
    AttemptsOfRecovered(c.table.rows, c'.table.rows, c.attempts, c'.attempts, c.attemptAt, jobs);
  }

  lemma AttemptsOfRecovered(rows: map<Id, Job>, rows': map<Id, Job>, attempts: map<Id, Attempt>,
                            attempts': map<Id, Attempt>, at: map<(Id, nat), Id>, jobs: set<Id>)
    requires AttemptsOk(rows, attempts, at) && rows'.Keys == rows.Keys && attempts'.Keys == attempts.Keys
    requires forall j :: j in rows ==> rows'[j].attemptCount == rows[j].attemptCount
                                       && (rows'[j].state.Running? <==> rows[j].state.Running? && j !in jobs)
    requires forall a :: a in attempts ==> attempts'[a] == FailAttempt(attempts[a], jobs)
    ensures AttemptsOk(rows', attempts', at)
  {
    forall a | a in attempts'
      ensures AttemptOk(rows', at, a, attempts'[a])
    {
      assert AttemptOk(rows, at, a, attempts[a]);
    }
  }

  lemma RecoverRuns(c: Core, jobs: set<Id>, now: Time)
    requires RunsOk(c.attempts, c.runs)
    ensures var c' := RecoverSet(c, jobs, now); RunsOk(c'.attempts, c'.runs)
  {
    hide RecoverRow, Expired;
    var c' := RecoverSet(c, jobs, now);
    forall r | r in c'.runs
      ensures c'.runs[r].attempt in c'.attempts && c'.attempts[c'.runs[r].attempt].job == c'.runs[r].job
              && c'.attempts[c'.runs[r].attempt].status == c'.runs[r].status
    {
      assert c.attempts[c.runs[r].attempt].status == c.runs[r].status;
    }
  }

  lemma RecoverTokens(c: Core, jobs: set<Id>, now: Time)
    requires TokensOk(c.table.rows, c.attempts, c.tokens, c.issued)
    ensures var c' := RecoverSet(c, jobs, now); TokensOk(c'.table.rows, c'.attempts, c'.tokens, c'.issued)
  {
    var c' := RecoverSet(c, jobs, now);
    TokensOfRecovered(c.table.rows, c'.table.rows, c.attempts, c'.attempts, c.tokens, c.issued, jobs);
  }

  lemma TokensOfRecovered(rows: map<Id, Job>, rows': map<Id, Job>, attempts: map<Id, Attempt>, attempts': map<Id,
                          Attempt>,
                          tokens: set<Id>, issued: set<Lease>, jobs: set<Id>)
    requires TokensOk(rows, attempts, tokens, issued) && SameNumbers(attempts, attempts') && rows'.Keys == rows.Keys
    requires forall j :: j in rows ==> if j in jobs then rows'[j].token.None? else rows'[j] == rows[j]
    ensures TokensOk(rows', attempts', tokens, issued)
  {
  }

  lemma RecoverConsistent(c: Core, now: Time)
    requires Consistent(c)
    ensures Consistent(Recover(c, now)) && Keeps(c.table, Recover(c, now).table)
  {
    RecoverSetConsistent(c, ExpiredJobs(c, now), now);
  }

  lemma ClaimRowConsistent(c: Core, j: Id, now: Time, seconds: int, token: Id)
    requires Consistent(c) && Due(c, j, now) && token !in c.tokens
    ensures Consistent(ClaimRow(c, j, now, seconds, token))
    ensures Keeps(c.table, ClaimRow(c, j, now, seconds, token).table)
  {
    hide TableOk, Keeps, AttemptsOk, RunsOk, TokensOk;
    var job := ClaimRow(c, j, now, seconds, token).table.rows[j];
    RowSet(c.table, j, job);
    AttemptsSame(c.table.rows, c.attempts, c.attemptAt, j, job);
    TokensMinted(c.table.rows, c.attempts, c.tokens, c.issued, j, job);
  }

  lemma ClaimConsistent(c: Core, j: Id, worker: string, now: Time, seconds: int, token: Id)
    requires Consistent(c) && token !in c.tokens
    ensures Consistent(ClaimJob(c, j, worker, now, seconds, token).0)
    ensures Keeps(c.table, ClaimJob(c, j, worker, now, seconds, token).0.table)
  {
    hide Consistent;
    RecoverConsistent(c, now);
    var r := Recover(c, now);
    if ValidLeaseSeconds(seconds) && Due(r, j, now) && worker != "" {
      ClaimRowConsistent(r, j, now, seconds, token);
    }
  }

  lemma BeginConsistent(c: Core, claim: Claim, worker: string, now: Time, attempt: Id)
    requires Consistent(c) && Startable(c, claim, now) && attempt !in c.attempts
    ensures Consistent(BeginAttempt(c, claim, worker, attempt))
    ensures Keeps(c.table, BeginAttempt(c, claim, worker, attempt).table)
  {
    hide TableOk, Keeps, AttemptsOk, TokensOk;
    var c' := BeginAttempt(c, claim, worker, attempt);
    var job := c'.table.rows[claim.job];
    RowSet(c.table, claim.job, job);
    AttemptsBegun(c.table.rows, c.attempts, c.attemptAt, claim.job, job, attempt, worker);
    TokensBegun(c.table.rows, c.attempts, c.tokens, c.issued, claim.job, job, attempt, c'.attempts[attempt]);
    assert RunsOk(c'.attempts, c'.runs) by { hide RowsOk; }
  }

  lemma RunsBegun(attempts: map<Id, Attempt>, runs: map<Id, Run>, run: Id, row: Run, a: Id)
    requires RunsOk(attempts, runs) && run !in runs && a in attempts
    requires row.attempt == a && row.job == attempts[a].job && row.status == attempts[a].status
    requires forall r :: r in runs ==> runs[r].attempt != a
    ensures RunsOk(attempts, runs[run := row])
  {
  }

  lemma StartConsistent(c: Core, claim: Claim, worker: string, now: Time, attempt: Id, run: Id)
    requires Consistent(c) && attempt !in c.attempts && run !in c.runs
    ensures var (c', r) := StartRun(c, claim, worker, now, attempt, run);
            Consistent(c') && Keeps(c.table, c'.table) && (r.Ok? ==> Genuine(c', r.value))
  {
    hide TableOk, Keeps, AttemptsOk, TokensOk, RowsOk;
    var (c', r) := StartRun(c, claim, worker, now, attempt, run);
    if r.Ok? {
      BeginConsistent(c, claim, worker, now, attempt);
      RunsBegun(c'.attempts, c.runs, run, c'.runs[run], attempt);
    } else {
      KeepsSelf(c.table);
    }
  }

  lemma StartSystemConsistent(c: Core, claim: Claim, worker: string, now: Time, attempt: Id)
    requires Consistent(c) && attempt !in c.attempts
    ensures var c' := StartSystem(c, claim, worker, now, attempt).0;
            Consistent(c') && Keeps(c.table, c'.table)
  {
    hide Consistent;
    if StartSystem(c, claim, worker, now, attempt).1.Ok? {
      BeginConsistent(c, claim, worker, now, attempt);
    } else {
      KeepsSelf(c.table);
    }
  }

  lemma HeartbeatConsistent(c: Core, l: Lease, now: Time, seconds: int)
    requires Consistent(c)
    ensures var c' := Heartbeat(c, l, now, seconds).0; Consistent(c') && Keeps(c.table, c'.table)
  {
    hide TableOk, Keeps, AttemptsOk, RunsOk, TokensOk;
    if Heartbeat(c, l, now, seconds).1.Ok? {
      var job := Heartbeat(c, l, now, seconds).0.table.rows[l.job];
      RowSet(c.table, l.job, job);
      AttemptsSame(c.table.rows, c.attempts, c.attemptAt, l.job, job);
      TokensSame(c.table.rows, c.attempts, c.tokens, c.issued, l.job, job);
    } else {
      assert Keeps(c.table, c.table) by { KeepsSelf(c.table); }
    }
  }

  lemma KeepsSelf(t: JobTable)
    ensures Keeps(t, t)
  {
  }

  lemma RunsClosed(attempts: map<Id, Attempt>, runs: map<Id, Run>, r: Id, status: AttemptStatus)
    requires RunsOk(attempts, runs) && r in runs
    ensures var a := runs[r].attempt;
            RunsOk(attempts[a := attempts[a].(status := status)], runs[r := runs[r].(status := status)])
  {
  }

  lemma FinishConsistent(c: Core, h: RunHandle, status: AttemptStatus, retryable: bool, retryAt: Option<Time>,
                         now: Time)
    requires Consistent(c) && Genuine(c, h)
    ensures var c' := FinishRun(c, h, status, retryable, retryAt, now).0;
            Consistent(c') && Keeps(c.table, c'.table)
  {
    hide TableOk, Keeps, AttemptsOk, RunsOk, TokensOk;
    var (c', r) := FinishRun(c, h, status, retryable, retryAt, now);
    if r.Ok? {
      var job := c'.table.rows[h.lease.job];
      RowSet(c.table, h.lease.job, job);
      AttemptsClosed(c.table.rows, c.attempts, c.attemptAt, h.lease.job, job, h.lease.attempt, status);
      RunsClosed(c.attempts, c.runs, h.run, status);
      TokensCleared(c.table.rows, c.attempts, c'.attempts, c.tokens, c.issued, h.lease.job, job);
    } else {
      KeepsSelf(c.table);
    }
  }

  /** A live token names exactly the attempt it was handed out for, and that attempt is running. */
  lemma HeldAttemptRuns(c: Core, l: Lease, now: Time)
    requires Consistent(c) && l in c.issued && Holds(c, l, now)
    ensures l.attempt in c.attempts && c.attempts[l.attempt].job == l.job && c.attempts[l.attempt].status.Running?
  {
    hide TableOk, RowsOk, RunsOk;
    assert AttemptOk(c.table.rows, c.attemptAt, l.attempt, c.attempts[l.attempt]);
  }

  /** The run of a handle that owns its job is still running, so the guards on the run's row never bite. */
  lemma OwnedRunIsRunning(c: Core, h: RunHandle, now: Time)
    requires RunsOk(c.attempts, c.runs) && Genuine(c, h) && Owns(c, h.lease, now)
    ensures RunIsRunning(c, h.run)
  {
  }

  lemma FinishSystemConsistent(c: Core, l: Lease, status: AttemptStatus, now: Time)
    requires Consistent(c) && l in c.issued
    requires forall r :: r in c.runs ==> c.runs[r].attempt != l.attempt
    ensures var c' := FinishSystem(c, l, status, now).0; Consistent(c') && Keeps(c.table, c'.table)
  {
    hide TableOk, Keeps, AttemptsOk, TokensOk;
    var (c', r) := FinishSystem(c, l, status, now);
    if r.Ok? {
      HeldAttemptRuns(c, l, now);
      var job := c'.table.rows[l.job];
      RowSet(c.table, l.job, job);
      AttemptsClosed(c.table.rows, c.attempts, c.attemptAt, l.job, job, l.attempt, status);
      TokensCleared(c.table.rows, c.attempts, c'.attempts, c.tokens, c.issued, l.job, job);
      assert RunsOk(c'.attempts, c'.runs) by { hide RowsOk; }
    } else {
      KeepsSelf(c.table);
    }
  }

  lemma CancelConsistent(c: Core, j: Id)
    requires Consistent(c)
    ensures var c' := Cancel(c, j).0; Consistent(c') && Keeps(c.table, c'.table)
  {
    hide TableOk, Keeps, AttemptsOk, RunsOk, TokensOk;
    var (c', done) := Cancel(c, j);
    if done {
      var job := c'.table.rows[j];
      RowSet(c.table, j, job);
      AttemptsSame(c.table.rows, c.attempts, c.attemptAt, j, job);
      TokensSame(c.table.rows, c.attempts, c.tokens, c.issued, j, job);
    } else {
      KeepsSelf(c.table);
    }
  }

  // ---------------------------------------------------------------- accounting read back

  /** A job is running exactly when it has a running attempt; that attempt is the only one, and it is
      numbered attempt_count. */
  lemma RunningAttempt(c: Core, j: Id, a: Id)
    requires Consistent(c) && j in c.table.rows && a in c.attempts && c.attempts[a].job == j
    ensures c.attempts[a].status.Running? ==>
              c.table.rows[j].state.Running? && a == c.attemptAt[(j, c.table.rows[j].attemptCount)]
    ensures c.table.rows[j].state.Running? ==>
              var newest := (j, c.table.rows[j].attemptCount);
              newest in c.attemptAt && c.attemptAt[newest] in c.attempts
              && c.attempts[c.attemptAt[newest]].status.Running?
  {
    hide TableOk, RunsOk, TokensOk;
    assert AttemptOk(c.table.rows, c.attemptAt, a, c.attempts[a]);
    if c.table.rows[j].state.Running? {
      var newest := (j, c.table.rows[j].attemptCount);
      assert RowOk(c.table.rows[j]) && newest in c.attemptAt;
      assert AttemptOk(c.table.rows, c.attemptAt, c.attemptAt[newest], c.attempts[c.attemptAt[newest]]);
    }
  }

  /** A claimed job always has budget left: the exhausted branches are unreachable. */
  lemma NeverExhausted(c: Core, claim: Claim, worker: string, now: Time, attempt: Id, run: Id)
    requires Consistent(c)
    ensures StartRun(c, claim, worker, now, attempt, run).1 != Err(AttemptsExhausted)
    ensures StartSystem(c, claim, worker, now, attempt).1 != Err(AttemptsExhausted)
  {
    hide TableOk, AttemptsOk, RunsOk, TokensOk;
    if claim.job in c.table.rows {
      assert RowOk(c.table.rows[claim.job]);
    }
  }

  // ---------------------------------------------------------------- what can never be undone

  /** Rows are never deleted; a terminal job, a closed attempt and a closed run never change again. */
  ghost predicate Later(c: Core, c': Core) {
    && (forall j :: j in c.table.rows ==>
          j in c'.table.rows && (Terminal(c.table.rows[j].state) ==> c'.table.rows[j] == c.table.rows[j]))
    && (forall a :: a in c.attempts ==>
          a in c'.attempts && c'.attempts[a].job == c.attempts[a].job && c'.attempts[a].no == c.attempts[a].no
          && (!c.attempts[a].status.Running? ==> c'.attempts[a] == c.attempts[a]))
    && (forall r :: r in c.runs ==>
          r in c'.runs && c'.runs[r].attempt == c.runs[r].attempt && c'.runs[r].lane == c.runs[r].lane
          && (!c.runs[r].status.Running? ==> c'.runs[r] == c.runs[r]))
    && c.tokens <= c'.tokens && c.issued <= c'.issued
  }

  /** A lease that no longer holds its job does not come back. */
  ghost predicate StaysDead(c: Core, c': Core, now: Time) {
    forall l :: l in c.issued && Holds(c', l, now) ==> Holds(c, l, now)
  }

  ghost predicate Progress(c: Core, c': Core, now: Time) {
    Later(c, c') && StaysDead(c, c', now)
  }

  lemma AddedProgress(c: Core, t': JobTable, id: Id, now: Time)
    requires id !in c.table.rows && id in t'.rows && t'.rows == c.table.rows[id := t'.rows[id]]
             && t'.rows[id].state.Queued?
    ensures Progress(c, c.(table := t'), now)
  {
  }

  lemma SameProgress(c: Core, t': JobTable, now: Time)
    requires t' == c.table
    ensures Progress(c, c.(table := t'), now)
  {
  }

  lemma EnqueueProgress(c: Core, a: EnqueueArgs, id: Id, instance: Id, now: Time)
    requires Consistent(c) && id !in c.table.rows
    requires a.trigger.Manual? && a.instance.None? ==> FreshInstance(c.table, a, instance)
    ensures Progress(c, c.(table := Enqueue(c.table, a, id, instance).0), now)
  {
    hide RowsOk, AttemptsOk, RunsOk, TokensOk, Enqueue, Keeps, Progress, RowidsOk, FreshInstance;
    EnqueueSound(c.table, a, id, instance);
    var (t', r) := Enqueue(c.table, a, id, instance);
    if r.Ok? && r.value.disposition.Accepted? {
      AddedProgress(c, t', id, now);
    } else {
      SameProgress(c, t', now);
    }
  }

  lemma RecoverProgress(c: Core, jobs: set<Id>, now: Time)
    requires forall j :: j in jobs ==> j in c.table.rows && Expired(c.table.rows[j], now)
    ensures Progress(c, RecoverSet(c, jobs, now), now)
  {
  }

  lemma ClaimProgress(c: Core, j: Id, now: Time, seconds: int, token: Id)
    requires Due(c, j, now) && token !in c.tokens && TokensOk(c.table.rows, c.attempts, c.tokens, c.issued)
    ensures Progress(c, ClaimRow(c, j, now, seconds, token), now)
  {
  }

  lemma ProgressTransitive(c: Core, c1: Core, c2: Core, now: Time)
    requires Progress(c, c1, now) && Progress(c1, c2, now)
    ensures Progress(c, c2, now)
  {
    assert Later(c, c2) by { hide StaysDead, Holds; }
    assert StaysDead(c, c2, now) by { hide Holds; assert c.issued <= c1.issued; }
  }

  lemma ClaimJobProgress(c: Core, j: Id, worker: string, now: Time, seconds: int, token: Id)
    requires Consistent(c) && token !in c.tokens
    ensures Progress(c, ClaimJob(c, j, worker, now, seconds, token).0, now)
  {
    RecoverProgress(c, ExpiredJobs(c, now), now);
    RecoverConsistent(c, now);
    hide TableOk, Keeps, RowsOk, AttemptsOk, RunsOk, TokensOk, Progress, RecoverSet;
    var r := Recover(c, now);
    if ValidLeaseSeconds(seconds) && Due(r, j, now) && worker != "" {
      ClaimProgress(r, j, now, seconds, token);
      ProgressTransitive(c, r, ClaimRow(r, j, now, seconds, token), now);
    }
  }

  lemma BeginProgress(c: Core, claim: Claim, worker: string, now: Time, attempt: Id, runs': map<Id, Run>)
    requires Startable(c, claim, now) && attempt !in c.attempts
             && TokensOk(c.table.rows, c.attempts, c.tokens, c.issued)
    requires forall r :: r in c.runs ==> r in runs' && runs'[r] == c.runs[r]
    ensures Progress(c, BeginAttempt(c, claim, worker, attempt).(runs := runs'), now)
  {
  }

  lemma HeartbeatProgress(c: Core, l: Lease, now: Time, seconds: int)
    ensures Progress(c, Heartbeat(c, l, now, seconds).0, now)
  {
  }

  /** After a close the job is no longer running, so no lease holds it. */
  lemma CloseProgress(c: Core, j: Id, job: Job, attempt: Id, status: AttemptStatus, runs': map<Id, Run>, now: Time)
    requires j in c.table.rows && c.table.rows[j].state.Running? && !job.state.Running?
    requires forall r :: r in c.runs ==>
               r in runs' && runs'[r].attempt == c.runs[r].attempt && runs'[r].lane == c.runs[r].lane
               && (!c.runs[r].status.Running? ==> runs'[r] == c.runs[r])
    ensures Progress(c, SetJob(c, j, job).(attempts := CloseAttempt(c, attempt, status), runs := runs'), now)
  {
  }

  lemma CancelProgress(c: Core, j: Id, now: Time)
    ensures Progress(c, Cancel(c, j).0, now)
  {
  }
}
