/** The refresh ledger as an object beside the job store: one submission, its two commits, and the
    queries it decides from. */
module RefreshLedger {
  import opened Base
  import opened Jobs
  import opened Refresh
  import Leases
  import J = JobStore

  class RefreshLedger {
    const jobs: J.JobStore
    const day: Time -> int
    // refresh_request and refresh_confirmation, both keyed by request id
    var requests: map<Id, Row>
    var confirmations: map<Id, Confirmation>
    ghost var carried: map<Id, Id>

    ghost function Db(): Refresh.Db
      reads this, jobs
    {
      Refresh.Db(jobs.table, requests, confirmations, carried)
    }

    ghost predicate Valid()
      reads this, jobs
    {
      jobs.Valid() && RefreshOk(Db(), day)
    }

    constructor (store: J.JobStore, days: Time -> int)
      requires store.Valid() && store.table == JobTable(map[], map[])
      ensures Valid() && jobs == store && day == days && Db() == EMPTY_DB
    {
      jobs, day := store, days;
      requests, confirmations, carried := map[], map[], map[];
      new;
      EmptyOk(day);
    }

    /** The ids of the agent jobs that carry `request`. */
    function JobsFor(request: Id): (js: set<Id>)
      reads this, jobs
      requires AgentsComplete(jobs.table)
      ensures js == JobsOf(Agents(jobs.table), request)
    {
      var rows := jobs.table.rows;
      set j | j in rows && IsAgent(rows[j].info) && rows[j].info.key.instance == Some(request)
    }

    /** How many ONSPD agent jobs the London day of `at` already has. */
    function UsedQuota(at: Time): (n: nat)
      reads this, jobs
      requires AgentsComplete(jobs.table)
      ensures n == |JobsInDay(Agents(jobs.table), day, at)|
    {
      var rows := jobs.table.rows;
      var used := set j | j in rows && IsAgent(rows[j].info) && rows[j].info.key.definition.value.datasource == ONSPD
                          && day(rows[j].info.createdAt) == day(at);
      assert used == JobsInDay(Agents(jobs.table), day, at);
      |used|
    }

    /** `ORDER BY submitted_at DESC, request_id DESC LIMIT 1` over the active rows of the cohort. */
    method NewestActiveRow(cohort: string, at: Time) returns (newest: Option<Id>)
      ensures newest.None? ==> forall r :: !ActiveRow(Db(), cohort, at, r)
      ensures newest.Some? ==> NewestRow(Db(), cohort, at, newest.value)
    {
      var active := set r | r in requests && requests[r].cohort == cohort && requests[r].cooldownUntil > at;
      assert forall r :: ActiveRow(Db(), cohort, at, r) ==> r in active;
      if active == {} {
        return None;
      }
      var best :| best in active;
      var todo := active - {best};
      while todo != {}
        invariant todo <= active && best in active - todo
        invariant forall x :: x in active - todo ==>
                    requests[x].submittedAt < requests[best].submittedAt
                    || (requests[x].submittedAt == requests[best].submittedAt && x <= best)
        decreases |todo|
      {
        var x :| x in todo;
        if requests[x].submittedAt > requests[best].submittedAt
           || (requests[x].submittedAt == requests[best].submittedAt && x > best) {
          best := x;
        }
        todo := todo - {x};
      }
      newest := Some(best);
    }

    /** The active jobs of the cohort that no ledger row names. */
    function ActiveOrphans(cohort: string, at: Time): (cs: set<Candidate>)
      reads this, jobs
      requires AgentsComplete(jobs.table)
      ensures forall c :: c in cs <==> FromOrphan(Db(), Agents(jobs.table), cohort, at, c)
    {
      var rows := jobs.table.rows;
      var bound := set r | r in requests :: requests[r].job;
      set j | j in rows && IsAgent(rows[j].info) && j !in bound
              && rows[j].info.key.request.control.Some?
              && rows[j].info.key.request.control.value.cohort == cohort
              && rows[j].info.key.request.control.value.cooldownUntil > at
            :: Candidate(j, rows[j].info.key.request.control.value.submittedAt,
                         rows[j].info.key.request.control.value.cooldownUntil)
    }

    /** `_active_refresh_dedupe`: the newest of the active ledger row and the active orphans. */
    method ActivePrior(cohort: string, at: Time) returns (prior: Option<Candidate>)
      requires AgentsComplete(jobs.table)
      ensures PriorOk(Db(), Agents(jobs.table), cohort, at, prior)
    {
      hide Agents, FromOrphan;
      var newest := NewestActiveRow(cohort, at);
      var candidates := ActiveOrphans(cohort, at);
      if newest.Some? {
        var row := requests[newest.value];
        candidates := candidates + {Candidate(row.job, row.submittedAt, row.cooldownUntil)};
      }
      assert forall c :: FromLedger(Db(), cohort, at, c) ==> newest.Some? && c in candidates;
      assert forall c :: c in candidates ==>
               FromLedger(Db(), cohort, at, c) || FromOrphan(Db(), Agents(jobs.table), cohort, at, c);
      hide NewestRow, FromLedger;
      prior := Newest(candidates);
      PriorFound(Db(), Agents(jobs.table), cohort, at, candidates, newest, prior);
    }

    /** The confirmation gate that a submission without prior meets before it may create a job. */
    method ConfirmQuota(s: Submission, newToken: Id) returns (plan: Plan)
      requires AgentsComplete(jobs.table)
      ensures plan == Quota(Db(), Agents(jobs.table), s, day, newToken)
    {
      if s.definition.datasource != ONSPD {
        return Create;
      }
      if UsedQuota(s.at) < DAILY_LIMIT {
        return if s.token.Some? then Refuse(ConfirmationError) else Create;
      }
      if s.token.None? {
        if s.request !in confirmations {
          return Challenge(Confirmation(newToken, s.principal, s.fingerprint, s.definition, s.at,
                                        s.at + CONFIRMATION_TTL));
        }
        return if confirmations[s.request].expiresAt <= s.at then Refuse(ConfirmationError)
               else Challenge(confirmations[s.request]);
      }
      if s.request !in confirmations || confirmations[s.request].token != s.token.value
         || confirmations[s.request].expiresAt <= s.at {
        return Refuse(ConfirmationError);
      }
      plan := Create;
    }

    /** Everything a submission reads before it writes. */
    method Decide(s: Submission, newToken: Id) returns (plan: Plan, ghost prior: Option<Candidate>)
      requires AgentsComplete(jobs.table) && OneJobEach(Agents(jobs.table))
      ensures PriorOk(Db(), Agents(jobs.table), s.cohort, s.at, prior)
      ensures plan == Route(Db(), s, day, prior, newToken)
    {
      hide PriorOk, AgentsComplete, JobsOf, OneJobEach, Quota;
      var active := ActivePrior(s.cohort, s.at);
      prior := active;
      if s.profile == "" {
        return Refuse(InvalidArgument), prior;
      }
      if s.token.Some? && s.definition.datasource != ONSPD {
        return Refuse(ConfirmationError), prior;
      }
      if s.cooldownUntil < s.at {
        return Refuse(InvalidArgument), prior;
      }
      if s.request in requests {
        var row := requests[s.request];
        var e := CheckIdentity(s, row.principal, row.fingerprint);
        return if e.Some? then Refuse(e.value) else Replay(row), prior;
      }
      var pending := PendingError(s);
      if pending.Some? {
        return Refuse(pending.value), prior;
      }
      var found := JobsFor(s.request);
      if |found| > 1 {
        return Refuse(Ambiguous), prior;
      }
      if found != {} {
        var j :| j in found;
        plan := BindRecovered(s, j);
        OnlyElement(found, j);
        return plan, prior;
      }
      if active.Some? {
        return Bind(Row(s.principal, s.fingerprint, s.cohort, active.value.job, Deduplicated, s.at,
                        active.value.cooldownUntil)), prior;
      }
      plan := ConfirmQuota(s, newToken);
    }

    /** The job of a request whose process died before the ledger commit speaks for the request. */
    function BindRecovered(s: Submission, j: Id): (plan: Plan)
      reads this, jobs
      requires AgentsComplete(jobs.table) && j in jobs.table.rows && IsAgent(jobs.table.rows[j].info)
      ensures var control := Agents(jobs.table)[j].control;
              plan == var e := CheckIdentity(s, control.principal, control.fingerprint);
                      if e.Some? then Refuse(e.value)
                      else Bind(Row(s.principal, s.fingerprint, control.cohort, j, Accepted, control.submittedAt,
                                    control.cooldownUntil))
    {
      var control := jobs.table.rows[j].info.key.request.control.value;
      if control.principal != s.principal then Refuse(WrongPrincipal)
      else if control.fingerprint != s.fingerprint then Refuse(ReplayMismatch)
      else Bind(Row(s.principal, s.fingerprint, control.cohort, j, Accepted, control.submittedAt,
                    control.cooldownUntil))
    }

    function PendingError(s: Submission): (e: Option<Error>)
      reads this, jobs
      ensures e == CheckPending(Db(), s)
    {
      if s.request !in confirmations then None
      else
        var c := confirmations[s.request];
        if c.principal != s.principal then Some(WrongPrincipal)
        else if c.fingerprint != s.fingerprint then Some(ReplayMismatch)
        else if c.definition.datasource != s.definition.datasource || c.definition.version != s.definition.version
        then Some(ReplayMismatch)
        else None
    }

    /** `submit_agent_refresh`. The two commits are separate: when `dies` is set the process is killed
        between the job commit and the ledger commit. */
    method Submit(s: Submission, job: Id, newToken: Id, dies: bool) returns (r: Result<Answer>,
                  ghost prior: Option<Candidate>)
      requires Valid() && job !in jobs.table.rows
      modifies this, jobs
      ensures Valid()
      ensures TableOk(old(jobs.table)) && AgentsComplete(old(jobs.table))
      ensures PriorOk(old(Db()), Agents(old(jobs.table)), s.cohort, s.at, prior)
      ensures (Db(), r) == Refresh.Submit(old(Db()), s, day, prior, job, newToken, dies)
      ensures r != Err(Ambiguous) && r != Err(NotAccepted)
    {
      ghost var before := Db();
      ValidTables(before, jobs.Core(), day);
      hide Leases.Consistent, TableOk, AgentsComplete, OneJobEach, RefreshOk, Route, Carry, CreateJob, PriorOk,
           Agents, Enqueue;
      var plan;
      plan, prior := Decide(s, newToken);
      SubmitKeepsRefreshOk(before, s, day, prior, job, newToken, dies);
      CreateIsAccepted(before, s, day, prior, job, newToken);
      r := CarryOut(s, plan, job, dies);
    }

    method CarryOut(s: Submission, plan: Plan, job: Id, dies: bool) returns (r: Result<Answer>)
      requires jobs.Valid() && TableOk(jobs.table) && job !in jobs.table.rows
      requires plan.Create? ==> CreateJob(Db(), s, job).1 != Err(NotAccepted)
      modifies this, jobs
      ensures jobs.Valid()
      ensures TableOk(old(jobs.table)) && (Db(), r) == Carry(old(Db()), s, plan, job, dies)
    {
      hide Leases.Consistent, TableOk, CreateJob;
      match plan
      case Refuse(e) => r := Err(e);
      case Replay(row) => r := Ok(RowAnswer(row));
      case Bind(row) =>
        requests := requests[s.request := row];
        r := Ok(RowAnswer(row));
      case Challenge(c) =>
        if s.request !in confirmations {
          confirmations := confirmations[s.request := c];
        }
        r := Ok(ConfirmationRequired(c.token, c.issuedAt, c.expiresAt));
      case Create =>
        r := CreateAndBind(s, job, dies);
    }

    /** The creation: the job commit, then the ledger commit. */
    method CreateAndBind(s: Submission, job: Id, dies: bool) returns (r: Result<Answer>)
      requires jobs.Valid() && TableOk(jobs.table) && job !in jobs.table.rows
      requires CreateJob(Db(), s, job).1 != Err(NotAccepted)
      modifies this, jobs
      ensures jobs.Valid()
      ensures TableOk(old(jobs.table)) && (Db(), r) == Carry(old(Db()), s, Create, job, dies)
    {
      hide Leases.Consistent, TableOk, KeyFor;
      ghost var before := Db();
      EnqueueRefusals(jobs.table, JobArgs(s), job, s.request);
      var queued := jobs.Enqueue(JobArgs(s), job, s.request);
      hide Enqueue;
      if queued.Err? {
        return Err(queued.error);
      }
      if queued.value.disposition.Deduplicated? {
        return Err(NotAccepted);
      }
      if s.token.Some? {
        carried := carried[job := s.token.value];
      }
      r := Ok(Named(job, Accepted, s.at));
      if dies {
        return;
      }
      requests := requests[s.request := Row(s.principal, s.fingerprint, s.cohort, job, Accepted, s.at,
                                            s.cooldownUntil)];
    }
  }

  lemma ValidTables(db: Db, core: Leases.Core, day: Time -> int)
    requires Leases.Consistent(core) && core.table == db.table && RefreshOk(db, day)
    ensures TableOk(db.table) && AgentsComplete(db.table) && OneJobEach(Agents(db.table))
  {
    hide Leases.Consistent, TableOk, AgentsComplete, Agents, OneJobEach, RowsOk, IdentitiesOk, CooldownsOk, QuotaOk;
  }

  lemma CreateIsAccepted(db: Db, s: Submission, day: Time -> int, prior: Option<Candidate>, job: Id, newToken: Id)
    requires TableOk(db.table) && AgentsComplete(db.table)
    ensures Route(db, s, day, prior, newToken).Create? ==> CreateJob(db, s, job).1 != Err(NotAccepted)
  {
    hide TableOk, AgentsComplete, Route, Agents, JobsOf, CreateJob;
    if Route(db, s, day, prior, newToken).Create? {
      RouteCreates(db, s, day, prior, newToken);
      AlwaysAccepted(db, s, job);
    }
  }

  lemma EnqueueRefusals(t: JobTable, a: EnqueueArgs, id: Id, instance: Id)
    requires TableOk(t)
    ensures var (t', r) := Enqueue(t, a, id, instance);
            r.Err? || r.value.disposition.Deduplicated? ==> t' == t
  {
    hide KeyFor, Admissible;
  }

  /** `max(candidates, key=(submitted_at, job_id))` */
  method Newest(candidates: set<Candidate>) returns (newest: Option<Candidate>)
    ensures newest.None? <==> candidates == {}
    ensures newest.Some? ==> newest.value in candidates && forall c :: c in candidates ==> NotAfter(c, newest.value)
  {
    var todo := candidates;
    newest := None;
    while todo != {}
      invariant todo <= candidates && (newest.None? ==> todo == candidates)
      invariant newest.Some? ==>
                  newest.value in candidates && forall c :: c in candidates - todo ==> NotAfter(c, newest.value)
      decreases |todo|
    {
      var c :| c in todo;
      assert forall x :: x in candidates - (todo - {c}) ==> x == c || x in candidates - todo;
      if newest.None? || !NotAfter(c, newest.value) {
        newest := Some(c);
      }
      todo := todo - {c};
    }
  }

  /** The candidate read from the newest active ledger row. */
  ghost predicate FromLedger(db: Db, cohort: string, at: Time, c: Candidate) {
    exists r :: NewestRow(db, cohort, at, r)
                && c == Candidate(db.ledger[r].job, db.ledger[r].submittedAt, db.ledger[r].cooldownUntil)
  }

  ghost predicate FromOrphan(db: Db, agents: map<Id, Agent>, cohort: string, at: Time, c: Candidate) {
    Orphan(db, agents, cohort, at, c.job)
    && c == Candidate(c.job, agents[c.job].control.submittedAt, agents[c.job].control.cooldownUntil)
  }

  predicate NotAfter(a: Candidate, b: Candidate) {
    a.submittedAt < b.submittedAt || (a.submittedAt == b.submittedAt && a.job <= b.job)
  }

  lemma PriorFound(db: Db, agents: map<Id, Agent>, cohort: string, at: Time, candidates: set<Candidate>,
                   newest: Option<Id>, prior: Option<Candidate>)
    requires newest.None? ==> forall r :: !ActiveRow(db, cohort, at, r)
    requires newest.Some? ==> candidates != {}
    requires forall c :: c in candidates <==> FromLedger(db, cohort, at, c) || FromOrphan(db, agents, cohort, at, c)
    requires prior.None? <==> candidates == {}
    requires prior.Some? ==> prior.value in candidates && forall c :: c in candidates ==> NotAfter(c, prior.value)
    ensures PriorOk(db, agents, cohort, at, prior)
  {
    assert forall c :: IsCandidate(db, agents, cohort, at, c) <==> c in candidates by {
      forall c
        ensures IsCandidate(db, agents, cohort, at, c) <==>
                  FromLedger(db, cohort, at, c) || FromOrphan(db, agents, cohort, at, c)
      {
      }
    }
    if prior.None? {
      forall j
        ensures !Orphan(db, agents, cohort, at, j)
      {
        if Orphan(db, agents, cohort, at, j) {
          assert FromOrphan(db, agents, cohort, at,
                            Candidate(j, agents[j].control.submittedAt, agents[j].control.cooldownUntil));
        }
      }
    }
  }
}
