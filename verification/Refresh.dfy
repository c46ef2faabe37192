/** The agent-refresh ledger: binding each request id to one durable job, sharing cooldowns between
    requests of one cohort, and the daily ONSPD quota with its second confirmation. */
module Refresh {
  import opened Base
  import opened Jobs

  const ONSPD := "ons.onspd.postcode"
  const DAILY_LIMIT := 20
  const CONFIRMATION_TTL: Time := 600 * SECOND

  /** A row of `refresh_request`. */
  datatype Row = Row(
    principal: string, fingerprint: string, cohort: string, job: Id, disposition: Disposition,
    submittedAt: Time, cooldownUntil: Time)

  /** A row of `refresh_confirmation`. */
  datatype Confirmation = Confirmation(
    token: Id, principal: string, fingerprint: string, definition: Definition, issuedAt: Time, expiresAt: Time)

  /** What the ledger reads of an agent job: its immutable columns. */
  datatype Agent = Agent(rowid: nat, request: Id, control: Control, onspd: bool, createdAt: Time)

  /** The job table, the two append-only ledgers keyed by request id, and, for the statements only,
      the confirmation token that the submission of each job carried. */
  datatype Db = Db(
    table: JobTable, ledger: map<Id, Row>, confirmations: map<Id, Confirmation>, carried: map<Id, Id>)

  datatype Submission = Submission(
    request: Id, principal: string, fingerprint: string, cohort: string, definition: Definition,
    profile: string, lane: Lane, body: string, at: Time, cooldownUntil: Time, token: Option<Id>)

  datatype Answer =
    | Named(job: Id, disposition: Disposition, submittedAt: Time)
    | ConfirmationRequired(token: Id, issuedAt: Time, expiresAt: Time)

  // ---------------------------------------------------------------- queries

  predicate IsAgent(info: JobInfo) {
    info.key.trigger.AgentRequest?
  }

  /** Every agent job carries its request id, its definition and its refresh control. */
  ghost predicate AgentsComplete(t: JobTable) {
    forall j :: j in t.rows && IsAgent(t.rows[j].info) ==>
      var key := t.rows[j].info.key;
      key.instance.Some? && key.definition.Some? && key.request.control.Some?
  }

  function AgentOf(info: JobInfo): Agent
    requires info.key.instance.Some? && info.key.definition.Some? && info.key.request.control.Some?
  {
    Agent(info.rowid, info.key.instance.value, info.key.request.control.value,
          info.key.definition.value.datasource == ONSPD, info.createdAt)
  }

  function Agents(t: JobTable): map<Id, Agent>
    requires AgentsComplete(t)
  {
    map j | j in t.rows && IsAgent(t.rows[j].info) :: AgentOf(t.rows[j].info)
  }

  /** `_refresh_job_by_request_id` */
  function JobsOf(agents: map<Id, Agent>, request: Id): set<Id> {
    set j | j in agents && agents[j].request == request
  }

  /** `_refresh_jobs_in_london_day`; `day` maps an instant to its London calendar day. */
  function JobsInDay(agents: map<Id, Agent>, day: Time -> int, at: Time): set<Id> {
    set j | j in agents && agents[j].onspd && day(agents[j].createdAt) == day(at)
  }

  datatype Candidate = Candidate(job: Id, submittedAt: Time, cooldownUntil: Time)

  predicate ActiveRow(db: Db, cohort: string, at: Time, r: Id) {
    r in db.ledger && db.ledger[r].cohort == cohort && db.ledger[r].cooldownUntil > at
  }

  /** The ledger row that `ORDER BY submitted_at DESC, request_id DESC LIMIT 1` returns. */
  ghost predicate NewestRow(db: Db, cohort: string, at: Time, r: Id) {
    && ActiveRow(db, cohort, at, r)
    && (forall x: Id :: ActiveRow(db, cohort, at, x) ==>
          db.ledger[x].submittedAt < db.ledger[r].submittedAt
          || (db.ledger[x].submittedAt == db.ledger[r].submittedAt && x <= r))
  }

  /** An agent job without a ledger row: its process died between the two commits. */
  ghost predicate Orphan(db: Db, agents: map<Id, Agent>, cohort: string, at: Time, j: Id) {
    && j in agents
    && (forall r :: r in db.ledger ==> db.ledger[r].job != j)
    && agents[j].control.cohort == cohort
    && agents[j].control.cooldownUntil > at
  }

  ghost predicate IsCandidate(db: Db, agents: map<Id, Agent>, cohort: string, at: Time, c: Candidate) {
    || (exists r :: NewestRow(db, cohort, at, r)
                    && c == Candidate(db.ledger[r].job, db.ledger[r].submittedAt, db.ledger[r].cooldownUntil))
    || (Orphan(db, agents, cohort, at, c.job)
        && c == Candidate(c.job, agents[c.job].control.submittedAt, agents[c.job].control.cooldownUntil))
  }

  /** What `_active_refresh_dedupe` returns: nothing when neither an active ledger row nor an active
      orphan exists, otherwise the newest candidate. */
  ghost predicate PriorOk(db: Db, agents: map<Id, Agent>, cohort: string, at: Time, prior: Option<Candidate>) {
    match prior
    case None =>
      && (forall r :: !ActiveRow(db, cohort, at, r))
      && (forall j :: !Orphan(db, agents, cohort, at, j))
    case Some(c) =>
      && IsCandidate(db, agents, cohort, at, c)
      && (forall x :: IsCandidate(db, agents, cohort, at, x) ==>
            x.submittedAt < c.submittedAt || (x.submittedAt == c.submittedAt && x.job <= c.job))
  }

  // ---------------------------------------------------------------- submit_agent_refresh

  /** What a submission is going to do, decided before it writes anything. */
  datatype Plan =
    | Refuse(error: Error)
    | Replay(row: Row)
    | Bind(row: Row)
    | Challenge(confirmation: Confirmation)
    | Create

  function CheckIdentity(s: Submission, principal: string, fingerprint: string): Option<Error> {
    if s.principal != principal then Some(WrongPrincipal)
    else if s.fingerprint != fingerprint then Some(ReplayMismatch)
    else None
  }

  function CheckPending(db: Db, s: Submission): Option<Error> {
    if s.request !in db.confirmations then None
    else
      var c := db.confirmations[s.request];
      var e := CheckIdentity(s, c.principal, c.fingerprint);
      if e.Some? then e
      else if s.definition.datasource != c.definition.datasource || s.definition.version != c.definition.version
      then Some(ReplayMismatch) else None
  }

  /** `_onspd_refresh_confirmation`, with the fresh token a new confirmation would get. */
  function Quota(db: Db, agents: map<Id, Agent>, s: Submission, day: Time -> int, newToken: Id): Plan {
    if s.definition.datasource != ONSPD then Create
    else if |JobsInDay(agents, day, s.at)| < DAILY_LIMIT then
      if s.token.Some? then Refuse(ConfirmationError) else Create
    else if s.token.None? then
      if s.request !in db.confirmations then
        Challenge(Confirmation(newToken, s.principal, s.fingerprint, s.definition, s.at, s.at + CONFIRMATION_TTL))
      else if db.confirmations[s.request].expiresAt <= s.at then Refuse(ConfirmationError)
      else Challenge(db.confirmations[s.request])
    else if s.request !in db.confirmations then Refuse(ConfirmationError)
    else if db.confirmations[s.request].token != s.token.value then Refuse(ConfirmationError)
    else if db.confirmations[s.request].expiresAt <= s.at then Refuse(ConfirmationError)
    else Create
  }

  ghost function Route(db: Db, s: Submission, day: Time -> int, prior: Option<Candidate>, newToken: Id): Plan
    requires AgentsComplete(db.table)
  {
    var agents := Agents(db.table);
    if s.profile == "" then Refuse(InvalidArgument)
    else if s.token.Some? && s.definition.datasource != ONSPD then Refuse(ConfirmationError)
    else if s.cooldownUntil < s.at then Refuse(InvalidArgument)
    else if s.request in db.ledger then
      var row := db.ledger[s.request];
      var e := CheckIdentity(s, row.principal, row.fingerprint);
      if e.Some? then Refuse(e.value) else Replay(row)
    else if CheckPending(db, s).Some? then Refuse(CheckPending(db, s).value)
    else if |JobsOf(agents, s.request)| > 1 then Refuse(Ambiguous)
    else if JobsOf(agents, s.request) != {} then
      var j :| j in JobsOf(agents, s.request);
      var control := agents[j].control;
      var e := CheckIdentity(s, control.principal, control.fingerprint);
      if e.Some? then Refuse(e.value)
      else Bind(Row(s.principal, s.fingerprint, control.cohort, j, Accepted, control.submittedAt,
                    control.cooldownUntil))
    else if prior.Some? then
      Bind(Row(s.principal, s.fingerprint, s.cohort, prior.value.job, Deduplicated, s.at, prior.value.cooldownUntil))
    else Quota(db, agents, s, day, newToken)
  }

  function JobArgs(s: Submission): EnqueueArgs {
    EnqueueArgs(s.definition,
                Request(s.body, None, Some(Control(s.principal, s.fingerprint, s.cohort, s.at, s.cooldownUntil))),
                AgentRequest, Some(s.lane), 100, s.at, Some(s.request), None, None, 0, None, None)
  }

  /** The first commit of a creation: the job alone. */
  ghost function CreateJob(db: Db, s: Submission, job: Id): (Db, Result<()>)
    requires TableOk(db.table)
  {
    var (table', r) := Enqueue(db.table, JobArgs(s), job, s.request);
    match r
    case Err(e) => (db, Err(e))
    case Ok(enqueued) =>
      if enqueued.disposition.Deduplicated? then (db, Err(NotAccepted))
      else (db.(table := table', carried := if s.token.Some? then db.carried[job := s.token.value] else db.carried),
            Ok(()))
  }

  function Insert(db: Db, request: Id, row: Row): Db {
    db.(ledger := db.ledger[request := row])
  }

  /** The ledger row of a request that has its own job. */
  function OwnRow(s: Submission, job: Id): Row {
    Row(s.principal, s.fingerprint, s.cohort, job, Accepted, s.at, s.cooldownUntil)
  }

  function RowAnswer(row: Row): Answer {
    Named(row.job, row.disposition, row.submittedAt)
  }

  /** Carry out a decision. When `dies` is set the process is killed after the job commit of a
      creation and before the ledger commit, so nobody gets an answer. */
  ghost function Carry(db: Db, s: Submission, plan: Plan, job: Id, dies: bool): (Db, Result<Answer>)
    requires TableOk(db.table)
  {
    match plan
    case Refuse(e) => (db, Err(e))
    case Replay(row) => (db, Ok(RowAnswer(row)))
    case Bind(row) => (Insert(db, s.request, row), Ok(RowAnswer(row)))
    case Challenge(c) =>
      (if s.request in db.confirmations then db else db.(confirmations := db.confirmations[s.request := c]),
       Ok(ConfirmationRequired(c.token, c.issuedAt, c.expiresAt)))
    case Create =>
      var (db1, r) := CreateJob(db, s, job);
      if r.Err? then (db, Err(r.error))
      else
        var row := OwnRow(s, job);
        (if dies then db1 else Insert(db1, s.request, row), Ok(RowAnswer(row)))
  }

  /** `submit_agent_refresh` */
  ghost function Submit(db: Db, s: Submission, day: Time -> int, prior: Option<Candidate>, job: Id, newToken: Id,
                        dies: bool)
    : (Db, Result<Answer>)
    requires TableOk(db.table) && AgentsComplete(db.table)
  {
    Carry(db, s, Route(db, s, day, prior, newToken), job, dies)
  }

  // ---------------------------------------------------------------- the invariant

  /** One agent job per request id. */
  ghost predicate OneJobEach(agents: map<Id, Agent>) {
    forall i, j :: i in agents && j in agents && agents[i].request == agents[j].request ==> i == j
  }

  /** Every ledger row names an agent job and carries that job's cohort and cooldown; a request that
      has its own job is bound to it. */
  ghost predicate RowsOk(agents: map<Id, Agent>, ledger: map<Id, Row>) {
    && (forall r :: r in ledger ==>
          ledger[r].job in agents
          && ledger[r].cohort == agents[ledger[r].job].control.cohort
          && ledger[r].cooldownUntil == agents[ledger[r].job].control.cooldownUntil)
    && (forall r, j :: r in ledger && j in agents && agents[j].request == r ==> ledger[r].job == j)
  }

  /** The ledger, the confirmation and the job of one request id agree on who asked for what. */
  ghost predicate IdentitiesOk(agents: map<Id, Agent>, ledger: map<Id, Row>, confirmations: map<Id, Confirmation>) {
    && (forall r :: r in ledger && r in confirmations ==>
          ledger[r].principal == confirmations[r].principal && ledger[r].fingerprint == confirmations[r].fingerprint)
    && (forall j :: j in agents ==> AgentIdentityOk(agents[j], ledger, confirmations))
  }

  predicate AgentIdentityOk(a: Agent, ledger: map<Id, Row>, confirmations: map<Id, Confirmation>) {
    && (a.request in ledger ==>
          a.control.principal == ledger[a.request].principal && a.control.fingerprint == ledger[a.request].fingerprint)
    && (a.request in confirmations ==>
          a.control.principal == confirmations[a.request].principal
          && a.control.fingerprint == confirmations[a.request].fingerprint)
  }

  /** Any two jobs of one cohort are separated by the earlier one's own cooldown. */
  ghost predicate CooldownsOk(agents: map<Id, Agent>) {
    forall i, j :: i in agents && j in agents && agents[i].rowid < agents[j].rowid
                   && agents[i].control.cohort == agents[j].control.cohort ==>
      agents[i].control.cooldownUntil <= agents[j].createdAt
  }

  function EarlierInDay(agents: map<Id, Agent>, day: Time -> int, j: Id): set<Id>
    requires j in agents
  {
    set i | i in agents && agents[i].onspd && day(agents[i].createdAt) == day(agents[j].createdAt)
            && agents[i].rowid < agents[j].rowid
  }

  /** The job's submission carried the unexpired token issued for exactly this request. */
  predicate ConfirmedBy(a: Agent, j: Id, confirmations: map<Id, Confirmation>, carried: map<Id, Id>) {
    && a.request in confirmations && j in carried
    && carried[j] == confirmations[a.request].token
    && a.createdAt < confirmations[a.request].expiresAt
    && a.control.principal == confirmations[a.request].principal
    && a.control.fingerprint == confirmations[a.request].fingerprint
  }

  /** In every London day each ONSPD agent job after the twentieth was confirmed. */
  ghost predicate QuotaOk(agents: map<Id, Agent>, confirmations: map<Id, Confirmation>, carried: map<Id, Id>,
                          day: Time -> int) {
    forall j :: j in agents && agents[j].onspd && |EarlierInDay(agents, day, j)| >= DAILY_LIMIT ==>
      ConfirmedBy(agents[j], j, confirmations, carried)
  }

  ghost predicate RefreshOk(db: Db, day: Time -> int) {
    && TableOk(db.table) && AgentsComplete(db.table)
    && var agents := Agents(db.table);
       && OneJobEach(agents)
       && RowsOk(agents, db.ledger)
       && IdentitiesOk(agents, db.ledger, db.confirmations)
       && CooldownsOk(agents)
       && QuotaOk(agents, db.confirmations, db.carried, day)
  }

  /** What the rest of the store may do to the job table between two submissions. */
  ghost predicate OthersMoved(t: JobTable, t': JobTable) {
    && TableOk(t') && Keeps(t, t')
    && (forall j :: j in t'.rows && j !in t.rows ==> !IsAgent(t'.rows[j].info))
  }

  // ---------------------------------------------------------------- what each step keeps

  lemma AgentsUnmoved(t: JobTable, t': JobTable)
    requires AgentsComplete(t) && OthersMoved(t, t')
    ensures AgentsComplete(t') && Agents(t') == Agents(t)
  {
    hide TableOk;
    forall j | j in t'.rows && IsAgent(t'.rows[j].info)
      ensures j in t.rows && t'.rows[j].info == t.rows[j].info
    {
    }
  }

  /** A job created by a submission is a new agent, younger than all others, that records it. */
  lemma CreatedAgent(db: Db, s: Submission, job: Id)
    requires TableOk(db.table) && AgentsComplete(db.table) && job !in db.table.rows
    ensures var (db', r) := CreateJob(db, s, job);
            && (r.Err? ==> db' == db)
            && (r.Ok? ==>
                  && TableOk(db'.table) && AgentsComplete(db'.table)
                  && Agents(db'.table) == Agents(db.table)[job := NewAgent(db, s)]
                  && (forall j :: j in Agents(db.table) ==> Agents(db.table)[j].rowid < |db.table.rows|)
                  && db'.ledger == db.ledger && db'.confirmations == db.confirmations
                  && db'.carried == if s.token.Some? then db.carried[job := s.token.value] else db.carried)
  {
    hide KeysOk, RowidsOk, Keeps, Agents, AgentsComplete, AgentOf;
    EnqueueSound(db.table, JobArgs(s), job, s.request);
    var (db', r) := CreateJob(db, s, job);
    AgentRowids(db.table);
    if r.Ok? {
      AgentRecords(db, s, job);
      AddedAgent(db.table, db'.table, job);
    }
  }

  /** The row that a creation inserts records the submission. */
  lemma AgentRecords(db: Db, s: Submission, job: Id)
    requires TableOk(db.table) && CreateJob(db, s, job).1.Ok?
    ensures var t' := CreateJob(db, s, job).0.table;
            && job in t'.rows && IsAgent(t'.rows[job].info)
            && t'.rows[job].info.key.instance.Some? && t'.rows[job].info.key.definition.Some?
               && t'.rows[job].info.key.request.control.Some?
            && AgentOf(t'.rows[job].info) == NewAgent(db, s)
  {
    hide KeysOk, RowidsOk;
  }

  lemma AgentRowids(t: JobTable)
    requires TableOk(t) && AgentsComplete(t)
    ensures forall j :: j in Agents(t) ==> Agents(t)[j].rowid < |t.rows|
  {
    hide KeysOk;
  }

  lemma AddedAgent(t: JobTable, t': JobTable, job: Id)
    requires AgentsComplete(t) && job !in t.rows && job in t'.rows && t'.rows == t.rows[job := t'.rows[job]]
    requires var info := t'.rows[job].info;
             IsAgent(info) && info.key.instance.Some? && info.key.definition.Some? && info.key.request.control.Some?
    ensures AgentsComplete(t') && Agents(t') == Agents(t)[job := AgentOf(t'.rows[job].info)]
  {
  }

  function NewAgent(db: Db, s: Submission): Agent {
    Agent(|db.table.rows|, s.request, Control(s.principal, s.fingerprint, s.cohort, s.at, s.cooldownUntil),
          s.definition.datasource == ONSPD, s.at)
  }

  /** Each request has at most one job, so the lookup is never ambiguous. */
  lemma NeverAmbiguous(agents: map<Id, Agent>, request: Id)
    requires OneJobEach(agents)
    ensures |JobsOf(agents, request)| <= 1
  {
    var js := JobsOf(agents, request);
    if j :| j in js {
      assert js == {j};
    }
  }

  /** No job carries the dedupe key of a request that has no job yet, so its creation is accepted. */
  lemma AlwaysAccepted(db: Db, s: Submission, job: Id)
    requires TableOk(db.table) && AgentsComplete(db.table) && JobsOf(Agents(db.table), s.request) == {}
    ensures CreateJob(db, s, job).1 != Err(NotAccepted)
  {
    if KeyFor(JobArgs(s), Some(s.request)) in db.table.byKey {
      KeyMeansJob(db, s);
    }
  }

  lemma KeyMeansJob(db: Db, s: Submission)
    requires TableOk(db.table) && AgentsComplete(db.table) && KeyFor(JobArgs(s), Some(s.request)) in db.table.byKey
    ensures JobsOf(Agents(db.table), s.request) != {}
  {
    var key := KeyFor(JobArgs(s), Some(s.request));
    var j := db.table.byKey[key];
    assert db.table.rows[j].info.key == key;
    hide TableOk;
    assert j in JobsOf(Agents(db.table), s.request);
  }

  /** The cohort's cooldown has passed when no prior is found: the ledger speaks for every job it
      names, and the orphan scan for every job it does not. */
  lemma NoPriorNoCooldown(db: Db, agents: map<Id, Agent>, cohort: string, at: Time)
    requires RowsOk(agents, db.ledger) && PriorOk(db, agents, cohort, at, None)
    ensures forall j :: j in agents && agents[j].control.cohort == cohort ==> agents[j].control.cooldownUntil <= at
  {
    forall j | j in agents && agents[j].control.cohort == cohort
      ensures agents[j].control.cooldownUntil <= at
    {
      assert !Orphan(db, agents, cohort, at, j);
      if r :| r in db.ledger && db.ledger[r].job == j {
        assert !ActiveRow(db, cohort, at, r);
      }
    }
  }

  /** A prior always names an agent job of the cohort, with that job's own cooldown. */
  lemma PriorIsAgent(db: Db, agents: map<Id, Agent>, cohort: string, at: Time, c: Candidate)
    requires RowsOk(agents, db.ledger) && IsCandidate(db, agents, cohort, at, c)
    ensures c.job in agents && agents[c.job].control.cohort == cohort
            && agents[c.job].control.cooldownUntil == c.cooldownUntil
  {
  }

  lemma PriorIsCandidate(db: Db, agents: map<Id, Agent>, cohort: string, at: Time, prior: Option<Candidate>)
    requires PriorOk(db, agents, cohort, at, prior) && prior.Some?
    ensures IsCandidate(db, agents, cohort, at, prior.value)
  {
  }

  /** What a `Bind` decision writes fits the jobs it was read from. */
  lemma BindFits(db: Db, s: Submission, day: Time -> int, prior: Option<Candidate>, newToken: Id)
    requires RefreshOk(db, day) && PriorOk(db, Agents(db.table), s.cohort, s.at, prior)
    requires Route(db, s, day, prior, newToken).Bind?
    ensures var row, agents := Route(db, s, day, prior, newToken).row, Agents(db.table);
            && s.request !in db.ledger && CheckPending(db, s).None?
            && row.principal == s.principal && row.fingerprint == s.fingerprint
            && row.job in agents && row.cohort == agents[row.job].control.cohort
            && row.cooldownUntil == agents[row.job].control.cooldownUntil
            && (forall j :: j in agents && agents[j].request == s.request ==>
                  j == row.job && agents[j].control.principal == s.principal
                  && agents[j].control.fingerprint == s.fingerprint)
  {
    hide TableOk, AgentsComplete, CooldownsOk, QuotaOk, IdentitiesOk, Agents, PriorOk, OneJobEach, CheckPending,
         IsCandidate, JobsInDay;
    var agents := Agents(db.table);
    NeverAmbiguous(agents, s.request);
    if JobsOf(agents, s.request) == {} {
      assert forall j :: j in agents ==> (agents[j].request == s.request ==> j in JobsOf(agents, s.request));
      PriorIsCandidate(db, agents, s.cohort, s.at, prior);
      PriorIsAgent(db, agents, s.cohort, s.at, prior.value);
    } else {
      var only :| only in JobsOf(agents, s.request);
      OnlyElement(JobsOf(agents, s.request), only);
      assert forall j :: j in agents && agents[j].request == s.request ==> j in JobsOf(agents, s.request);
    }
  }

  lemma BindKeeps(agents: map<Id, Agent>, ledger: map<Id, Row>, confirmations: map<Id, Confirmation>, r: Id, row: Row)
    requires RowsOk(agents, ledger) && IdentitiesOk(agents, ledger, confirmations)
    requires row.job in agents && row.cohort == agents[row.job].control.cohort
             && row.cooldownUntil == agents[row.job].control.cooldownUntil
    requires r in confirmations ==>
               row.principal == confirmations[r].principal && row.fingerprint == confirmations[r].fingerprint
    requires forall j :: j in agents && agents[j].request == r ==>
               j == row.job && agents[j].control.principal == row.principal
               && agents[j].control.fingerprint == row.fingerprint
    ensures RowsOk(agents, ledger[r := row]) && IdentitiesOk(agents, ledger[r := row], confirmations)
  {
    forall j | j in agents
      ensures AgentIdentityOk(agents[j], ledger[r := row], confirmations)
    {
      assert AgentIdentityOk(agents[j], ledger, confirmations);
    }
  }

  lemma ChallengeKeeps(agents: map<Id, Agent>, ledger: map<Id, Row>, confirmations: map<Id, Confirmation>,
                       carried: map<Id, Id>, day: Time -> int, r: Id, c: Confirmation)
    requires IdentitiesOk(agents, ledger, confirmations) && QuotaOk(agents, confirmations, carried, day)
    requires r !in confirmations && r !in ledger && JobsOf(agents, r) == {}
    ensures IdentitiesOk(agents, ledger, confirmations[r := c]) && QuotaOk(agents, confirmations[r := c], carried, day)
  {
    forall j | j in agents
      ensures agents[j].request != r && AgentIdentityOk(agents[j], ledger, confirmations[r := c])
    {
      assert j !in JobsOf(agents, r);
      assert AgentIdentityOk(agents[j], ledger, confirmations);
    }
  }

  /** Adding the youngest agent keeps the structural facts. */
  lemma CreateKeeps(agents: map<Id, Agent>, ledger: map<Id, Row>, confirmations: map<Id, Confirmation>, job: Id,
                    a: Agent)
    requires OneJobEach(agents) && RowsOk(agents, ledger) && IdentitiesOk(agents, ledger, confirmations)
             && CooldownsOk(agents)
    requires job !in agents && a.request !in ledger && JobsOf(agents, a.request) == {}
    requires forall j :: j in agents ==> agents[j].rowid < a.rowid
    requires forall j :: j in agents && agents[j].control.cohort == a.control.cohort ==>
               agents[j].control.cooldownUntil <= a.createdAt
    requires AgentIdentityOk(a, ledger, confirmations)
    ensures var agents' := agents[job := a];
            OneJobEach(agents') && RowsOk(agents', ledger) && IdentitiesOk(agents', ledger, confirmations)
            && CooldownsOk(agents')
  {
    forall j | j in agents
      ensures agents[j].request != a.request
    {
      assert j !in JobsOf(agents, a.request);
    }
  }

  /** The day's earlier jobs are counted before the new one is created, so the quota decision is
      exactly the one that the finished history shows. */
  lemma CreateQuota(agents: map<Id, Agent>, confirmations: map<Id, Confirmation>, carried: map<Id, Id>,
                    carried': map<Id, Id>,
                    day: Time -> int, job: Id, a: Agent)
    requires QuotaOk(agents, confirmations, carried, day) && job !in agents
    requires forall j :: j in agents ==> agents[j].rowid < a.rowid
    requires forall j :: j in agents && j in carried ==> j in carried' && carried'[j] == carried[j]
    requires a.onspd && |JobsInDay(agents, day, a.createdAt)| >= DAILY_LIMIT ==>
               ConfirmedBy(a, job, confirmations, carried')
    ensures QuotaOk(agents[job := a], confirmations, carried', day)
  {
    var agents' := agents[job := a];
    forall j | j in agents' && agents'[j].onspd && |EarlierInDay(agents', day, j)| >= DAILY_LIMIT
      ensures ConfirmedBy(agents'[j], j, confirmations, carried')
    {
      if j == job {
        assert EarlierInDay(agents', day, j) == JobsInDay(agents, day, a.createdAt);
      } else {
        assert EarlierInDay(agents', day, j) == EarlierInDay(agents, day, j);
      }
    }
  }

  /** What a `Create` decision knows: nothing is recorded about the request, its cohort has cooled down, and
      beyond the quota it carries its own token in time. */
  ghost predicate Creates(db: Db, s: Submission, day: Time -> int)
    requires AgentsComplete(db.table)
  {
    var agents := Agents(db.table);
    && s.request !in db.ledger && CheckPending(db, s).None? && JobsOf(agents, s.request) == {}
    && (forall j :: j in agents && agents[j].control.cohort == s.cohort ==> agents[j].control.cooldownUntil <= s.at)
    && (s.definition.datasource == ONSPD && |JobsInDay(agents, day, s.at)| >= DAILY_LIMIT ==>
          && s.request in db.confirmations && s.token == Some(db.confirmations[s.request].token)
          && s.at < db.confirmations[s.request].expiresAt)
  }

  lemma CreateFits(db: Db, s: Submission, day: Time -> int, prior: Option<Candidate>, newToken: Id)
    requires RefreshOk(db, day) && PriorOk(db, Agents(db.table), s.cohort, s.at, prior)
    requires Route(db, s, day, prior, newToken).Create?
    ensures Creates(db, s, day)
  {
    hide TableOk, AgentsComplete, CooldownsOk, QuotaOk, IdentitiesOk, OneJobEach;
    NoPriorNoCooldown(db, Agents(db.table), s.cohort, s.at);
  }

  lemma CreateKeepsRefreshOk(db: Db, s: Submission, day: Time -> int, prior: Option<Candidate>, job: Id, newToken: Id)
    requires RefreshOk(db, day) && PriorOk(db, Agents(db.table), s.cohort, s.at, prior)
    requires job !in db.table.rows && Route(db, s, day, prior, newToken).Create?
    ensures var (db', r) := CreateJob(db, s, job);
            && RefreshOk(db', day) && r != Err(NotAccepted)
            && (r.Ok? ==> RefreshOk(Insert(db', s.request, OwnRow(s, job)), day))
  {
    hide TableOk, AgentsComplete, Route, Agents, PriorOk, CreateJob, Quota, OneJobEach, RowsOk, CooldownsOk,
         QuotaOk, JobsOf, JobsInDay, IdentitiesOk, CheckPending;
    CreateFits(db, s, day, prior, newToken);
    AlwaysAccepted(db, s, job);
    CreatedAgent(db, s, job);
    AgentsAreRows(db.table);
    var r := CreateJob(db, s, job).1;
    if r.Ok? {
      CreatedKeeps(db, s, day, job);
      CreatedBinds(db, s, day, job);
    }
  }

  /** The table with the new job keeps the invariant. */
  lemma CreatedKeeps(db: Db, s: Submission, day: Time -> int, job: Id)
    requires RefreshOk(db, day) && Creates(db, s, day) && job !in db.table.rows && CreateJob(db, s, job).1.Ok?
    ensures RefreshOk(CreateJob(db, s, job).0, day)
  {
    hide TableOk, AgentsComplete, Agents, CreateJob, OneJobEach, RowsOk, CooldownsOk, QuotaOk, JobsOf, JobsInDay,
         IdentitiesOk;
    var agents, a, db' := Agents(db.table), NewAgent(db, s), CreateJob(db, s, job).0;
    CreatedAgent(db, s, job);
    AgentsAreRows(db.table);
    CreateKeeps(agents, db.ledger, db.confirmations, job, a);
    CreateQuota(agents, db.confirmations, db.carried, db'.carried, day, job, a);
  }

  /** So does binding the request to it. */
  lemma CreatedBinds(db: Db, s: Submission, day: Time -> int, job: Id)
    requires RefreshOk(db, day) && Creates(db, s, day) && job !in db.table.rows && CreateJob(db, s, job).1.Ok?
    requires RefreshOk(CreateJob(db, s, job).0, day)
    ensures RefreshOk(Insert(CreateJob(db, s, job).0, s.request, OwnRow(s, job)), day)
  {
    hide TableOk, AgentsComplete, Agents, CreateJob, OneJobEach, RowsOk, CooldownsOk, QuotaOk, JobsOf, JobsInDay,
         IdentitiesOk;
    var agents, a, db' := Agents(db.table), NewAgent(db, s), CreateJob(db, s, job).0;
    CreatedAgent(db, s, job);
    forall j | j in agents
      ensures agents[j].request != s.request
    {
      NotAJobOf(agents, s.request, j);
    }
    BindKeeps(agents[job := a], db.ledger, db.confirmations, s.request, OwnRow(s, job));
  }

  lemma NotAJobOf(agents: map<Id, Agent>, request: Id, j: Id)
    requires j in agents && JobsOf(agents, request) == {}
    ensures agents[j].request != request
  {
    assert j !in JobsOf(agents, request);
  }

  lemma BindKeepsRefreshOk(db: Db, s: Submission, day: Time -> int, prior: Option<Candidate>, newToken: Id)
    requires RefreshOk(db, day) && PriorOk(db, Agents(db.table), s.cohort, s.at, prior)
    requires Route(db, s, day, prior, newToken).Bind?
    ensures RefreshOk(Insert(db, s.request, Route(db, s, day, prior, newToken).row), day)
  {
    BindFits(db, s, day, prior, newToken);
    var agents, row := Agents(db.table), Route(db, s, day, prior, newToken).row;
    hide Route, PriorOk, TableOk, AgentsComplete, Agents, OneJobEach, CooldownsOk, QuotaOk, RowsOk, IdentitiesOk;
    BindKeeps(agents, db.ledger, db.confirmations, s.request, row);
  }

  lemma ChallengeKeepsRefreshOk(db: Db, s: Submission, day: Time -> int, prior: Option<Candidate>, newToken: Id)
    requires RefreshOk(db, day) && s.request !in db.confirmations && Route(db, s, day, prior, newToken).Challenge?
    ensures var c := Route(db, s, day, prior, newToken).confirmation;
            RefreshOk(db.(confirmations := db.confirmations[s.request := c]), day)
  {
    var agents, c := Agents(db.table), Route(db, s, day, prior, newToken).confirmation;
    assert s.request !in db.ledger && JobsOf(agents, s.request) == {} by {
      hide RefreshOk, Quota;
    }
    hide Route, TableOk, AgentsComplete, Agents, OneJobEach, CooldownsOk, RowsOk, IdentitiesOk, QuotaOk, JobsOf;
    ChallengeKeeps(agents, db.ledger, db.confirmations, db.carried, day, s.request, c);
  }

  /** The routing refuses a submission as ambiguous only if one request had two jobs. */
  lemma RefusalsAreReal(db: Db, s: Submission, day: Time -> int, prior: Option<Candidate>, newToken: Id)
    requires AgentsComplete(db.table) && |JobsOf(Agents(db.table), s.request)| <= 1
    ensures Route(db, s, day, prior, newToken) != Refuse(Ambiguous)
    ensures Route(db, s, day, prior, newToken) != Refuse(NotAccepted)
  {
  }

  lemma SubmitErrors(db: Db, s: Submission, day: Time -> int, prior: Option<Candidate>, job: Id, newToken: Id,
                     dies: bool)
    requires TableOk(db.table) && AgentsComplete(db.table) && OneJobEach(Agents(db.table))
    ensures var r := Submit(db, s, day, prior, job, newToken, dies).1; r != Err(Ambiguous) && r != Err(NotAccepted)
  {
    NeverAmbiguous(Agents(db.table), s.request);
    RefusalsAreReal(db, s, day, prior, newToken);
    if Route(db, s, day, prior, newToken).Create? {
      RouteCreates(db, s, day, prior, newToken);
      AlwaysAccepted(db, s, job);
      CreateErrors(db, s, job);
    }
    hide Route, Agents, JobsOf, CreateJob, TableOk, AgentsComplete, OneJobEach;
  }

  lemma RouteCreates(db: Db, s: Submission, day: Time -> int, prior: Option<Candidate>, newToken: Id)
    requires AgentsComplete(db.table) && Route(db, s, day, prior, newToken).Create?
    ensures JobsOf(Agents(db.table), s.request) == {}
  {
    hide AgentsComplete, Agents, JobsOf;
  }

  /** Every submission, finished or killed between its two commits, keeps the invariant, and the
      "ambiguous" and "not accepted" branches are unreachable. */
  lemma SubmitKeepsRefreshOk(db: Db, s: Submission, day: Time -> int, prior: Option<Candidate>, job: Id,
                             newToken: Id, dies: bool)
    requires RefreshOk(db, day) && job !in db.table.rows
    requires PriorOk(db, Agents(db.table), s.cohort, s.at, prior)
    ensures var (db', r) := Submit(db, s, day, prior, job, newToken, dies);
            RefreshOk(db', day) && r != Err(Ambiguous) && r != Err(NotAccepted)
  {
    hide TableOk, AgentsComplete, OneJobEach, RowsOk, IdentitiesOk, CooldownsOk, QuotaOk, Route, PriorOk, Agents,
         CreateJob;
    SubmitErrors(db, s, day, prior, job, newToken, dies);
    hide RefreshOk;
    var plan := Route(db, s, day, prior, newToken);
    if plan.Bind? {
      BindKeepsRefreshOk(db, s, day, prior, newToken);
    } else if plan.Challenge? && s.request !in db.confirmations {
      ChallengeKeepsRefreshOk(db, s, day, prior, newToken);
    } else if plan.Create? {
      CreateKeepsRefreshOk(db, s, day, prior, job, newToken);
    }
  }

  lemma CreateErrors(db: Db, s: Submission, job: Id)
    requires TableOk(db.table)
    ensures CreateJob(db, s, job).1 != Err(Ambiguous)
    ensures CreateJob(db, s, job).1.Err? ==> CreateJob(db, s, job).0 == db
  {
  }

  // ---------------------------------------------------------------- whole histories

  datatype Event =
    | Submitted(s: Submission, prior: Option<Candidate>, job: Id, newToken: Id, dies: bool)
    | Others(table: JobTable)

  const EMPTY_DB := Db(JobTable(map[], map[]), map[], map[], map[])

  ghost predicate Next(db: Db, e: Event, day: Time -> int, db': Db) {
    && TableOk(db.table) && AgentsComplete(db.table)
    && match e
       case Submitted(s, prior, job, newToken, dies) =>
         && job !in db.table.rows
         && PriorOk(db, Agents(db.table), s.cohort, s.at, prior)
         && db' == Submit(db, s, day, prior, job, newToken, dies).0
       case Others(table') => OthersMoved(db.table, table') && db' == db.(table := table')
  }

  /** A history: the states between its events, starting from empty tables. */
  ghost predicate History(states: seq<Db>, events: seq<Event>, day: Time -> int) {
    && |states| == |events| + 1
    && states[0] == EMPTY_DB
    && (forall i :: 0 <= i < |events| ==> Next(states[i], events[i], day, states[i + 1]))
  }

  /** Both ledgers are append-only. */
  ghost predicate Grows(db: Db, db': Db) {
    && (forall r :: r in db.ledger ==> r in db'.ledger && db'.ledger[r] == db.ledger[r])
    && (forall r :: r in db.confirmations ==> r in db'.confirmations && db'.confirmations[r] == db.confirmations[r])
  }

  /** A well-formed submission by this principal for this content. */
  predicate AsksAgain(s: Submission, principal: string, fingerprint: string) {
    WellFormed(s) && s.principal == principal && s.fingerprint == fingerprint
  }

  lemma RouteOnLedger(db: Db, s: Submission, day: Time -> int, prior: Option<Candidate>, newToken: Id)
    requires AgentsComplete(db.table) && s.request in db.ledger
    ensures var plan := Route(db, s, day, prior, newToken);
            && (plan.Refuse? || plan == Replay(db.ledger[s.request]))
            && (AsksAgain(s, db.ledger[s.request].principal, db.ledger[s.request].fingerprint) ==> !plan.Refuse?)
  {
  }

  lemma RouteReplays(db: Db, s: Submission, day: Time -> int, prior: Option<Candidate>, newToken: Id)
    requires AgentsComplete(db.table) && Route(db, s, day, prior, newToken).Replay?
    ensures s.request in db.ledger && Route(db, s, day, prior, newToken).row == db.ledger[s.request]
    ensures s.principal == db.ledger[s.request].principal && s.fingerprint == db.ledger[s.request].fingerprint
  {
  }

  lemma CarryGrows(db: Db, s: Submission, plan: Plan, job: Id, dies: bool)
    requires TableOk(db.table) && (s.request in db.ledger ==> !plan.Bind? && !plan.Create?)
    ensures Grows(db, Carry(db, s, plan, job, dies).0)
  {
    hide TableOk, Enqueue;
  }

  lemma SubmitGrows(db: Db, s: Submission, day: Time -> int, prior: Option<Candidate>, job: Id, newToken: Id,
                    dies: bool)
    requires TableOk(db.table) && AgentsComplete(db.table)
    ensures Grows(db, Submit(db, s, day, prior, job, newToken, dies).0)
  {
    hide TableOk, AgentsComplete, Route, Carry, Grows;
    if s.request in db.ledger {
      RouteOnLedger(db, s, day, prior, newToken);
    }
    CarryGrows(db, s, Route(db, s, day, prior, newToken), job, dies);
  }

  lemma NextKeeps(db: Db, e: Event, day: Time -> int, db': Db)
    requires RefreshOk(db, day) && Next(db, e, day, db')
    ensures RefreshOk(db', day) && Grows(db, db')
  {
    hide PriorOk, TableOk, AgentsComplete, Agents, OneJobEach, RowsOk, IdentitiesOk, CooldownsOk, QuotaOk, Submit,
         Keeps;
    match e
    case Submitted(s, prior, job, newToken, dies) =>
      hide RefreshOk, Grows;
      SubmitKeepsRefreshOk(db, s, day, prior, job, newToken, dies);
      SubmitGrows(db, s, day, prior, job, newToken, dies);
    case Others(table') =>
      AgentsUnmoved(db.table, table');
  }

  lemma EmptyOk(day: Time -> int)
    ensures RefreshOk(EMPTY_DB, day)
  {
  }

  /** In every reachable state each request id has at most one job, every ledger row carries its job's
      own cohort and cooldown, jobs of one cohort are separated by the earlier one's cooldown, and
      every ONSPD job after the twentieth of its London day was confirmed. */
  lemma {:induction false} HistoryKeeps(states: seq<Db>, events: seq<Event>, day: Time -> int, k: nat)
    requires History(states, events, day) && k < |states|
    ensures RefreshOk(states[k], day)
  {
    hide RefreshOk, Next;
    if k == 0 {
      EmptyOk(day);
    } else {
      HistoryKeeps(states, events, day, k - 1);
      assert Next(states[k - 1], events[k - 1], day, states[k]);
      NextKeeps(states[k - 1], events[k - 1], day, states[k]);
    }
  }

  /** Ledger rows and confirmations, once written, stay: no request id is ever issued a second
      confirmation token. */
  lemma {:induction false} WrittenOnce(states: seq<Db>, events: seq<Event>, day: Time -> int, i: nat, j: nat)
    requires History(states, events, day) && i <= j < |states|
    ensures Grows(states[i], states[j])
    decreases j - i
  {
    hide RefreshOk, Next, Grows;
    if i < j {
      HistoryKeeps(states, events, day, i);
      NextKeeps(states[i], events[i], day, states[i + 1]);
      WrittenOnce(states, events, day, i + 1, j);
      GrowsTransitive(states[i], states[i + 1], states[j]);
    } else {
      GrowsSelf(states[i]);
    }
  }

  lemma GrowsSelf(db: Db)
    ensures Grows(db, db)
  {
  }

  lemma GrowsTransitive(db: Db, db1: Db, db2: Db)
    requires Grows(db, db1) && Grows(db1, db2)
    ensures Grows(db, db2)
  {
  }

  ghost function AnswerAt(states: seq<Db>, events: seq<Event>, day: Time -> int, i: nat): Result<Answer>
    requires History(states, events, day) && i < |events| && events[i].Submitted?
  {
    var e := events[i];
    assert Next(states[i], e, day, states[i + 1]);
    Submit(states[i], e.s, day, e.prior, e.job, e.newToken, e.dies).1
  }

  /** Exactly once, under crashes and interleaved requests: two answers to one request id that name a
      job name the same job, and it is the only agent job of that request if the request has one. The same
      caller is never refused when it asks again. */
  lemma ExactlyOnce(states: seq<Db>, events: seq<Event>, day: Time -> int, i: nat, j: nat)
    requires History(states, events, day) && i < j < |events|
    requires events[i].Submitted? && events[j].Submitted? && events[i].s.request == events[j].s.request
    requires !events[i].dies && AnswerAt(states, events, day, i).Ok? && AnswerAt(states, events, day, i).value.Named?
    ensures AnswerAt(states, events, day, j).Ok? ==>
              AnswerAt(states, events, day, j).value == AnswerAt(states, events, day, i).value
              && states[j + 1] == states[j]
    ensures AsksAgain(events[j].s, events[i].s.principal, events[i].s.fingerprint) ==>
              AnswerAt(states, events, day, j).Ok?
    ensures RefreshOk(states[j], day)
    ensures JobsOf(Agents(states[j].table), events[i].s.request) <= {AnswerAt(states, events, day, i).value.job}
  {
    var request := events[i].s.request;
    assert Next(states[i], events[i], day, states[i + 1]) && Next(states[j], events[j], day, states[j + 1]);
    assert request in states[i + 1].ledger
           && RowAnswer(states[i + 1].ledger[request]) == AnswerAt(states, events, day, i).value
           && states[i + 1].ledger[request].principal == events[i].s.principal
           && states[i + 1].ledger[request].fingerprint == events[i].s.fingerprint by {
      HistoryKeeps(states, events, day, i);
      AnswerIsRow(states[i], events[i], day, states[i + 1]);
    }
    HistoryKeeps(states, events, day, j);
    assert RowsOk(Agents(states[j].table), states[j].ledger);
    hide RefreshOk, RowsOk, Agents;
    WrittenOnce(states, events, day, i + 1, j);
    ReplayAnswers(states[j], events[j], day, states[j + 1]);
    BoundJob(Agents(states[j].table), states[j].ledger, request);
  }

  lemma BoundJob(agents: map<Id, Agent>, ledger: map<Id, Row>, request: Id)
    requires RowsOk(agents, ledger) && request in ledger
    ensures JobsOf(agents, request) <= {ledger[request].job}
  {
  }

  /** A delivered answer that names a job is the ledger row just written or found. */
  lemma AnswerIsRow(db: Db, e: Event, day: Time -> int, db': Db)
    requires RefreshOk(db, day) && Next(db, e, day, db') && e.Submitted? && !e.dies
    requires var r := Submit(db, e.s, day, e.prior, e.job, e.newToken, e.dies).1; r.Ok? && r.value.Named?
    ensures e.s.request in db'.ledger
    ensures RowAnswer(db'.ledger[e.s.request]) == Submit(db, e.s, day, e.prior, e.job, e.newToken, e.dies).1.value
    ensures db'.ledger[e.s.request].principal == e.s.principal && db'.ledger[e.s.request].fingerprint == e.s.fingerprint
  {
    hide RefreshOk, Route, PriorOk, Agents, TableOk, AgentsComplete, Enqueue;
    if Route(db, e.s, day, e.prior, e.newToken).Replay? {
      RouteReplays(db, e.s, day, e.prior, e.newToken);
    } else if Route(db, e.s, day, e.prior, e.newToken).Bind? {
      BindFits(db, e.s, day, e.prior, e.newToken);
    }
  }

  /** A request with a ledger row is answered from it or refused, and nothing is written. */
  lemma ReplayAnswers(db: Db, e: Event, day: Time -> int, db': Db)
    requires Next(db, e, day, db') && e.Submitted? && e.s.request in db.ledger
    ensures var r := Submit(db, e.s, day, e.prior, e.job, e.newToken, e.dies).1;
            && db' == db && (r.Ok? ==> r.value == RowAnswer(db.ledger[e.s.request]))
            && (AsksAgain(e.s, db.ledger[e.s.request].principal, db.ledger[e.s.request].fingerprint) ==> r.Ok?)
  {
    hide PriorOk, Agents, TableOk, AgentsComplete, CreateJob, Route;
    RouteOnLedger(db, e.s, day, e.prior, e.newToken);
  }

  /** Whoever the ledger, a confirmation or an unfinished job says the request belongs to. */
  ghost predicate BoundTo(db: Db, request: Id, principal: string, fingerprint: string)
    requires AgentsComplete(db.table)
  {
    || (request in db.ledger && db.ledger[request].principal == principal
        && db.ledger[request].fingerprint == fingerprint)
    || (request in db.confirmations && db.confirmations[request].principal == principal
        && db.confirmations[request].fingerprint == fingerprint)
    || (exists j :: j in JobsOf(Agents(db.table), request) && Agents(db.table)[j].control.principal == principal
                    && Agents(db.table)[j].control.fingerprint == fingerprint)
  }

  /** Everything recorded about a request agrees on whose it is. */
  ghost predicate BelongsTo(db: Db, request: Id, principal: string, fingerprint: string)
    requires AgentsComplete(db.table)
  {
    && (request in db.ledger ==>
          db.ledger[request].principal == principal && db.ledger[request].fingerprint == fingerprint)
    && (request in db.confirmations ==>
          db.confirmations[request].principal == principal && db.confirmations[request].fingerprint == fingerprint)
    && (forall j :: j in JobsOf(Agents(db.table), request) ==>
          Agents(db.table)[j].control.principal == principal && Agents(db.table)[j].control.fingerprint == fingerprint)
  }

  lemma BoundBelongs(db: Db, day: Time -> int, request: Id, principal: string, fingerprint: string)
    requires RefreshOk(db, day) && BoundTo(db, request, principal, fingerprint)
    ensures BelongsTo(db, request, principal, fingerprint)
    ensures request in db.ledger || request in db.confirmations || JobsOf(Agents(db.table), request) != {}
  {
    hide TableOk, AgentsComplete, OneJobEach, RowsOk, CooldownsOk, QuotaOk, Agents;
    var agents := Agents(db.table);
    NeverAmbiguous(agents, request);
    forall j | j in JobsOf(agents, request)
      ensures JobsOf(agents, request) == {j} && AgentIdentityOk(agents[j], db.ledger, db.confirmations)
              && agents[j].request == request
    {
      OnlyElement(JobsOf(agents, request), j);
    }
    hide IdentitiesOk, JobsOf;
  }

  lemma RouteForeign(db: Db, s: Submission, day: Time -> int, prior: Option<Candidate>, newToken: Id,
                     principal: string, fingerprint: string)
    requires AgentsComplete(db.table) && BelongsTo(db, s.request, principal, fingerprint)
    requires s.request in db.ledger || s.request in db.confirmations || JobsOf(Agents(db.table), s.request) != {}
    requires s.principal != principal || s.fingerprint != fingerprint
    requires |JobsOf(Agents(db.table), s.request)| <= 1
    ensures Route(db, s, day, prior, newToken).Refuse?
    ensures WellFormed(s) ==>
              Route(db, s, day, prior, newToken) ==
                Refuse(if s.principal != principal then WrongPrincipal else ReplayMismatch)
  {
    hide AgentsComplete, Agents, JobsOf;
  }

  /** A request id reused by another principal, or for other content, is refused and changes nothing,
      even when all that exists is the job of a process that died. */
  lemma ForeignReplayChangesNothing(db: Db, s: Submission, day: Time -> int, prior: Option<Candidate>, job: Id,
                                    newToken: Id, dies: bool, principal: string, fingerprint: string)
    requires RefreshOk(db, day) && BoundTo(db, s.request, principal, fingerprint)
    requires s.principal != principal || s.fingerprint != fingerprint
    ensures var (db', r) := Submit(db, s, day, prior, job, newToken, dies);
            && db' == db && r.Err?
            && (WellFormed(s) ==> r.error == if s.principal != principal then WrongPrincipal else ReplayMismatch)
  {
    BoundBelongs(db, day, s.request, principal, fingerprint);
    NeverAmbiguous(Agents(db.table), s.request);
    RouteForeign(db, s, day, prior, newToken, principal, fingerprint);
    hide RefreshOk, BoundTo, BelongsTo, Route, CreateJob;
  }

  // ---------------------------------------------------------------- what a caller gets

  /** The arguments that every submission checks first. */
  predicate WellFormed(s: Submission) {
    s.profile != "" && s.cooldownUntil >= s.at && (s.token.Some? ==> s.definition.datasource == ONSPD)
  }

  /** Nothing is recorded about the request yet. */
  ghost predicate Unrecorded(db: Db, s: Submission)
    requires AgentsComplete(db.table)
  {
    s.request !in db.ledger && s.request !in db.confirmations && JobsOf(Agents(db.table), s.request) == {}
  }

  /** A new request that finds no active cohort and is within quota gets its own job, bound to it. */
  lemma FreshRequestAccepted(db: Db, s: Submission, day: Time -> int, prior: Option<Candidate>, job: Id, newToken: Id)
    requires RefreshOk(db, day) && job !in db.table.rows && PriorOk(db, Agents(db.table), s.cohort, s.at, prior)
    requires WellFormed(s) && Unrecorded(db, s) && prior.None? && s.token.None? && Admissible(JobArgs(s))
    requires s.definition.datasource == ONSPD ==> |JobsInDay(Agents(db.table), day, s.at)| < DAILY_LIMIT
    ensures var (db', r) := Submit(db, s, day, prior, job, newToken, false);
            && r == Ok(Named(job, Accepted, s.at))
            && db'.ledger == db.ledger[s.request := Row(s.principal, s.fingerprint, s.cohort, job, Accepted, s.at,
                                                        s.cooldownUntil)]
            && db'.confirmations == db.confirmations
            && AgentsComplete(db'.table) && Agents(db'.table) == Agents(db.table)[job := NewAgent(db, s)]
            && job in db'.table.rows && Ordered(db'.table.rows[job], s)
  {
    hide OneJobEach, RowsOk, IdentitiesOk, CooldownsOk, QuotaOk, TableOk, AgentsComplete, PriorOk, Agents,
         CreateJob, JobsOf, JobsInDay, Admissible, Ordered;
    assert Route(db, s, day, prior, newToken) == Create;
    hide Route;
    CreatedWhenAdmissible(db, s, job);
    CreatedRow(db, s, job);
  }

  /** The job is the one the submission ordered: its definition, lane and request, due at once, with the priority
      of on-demand work, and with the submission's own control inside. */
  predicate Ordered(j: Job, s: Submission) {
    && j.state.Queued? && j.attemptCount == 0 && j.availableAt == s.at && j.info.createdAt == s.at
    && j.info.priority == 100 && j.info.key.trigger.AgentRequest? && j.info.key.kind.OnDemandRefresh?
    && j.info.key.definition == Some(s.definition) && j.info.key.lane == Some(s.lane)
    && j.info.key.request.body == s.body && j.info.key.instance == Some(s.request)
    && j.info.key.request.control == Some(Control(s.principal, s.fingerprint, s.cohort, s.at, s.cooldownUntil))
  }

  lemma CreatedRow(db: Db, s: Submission, job: Id)
    requires TableOk(db.table) && CreateJob(db, s, job).1.Ok?
    ensures job in CreateJob(db, s, job).0.table.rows && Ordered(CreateJob(db, s, job).0.table.rows[job], s)
  {
    hide KeysOk, RowidsOk, Admissible;
  }

  /** A malformed submission is refused before anything is read. */
  lemma MalformedRefused(db: Db, s: Submission, day: Time -> int, prior: Option<Candidate>, job: Id, newToken: Id,
                         dies: bool)
    requires TableOk(db.table) && AgentsComplete(db.table) && !WellFormed(s)
    ensures var (db', r) := Submit(db, s, day, prior, job, newToken, dies);
            db' == db && r.Err? && (r.error == InvalidArgument || r.error == ConfirmationError)
  {
    hide TableOk, AgentsComplete, Agents, CreateJob, JobsOf;
  }

  /** The first request beyond the day's twentieth is not refused but challenged: it gets a token of its own that
      lives for ten minutes, on record for exactly this request, and neither a job nor a ledger row is made. */
  lemma FirstChallenge(db: Db, s: Submission, day: Time -> int, prior: Option<Candidate>, job: Id, newToken: Id,
                       dies: bool)
    requires RefreshOk(db, day) && PriorOk(db, Agents(db.table), s.cohort, s.at, prior) && prior.None?
    requires WellFormed(s) && Unrecorded(db, s) && s.token.None? && s.definition.datasource == "ons.onspd.postcode"
    requires |JobsInDay(Agents(db.table), day, s.at)| >= 20
    ensures var (db', r) := Submit(db, s, day, prior, job, newToken, dies);
            && r == Ok(ConfirmationRequired(newToken, s.at, s.at + 600 * SECOND))
            && db'.table == db.table && db'.ledger == db.ledger && db'.carried == db.carried
            && db'.confirmations == db.confirmations[s.request := Confirmation(newToken, s.principal, s.fingerprint,
                                                                               s.definition, s.at, s.at + 600 * SECOND)]
  {
    hide OneJobEach, RowsOk, IdentitiesOk, CooldownsOk, QuotaOk, TableOk, AgentsComplete, PriorOk, Agents,
         CreateJob, JobsOf, JobsInDay;
  }

  /** A token that was never issued for the request lets nobody through, on any day. */
  lemma UnissuedTokenRefused(db: Db, s: Submission, day: Time -> int, prior: Option<Candidate>, job: Id, newToken: Id,
                             dies: bool)
    requires RefreshOk(db, day) && prior.None? && WellFormed(s) && Unrecorded(db, s) && s.token.Some?
    ensures Submit(db, s, day, prior, job, newToken, dies) == (db, Err(ConfirmationError))
  {
    hide OneJobEach, RowsOk, IdentitiesOk, CooldownsOk, QuotaOk, TableOk, AgentsComplete, Agents, CreateJob, JobsOf,
         JobsInDay;
  }

  lemma CreatedWhenAdmissible(db: Db, s: Submission, job: Id)
    requires TableOk(db.table) && AgentsComplete(db.table) && job !in db.table.rows
    requires Admissible(JobArgs(s)) && JobsOf(Agents(db.table), s.request) == {}
    ensures var (db', r) := CreateJob(db, s, job);
            && r.Ok? && TableOk(db'.table) && AgentsComplete(db'.table)
            && Agents(db'.table) == Agents(db.table)[job := NewAgent(db, s)]
            && db'.ledger == db.ledger && db'.confirmations == db.confirmations
  {
    AlwaysAccepted(db, s, job);
    CreatedAgent(db, s, job);
    hide TableOk, AgentsComplete, Agents, JobsOf;
    EnqueueAnswers(db.table, JobArgs(s), job, s.request);
  }

  lemma EnqueueAnswers(t: JobTable, a: EnqueueArgs, id: Id, instance: Id)
    requires TableOk(t) && Admissible(a)
    ensures Enqueue(t, a, id, instance).1.Ok?
  {
    hide KeysOk, RowidsOk, Admissible, KeyFor;
  }

  /** What a submission killed between its two commits left: its job, with the control it was created
      with; and if its request has a ledger row since, it is the row the submission would have written. */
  ghost predicate Left(db: Db, s: Submission, job: Id)
    requires AgentsComplete(db.table)
  {
    && job in Agents(db.table) && Agents(db.table)[job].request == s.request
    && Agents(db.table)[job].control == Control(s.principal, s.fingerprint, s.cohort, s.at, s.cooldownUntil)
    && (s.request in db.ledger ==> db.ledger[s.request] == OwnRow(s, job))
    && CheckPending(db, s).None?
  }

  /** A killed submission leaves its job, and no ledger row. */
  lemma KilledLeaves(db: Db, e: Event, day: Time -> int, db': Db)
    requires RefreshOk(db, day) && Next(db, e, day, db') && e.Submitted? && e.dies
    requires Route(db, e.s, day, e.prior, e.newToken).Create? && Admissible(JobArgs(e.s))
    ensures AgentsComplete(db'.table) && Left(db', e.s, e.job)
  {
    hide PriorOk, Route, OneJobEach, RowsOk, IdentitiesOk, CooldownsOk, QuotaOk, TableOk, AgentsComplete, Agents,
         Admissible, JobsOf, JobsInDay, CreateJob;
    CreateFits(db, e.s, day, e.prior, e.newToken);
    CreatedWhenAdmissible(db, e.s, e.job);
  }

  lemma LeftJobIsOnly(db: Db, day: Time -> int, s: Submission, job: Id)
    requires RefreshOk(db, day) && Left(db, s, job)
    ensures JobsOf(Agents(db.table), s.request) == {job}
  {
    hide TableOk, AgentsComplete, RowsOk, IdentitiesOk, CooldownsOk, QuotaOk, Agents, CheckPending;
    var agents := Agents(db.table);
    assert job in JobsOf(agents, s.request);
    NeverAmbiguous(agents, s.request);
    OnlyElement(JobsOf(agents, s.request), job);
  }

  /** Who asks again for that request is refused, or gets the row; nothing else is decided. */
  lemma RouteOfLeft(db: Db, t: Submission, day: Time -> int, prior: Option<Candidate>, newToken: Id, s: Submission,
                    job: Id)
    requires AgentsComplete(db.table) && Left(db, s, job) && t.request == s.request
    requires JobsOf(Agents(db.table), s.request) == {job}
    ensures var plan := Route(db, t, day, prior, newToken);
            plan.Refuse? || (if s.request in db.ledger then plan == Replay(OwnRow(s, job))
                             else plan == Bind(OwnRow(s, job)))
  {
    hide AgentsComplete, Agents, JobsOf, CheckPending;
    assert |JobsOf(Agents(db.table), s.request)| == 1;
  }

  /** The same caller, asking again for the same content, is not refused. */
  lemma RetryNotRefused(db: Db, t: Submission, day: Time -> int, prior: Option<Candidate>, newToken: Id, s: Submission,
                        job: Id)
    requires AgentsComplete(db.table) && Left(db, s, job) && JobsOf(Agents(db.table), s.request) == {job}
    requires WellFormed(t) && SameCall(s, t)
    ensures !Route(db, t, day, prior, newToken).Refuse?
  {
    hide AgentsComplete, Agents, JobsOf;
    assert |JobsOf(Agents(db.table), s.request)| == 1;
  }

  /** The same request id, by the same principal, for the same content of the same definition. */
  predicate SameCall(s: Submission, t: Submission) {
    && t.request == s.request && t.principal == s.principal && t.fingerprint == s.fingerprint
    && t.definition.datasource == s.definition.datasource && t.definition.version == s.definition.version
  }

  /** A submission of another request touches nothing of this one. */
  lemma CarryElsewhere(db: Db, s: Submission, plan: Plan, job: Id, dies: bool, request: Id)
    requires TableOk(db.table) && AgentsComplete(db.table) && job !in db.table.rows && s.request != request
    ensures var db' := Carry(db, s, plan, job, dies).0;
            && AgentsComplete(db'.table)
            && (forall j :: j in Agents(db.table) ==>
                  j in Agents(db'.table) && Agents(db'.table)[j] == Agents(db.table)[j])
            && (request in db'.ledger <==> request in db.ledger)
            && (request in db.ledger ==> db'.ledger[request] == db.ledger[request])
            && (request in db'.confirmations <==> request in db.confirmations)
            && (request in db.confirmations ==> db'.confirmations[request] == db.confirmations[request])
  {
    hide TableOk, AgentsComplete, Agents, CreateJob;
    AgentsAreRows(db.table);
    if plan.Create? {
      CreatedAgent(db, s, job);
      var (db1, r) := CreateJob(db, s, job);
    }
  }

  lemma AgentsAreRows(t: JobTable)
    requires AgentsComplete(t)
    ensures forall j :: j in Agents(t) ==> j in t.rows
  {
  }

  /** Whatever happens next, what was left stays, or is bound by its own row. */
  lemma LeftStays(db: Db, e: Event, day: Time -> int, db': Db, s: Submission, job: Id)
    requires RefreshOk(db, day) && Next(db, e, day, db') && Left(db, s, job)
    ensures AgentsComplete(db'.table) && Left(db', s, job)
  {
    hide RefreshOk, PriorOk, TableOk, AgentsComplete, Agents, JobsOf, Route, OthersMoved, Carry;
    if e.Others? {
      AgentsUnmoved(db.table, e.table);
    } else if e.s.request == s.request {
      LeftIsBound(db, e, day, db', s, job);
    } else {
      CarryElsewhere(db, e.s, Route(db, e.s, day, e.prior, e.newToken), e.job, e.dies, s.request);
    }
  }

  lemma LeftIsBound(db: Db, e: Event, day: Time -> int, db': Db, s: Submission, job: Id)
    requires RefreshOk(db, day) && Next(db, e, day, db') && Left(db, s, job)
    requires e.Submitted? && e.s.request == s.request
    ensures db'.table == db.table && Left(db', s, job)
  {
    hide RefreshOk, PriorOk, TableOk, AgentsComplete, Agents, JobsOf, Route, CreateJob, CheckPending;
    LeftJobIsOnly(db, day, s, job);
    RouteOfLeft(db, e.s, day, e.prior, e.newToken, s, job);
    SamePending(db, db', s);
  }

  lemma SamePending(db: Db, db': Db, s: Submission)
    ensures db'.confirmations == db.confirmations ==> CheckPending(db', s) == CheckPending(db, s)
  {
  }

  lemma {:induction false} LeftInHistory(states: seq<Db>, events: seq<Event>, day: Time -> int, i: nat, j: nat)
    requires History(states, events, day) && i < j < |states| && events[i].Submitted? && events[i].dies
    requires var e := events[i];
             && AgentsComplete(states[i].table) && Route(states[i], e.s, day, e.prior, e.newToken).Create?
             && Admissible(JobArgs(e.s))
    ensures AgentsComplete(states[j].table) && Left(states[j], events[i].s, events[i].job)
  {
    hide RefreshOk, Route, Admissible, Left, AgentsComplete, Next;
    HistoryKeeps(states, events, day, j - 1);
    if i + 1 == j {
      KilledLeaves(states[i], events[i], day, states[j]);
    } else {
      LeftInHistory(states, events, day, i, j - 1);
      LeftStays(states[j - 1], events[j - 1], day, states[j], events[i].s, events[i].job);
    }
  }

  /** A request whose process was killed between the two commits is made whole by asking again, whatever
      other requests, kills and store operations come in between: every answer it gets names the job that
      was created, with its submission time; the same caller is never refused; and no second job appears. */
  lemma CrashThenRetry(states: seq<Db>, events: seq<Event>, day: Time -> int, i: nat, j: nat)
    requires History(states, events, day) && i < j < |events| && events[i].Submitted? && events[i].dies
    requires var e := events[i];
             && AgentsComplete(states[i].table) && Route(states[i], e.s, day, e.prior, e.newToken).Create?
             && Admissible(JobArgs(e.s))
    requires events[j].Submitted? && events[j].s.request == events[i].s.request
    ensures var s, job, r := events[i].s, events[i].job, AnswerAt(states, events, day, j);
            && (r.Ok? ==> r.value == Named(job, Accepted, s.at))
            && (WellFormed(events[j].s) && SameCall(s, events[j].s) ==> r.Ok?)
            && (r.Ok? ==> s.request in states[j + 1].ledger && states[j + 1].ledger[s.request] == OwnRow(s, job))
            && states[j + 1].table == states[j].table
            && AgentsComplete(states[j].table) && JobsOf(Agents(states[j].table), s.request) == {job}
  {
    LeftInHistory(states, events, day, i, j);
    HistoryKeeps(states, events, day, j);
    var e, s, job := events[j], events[i].s, events[i].job;
    LeftJobIsOnly(states[j], day, s, job);
    assert Next(states[j], e, day, states[j + 1]);
    RouteOfLeft(states[j], e.s, day, e.prior, e.newToken, s, job);
    if WellFormed(e.s) && SameCall(s, e.s) {
      RetryNotRefused(states[j], e.s, day, e.prior, e.newToken, s, job);
    }
    hide RefreshOk, Route, Admissible, AgentsComplete, PriorOk, Agents, JobsOf, TableOk, History, CheckPending;
  }

  lemma NothingPending(db: Db, s: Submission)
    requires s.request !in db.confirmations
    ensures CheckPending(db, s).None?
  {
  }

  /** While a job of the cohort is cooling down, any other new request of the cohort shares a job of that
      cohort that is cooling down: nothing is created, and the shared cooldown is the job's own, not extended.
      If no job was created after the submission's own time, there is only one such job to share. */
  lemma CohortShares(db: Db, s: Submission, day: Time -> int, prior: Option<Candidate>, job: Id, newToken: Id,
                     active: Id)
    requires RefreshOk(db, day) && PriorOk(db, Agents(db.table), s.cohort, s.at, prior)
    requires WellFormed(s) && Unrecorded(db, s)
    requires active in Agents(db.table) && Agents(db.table)[active].control.cohort == s.cohort
             && Agents(db.table)[active].control.cooldownUntil > s.at
    ensures var (db', r) := Submit(db, s, day, prior, job, newToken, false);
            && prior.Some? && r == Ok(Named(prior.value.job, Deduplicated, s.at)) && db'.table == db.table
            && var agents, shared := Agents(db.table), prior.value.job;
               && shared in agents && agents[shared].control.cohort == s.cohort
               && agents[shared].control.cooldownUntil > s.at
               && db'.ledger == db.ledger[s.request := Row(s.principal, s.fingerprint, s.cohort, shared, Deduplicated,
                                                           s.at, agents[shared].control.cooldownUntil)]
               && db'.confirmations == db.confirmations
               && ((forall j :: j in agents ==> agents[j].createdAt <= s.at) ==> shared == active)
               && (forall r :: ActiveRow(db, s.cohort, s.at, r) ==> db.ledger[r].submittedAt <= prior.value.submittedAt)
               && (forall j :: Orphan(db, agents, s.cohort, s.at, j) ==>
                     agents[j].control.submittedAt <= prior.value.submittedAt)
  {
    hide TableOk, AgentsComplete, OneJobEach, RowsOk, IdentitiesOk, CooldownsOk, QuotaOk, PriorOk, Agents, JobsOf,
         CreateJob, IsCandidate, CheckPending;
    var agents := Agents(db.table);
    if prior.None? {
      NoPriorNoCooldown(db, agents, s.cohort, s.at);
    }
    assert prior.Some?;
    PriorIsCandidate(db, agents, s.cohort, s.at, prior);
    PriorIsAgent(db, agents, s.cohort, s.at, prior.value);
    PriorIsActive(db, agents, s.cohort, s.at, prior.value);
    PriorIsNewest(db, agents, s.cohort, s.at, prior.value);
    if forall j :: j in agents ==> agents[j].createdAt <= s.at {
      OneActive(agents, db.table, s.cohort, s.at, prior.value.job, active);
    }
    assert CheckPending(db, s).None? by { NothingPending(db, s); }
  }

  /** Nothing active of the cohort, on the ledger or without a row, was submitted after the prior. */
  lemma PriorIsNewest(db: Db, agents: map<Id, Agent>, cohort: string, at: Time, c: Candidate)
    requires PriorOk(db, agents, cohort, at, Some(c))
    ensures forall r :: ActiveRow(db, cohort, at, r) ==> db.ledger[r].submittedAt <= c.submittedAt
    ensures forall j :: Orphan(db, agents, cohort, at, j) ==> agents[j].control.submittedAt <= c.submittedAt
  {
    forall r | ActiveRow(db, cohort, at, r)
      ensures db.ledger[r].submittedAt <= c.submittedAt
    {
      var all := set x | x in db.ledger && ActiveRow(db, cohort, at, x);
      assert r in all;
      var m := NewestOf(db, all);
      assert NewestRow(db, cohort, at, m) by {
        assert forall x: Id :: ActiveRow(db, cohort, at, x) ==> x in all;
      }
      assert IsCandidate(db, agents, cohort, at,
                         Candidate(db.ledger[m].job, db.ledger[m].submittedAt, db.ledger[m].cooldownUntil));
    }
    forall j | Orphan(db, agents, cohort, at, j)
      ensures agents[j].control.submittedAt <= c.submittedAt
    {
      assert IsCandidate(db, agents, cohort, at,
                         Candidate(j, agents[j].control.submittedAt, agents[j].control.cooldownUntil));
    }
  }

  lemma {:induction false} NewestOf(db: Db, rows: set<Id>) returns (m: Id)
    requires rows != {} && rows <= db.ledger.Keys
    ensures m in rows
    ensures forall x :: x in rows ==>
              db.ledger[x].submittedAt < db.ledger[m].submittedAt
              || (db.ledger[x].submittedAt == db.ledger[m].submittedAt && x <= m)
    decreases |rows|
  {
    m :| m in rows;
    var rest := rows - {m};
    if rest != {} {
      var n := NewestOf(db, rest);
      var later := db.ledger[n].submittedAt > db.ledger[m].submittedAt
                   || (db.ledger[n].submittedAt == db.ledger[m].submittedAt && n > m);
      assert forall x :: x in rows ==> x == m || x in rest;
      if later {
        m := n;
      }
    }
  }

  lemma PriorIsActive(db: Db, agents: map<Id, Agent>, cohort: string, at: Time, c: Candidate)
    requires IsCandidate(db, agents, cohort, at, c)
    ensures c.cooldownUntil > at
  {
  }

  /** Under a clock that did not run backwards a cohort never has two jobs cooling down at once. */
  lemma OneActive(agents: map<Id, Agent>, t: JobTable, cohort: string, at: Time, i: Id, j: Id)
    requires CooldownsOk(agents) && AgentsComplete(t) && agents == Agents(t) && TableOk(t)
    requires forall x :: x in agents ==> agents[x].createdAt <= at
    requires i in agents && agents[i].control.cohort == cohort && agents[i].control.cooldownUntil > at
    requires j in agents && agents[j].control.cohort == cohort && agents[j].control.cooldownUntil > at
    ensures i == j
  {
    assert agents[i].rowid == agents[j].rowid ==> i == j;
  }

  /** Nothing but the quota is left to decide about the submission. */
  ghost predicate Undecided(db: Db, s: Submission, prior: Option<Candidate>)
    requires AgentsComplete(db.table)
  {
    && WellFormed(s) && s.request !in db.ledger && CheckPending(db, s).None?
    && JobsOf(Agents(db.table), s.request) == {} && prior.None?
  }

  lemma QuotaDecides(db: Db, s: Submission, day: Time -> int, prior: Option<Candidate>, newToken: Id)
    requires RefreshOk(db, day)
    ensures var plan := Route(db, s, day, prior, newToken);
            if Undecided(db, s, prior) then plan == Quota(db, Agents(db.table), s, day, newToken)
            else plan.Refuse? || plan.Replay? || plan.Bind?
  {
    hide TableOk, AgentsComplete, OneJobEach, RowsOk, IdentitiesOk, CooldownsOk, QuotaOk, Agents, JobsOf, CheckPending,
         Quota;
  }

  /** An answer that names a job which did not exist before comes from a creation. */
  lemma NewJobIsCreated(db: Db, s: Submission, day: Time -> int, prior: Option<Candidate>, job: Id, newToken: Id)
    requires RefreshOk(db, day) && job !in db.table.rows && PriorOk(db, Agents(db.table), s.cohort, s.at, prior)
    ensures var plan := Route(db, s, day, prior, newToken); plan.Replay? || plan.Bind? ==> plan.row.job != job
  {
    AgentsAreRows(db.table);
    var plan := Route(db, s, day, prior, newToken);
    if plan.Replay? {
      RouteReplays(db, s, day, prior, newToken);
    } else if plan.Bind? {
      BindFits(db, s, day, prior, newToken);
    }
    hide TableOk, AgentsComplete, OneJobEach, IdentitiesOk, CooldownsOk, QuotaOk, Agents, Route, PriorOk;
  }

  /** The condition under which a request with a pending confirmation gets its job: beyond the quota it
      carries the very token, in time; within the quota it carries none. */
  predicate Confirms(c: Confirmation, s: Submission, used: nat) {
    if used >= DAILY_LIMIT then s.token == Some(c.token) && s.at < c.expiresAt else s.token.None?
  }

  /** In every sound state a request with a pending ONSPD confirmation gets a job of its own exactly when
      `Confirms` says so, and is challenged, always with the same token, exactly when it brings none in
      time beyond the quota. */
  lemma ConfirmsExactly(db: Db, s: Submission, day: Time -> int, prior: Option<Candidate>, job: Id, newToken: Id,
                        dies: bool)
    requires RefreshOk(db, day) && job !in db.table.rows && PriorOk(db, Agents(db.table), s.cohort, s.at, prior)
    requires s.request in db.confirmations && db.confirmations[s.request].definition.datasource == ONSPD
    ensures var r, c := Submit(db, s, day, prior, job, newToken, dies).1, db.confirmations[s.request];
            var used := |JobsInDay(Agents(db.table), day, s.at)|;
            && (r == Ok(Named(job, Accepted, s.at)) <==>
                  Undecided(db, s, prior) && Confirms(c, s, used) && Admissible(JobArgs(s)))
            && (r.Ok? && r.value.ConfirmationRequired? <==>
                  Undecided(db, s, prior) && used >= DAILY_LIMIT && s.token.None? && s.at < c.expiresAt)
            && (r.Ok? && r.value.ConfirmationRequired? ==>
                  r.value == ConfirmationRequired(c.token, c.issuedAt, c.expiresAt))
  {
    QuotaDecides(db, s, day, prior, newToken);
    NewJobIsCreated(db, s, day, prior, job, newToken);
    if Undecided(db, s, prior) {
      CreatesExactlyAdmissible(db, s, job);
    }
    hide RefreshOk, PriorOk, AgentsComplete, Agents, JobsOf, JobsInDay, Admissible, Route, TableOk, CreateJob;
  }

  lemma CreatesExactlyAdmissible(db: Db, s: Submission, job: Id)
    requires TableOk(db.table) && AgentsComplete(db.table) && job !in db.table.rows
    requires JobsOf(Agents(db.table), s.request) == {}
    ensures CreateJob(db, s, job).1.Ok? <==> Admissible(JobArgs(s))
  {
    hide TableOk, AgentsComplete, Agents, JobsOf, Admissible;
    if Admissible(JobArgs(s)) {
      CreatedWhenAdmissible(db, s, job);
    }
  }

  /** What a challenge leaves on record. */
  lemma ChallengeRecords(db: Db, e: Event, day: Time -> int, db': Db)
    requires Next(db, e, day, db') && e.Submitted?
    requires var r := Submit(db, e.s, day, e.prior, e.job, e.newToken, e.dies).1; r.Ok? && r.value.ConfirmationRequired?
    ensures e.s.request in db'.confirmations && e.s.definition.datasource == ONSPD && CheckPending(db', e.s).None?
    ensures var c := db'.confirmations[e.s.request];
            && c.definition.datasource == ONSPD
            && Submit(db, e.s, day, e.prior, e.job, e.newToken, e.dies).1.value ==
                 ConfirmationRequired(c.token, c.issuedAt, c.expiresAt)
  {
    hide PriorOk, AgentsComplete, Agents, JobsOf, JobsInDay, TableOk, CreateJob;
  }

  /** The daily confirmation over whole histories: once a request was challenged, whatever happens in
      between, it gets its own job exactly when the same call, with nothing else on record about it, brings
      back that token before it expires, or brings none on a day with room; and any further challenge of
      the request carries the same token. */
  lemma ChallengeThenConfirm(states: seq<Db>, events: seq<Event>, day: Time -> int, i: nat, j: nat)
    requires History(states, events, day) && i < j < |events|
    requires events[i].Submitted? && events[j].Submitted? && events[i].s.request == events[j].s.request
    requires AnswerAt(states, events, day, i).Ok? && AnswerAt(states, events, day, i).value.ConfirmationRequired?
    ensures AgentsComplete(states[j].table)
    ensures var first, answer := AnswerAt(states, events, day, i).value, AnswerAt(states, events, day, j);
            var s := events[j].s;
            var agents := Agents(states[j].table);
            && (answer == Ok(Named(events[j].job, Accepted, s.at)) <==>
                  && WellFormed(s) && SameCall(events[i].s, s) && Admissible(JobArgs(s))
                  && s.request !in states[j].ledger && JobsOf(agents, s.request) == {} && events[j].prior.None?
                  && if |JobsInDay(agents, day, s.at)| >= DAILY_LIMIT
                     then s.token == Some(first.token) && s.at < first.expiresAt
                     else s.token.None?)
            && (answer.Ok? && answer.value.ConfirmationRequired? ==> answer.value == first)
  {
    hide RefreshOk, PriorOk, TableOk, AgentsComplete, Agents, JobsOf, JobsInDay, Admissible, Route, Carry, CheckPending;
    assert Next(states[i], events[i], day, states[i + 1]) && Next(states[j], events[j], day, states[j + 1]);
    HistoryKeeps(states, events, day, j);
    ChallengeRecords(states[i], events[i], day, states[i + 1]);
    WrittenOnce(states, events, day, i + 1, j);
    var e := events[j];
    ConfirmsExactly(states[j], e.s, day, e.prior, e.job, e.newToken, e.dies);
    SameCallPasses(states[i + 1], states[j], events[i].s, e.s);
  }

  lemma SameCallPasses(db: Db, db': Db, s: Submission, t: Submission)
    requires s.request == t.request && s.request in db.confirmations && CheckPending(db, s).None?
    requires s.request in db'.confirmations && db'.confirmations[s.request] == db.confirmations[s.request]
    ensures CheckPending(db', t).None? <==> SameCall(s, t)
  {
  }

  lemma OnlyElement(js: set<Id>, j: Id)
    requires j in js && |js| <= 1
    ensures js == {j}
  {
    assert |js - {j}| == |js| - 1;
  }
}
