/** The `workflow_job` table: its rows, and the creation of jobs without executing them. */
module Jobs {
  import opened Base

  datatype Lane = ProductionIngestion | SourceDiscovery | AdHocResearch

  datatype Trigger = Schedule | AgentRequest | Manual | Backfill | Fanout | Reparse | Promotion | Recovery

  datatype JobKind =
    | ScheduledIngest | OnDemandRefresh | BackfillWindow | OfflineReparse | ManualSubmission
    | ProjectionDelivery

  datatype JobState =
    | Queued | Claimed | Running | RetryWait
    | Succeeded | Empty | Failed | DeadLetter | Cancelled

  predicate Terminal(s: JobState) {
    s in {JobState.Succeeded, JobState.Empty, JobState.Failed, JobState.DeadLetter, JobState.Cancelled}
  }

  predicate Claimable(s: JobState) {
    s.Queued? || s.RetryWait?
  }

  /** The retry settings frozen into a definition; a missing or non-integer field is None. */
  datatype RetryPolicy = RetryPolicy(maxAttempts: Option<int>, base: Option<int>, maximum: Option<int>)

  const NO_POLICY := RetryPolicy(None, None, None)

  function MaxAttempts(p: RetryPolicy): (n: nat)
    ensures 1 <= n <= 20
  {
    match p.maxAttempts
    case Some(n) => if 1 <= n <= 20 then n else 4
    case None => 4
  }

  function Pow2(n: nat): (r: nat)
    ensures r >= 1
  {
    if n == 0 then 1 else 2 * Pow2(n - 1)
  }

  function BaseDelay(p: RetryPolicy): nat {
    match p.base
    case Some(b) => if b < 0 then 60 else b
    case None => 60
  }

  function DelayCap(p: RetryPolicy): nat {
    var cap := match p.maximum case Some(m) => m case None => 3600;
    if cap < BaseDelay(p) then Max(BaseDelay(p), 3600) else cap
  }

  /** Seconds to wait after attempt `attemptNo`: exponential from the base, never above the cap. */
  function RetryDelay(p: RetryPolicy, attemptNo: nat): nat {
    Min(DelayCap(p), BaseDelay(p) * Pow2(Max(0, Min(attemptNo - 1, 16))))
  }

  function RetryAt(now: Time, p: RetryPolicy, attemptNo: nat): Time {
    now + RetryDelay(p, attemptNo) * SECOND
  }

  lemma {:induction false} Pow2Monotone(m: nat, n: nat)
    requires m <= n
    ensures Pow2(m) <= Pow2(n)
    decreases n - m
  {
    if m < n {
      Pow2Monotone(m + 1, n);
    }
  }

  /** Whatever the stored policy says, later attempts wait at least as long, and every wait lies
      between the base delay and the cap. */
  lemma RetryDelayGrows(p: RetryPolicy, m: nat, n: nat)
    requires m <= n
    ensures BaseDelay(p) <= RetryDelay(p, m) <= RetryDelay(p, n) <= DelayCap(p)
  {
    var em, en := Max(0, Min(m - 1, 16)), Max(0, Min(n - 1, 16));
    Pow2Monotone(em, en);
    assert BaseDelay(p) * Pow2(em) <= BaseDelay(p) * Pow2(en) by {
      MulMonotone(BaseDelay(p), Pow2(em), Pow2(en));
    }
    assert BaseDelay(p) * 1 <= BaseDelay(p) * Pow2(em) by {
      MulMonotone(BaseDelay(p), 1, Pow2(em));
    }
  }

  /** The wait starts at the base delay and doubles from attempt to attempt until the cap, or until the seventeenth
      attempt, after which it stays. */
  lemma RetryDelayDoubles(p: RetryPolicy, n: nat)
    ensures RetryDelay(p, 1) == BaseDelay(p)
    ensures 1 <= n <= 16 ==> RetryDelay(p, n + 1) == Min(DelayCap(p), 2 * RetryDelay(p, n))
    ensures n >= 17 ==> RetryDelay(p, n + 1) == RetryDelay(p, n)
  {
    FirstDelay(p);
    hide BaseDelay, DelayCap;
    if 1 <= n <= 16 {
      var base, pow := BaseDelay(p), Pow2(n - 1);
      assert Pow2(n) == 2 * pow;
      hide Pow2;
      MulDouble(base, pow);
      DoubledMin(DelayCap(p), base * pow);
    }
  }

  lemma FirstDelay(p: RetryPolicy)
    ensures RetryDelay(p, 1) == BaseDelay(p)
  {
    assert Pow2(0) == 1;
    assert BaseDelay(p) * 1 == BaseDelay(p);
  }

  /** A policy that names sensible delays gets them; without a policy the delays are one minute, two, four and so
      on, up to an hour. */
  lemma DelaysFromPolicy(p: RetryPolicy)
    ensures p == NO_POLICY ==> BaseDelay(p) == 60 && DelayCap(p) == 3600
    ensures p.base.Some? && p.base.value >= 0 ==> BaseDelay(p) == p.base.value
    ensures p.base.Some? && p.maximum.Some? && 0 <= p.base.value <= p.maximum.value ==> DelayCap(p) == p.maximum.value
  {
  }

  lemma MulDouble(k: nat, a: nat)
    ensures k * (2 * a) == 2 * (k * a)
  {
  }

  lemma DoubledMin(cap: nat, x: nat)
    ensures Min(cap, 2 * Min(cap, x)) == Min(cap, 2 * x)
  {
  }

  lemma MulMonotone(k: nat, a: nat, b: nat)
    requires a <= b
    ensures k * a <= k * b
  {
  }

  /** The frozen definition a job points to; definition rows are never updated or deleted. */
  datatype Definition = Definition(
    datasource: string, version: nat, production: bool, defaultLane: Lane, keyVersion: string,
    fullSnapshot: bool, automaticPromotion: bool, manualReview: bool, retry: RetryPolicy)

  /** The refresh-control metadata persisted inside an agent job's request. */
  datatype Control = Control(
    principal: string, fingerprint: string, cohort: string, submittedAt: Time, cooldownUntil: Time)

  datatype Request = Request(body: string, window: Option<(Time, Time)>, control: Option<Control>)

  /** The preimage of a job's dedupe hash; SHA-256 is taken to be injective on it. */
  datatype DedupeKey = DedupeKey(
    definition: Option<Definition>, lane: Option<Lane>, trigger: Trigger, request: Request,
    scheduledFor: Option<Time>, schedule: Option<Id>, parent: Option<Id>, generation: nat,
    instance: Option<Id>, kind: JobKind, window: Option<(Time, Time)>)

  /** The columns of a job that no later operation changes; `rowid` is the insertion order. */
  datatype JobInfo = JobInfo(
    rowid: nat, key: DedupeKey, scheduledFor: Time, createdAt: Time, priority: int, maxAttempts: nat)

  datatype Job = Job(
    info: JobInfo, state: JobState, attemptCount: nat, availableAt: Time,
    token: Option<Id>, lease: Option<Time>)

  /** The job rows and the unique index on `dedupe_key`. */
  datatype JobTable = JobTable(rows: map<Id, Job>, byKey: map<DedupeKey, Id>)

  datatype EnqueueArgs = EnqueueArgs(
    definition: Definition, request: Request, trigger: Trigger, lane: Option<Lane>, priority: int,
    at: Time, instance: Option<Id>, schedule: Option<Id>, parent: Option<Id>, generation: nat,
    kind: Option<JobKind>, window: Option<(Time, Time)>)

  datatype Disposition = Accepted | Deduplicated

  datatype Enqueued = Enqueued(job: Id, disposition: Disposition, state: JobState)

  function EffectiveKind(a: EnqueueArgs): JobKind {
    match a.kind
    case Some(k) => k
    case None =>
      if a.trigger.Backfill? then BackfillWindow
      else if a.trigger.AgentRequest? then OnDemandRefresh
      else ScheduledIngest
  }

  function EffectiveLane(a: EnqueueArgs): Lane {
    match a.lane case Some(l) => l case None => a.definition.defaultLane
  }

  function KeyFor(a: EnqueueArgs, instance: Option<Id>): DedupeKey {
    DedupeKey(Some(a.definition), Some(EffectiveLane(a)), a.trigger, a.request,
              if a.trigger.Schedule? then Some(a.at) else None,
              a.schedule, a.parent, a.generation, instance, EffectiveKind(a), a.window)
  }

  predicate Admissible(a: EnqueueArgs) {
    && (EffectiveLane(a).ProductionIngestion? ==> a.definition.production)
    && !EffectiveKind(a).ProjectionDelivery?
    && (a.window.Some? ==> a.window.value.0 <= a.window.value.1)
    && (EffectiveKind(a).BackfillWindow? <==> a.window.Some?)
    && (EffectiveKind(a).BackfillWindow? ==> a.request.window == a.window)
  }

  /** A default manual request may start again once the job it names is terminal. */
  predicate ManualRestart(t: JobTable, a: EnqueueArgs)
    requires KeyFor(a, a.instance) in t.byKey && t.byKey[KeyFor(a, a.instance)] in t.rows
  {
    && a.trigger.Manual?
    && a.instance.None?
    && Terminal(t.rows[t.byKey[KeyFor(a, a.instance)]].state)
  }

  function NewJob(t: JobTable, key: DedupeKey, at: Time, priority: int, maxAttempts: nat): Job {
    Job(JobInfo(|t.rows|, key, at, at, priority, maxAttempts), JobState.Queued, 0, at, None, None)
  }

  function Insert(t: JobTable, id: Id, job: Job): (t': JobTable)
  {
    JobTable(t.rows[id := job], t.byKey[job.info.key := id])
  }

  /** The unique index names exactly the row that carries each key. */
  ghost predicate KeysOk(t: JobTable) {
    && (forall j :: j in t.rows ==> t.rows[j].info.key in t.byKey && t.byKey[t.rows[j].info.key] == j)
    && (forall k :: k in t.byKey ==> t.byKey[k] in t.rows && t.rows[t.byKey[k]].info.key == k)
  }

  /** Rowids count insertions. */
  ghost predicate RowidsOk(rows: map<Id, Job>) {
    && (forall j :: j in rows ==> rows[j].info.rowid < |rows|)
    && (forall i, j :: i in rows && j in rows && rows[i].info.rowid == rows[j].info.rowid ==> i == j)
  }

  ghost predicate TableOk(t: JobTable) {
    KeysOk(t) && RowidsOk(t.rows)
  }

  /** The index names rows that exist. */
  predicate IndexSound(t: JobTable) {
    forall k :: k in t.byKey ==> t.byKey[k] in t.rows
  }

  /** `enqueue`: create a job, or answer with the one that the dedupe key already names. `id` and
      `instance` are what `new_id` would return. */
  function Enqueue(t: JobTable, a: EnqueueArgs, id: Id, instance: Id): (JobTable, Result<Enqueued>)
    requires forall k :: k in t.byKey ==> t.byKey[k] in t.rows
  {
    if !Admissible(a) then (t, Err(InvalidArgument))
    else
      var key := KeyFor(a, a.instance);
      if key in t.byKey && !ManualRestart(t, a) then
        (t, Ok(Enqueued(t.byKey[key], Deduplicated, t.rows[t.byKey[key]].state)))
      else
        var used := if key in t.byKey then KeyFor(a, Some(instance)) else key;
        (Insert(t, id, NewJob(t, used, a.at, a.priority, MaxAttempts(a.definition.retry))),
         Ok(Enqueued(id, Accepted, JobState.Queued)))
  }

  /** `enqueue_projection_delivery`: the one kind of job without a datasource. */
  function EnqueueDelivery(t: JobTable, body: string, trigger: Trigger, at: Time, id: Id)
    : (JobTable, Result<Enqueued>)
    requires forall k :: k in t.byKey ==> t.byKey[k] in t.rows
  {
    if !(trigger.Manual? || trigger.Schedule? || trigger.Recovery?) then (t, Err(InvalidArgument))
    else
      var key := DedupeKey(None, None, trigger, Request(body, None, None),
                           if trigger.Schedule? then Some(at) else None,
                           None, None, 0, None, ProjectionDelivery, None);
      if key in t.byKey then
        (t, Ok(Enqueued(t.byKey[key], Deduplicated, t.rows[t.byKey[key]].state)))
      else
        (Insert(t, id, NewJob(t, key, at, 50, 3)), Ok(Enqueued(id, Accepted, JobState.Queued)))
  }

  /** A delivery is enqueued exactly for a manual, scheduled or recovery trigger: either the job that already carries
      its body, trigger and slot is named, or one system job is added, of priority 50 and with three attempts. */
  lemma DeliverySound(t: JobTable, body: string, trigger: Trigger, at: Time, id: Id)
    requires TableOk(t) && id !in t.rows
    ensures var (t', r) := EnqueueDelivery(t, body, trigger, at, id);
            && (r.Ok? <==> trigger.Manual? || trigger.Schedule? || trigger.Recovery?)
            && (r.Err? || r.value.disposition.Deduplicated? ==> t' == t)
            && (r.Ok? ==> r.value.job in t'.rows && IsDelivery(t'.rows[r.value.job].info.key, body, trigger, at))
            && (r.Ok? && r.value.disposition.Deduplicated? ==> r.value.state == t.rows[r.value.job].state)
            && (r.Ok? && r.value.disposition.Accepted? ==>
                  && (forall j :: j in t.rows ==> !IsDelivery(t.rows[j].info.key, body, trigger, at))
                  && r.value.job == id && t'.rows == t.rows[id := t'.rows[id]]
                  && t'.rows[id].state.Queued? && t'.rows[id].attemptCount == 0 && t'.rows[id].availableAt == at
                  && t'.rows[id].info.priority == 50 && t'.rows[id].info.maxAttempts == 3)
  {
    hide RowidsOk;
  }

  predicate IsDelivery(key: DedupeKey, body: string, trigger: Trigger, at: Time) {
    key == DedupeKey(None, None, trigger, Request(body, None, None), if trigger.Schedule? then Some(at) else None,
                     None, None, 0, None, ProjectionDelivery, None)
  }

  /** What a later table keeps of an earlier one: every row stays, with its immutable columns. */
  ghost predicate Keeps(t: JobTable, t': JobTable) {
    && |t.rows| <= |t'.rows|
    && (forall j :: j in t.rows ==> j in t'.rows && t'.rows[j].info == t.rows[j].info)
    && (forall j :: j in t'.rows && j !in t.rows ==> t'.rows[j].info.rowid >= |t.rows|)
  }

  lemma InsertKeeps(t: JobTable, id: Id, job: Job)
    requires TableOk(t)
    requires id !in t.rows && job.info.key !in t.byKey && job.info.rowid == |t.rows|
    ensures TableOk(Insert(t, id, job)) && Keeps(t, Insert(t, id, job))
    ensures |Insert(t, id, job).rows| == |t.rows| + 1
  {
    hide KeysOk, RowidsOk, Keeps;
    InsertKeys(t, id, job);
    InsertCount(t.rows, id, job);
    InsertRows(t, id, job);
  }

  lemma InsertCount(rows: map<Id, Job>, id: Id, job: Job)
    requires id !in rows
    ensures |rows[id := job]| == |rows| + 1
  {
    assert rows[id := job].Keys == rows.Keys + {id};
    assert |rows[id := job]| == |rows[id := job].Keys|;
  }

  lemma InsertRows(t: JobTable, id: Id, job: Job)
    requires RowidsOk(t.rows) && id !in t.rows && job.info.rowid == |t.rows| && |t.rows[id := job]| == |t.rows| + 1
    ensures RowidsOk(t.rows[id := job]) && Keeps(t, Insert(t, id, job))
  {
  }

  lemma InsertKeys(t: JobTable, id: Id, job: Job)
    requires KeysOk(t) && id !in t.rows && job.info.key !in t.byKey
    ensures KeysOk(Insert(t, id, job))
  {
    var t' := Insert(t, id, job);
    forall j | j in t'.rows
      ensures t'.rows[j].info.key in t'.byKey && t'.byKey[t'.rows[j].info.key] == j
    {
    }
  }

  /** The instance minted for a manual restart is new to the table. */
  ghost predicate FreshInstance(t: JobTable, a: EnqueueArgs, instance: Id) {
    KeyFor(a, Some(instance)) !in t.byKey
  }

  lemma EnqueueKeepsTable(t: JobTable, a: EnqueueArgs, id: Id, instance: Id)
    requires TableOk(t) && id !in t.rows
    requires a.trigger.Manual? && a.instance.None? ==> FreshInstance(t, a, instance)
    ensures IndexSound(t)
    ensures var t' := Enqueue(t, a, id, instance).0; TableOk(t') && Keeps(t, t') && IndexSound(t')
  {
    hide RowidsOk, Keeps, Admissible;
    var key := KeyFor(a, a.instance);
    if Admissible(a) && !(key in t.byKey && !ManualRestart(t, a)) {
      var used := if key in t.byKey then KeyFor(a, Some(instance)) else key;
      InsertKeeps(t, id, NewJob(t, used, a.at, a.priority, MaxAttempts(a.definition.retry)));
    } else {
      Kept(t);
    }
  }

  lemma Kept(t: JobTable)
    ensures Keeps(t, t)
  {
  }

  /** Enqueueing keeps the table sound and names one job per dedupe key: an accepted job is new,
      queued, untried and within budget; a deduplicated answer changes nothing and names the job
      that carries exactly the requested key. */
  lemma EnqueueSound(t: JobTable, a: EnqueueArgs, id: Id, instance: Id)
    requires TableOk(t) && id !in t.rows
    requires a.trigger.Manual? && a.instance.None? ==> FreshInstance(t, a, instance)
    ensures var (t', r) := Enqueue(t, a, id, instance);
            && TableOk(t') && Keeps(t, t')
            && (r.Err? <==> !Admissible(a))
            && (r.Err? ==> t' == t)
            && (r.Ok? && r.value.disposition.Deduplicated? ==>
                  && t' == t && r.value.job in t.rows
                  && t.rows[r.value.job].info.key == KeyFor(a, a.instance)
                  && r.value.state == t.rows[r.value.job].state
                  && !(a.trigger.Manual? && a.instance.None? && Terminal(r.value.state)))
            && (r.Ok? && r.value.disposition.Accepted? ==>
                  && r.value.job == id
                  && t'.rows == t.rows[id := t'.rows[id]]
                  && t'.rows[id].state.Queued? && t'.rows[id].attemptCount == 0 && t'.rows[id].availableAt == a.at
                  && 1 <= t'.rows[id].info.maxAttempts <= 20
                  && BudgetOf(a.definition.retry.maxAttempts, t'.rows[id].info.maxAttempts)
                  && t'.rows[id].token.None? && t'.rows[id].info.createdAt == a.at
                  && t'.rows[id].info.key.trigger == a.trigger
                  && t'.rows[id].info.priority == a.priority && t'.rows[id].info.scheduledFor == a.at
                  && t'.rows[id].info.key ==
                       KeyFor(a, if KeyFor(a, a.instance) in t.byKey then Some(instance) else a.instance))
  {
    var key := KeyFor(a, a.instance);
    if Admissible(a) && !(key in t.byKey && !ManualRestart(t, a)) {
      var used := if key in t.byKey then KeyFor(a, Some(instance)) else key;
      InsertKeeps(t, id, NewJob(t, used, a.at, a.priority, MaxAttempts(a.definition.retry)));
    }
  }

  /** The attempt budget that a policy asks for, if it asks for one between 1 and 20, and four otherwise. */
  predicate BudgetOf(asked: Option<int>, budget: nat) {
    if asked.Some? && 1 <= asked.value <= 20 then budget == asked.value else budget == 4
  }

  /** What tells two requests apart: every argument but the priority and, unless it is a scheduled slot, the time;
      a missing lane reads as the definition's own, and a missing kind follows the trigger. */
  lemma KeysTellApart(a: EnqueueArgs, b: EnqueueArgs, i: Option<Id>, j: Option<Id>)
    ensures KeyFor(a, i) == KeyFor(b, j) <==>
              && a.definition == b.definition && a.trigger == b.trigger && a.request == b.request
              && (if a.lane.Some? then a.lane.value else a.definition.defaultLane)
                 == (if b.lane.Some? then b.lane.value else b.definition.defaultLane)
              && (a.trigger.Schedule? ==> a.at == b.at)
              && a.schedule == b.schedule && a.parent == b.parent && a.generation == b.generation && i == j
              && (if a.kind.Some? then a.kind.value else KindFor(a.trigger)) ==
                   (if b.kind.Some? then b.kind.value else KindFor(b.trigger))
              && a.window == b.window
  {
  }

  function KindFor(t: Trigger): JobKind {
    match t
    case Backfill => BackfillWindow
    case AgentRequest => OnDemandRefresh
    case _ => ScheduledIngest
  }

  /** Slots of one schedule for different times are different jobs, and each is made once. */
  lemma SlotsAreJobs(t: JobTable, a: EnqueueArgs, at: Time, id: Id, instance: Id, id': Id, instance': Id)
    requires TableOk(t) && id !in t.rows && id' !in t.rows && id' != id && Admissible(a) && a.trigger.Schedule?
    ensures IndexSound(t)
    ensures var b := a.(at := at);
            var (t1, r1) := Enqueue(t, a, id, instance);
            && TableOk(t1) && r1.Ok?
            && var (t2, r2) := Enqueue(t1, b, id', instance');
               r2.Ok? && (r2.value.job == r1.value.job <==> at == a.at)
  {
    hide KeyFor, KeysOk, RowidsOk, Keeps;
    EnqueueKeepsTable(t, a, id, instance);
    var b := a.(at := at);
    KeysTellApart(a, b, a.instance, a.instance);
    SameGate(a, b);
    hide Admissible;
    var t1 := Enqueue(t, a, id, instance).0;
    KeysDiffer(t1, KeyFor(a, a.instance), KeyFor(b, a.instance));
  }

  lemma KeysDiffer(t: JobTable, k: DedupeKey, k': DedupeKey)
    requires TableOk(t)
    ensures k in t.byKey && k' in t.byKey && t.byKey[k] == t.byKey[k'] ==> k == k'
    ensures k in t.byKey ==> t.byKey[k] in t.rows
  {
    hide RowidsOk;
  }

  lemma SameGate(a: EnqueueArgs, b: EnqueueArgs)
    requires b == a.(at := b.at)
    ensures Admissible(b) <==> Admissible(a)
  {
  }

  /** A default manual request whose key already names a terminal job. */
  predicate Restarts(t: JobTable, a: EnqueueArgs)
    requires forall k :: k in t.byKey ==> t.byKey[k] in t.rows
  {
    KeyFor(a, a.instance) in t.byKey && ManualRestart(t, a)
  }

  /** Asking for the same thing twice names one job, except in one case: a default manual request looks
      only at the job its own key names, so once that job is terminal every further request makes a new
      job, even while the previous one still waits. */
  lemma EnqueueTwice(t: JobTable, a: EnqueueArgs, id: Id, instance: Id, id': Id, instance': Id)
    requires TableOk(t) && id !in t.rows && id' !in t.rows && id' != id && Admissible(a)
    requires FreshInstance(t, a, instance) && instance != instance'
    ensures var (t1, r1) := Enqueue(t, a, id, instance);
            && TableOk(t1) && r1.Ok?
            && var (t2, r2) := Enqueue(t1, a, id', instance');
            && r2.Ok?
            && (r2.value.job == r1.value.job <==> !Restarts(t, a))
            && (!Restarts(t, a) ==> t2 == t1 && r2.value.disposition.Deduplicated?)
            && (Restarts(t, a) ==> r2.value.disposition.Accepted? && r2.value.job == id')
  {
    hide KeyFor, KeysOk, RowidsOk, Keeps, Admissible;
    EnqueueKeepsTable(t, a, id, instance);
    IndexIsSound(t);
  }

  lemma IndexIsSound(t: JobTable)
    requires TableOk(t)
    ensures IndexSound(t)
  {
  }

  // A concrete default manual request, made three times, the first job being cancelled in between.

  const SOME_DEFINITION := Definition("d", 1, false, SourceDiscovery, "v1", false, false, false, NO_POLICY)

  const SOME_REQUEST :=
    EnqueueArgs(SOME_DEFINITION, Request("", None, None), Manual, None, 100, 0, None, None, None, 0, None, None)

  function WithState(t: JobTable, j: Id, s: JobState): JobTable
    requires j in t.rows
  {
    t.(rows := t.rows[j := t.rows[j].(state := s)])
  }

  /** The tables after each of the four calls. */
  function PiledTables(): (JobTable, JobTable, JobTable, JobTable) {
    var a := SOME_REQUEST;
    var key, again, third := KeyFor(a, None), KeyFor(a, Some(12)), KeyFor(a, Some(13));
    var job := k => Job(JobInfo(0, k, 0, 0, 100, 4), JobState.Queued, 0, 0, None, None);
    var t1 := JobTable(map[1 := job(key)], map[key := 1]);
    var t2 := WithState(t1, 1, JobState.Cancelled);
    var t3 := Insert(t2, 2, NewJob(t2, again, 0, 100, 4));
    (t1, t2, t3, Insert(t3, 3, NewJob(t3, third, 0, 100, 4)))
  }

  lemma PileUp()
    ensures var (t1, t2, t3, t4) := PiledTables();
            && IndexSound(t1) && IndexSound(t2) && IndexSound(t3)
            && 1 in t1.rows && t1.rows[1].state.Queued? && t2 == WithState(t1, 1, JobState.Cancelled)
            && t1 == Enqueue(JobTable(map[], map[]), SOME_REQUEST, 1, 11).0
            && t3 == Enqueue(t2, SOME_REQUEST, 2, 12).0 && t4 == Enqueue(t3, SOME_REQUEST, 3, 13).0
            && FreshInstance(JobTable(map[], map[]), SOME_REQUEST, 11) && FreshInstance(t2, SOME_REQUEST, 12)
            && FreshInstance(t3, SOME_REQUEST, 13) && 2 !in t2.rows && 3 !in t3.rows
            && 2 in t4.rows && 3 in t4.rows && t4.rows[2].state.Queued? && t4.rows[3].state.Queued?
  {
  }

  /** `retry`: the enqueue call for a new job linked to a failed one. */
  function RetryArgs(j: Id, key: DedupeKey, at: Time, instance: Id): EnqueueArgs
    requires key.definition.Some? && key.lane.Some?
  {
    EnqueueArgs(key.definition.value, key.request, Manual, key.lane, 100, at, Some(instance), None, Some(j),
                key.generation + 1, Some(key.kind), key.window)
  }

  function Retry(t: JobTable, j: Id, at: Time, id: Id, instance: Id): (JobTable, Result<Enqueued>)
    requires forall k :: k in t.byKey ==> t.byKey[k] in t.rows
  {
    if j !in t.rows then (t, Err(Unknown))
    else
      var key := t.rows[j].info.key;
      if t.rows[j].state !in {JobState.Failed, JobState.DeadLetter, JobState.Cancelled} then (t, Err(NotPermitted))
      else if key.definition.None? || key.lane.None? then (t, Err(NotPermitted))
      else Enqueue(t, RetryArgs(j, key, at, instance), id, instance)
  }

  /** A retry with a newly minted instance is never answered with an old job: it adds one untried job
      with the same definition, lane and request, one generation later and linked to its parent, and
      the parent's row and every other row stay as they were. */
  lemma RetryLinksNewJob(t: JobTable, j: Id, at: Time, id: Id, instance: Id)
    requires TableOk(t) && id !in t.rows
    requires forall k :: k in t.byKey ==> k.instance != Some(instance)
    ensures var (t', r) := Retry(t, j, at, id, instance);
            && TableOk(t')
            && (r.Err? ==> t' == t)
            && (r.Ok? <==>
                  && j in t.rows && t.rows[j].state in {JobState.Failed, JobState.DeadLetter, JobState.Cancelled}
                  && t.rows[j].info.key.definition.Some? && t.rows[j].info.key.lane.Some?
                  && Admissible(RetryArgs(j, t.rows[j].info.key, at, instance)))
            && (r.Ok? ==>
                  && r.value == Enqueued(id, Accepted, JobState.Queued)
                  && t'.rows == t.rows[id := t'.rows[id]] && t'.rows[id].attemptCount == 0
                  && t'.rows[id].availableAt == at && t'.rows[id].info.priority == 100
                  && var from, to := t.rows[j].info.key, t'.rows[id].info.key;
                     to.definition == from.definition && to.lane == from.lane && to.request == from.request
                     && to.kind == from.kind && to.window == from.window && to.instance == Some(instance)
                     && to.parent == Some(j) && to.generation == from.generation + 1 && to.trigger.Manual?)
  {
    if Retry(t, j, at, id, instance).1.Ok? {
      EnqueueSound(t, RetryArgs(j, t.rows[j].info.key, at, instance), id, instance);
    }
    hide TableOk;
  }
}
