/** The whole store in one kind of run: workers, operators and recoveries interleaved with refresh
    submissions over the same job table. Every such run is a run of the store and a history of the refresh
    ledger at once, so the theorems about either hold together. */
module SystemRuns {
  import opened Base
  import opened Jobs
  import opened Leases
  import Refresh
  import Store

  /** The tables of the store, and the refresh ledger that lies over its job table. */
  datatype Db = Db(
    store: Store.Db, ledger: map<Id, Refresh.Row>, confirmations: map<Id, Refresh.Confirmation>, carried: map<Id, Id>)

  datatype Event =
    | Operation(e: Store.Event)
    | Submission(s: Refresh.Submission, prior: Option<Refresh.Candidate>, job: Id, newToken: Id, dies: bool)

  function Now(e: Event): Time {
    match e
    case Operation(e) => e.now
    case Submission(s, _, _, _, _) => s.at
  }

  function Ledger(db: Db): Refresh.Db {
    Refresh.Db(db.store.core.table, db.ledger, db.confirmations, db.carried)
  }

  function SubmittedOf(e: Event): Refresh.Event
    requires e.Submission?
  {
    Refresh.Submitted(e.s, e.prior, e.job, e.newToken, e.dies)
  }

  /** Only a submission enqueues with the agent trigger. */
  predicate NotAgent(op: Store.Op) {
    op.EnqueueJob? ==> !op.args.trigger.AgentRequest?
  }

  ghost predicate Next(db: Db, e: Event, day: Time -> int, db': Db) {
    match e
    case Operation(e) =>
      NotAgent(e.op) && Store.Next(db.store, e, db'.store) && db' == db.(store := db'.store)
    case Submission(_, _, _, _, _) =>
      && Refresh.Next(Ledger(db), SubmittedOf(e), day, Ledger(db'))
      && db'.store == db.store.(core := Store.WithTable(db.store.core, db'.store.core.table))
  }

  const EMPTY_DB := Db(Store.EMPTY_STORE, map[], map[], map[])

  /** From empty tables, in any interleaving, under a clock that does not run backwards. */
  ghost predicate Run(states: seq<Db>, events: seq<Event>, day: Time -> int) {
    && |states| == |events| + 1
    && states[0] == EMPTY_DB
    && (forall i :: 0 <= i < |events| ==> Next(states[i], events[i], day, states[i + 1]))
    && (forall i, j :: 0 <= i <= j < |events| ==> Now(events[i]) <= Now(events[j]))
  }

  // ---------------------------------------------------------------- as a run of the store

  /** To the rest of the store a submission is the enqueueing of its job, or, if it creates none, nothing:
      a cancel of a job that does not exist. */
  function AsOperation(db: Db, e: Event, db': Db): Store.Event {
    match e
    case Operation(e) => e
    case Submission(s, _, job, _, _) =>
      if db'.store.core.table == db.store.core.table then Store.Event(s.at, Store.CancelOp(job))
      else Store.Event(s.at, Store.EnqueueJob(Refresh.JobArgs(s), job, s.request))
  }

  function StoreStates(states: seq<Db>): (r: seq<Store.Db>)
    ensures |r| == |states| && forall i :: 0 <= i < |r| ==> r[i] == states[i].store
  {
    seq(|states|, i requires 0 <= i < |states| => states[i].store)
  }

  function StoreEvents(states: seq<Db>, events: seq<Event>): (r: seq<Store.Event>)
    requires |states| == |events| + 1
    ensures |r| == |events| && forall i :: 0 <= i < |r| ==> r[i] == AsOperation(states[i], events[i], states[i + 1])
  {
    seq(|events|, i requires 0 <= i < |events| => AsOperation(states[i], events[i], states[i + 1]))
  }

  lemma SubmitTable(db: Refresh.Db, e: Refresh.Event, day: Time -> int, db': Refresh.Db)
    requires Refresh.Next(db, e, day, db') && e.Submitted?
    ensures TableOk(db.table) && e.job !in db.table.rows
    ensures db'.table == db.table || db'.table == Enqueue(db.table, Refresh.JobArgs(e.s), e.job, e.s.request).0
  {
    hide Enqueue, TableOk, Refresh.PriorOk, Refresh.Route, Refresh.Agents, Refresh.AgentsComplete;
  }

  lemma NextAsOperation(db: Db, e: Event, day: Time -> int, db': Db)
    requires Next(db, e, day, db')
    ensures Store.Next(db.store, AsOperation(db, e, db'), db'.store)
  {
    hide Enqueue, Refresh.Next, Store.Step, TableOk, Store.Next;
    if e.Submission? {
      SubmitTable(Ledger(db), SubmittedOf(e), day, Ledger(db'));
      SubmissionAsOperation(db, e, db');
    }
  }

  lemma SubmissionAsOperation(db: Db, e: Event, db': Db)
    requires e.Submission? && TableOk(db.store.core.table) && e.job !in db.store.core.table.rows
    requires db'.store == db.store.(core := Store.WithTable(db.store.core, db'.store.core.table))
    requires var t, t' := db.store.core.table, db'.store.core.table;
             t' == t || t' == Enqueue(t, Refresh.JobArgs(e.s), e.job, e.s.request).0
    ensures Store.Next(db.store, AsOperation(db, e, db'), db'.store)
  {
    hide Enqueue, RowidsOk, Store.Step;
    assert Store.WellIndexed(db.store.core);
    Store.EnqueueAlone(db.store, e.s.at, Refresh.JobArgs(e.s), e.job, e.s.request);
    CancelNobody(db.store, e.s.at, e.job);
  }

  lemma CancelNobody(db: Store.Db, now: Time, j: Id)
    requires Store.WellIndexed(db.core) && j !in db.core.table.rows
    ensures Store.Step(db, now, Store.CancelOp(j)) == db
  {
    hide Store.WellIndexed;
  }

  lemma ProjectsToStore(states: seq<Db>, events: seq<Event>, day: Time -> int)
    requires Run(states, events, day)
    ensures Store.Trace(StoreStates(states), StoreEvents(states, events))
  {
    hide Next, Store.Next;
    forall i | 0 <= i < |events|
      ensures Store.Next(states[i].store, AsOperation(states[i], events[i], states[i + 1]), states[i + 1].store)
    {
      NextAsOperation(states[i], events[i], day, states[i + 1]);
    }
    assert forall i :: 0 <= i < |events| ==> AsOperation(states[i], events[i], states[i + 1]).now == Now(events[i]);
  }

  // ---------------------------------------------------------------- as a history of the refresh ledger

  function AsHistory(e: Event, db': Db): Refresh.Event {
    match e
    case Operation(_) => Refresh.Others(db'.store.core.table)
    case Submission(s, prior, job, newToken, dies) => Refresh.Submitted(s, prior, job, newToken, dies)
  }

  function LedgerStates(states: seq<Db>): (r: seq<Refresh.Db>)
    ensures |r| == |states| && forall i :: 0 <= i < |r| ==> r[i] == Ledger(states[i])
  {
    seq(|states|, i requires 0 <= i < |states| => Ledger(states[i]))
  }

  function LedgerEvents(states: seq<Db>, events: seq<Event>): (r: seq<Refresh.Event>)
    requires |states| == |events| + 1
    ensures |r| == |events| && forall i :: 0 <= i < |r| ==> r[i] == AsHistory(events[i], states[i + 1])
  {
    seq(|events|, i requires 0 <= i < |events| => AsHistory(events[i], states[i + 1]))
  }

  /** Between submissions the store moves the job table only as the ledger expects. */
  lemma OperationAsOthers(db: Db, before: Time, e: Event, day: Time -> int, db': Db)
    requires Store.StoreOk(db.store, before) && e.Operation? && before <= e.e.now && Next(db, e, day, db')
    requires Refresh.AgentsComplete(db.store.core.table)
    ensures Refresh.Next(Ledger(db), AsHistory(e, db'), day, Ledger(db'))
  {
    hide Store.Step, Store.Allowed, Refresh.AgentsComplete, Refresh.OthersMoved, RowsOk, AttemptsOk, RunsOk, TokensOk;
    Store.StepLeavesAgents(db.store, before, e.e.now, e.e.op);
  }

  /** The ledger's history up to event `k`, with what it needs to go on. */
  lemma {:induction false} HistoryUpTo(states: seq<Db>, events: seq<Event>, day: Time -> int, k: nat)
    requires Run(states, events, day) && k <= |events|
    ensures Refresh.History(LedgerStates(states)[..k + 1], LedgerEvents(states, events)[..k], day)
    ensures Refresh.AgentsComplete(states[k].store.core.table)
  {
    hide Next, Refresh.Next, Refresh.AgentsComplete, Refresh.RefreshOk, Store.StoreOk, Store.Trace;
    var ls, es := LedgerStates(states), LedgerEvents(states, events);
    if k > 0 {
      HistoryUpTo(states, events, day, k - 1);
      assert Next(states[k - 1], events[k - 1], day, states[k]);
      NextInHistory(states, events, day, k - 1);
      assert ls[..k + 1][..k] == ls[..k];
      assert forall i :: 0 <= i < k ==> Refresh.Next(ls[..k + 1][i], es[..k][i], day, ls[..k + 1][i + 1]) by {
        forall i | 0 <= i < k
          ensures Refresh.Next(ls[i], es[i], day, ls[i + 1])
        {
          if i < k - 1 {
            assert Refresh.Next(ls[..k][i], es[..k - 1][i], day, ls[..k][i + 1]);
          }
        }
      }
    }
    Refresh.HistoryKeeps(ls[..k + 1], es[..k], day, k);
    SoundIsComplete(ls[k], day);
  }

  lemma SoundIsComplete(db: Refresh.Db, day: Time -> int)
    requires Refresh.RefreshOk(db, day)
    ensures Refresh.AgentsComplete(db.table)
  {
  }

  lemma NextInHistory(states: seq<Db>, events: seq<Event>, day: Time -> int, i: nat)
    requires Run(states, events, day) && i < |events| && Refresh.AgentsComplete(states[i].store.core.table)
    ensures Refresh.Next(Ledger(states[i]), AsHistory(events[i], states[i + 1]), day, Ledger(states[i + 1]))
  {
    hide Refresh.Next, Refresh.AgentsComplete, Store.StoreOk, Store.Next;
    assert Next(states[i], events[i], day, states[i + 1]);
    if events[i].Operation? {
      ProjectsToStore(states, events, day);
      var ss, es := StoreStates(states), StoreEvents(states, events);
      Store.TraceOk(ss, es, i);
      assert Store.Seen(es, i) <= es[i].now;
      OperationAsOthers(states[i], Store.Seen(es, i), events[i], day, states[i + 1]);
    }
  }

  lemma ProjectsToRefresh(states: seq<Db>, events: seq<Event>, day: Time -> int)
    requires Run(states, events, day)
    ensures Refresh.History(LedgerStates(states), LedgerEvents(states, events), day)
  {
    assert |states| == |events| + 1;
    hide Run;
    HistoryUpTo(states, events, day, |events|);
    assert LedgerStates(states)[..|events| + 1] == LedgerStates(states);
    assert LedgerEvents(states, events)[..|events|] == LedgerEvents(states, events);
  }

  // ---------------------------------------------------------------- both theorems in one run

  /** In every state of every run of the whole system, the store and the refresh ledger are sound together. */
  lemma SystemOk(states: seq<Db>, events: seq<Event>, day: Time -> int, k: nat)
    requires Run(states, events, day) && k <= |events|
    ensures Store.StoreOk(states[k].store, Store.Seen(StoreEvents(states, events), k))
    ensures Refresh.RefreshOk(Ledger(states[k]), day)
  {
    hide Refresh.RefreshOk, Store.StoreOk, Refresh.History, Store.Trace;
    ProjectsToStore(states, events, day);
    ProjectsToRefresh(states, events, day);
    Store.TraceOk(StoreStates(states), StoreEvents(states, events), k);
    Refresh.HistoryKeeps(LedgerStates(states), LedgerEvents(states, events), day, k);
  }

  /** Fencing with submissions in between: once a lease is dead no operation with it changes anything,
      neither the store nor the refresh ledger. */
  lemma SystemFencing(states: seq<Db>, events: seq<Event>, day: Time -> int, i: nat, k: nat, l: Lease, t: Time)
    requires Run(states, events, day) && i <= k < |events|
    requires l in states[i].store.core.issued && !Holds(states[i].store.core, l, t) && t <= Now(events[i])
    requires events[k].Operation? && Store.LeaseOf(events[k].e.op) == Some(l)
    ensures states[k + 1] == states[k]
  {
    hide Store.Trace, Holds, Store.Next;
    ProjectsToStore(states, events, day);
    Store.Fencing(StoreStates(states), StoreEvents(states, events), i, k, l, t);
    assert Next(states[k], events[k], day, states[k + 1]);
  }

  /** The answer that a submission got. */
  ghost function AnswerAt(states: seq<Db>, events: seq<Event>, day: Time -> int, i: nat): Result<Refresh.Answer>
    requires Run(states, events, day) && i < |events| && events[i].Submission?
  {
    ProjectsToRefresh(states, events, day);
    Refresh.AnswerAt(LedgerStates(states), LedgerEvents(states, events), day, i)
  }

  /** Exactly once with workers, recoveries, retries and cancels in between: all answers to one request that
      name a job name the same job, the repeat changes nothing in the whole store, and the request has no
      other job. */
  lemma SystemExactlyOnce(states: seq<Db>, events: seq<Event>, day: Time -> int, i: nat, j: nat)
    requires Run(states, events, day) && i < j < |events|
    requires events[i].Submission? && events[j].Submission? && events[i].s.request == events[j].s.request
    requires !events[i].dies && AnswerAt(states, events, day, i).Ok? && AnswerAt(states, events, day, i).value.Named?
    ensures AnswerAt(states, events, day, j).Ok? ==>
              AnswerAt(states, events, day, j).value == AnswerAt(states, events, day, i).value
              && states[j + 1] == states[j]
    ensures Refresh.AsksAgain(events[j].s, events[i].s.principal, events[i].s.fingerprint) ==>
              AnswerAt(states, events, day, j).Ok?
    ensures Refresh.AgentsComplete(states[j].store.core.table)
    ensures Refresh.JobsOf(Refresh.Agents(states[j].store.core.table), events[i].s.request)
         <= {AnswerAt(states, events, day, i).value.job}
  {
    hide Refresh.History, Refresh.RefreshOk, Refresh.Agents, Refresh.Next, Store.Next, Refresh.AgentsComplete,
         Refresh.JobsOf;
    ProjectsToRefresh(states, events, day);
    Refresh.ExactlyOnce(LedgerStates(states), LedgerEvents(states, events), day, i, j);
    SoundIsComplete(Ledger(states[j]), day);
    assert Next(states[j], events[j], day, states[j + 1]);
  }

  /** A submission killed between its commits, in a store that went on working: every later answer to its
      request names the job it left, the same caller is never refused, and the store itself stays as it is. */
  lemma SystemCrashThenRetry(states: seq<Db>, events: seq<Event>, day: Time -> int, i: nat, j: nat)
    requires Run(states, events, day) && i < j < |events| && events[i].Submission? && events[i].dies
    requires var e, db := events[i], Ledger(states[i]);
             && Refresh.AgentsComplete(db.table) && Refresh.Route(db, e.s, day, e.prior, e.newToken).Create?
             && Admissible(Refresh.JobArgs(e.s))
    requires events[j].Submission? && events[j].s.request == events[i].s.request
    ensures var s, job, r := events[i].s, events[i].job, AnswerAt(states, events, day, j);
            && (r.Ok? ==> r.value == Refresh.Named(job, Accepted, s.at))
            && (Refresh.WellFormed(events[j].s) && Refresh.SameCall(s, events[j].s) ==> r.Ok?)
            && states[j + 1].store == states[j].store
  {
    hide Refresh.History, Refresh.Agents, Refresh.Next, Store.Next, Refresh.AgentsComplete, Refresh.JobsOf,
         Refresh.Route, Refresh.WellFormed, Refresh.SameCall, Admissible;
    ProjectsToRefresh(states, events, day);
    Refresh.CrashThenRetry(LedgerStates(states), LedgerEvents(states, events), day, i, j);
    assert Next(states[j], events[j], day, states[j + 1]);
  }
}
