/** The approval coordinator: `decide` calls suspended at their awaits, serialised by a chain of
    promises, over the pending approvals. Every function is what runs between two awaits. */
module Approvals {
  import opened Base

  const TEST_POLICY_VERSION := "test-online-v1"

  datatype Decision = Approve | Deny

  datatype Approval = Approval(
    session: string, principal: string, scope: string, refresh: string, fingerprint: string, policy: string,
    expiresAt: Time, decision: Option<Decision>)

  /** The suspended turn of a session, with the refreshes (request id, fingerprint) it asked for. */
  datatype Continuation = Continuation(turn: string, refreshes: set<(string, string)>)

  datatype Failure =
    | Unknown | Expired | ReplayOpposite | ScopeMismatch | PrincipalMismatch | FingerprintMismatch | PolicyMismatch

  datatype Outcome = Resolved(decision: Decision, replay: bool) | Refused(reason: Failure) | Thrown

  datatype Ask = Ask(session: string, approval: string, decision: Decision, principal: string, scope: string)

  datatype Phase = Waiting | Launching(continuation: Option<Continuation>) | Dispatching | Done(outcome: Outcome)

  /** A `decide` call: the promise it awaits, the promise it resolves when it ends, and where it is. */
  datatype Call = Call(ask: Ask, previous: nat, own: nat, phase: Phase)

  /** `calls` is in arrival order; `tail` is the newest promise of the chain; promise 0 is resolved from
      the start. `launched` lists the approvals whose approve launch succeeded. */
  datatype Coordinator = Coordinator(
    policy: string, pending: map<string, Approval>, continuations: map<string, Continuation>,
    calls: seq<Call>, tail: nat, resolved: set<nat>, launched: seq<string>)

  datatype Registered = Accepted | PolicyVersionMismatch | AlreadyExists

  datatype Reply = Granted | Error | Rejected

  // ---------------------------------------------------------------- the segments between awaits

  /** `registerRequired` */
  function Register(c: Coordinator, id: string, a: Approval): (Coordinator, Registered) {
    if a.policy != TEST_POLICY_VERSION || a.policy != c.policy then (c, PolicyVersionMismatch)
    else if id in c.pending then (c, AlreadyExists)
    else (c.(pending := c.pending[id := a]), Accepted)
  }

  /** `prepareContinuation`, and `enqueueContinuation` for a turn that has none. */
  function Prepare(c: Coordinator, session: string, k: Continuation): Coordinator {
    c.(continuations := c.continuations[session := k])
  }

  /** The start of `#serialize`: chain a new promise behind the current tail. */
  function Arrive(c: Coordinator, ask: Ask): Coordinator {
    c.(calls := c.calls + [Call(ask, c.tail, c.tail + 1, Waiting)], tail := c.tail + 1)
  }

  /** The checks of `#decide`, in its order; None means that nothing speaks against deciding now. */
  function Check(c: Coordinator, ask: Ask, now: Time): Option<Outcome> {
    if ask.approval !in c.pending || c.pending[ask.approval].session != ask.session then Some(Refused(Failure.Unknown))
    else
      var a := c.pending[ask.approval];
      if now >= a.expiresAt then Some(Refused(Expired))
      else if a.scope != ask.scope then Some(Refused(ScopeMismatch))
      else if a.principal != ask.principal then Some(Refused(PrincipalMismatch))
      else if a.policy != c.policy || a.policy != TEST_POLICY_VERSION then Some(Refused(PolicyMismatch))
      else if ask.session in c.continuations && (a.refresh, a.fingerprint) !in c.continuations[ask.session].refreshes
      then Some(Refused(FingerprintMismatch))
      else if a.decision.Some? then
        Some(if a.decision.value != ask.decision then Refused(ReplayOpposite) else Resolved(ask.decision, true))
      else None
  }

  function SetPhase(c: Coordinator, i: nat, p: Phase): Coordinator
    requires i < |c.calls|
  {
    c.(calls := c.calls[i := c.calls[i].(phase := p)])
  }

  /** The end of `#serialize`: the call's own promise resolves, whatever the outcome. */
  function Finish(c: Coordinator, i: nat, o: Outcome): Coordinator
    requires i < |c.calls|
  {
    SetPhase(c, i, Done(o)).(resolved := c.resolved + {c.calls[i].own})
  }

  function Decided(c: Coordinator, id: string, d: Decision): Coordinator
    requires id in c.pending
  {
    c.(pending := c.pending[id := c.pending[id].(decision := Some(d))])
  }

  predicate CanBegin(c: Coordinator, i: nat) {
    i < |c.calls| && c.calls[i].phase.Waiting? && c.calls[i].previous in c.resolved
  }

  /** The call resumes behind its predecessor: it is answered, or denied, or launches the approval.
      `emits` is whether the event hub takes the resulting events. */
  function Begin(c: Coordinator, i: nat, now: Time, emits: bool): Coordinator
    requires i < |c.calls|
  {
    var ask := c.calls[i].ask;
    match Check(c, ask, now)
    case Some(o) => Finish(c, i, o)
    case None =>
      if ask.decision.Deny? then
        Finish(Decided(c, ask.approval, Deny), i, if emits then Resolved(Deny, false) else Thrown)
      else
        SetPhase(c, i, Launching(if ask.session in c.continuations then Some(c.continuations[ask.session]) else None))
  }

  predicate CanReply(c: Coordinator, i: nat) {
    i < |c.calls| && c.calls[i].phase.Launching? && c.calls[i].ask.approval in c.pending
  }

  /** The launcher answers; `live` is whether the session is still active. */
  function OnReply(c: Coordinator, i: nat, r: Reply, live: bool, now: Time, emits: bool): Coordinator
    requires CanReply(c, i)
  {
    var id := c.calls[i].ask.approval;
    match r
    case Error => Finish(c, i, Refused(Failure.Unknown))
    case Rejected => Finish(c, i, Thrown)
    case Granted =>
      var c1 := Decided(c, id, Approve).(launched := c.launched + [id]);
      if !emits then Finish(c1, i, Thrown)
      else if c.calls[i].phase.continuation.Some? && live && now < c.pending[id].expiresAt
      then SetPhase(c1, i, Dispatching)
      else Finish(c1, i, Resolved(Approve, false))
  }

  predicate CanEnd(c: Coordinator, i: nat) {
    i < |c.calls| && c.calls[i].phase.Dispatching?
  }

  /** The dispatch of the continuation ends or throws. */
  function OnDispatched(c: Coordinator, i: nat, ok: bool): Coordinator
    requires CanEnd(c, i)
  {
    Finish(c, i, if ok then Resolved(Approve, false) else Thrown)
  }

  // ---------------------------------------------------------------- the invariant

  /** The promise chain follows arrival order, and a promise is resolved exactly when its call ended. */
  ghost predicate ChainOk(calls: seq<Call>, tail: nat, resolved: set<nat>) {
    && tail == |calls|
    && (forall i :: 0 <= i < |calls| ==> calls[i].previous == i && calls[i].own == i + 1)
    && (forall p :: p in resolved <==> p == 0 || (0 < p <= |calls| && calls[p - 1].phase.Done?))
  }

  /** A call that got past its await finds all earlier calls ended: at most one is in progress. */
  ghost predicate InOrder(calls: seq<Call>) {
    forall i, j :: 0 <= i < j < |calls| && !calls[j].phase.Waiting? ==> calls[i].phase.Done?
  }

  /** While a launch is out, its approval is still undecided. */
  ghost predicate LaunchesOpen(calls: seq<Call>, pending: map<string, Approval>) {
    forall i :: 0 <= i < |calls| && calls[i].phase.Launching? ==>
      calls[i].ask.approval in pending && pending[calls[i].ask.approval].decision.None?
  }

  /** No approval was launched successfully twice, and only approved ones were. */
  ghost predicate LaunchedOnce(launched: seq<string>, pending: map<string, Approval>) {
    && (forall i, j :: 0 <= i < j < |launched| ==> launched[i] != launched[j])
    && (forall i :: 0 <= i < |launched| ==> launched[i] in pending && pending[launched[i]].decision == Some(Approve))
  }

  /** A call that reported a decision reported the stored one. */
  ghost predicate Agreed(calls: seq<Call>, pending: map<string, Approval>) {
    forall i :: 0 <= i < |calls| ==> CallAgrees(calls[i], pending)
  }

  predicate CallAgrees(k: Call, pending: map<string, Approval>) {
    && (k.phase.Done? && k.phase.outcome.Resolved? ==>
          k.ask.approval in pending && pending[k.ask.approval].decision == Some(k.phase.outcome.decision)
          && k.phase.outcome.decision == k.ask.decision)
    && (k.phase.Launching? ==> k.ask.decision.Approve?)
    && (k.phase.Dispatching? ==>
          k.ask.decision.Approve? && k.ask.approval in pending && pending[k.ask.approval].decision == Some(Approve))
  }

  ghost predicate CoordinatorOk(c: Coordinator) {
    && ChainOk(c.calls, c.tail, c.resolved)
    && InOrder(c.calls)
    && LaunchesOpen(c.calls, c.pending)
    && Agreed(c.calls, c.pending)
    && LaunchedOnce(c.launched, c.pending)
  }

  /** Approvals stay, unchanged but for a decision that is written at most once. */
  ghost predicate WriteOnce(c: Coordinator, c': Coordinator) {
    forall id :: id in c.pending ==>
      && id in c'.pending
      && c'.pending[id].(decision := None) == c.pending[id].(decision := None)
      && (c.pending[id].decision.Some? ==> c'.pending[id] == c.pending[id])
  }

  predicate Active(p: Phase) {
    p.Launching? || p.Dispatching?
  }

  // ---------------------------------------------------------------- what each segment keeps

  lemma FinishChain(c: Coordinator, i: nat, o: Outcome)
    requires ChainOk(c.calls, c.tail, c.resolved) && i < |c.calls|
    ensures var c' := Finish(c, i, o); ChainOk(c'.calls, c'.tail, c'.resolved)
  {
    var c' := Finish(c, i, o);
    forall p
      ensures p in c'.resolved <==> p == 0 || (0 < p <= |c'.calls| && c'.calls[p - 1].phase.Done?)
    {
      if p == i + 1 {
        assert c'.calls[p - 1].phase.Done?;
      } else {
        assert p in c'.resolved <==> p in c.resolved;
      }
    }
  }

  lemma PhaseChain(c: Coordinator, i: nat, p: Phase)
    requires ChainOk(c.calls, c.tail, c.resolved) && i < |c.calls| && !c.calls[i].phase.Done? && !p.Done?
    ensures ChainOk(SetPhase(c, i, p).calls, c.tail, c.resolved)
  {
  }

  /** Only the call whose turn it is moves on: everything before it has ended, so nothing after it has
      begun. */
  lemma MovesInOrder(calls: seq<Call>, i: nat, p: Phase)
    requires InOrder(calls) && i < |calls| && !calls[i].phase.Done?
    requires forall j :: 0 <= j < i ==> calls[j].phase.Done?
    ensures InOrder(calls[i := calls[i].(phase := p)])
    ensures forall j :: 0 <= j < |calls| && j != i ==> !Active(calls[j].phase)
  {
  }

  lemma PredecessorsDone(c: Coordinator, i: nat)
    requires ChainOk(c.calls, c.tail, c.resolved) && InOrder(c.calls) && CanBegin(c, i)
    ensures forall j :: 0 <= j < i ==> c.calls[j].phase.Done?
  {
    if i > 0 {
      assert c.calls[i - 1].phase.Done?;
    }
  }

  /** What earlier calls reported stays true while decisions are written at most once. */
  lemma AgreedMoves(c: Coordinator, c': Coordinator, i: nat)
    requires Agreed(c.calls, c.pending) && WriteOnce(c, c') && i < |c.calls| == |c'.calls|
    requires forall j :: 0 <= j < |c.calls| && j != i ==> c'.calls[j] == c.calls[j]
    requires CallAgrees(c'.calls[i], c'.pending)
    ensures Agreed(c'.calls, c'.pending)
  {
    forall j | 0 <= j < |c.calls|
      ensures CallAgrees(c'.calls[j], c'.pending)
    {
      assert CallAgrees(c.calls[j], c.pending);
    }
  }

  lemma BeginKeeps(c: Coordinator, i: nat, now: Time, emits: bool)
    requires CoordinatorOk(c) && CanBegin(c, i)
    ensures CoordinatorOk(Begin(c, i, now, emits)) && WriteOnce(c, Begin(c, i, now, emits))
  {
    hide ChainOk, InOrder, LaunchesOpen, LaunchedOnce, Agreed, Begin, WriteOnce;
    BeginChain(c, i, now, emits);
    BeginLaunches(c, i, now, emits);
    BeginAgrees(c, i, now, emits);
  }

  lemma BeginChain(c: Coordinator, i: nat, now: Time, emits: bool)
    requires ChainOk(c.calls, c.tail, c.resolved) && InOrder(c.calls) && CanBegin(c, i)
    ensures var c' := Begin(c, i, now, emits); ChainOk(c'.calls, c'.tail, c'.resolved) && InOrder(c'.calls)
    ensures forall j :: 0 <= j < |c.calls| && j != i ==> !Active(c.calls[j].phase)
  {
    hide ChainOk, InOrder, Check;
    var c', ask := Begin(c, i, now, emits), c.calls[i].ask;
    PredecessorsDone(c, i);
    MovesInOrder(c.calls, i, c'.calls[i].phase);
    if Check(c, ask, now).None? && ask.decision.Approve? {
      PhaseChain(c, i, c'.calls[i].phase);
    } else if Check(c, ask, now).None? {
      CheckedPending(c, ask, now);
      FinishChain(Decided(c, ask.approval, Deny), i, c'.calls[i].phase.outcome);
    } else {
      FinishChain(c, i, c'.calls[i].phase.outcome);
    }
  }

  lemma CheckedPending(c: Coordinator, ask: Ask, now: Time)
    requires Check(c, ask, now).None?
    ensures ask.approval in c.pending && c.pending[ask.approval].decision.None?
  {
  }

  lemma BeginLaunches(c: Coordinator, i: nat, now: Time, emits: bool)
    requires LaunchesOpen(c.calls, c.pending) && LaunchedOnce(c.launched, c.pending) && CanBegin(c, i)
    requires forall j :: 0 <= j < |c.calls| && j != i ==> !Active(c.calls[j].phase)
    ensures var c' := Begin(c, i, now, emits);
            LaunchesOpen(c'.calls, c'.pending) && LaunchedOnce(c'.launched, c'.pending)
  {
    hide Check, LaunchedOnce;
    var ask := c.calls[i].ask;
    if Check(c, ask, now).None? {
      CheckedPending(c, ask, now);
      DenyKeeps(c.launched, c.pending, ask.approval);
    }
  }

  lemma BeginAgrees(c: Coordinator, i: nat, now: Time, emits: bool)
    requires Agreed(c.calls, c.pending) && CanBegin(c, i)
    ensures var c' := Begin(c, i, now, emits); WriteOnce(c, c') && Agreed(c'.calls, c'.pending)
  {
    hide Agreed, Check, WriteOnce;
    var c', ask := Begin(c, i, now, emits), c.calls[i].ask;
    if Check(c, ask, now).Some? {
      if Check(c, ask, now).value.Resolved? {
        CheckedAnswer(c, ask, now);
      }
      PendingStays(c, c');
    } else {
      CheckedPending(c, ask, now);
      if ask.decision.Deny? {
        DecisionWritten(c, c', ask.approval, Deny);
      } else {
        PendingStays(c, c');
      }
    }
    AgreedMoves(c, c', i);
  }

  /** An answer on replay is the stored decision. */
  lemma CheckedAnswer(c: Coordinator, ask: Ask, now: Time)
    requires Check(c, ask, now).Some? && Check(c, ask, now).value.Resolved?
    ensures ask.approval in c.pending && c.pending[ask.approval].decision == Some(ask.decision)
    ensures Check(c, ask, now).value.decision == ask.decision
  {
  }

  lemma PendingStays(c: Coordinator, c': Coordinator)
    requires c'.pending == c.pending
    ensures WriteOnce(c, c')
  {
  }

  lemma DecisionWritten(c: Coordinator, c': Coordinator, id: string, d: Decision)
    requires id in c.pending && c.pending[id].decision.None?
             && c'.pending == c.pending[id := c.pending[id].(decision := Some(d))]
    ensures WriteOnce(c, c')
  {
  }

  lemma DenyKeeps(launched: seq<string>, pending: map<string, Approval>, id: string)
    requires LaunchedOnce(launched, pending) && id in pending && pending[id].decision.None?
    ensures LaunchedOnce(launched, pending[id := pending[id].(decision := Some(Deny))])
  {
  }

  lemma ReplyKeeps(c: Coordinator, i: nat, r: Reply, live: bool, now: Time, emits: bool)
    requires CoordinatorOk(c) && CanReply(c, i)
    ensures var c' := OnReply(c, i, r, live, now, emits); CoordinatorOk(c') && WriteOnce(c, c')
  {
    hide ChainOk, InOrder, LaunchesOpen, LaunchedOnce, Agreed, OnReply, WriteOnce;
    ReplyChain(c, i, r, live, now, emits);
    ReplyLaunches(c, i, r, live, now, emits);
    ReplyAgrees(c, i, r, live, now, emits);
  }

  lemma ReplyChain(c: Coordinator, i: nat, r: Reply, live: bool, now: Time, emits: bool)
    requires ChainOk(c.calls, c.tail, c.resolved) && InOrder(c.calls) && CanReply(c, i)
    ensures var c' := OnReply(c, i, r, live, now, emits); ChainOk(c'.calls, c'.tail, c'.resolved) && InOrder(c'.calls)
    ensures forall j :: 0 <= j < |c.calls| && j != i ==> !Active(c.calls[j].phase)
  {
    assert forall j :: 0 <= j < i ==> c.calls[j].phase.Done?;
    hide ChainOk, InOrder;
    var c', id := OnReply(c, i, r, live, now, emits), c.calls[i].ask.approval;
    MovesInOrder(c.calls, i, c'.calls[i].phase);
    var c1 := if r.Granted? then Decided(c, id, Approve).(launched := c.launched + [id]) else c;
    if c'.calls[i].phase.Done? {
      FinishChain(c1, i, c'.calls[i].phase.outcome);
    } else {
      PhaseChain(c1, i, c'.calls[i].phase);
    }
  }

  lemma ReplyLaunches(c: Coordinator, i: nat, r: Reply, live: bool, now: Time, emits: bool)
    requires LaunchesOpen(c.calls, c.pending) && LaunchedOnce(c.launched, c.pending) && CanReply(c, i)
    requires forall j :: 0 <= j < |c.calls| && j != i ==> !Active(c.calls[j].phase)
    ensures var c' := OnReply(c, i, r, live, now, emits);
            LaunchesOpen(c'.calls, c'.pending) && LaunchedOnce(c'.launched, c'.pending)
  {
    hide LaunchedOnce;
    LaunchKeeps(c.launched, c.pending, c.calls[i].ask.approval);
  }

  lemma ReplyAgrees(c: Coordinator, i: nat, r: Reply, live: bool, now: Time, emits: bool)
    requires Agreed(c.calls, c.pending) && LaunchesOpen(c.calls, c.pending) && CanReply(c, i)
    ensures var c' := OnReply(c, i, r, live, now, emits); WriteOnce(c, c') && Agreed(c'.calls, c'.pending)
  {
    assert CallAgrees(c.calls[i], c.pending) && c.pending[c.calls[i].ask.approval].decision.None?;
    hide Agreed, LaunchesOpen, WriteOnce;
    var c' := OnReply(c, i, r, live, now, emits);
    if r.Granted? {
      DecisionWritten(c, c', c.calls[i].ask.approval, Approve);
    } else {
      PendingStays(c, c');
    }
    AgreedMoves(c, c', i);
  }

  lemma LaunchKeeps(launched: seq<string>, pending: map<string, Approval>, id: string)
    requires LaunchedOnce(launched, pending) && id in pending && pending[id].decision.None?
    ensures LaunchedOnce(launched + [id], pending[id := pending[id].(decision := Some(Approve))])
  {
  }

  lemma DispatchedKeeps(c: Coordinator, i: nat, ok: bool)
    requires CoordinatorOk(c) && CanEnd(c, i)
    ensures CoordinatorOk(OnDispatched(c, i, ok)) && WriteOnce(c, OnDispatched(c, i, ok))
  {
    MovesInOrder(c.calls, i, OnDispatched(c, i, ok).calls[i].phase);
    FinishChain(c, i, if ok then Resolved(Approve, false) else Thrown);
    hide ChainOk, InOrder;
    assert CallAgrees(c.calls[i], c.pending);
    AgreedMoves(c, OnDispatched(c, i, ok), i);
  }

  lemma ArriveKeeps(c: Coordinator, ask: Ask)
    requires CoordinatorOk(c)
    ensures CoordinatorOk(Arrive(c, ask)) && WriteOnce(c, Arrive(c, ask))
  {
    var c' := Arrive(c, ask);
    assert forall i :: 0 <= i < |c.calls| ==> c'.calls[i] == c.calls[i];
  }

  lemma RegisterKeeps(c: Coordinator, id: string, a: Approval)
    requires CoordinatorOk(c)
    ensures CoordinatorOk(Register(c, id, a).0) && WriteOnce(c, Register(c, id, a).0)
  {
    hide ChainOk, InOrder;
    var c' := Register(c, id, a).0;
    forall i | 0 <= i < |c.calls|
      ensures CallAgrees(c'.calls[i], c'.pending)
    {
      assert CallAgrees(c.calls[i], c.pending);
    }
  }

  lemma PrepareKeeps(c: Coordinator, session: string, k: Continuation)
    requires CoordinatorOk(c)
    ensures CoordinatorOk(Prepare(c, session, k)) && WriteOnce(c, Prepare(c, session, k))
  {
    hide ChainOk, InOrder, LaunchesOpen, Agreed, LaunchedOnce;
  }

  // ---------------------------------------------------------------- whole runs

  datatype Step =
    | RegisterStep(id: string, approval: Approval)
    | PrepareStep(session: string, continuation: Continuation)
    | ArriveStep(ask: Ask)
    | BeginStep(i: nat, now: Time, emits: bool)
    | ReplyStep(i: nat, reply: Reply, live: bool, now: Time, emits: bool)
    | DispatchedStep(i: nat, ok: bool)

  ghost predicate Next(c: Coordinator, s: Step, c': Coordinator) {
    match s
    case RegisterStep(id, a) => c' == Register(c, id, a).0
    case PrepareStep(session, k) => c' == Prepare(c, session, k)
    case ArriveStep(ask) => c' == Arrive(c, ask)
    case BeginStep(i, now, emits) => CanBegin(c, i) && c' == Begin(c, i, now, emits)
    case ReplyStep(i, r, live, now, emits) => CanReply(c, i) && c' == OnReply(c, i, r, live, now, emits)
    case DispatchedStep(i, ok) => CanEnd(c, i) && c' == OnDispatched(c, i, ok)
  }

  function Initial(policy: string): Coordinator {
    Coordinator(policy, map[], map[], [], 0, {0}, [])
  }

  /** Any interleaving of registrations, arriving calls and asynchronous replies. */
  ghost predicate Run(states: seq<Coordinator>, steps: seq<Step>, policy: string) {
    && |states| == |steps| + 1
    && states[0] == Initial(policy)
    && (forall k :: 0 <= k < |steps| ==> Next(states[k], steps[k], states[k + 1]))
  }

  lemma NextKeeps(c: Coordinator, s: Step, c': Coordinator)
    requires CoordinatorOk(c) && Next(c, s, c')
    ensures CoordinatorOk(c') && WriteOnce(c, c')
  {
    hide CoordinatorOk, WriteOnce, Register, Prepare, Arrive, Begin, OnReply, OnDispatched, CanBegin, CanReply, CanEnd;
    match s
    case RegisterStep(id, a) => RegisterKeeps(c, id, a);
    case PrepareStep(session, k) => PrepareKeeps(c, session, k);
    case ArriveStep(ask) => ArriveKeeps(c, ask);
    case BeginStep(i, now, emits) => BeginKeeps(c, i, now, emits);
    case ReplyStep(i, r, live, now, emits) => ReplyKeeps(c, i, r, live, now, emits);
    case DispatchedStep(i, ok) => DispatchedKeeps(c, i, ok);
  }

  lemma InitialOk(policy: string)
    ensures CoordinatorOk(Initial(policy))
  {
  }

  lemma {:induction false} RunOk(states: seq<Coordinator>, steps: seq<Step>, policy: string, k: nat)
    requires Run(states, steps, policy) && k <= |steps|
    ensures CoordinatorOk(states[k])
  {
    hide CoordinatorOk, Next;
    if k == 0 {
      InitialOk(policy);
    } else {
      RunOk(states, steps, policy, k - 1);
      NextKeeps(states[k - 1], steps[k - 1], states[k]);
    }
  }

  /** The mutex: in every reachable state at most one decision is in progress, and a call that has
      begun finds every call that arrived before it ended. */
  lemma OneInProgress(states: seq<Coordinator>, steps: seq<Step>, policy: string, k: nat, i: nat, j: nat)
    requires Run(states, steps, policy) && k <= |steps| && i < j < |states[k].calls|
    ensures !(Active(states[k].calls[i].phase) && Active(states[k].calls[j].phase))
    ensures !states[k].calls[j].phase.Waiting? ==> states[k].calls[i].phase.Done?
  {
    RunOk(states, steps, policy, k);
  }

  /** Nobody is stuck: as long as a call has not ended, the earliest such call can go on at once or is
      waiting for nothing but its own launcher reply or dispatch. */
  lemma NobodyIsStuck(states: seq<Coordinator>, steps: seq<Step>, policy: string, k: nat, i: nat)
    requires Run(states, steps, policy) && k <= |steps| && i < |states[k].calls| && !states[k].calls[i].phase.Done?
    ensures exists j: nat :: j <= i && (CanBegin(states[k], j) || CanReply(states[k], j) || CanEnd(states[k], j))
  {
    RunOk(states, steps, policy, k);
    hide Run;
    var j := EarliestOpen(states[k].calls, i);
    assert CanBegin(states[k], j) || CanReply(states[k], j) || CanEnd(states[k], j);
  }

  lemma {:induction false} EarliestOpen(calls: seq<Call>, i: nat) returns (j: nat)
    requires i < |calls| && !calls[i].phase.Done?
    ensures j <= i && !calls[j].phase.Done? && forall m :: 0 <= m < j ==> calls[m].phase.Done?
  {
    if m: nat :| m < i && !calls[m].phase.Done? {
      j := EarliestOpen(calls, m);
    } else {
      j := i;
    }
  }

  /** Decisions are write-once over the whole run. */
  lemma {:induction false} DecisionsStay(states: seq<Coordinator>, steps: seq<Step>, policy: string, j: nat, k: nat)
    requires Run(states, steps, policy) && j <= k <= |steps|
    ensures WriteOnce(states[j], states[k])
    decreases k - j
  {
    if j < k {
      hide CoordinatorOk, Next;
      RunOk(states, steps, policy, j);
      NextKeeps(states[j], steps[j], states[j + 1]);
      DecisionsStay(states, steps, policy, j + 1, k);
      hide Run;
    }
  }

  /** Each approval has at most one successful approve launch, none follows a deny, and every success
      ends in the decision "approve". */
  lemma LaunchesAtMostOnce(states: seq<Coordinator>, steps: seq<Step>, policy: string, j: nat, k: nat, id: string)
    requires Run(states, steps, policy) && j <= k <= |steps|
    ensures forall a, b :: 0 <= a < b < |states[k].launched| ==> states[k].launched[a] != states[k].launched[b]
    ensures id in states[k].launched ==> id in states[k].pending && states[k].pending[id].decision == Some(Approve)
    ensures id in states[j].pending && states[j].pending[id].decision == Some(Deny) ==> id !in states[k].launched
  {
    RunOk(states, steps, policy, k);
    DecisionsStay(states, steps, policy, j, k);
    hide ChainOk, InOrder, LaunchesOpen, Run;
  }

  /** All answers agree: any two calls of a run that reported a decision on one approval, then or on
      replay, reported the same one, namely the one each asked for. */
  lemma AnswersAgree(states: seq<Coordinator>, steps: seq<Step>, policy: string, k: nat, i: nat, j: nat)
    requires Run(states, steps, policy) && k <= |steps| && i < |states[k].calls| && j < |states[k].calls|
    requires states[k].calls[i].phase.Done? && states[k].calls[i].phase.outcome.Resolved?
    requires states[k].calls[j].phase.Done? && states[k].calls[j].phase.outcome.Resolved?
    requires states[k].calls[i].ask.approval == states[k].calls[j].ask.approval
    ensures states[k].calls[i].phase.outcome.decision == states[k].calls[j].phase.outcome.decision ==
              states[k].calls[i].ask.decision
  {
    RunOk(states, steps, policy, k);
    hide ChainOk, InOrder, LaunchesOpen, LaunchedOnce, Run;
    assert CallAgrees(states[k].calls[i], states[k].pending) && CallAgrees(states[k].calls[j], states[k].pending);
  }

  // ---------------------------------------------------------------- who may decide

  function ContinuationOf(c: Coordinator, session: string): Option<Continuation> {
    if session in c.continuations then Some(c.continuations[session]) else None
  }

  /** The call comes from the approval's own session, principal and scope, under the policy in force and
      before the expiry; and the session's suspended turn, if there is one, asked for this very refresh. */
  predicate Entitled(a: Approval, policy: string, turn: Option<Continuation>, ask: Ask, now: Time) {
    && a.session == ask.session && a.principal == ask.principal && a.scope == ask.scope
    && a.policy == policy && a.policy == "test-online-v1"
    && now < a.expiresAt
    && (turn.Some? ==> (a.refresh, a.fingerprint) in turn.value.refreshes)
  }

  ghost predicate MayDecide(c: Coordinator, ask: Ask, now: Time) {
    && ask.approval in c.pending
    && Entitled(c.pending[ask.approval], c.policy, ContinuationOf(c, ask.session), ask, now)
  }

  /** A call whose turn has come launches exactly when it may decide an undecided approval and approves;
      it writes a decision exactly when it may and denies; it is answered on replay exactly when it may and
      asks for the stored decision; and every refusal names a cause that holds. */
  lemma BeginExact(c: Coordinator, i: nat, now: Time, emits: bool)
    requires CanBegin(c, i)
    ensures var ask, c' := c.calls[i].ask, Begin(c, i, now, emits);
            var may := MayDecide(c, ask, now);
            && (Active(c'.calls[i].phase) <==> may && c.pending[ask.approval].decision.None? && ask.decision.Approve?)
            && (c'.pending != c.pending <==> may && c.pending[ask.approval].decision.None? && ask.decision.Deny?)
            && (c'.pending != c.pending ==>
                  c'.pending == c.pending[ask.approval := c.pending[ask.approval].(decision := Some(Deny))])
            && (c'.calls[i].phase == Done(Resolved(ask.decision, true)) <==>
                  may && c.pending[ask.approval].decision == Some(ask.decision))
            && (c'.calls[i].phase == Done(Refused(ReplayOpposite)) <==>
                  may && c.pending[ask.approval].decision.Some?
                  && c.pending[ask.approval].decision.value != ask.decision)
            && (c'.calls[i].phase.Done? && c'.calls[i].phase.outcome.Refused? ==>
                  HasReason(c, ask, now, c'.calls[i].phase.outcome.reason))
  {
    var ask := c.calls[i].ask;
    if MayDecide(c, ask, now) && c.pending[ask.approval].decision.None? {
      assert c.pending[ask.approval] != c.pending[ask.approval].(decision := Some(Deny));
    }
  }

  /** What a launcher's reply leads to: a granted launch writes the decision "approve"; an error refuses the
      call and a rejection throws, both leaving the approval undecided; and the suspended turn goes on exactly
      for a granted launch of a live session before the expiry. */
  lemma ReplyExact(c: Coordinator, i: nat, r: Reply, live: bool, now: Time, emits: bool)
    requires CoordinatorOk(c) && CanReply(c, i)
    ensures var id, c' := c.calls[i].ask.approval, OnReply(c, i, r, live, now, emits);
            && (r.Granted? ==> c'.pending == c.pending[id := c.pending[id].(decision := Some(Approve))]
                               && c'.launched == c.launched + [id])
            && (!r.Granted? ==> c'.pending == c.pending && c'.launched == c.launched)
            && (c'.calls[i].phase == Done(Refused(Failure.Unknown)) <==> r.Error?)
            && (c'.calls[i].phase == Done(Thrown) <==> r.Rejected? || (r.Granted? && !emits))
            && (c'.calls[i].phase.Dispatching? <==>
                  r.Granted? && emits && live && now < c.pending[id].expiresAt && c.calls[i].phase.continuation.Some?)
  {
    hide CoordinatorOk;
  }

  /** An approval is registered exactly under the expected policy and once, and then stored as it is. */
  lemma RegisterExact(c: Coordinator, id: string, a: Approval)
    ensures var (c', r) := Register(c, id, a);
            && (r == Accepted <==> a.policy == "test-online-v1" && a.policy == c.policy && id !in c.pending)
            && c' == if r == Accepted then c.(pending := c.pending[id := a]) else c
  {
  }

  ghost predicate HasReason(c: Coordinator, ask: Ask, now: Time, reason: Failure) {
    if ask.approval !in c.pending then reason.Unknown?
    else
      var a, turn := c.pending[ask.approval], ContinuationOf(c, ask.session);
      match reason
      case Unknown => a.session != ask.session
      case Expired => now >= a.expiresAt
      case ScopeMismatch => a.scope != ask.scope
      case PrincipalMismatch => a.principal != ask.principal
      case PolicyMismatch => a.policy != c.policy || a.policy != TEST_POLICY_VERSION
      case FingerprintMismatch => turn.Some? && (a.refresh, a.fingerprint) !in turn.value.refreshes
      case ReplayOpposite => a.decision.Some? && a.decision.value != ask.decision
  }

  /** Step `m` of the run is the begin of a call that was entitled to the decision `a` carries. */
  ghost predicate AskedAt(states: seq<Coordinator>, steps: seq<Step>, m: nat, ask: Ask, a: Approval) {
    && m < |steps| && m < |states| && steps[m].BeginStep? && steps[m].i < |states[m].calls|
    && states[m].calls[steps[m].i].ask == ask
    && Entitled(a, states[m].policy, ContinuationOf(states[m], ask.session), ask, steps[m].now)
  }

  lemma AskedStays(states: seq<Coordinator>, steps: seq<Step>, m: nat, ask: Ask, a: Approval, a': Approval)
    requires AskedAt(states, steps, m, ask, a) && a.(decision := None) == a'.(decision := None)
    ensures AskedAt(states, steps, m, ask, a')
  {
    assert a.session == a.(decision := None).session && a.principal == a.(decision := None).principal
           && a.scope == a.(decision := None).scope && a.policy == a.(decision := None).policy
           && a.expiresAt == a.(decision := None).expiresAt && a.refresh == a.(decision := None).refresh
           && a.fingerprint == a.(decision := None).fingerprint;
  }

  /** Every launch that is out was begun by a call entitled to it. */
  lemma {:induction false} LaunchWasEntitled(states: seq<Coordinator>, steps: seq<Step>, policy: string, k: nat, i: nat)
    returns (m: nat)
    requires Run(states, steps, policy) && k <= |steps| && i < |states[k].calls| && states[k].calls[i].phase.Launching?
    ensures m < k && states[k].calls[i].ask.approval in states[k].pending
    ensures AskedAt(states, steps, m, states[k].calls[i].ask, states[k].pending[states[k].calls[i].ask.approval])
  {
    hide CoordinatorOk, Begin, OnReply, OnDispatched, CanReply, CanEnd, Register;
    var ask := states[k].calls[i].ask;
    assert Next(states[k - 1], steps[k - 1], states[k]);
    RunOk(states, steps, policy, k - 1);
    NextKeeps(states[k - 1], steps[k - 1], states[k]);
    LaunchBegan(states[k - 1], steps[k - 1], states[k], i);
    if i < |states[k - 1].calls| && states[k - 1].calls[i].phase.Launching? {
      m := LaunchWasEntitled(states, steps, policy, k - 1, i);
      AskedStays(states, steps, m, ask, states[k - 1].pending[ask.approval], states[k].pending[ask.approval]);
    } else {
      m := k - 1;
      AskedStays(states, steps, m, ask, states[k - 1].pending[ask.approval], states[k].pending[ask.approval]);
    }
  }

  /** A launching call was launching before, or has just begun and may decide. */
  lemma LaunchBegan(c: Coordinator, s: Step, c': Coordinator, i: nat)
    requires Next(c, s, c') && i < |c'.calls| && c'.calls[i].phase.Launching?
    ensures i < |c.calls| && c'.calls[i].ask == c.calls[i].ask
    ensures c.calls[i].phase.Launching? || (s.BeginStep? && s.i == i && MayDecide(c, c.calls[i].ask, s.now))
  {
    if s.BeginStep? && s.i == i {
      BeginExact(c, i, s.now, s.emits);
    }
    hide Check;
  }

  /** Whose decision counts: every decision on record at any point of any run came with the registration, or
      was asked for by the approval's own session, principal and scope, under the policy and before the expiry,
      for the refresh that the suspended turn asked for. */
  lemma {:induction false} DecidedByEntitled(states: seq<Coordinator>, steps: seq<Step>, policy: string, k: nat,
                                             id: string)
    returns (m: nat)
    requires Run(states, steps, policy) && k <= |steps| && id in states[k].pending
             && states[k].pending[id].decision.Some?
    ensures m < k
    ensures var a := states[k].pending[id];
            || steps[m] == RegisterStep(id, a)
            || (exists ask: Ask :: ask.approval == id && ask.decision == a.decision.value &&
                                   AskedAt(states, steps, m, ask, a))
  {
    hide CoordinatorOk, Begin, OnReply, OnDispatched, CanReply, CanEnd, Register, CanBegin;
    assert Next(states[k - 1], steps[k - 1], states[k]);
    RunOk(states, steps, policy, k - 1);
    NextKeeps(states[k - 1], steps[k - 1], states[k]);
    var a := states[k].pending[id];
    if id in states[k - 1].pending && states[k - 1].pending[id].decision.Some? {
      m := DecidedByEntitled(states, steps, policy, k - 1, id);
      return;
    }
    DecisionSource(states[k - 1], steps[k - 1], states[k], id);
    if steps[k - 1].RegisterStep? {
      m := k - 1;
    } else if steps[k - 1].BeginStep? {
      m := k - 1;
      var ask := states[k - 1].calls[steps[k - 1].i].ask;
      AskedStays(states, steps, m, ask, states[k - 1].pending[id], a);
    } else {
      var i := steps[k - 1].i;
      m := LaunchWasEntitled(states, steps, policy, k - 1, i);
      AskedStays(states, steps, m, states[k - 1].calls[i].ask, states[k - 1].pending[id], a);
    }
  }

  /** Where a new decision comes from, in one step. */
  lemma DecisionSource(c: Coordinator, s: Step, c': Coordinator, id: string)
    requires CoordinatorOk(c) && Next(c, s, c') && id in c'.pending && c'.pending[id].decision.Some?
    requires !(id in c.pending && c.pending[id].decision.Some?)
    ensures || s == RegisterStep(id, c'.pending[id])
            || (s.BeginStep? && s.i < |c.calls| && c.calls[s.i].ask.approval == id && c.calls[s.i].ask.decision.Deny?
                && MayDecide(c, c.calls[s.i].ask, s.now) && c'.pending[id].decision == Some(Deny))
            || (s.ReplyStep? && s.i < |c.calls| && c.calls[s.i].phase.Launching? && c.calls[s.i].ask.approval == id
                && c.calls[s.i].ask.decision.Approve? && c'.pending[id].decision == Some(Approve))
  {
    hide ChainOk, InOrder, LaunchesOpen, LaunchedOnce, Check;
    if s.BeginStep? {
      BeginExact(c, s.i, s.now, s.emits);
      hide Begin;
    } else if s.ReplyStep? {
      assert CallAgrees(c.calls[s.i], c.pending);
    }
  }

  // ---------------------------------------------------------------- without the chain

  /** The machine without `#serialize`: a call does not wait for its predecessor's promise, so it may begin
      as soon as it has arrived. Everything else is as before. */
  ghost predicate LooseNext(c: Coordinator, s: Step, c': Coordinator) {
    if s.BeginStep? then s.i < |c.calls| && c.calls[s.i].phase.Waiting? && c' == Begin(c, s.i, s.now, s.emits)
    else Next(c, s, c')
  }

  ghost predicate LooseRun(states: seq<Coordinator>, steps: seq<Step>, policy: string) {
    && |states| == |steps| + 1
    && states[0] == Initial(policy)
    && (forall k :: 0 <= k < |steps| ==> LooseNext(states[k], steps[k], states[k + 1]))
  }

  const ONE_ASK := Ask("s", "a", Approve, "p", "")
  const ONE_APPROVAL := Approval("s", "p", "", "", "", TEST_POLICY_VERSION, 1, None)

  /** One registered approval, and two calls about it. */
  function TwoCalls(first: Phase, second: Phase, decision: Option<Decision>, resolved: set<nat>, launched: seq<string>)
    : Coordinator
  {
    Coordinator(TEST_POLICY_VERSION, map["a" := ONE_APPROVAL.(decision := decision)], map[],
                [Call(ONE_ASK, 0, 1, first), Call(ONE_ASK, 1, 2, second)], 2, resolved, launched)
  }

  lemma BothBegin()
    ensures var c := TwoCalls(Waiting, Waiting, None, {0}, []);
            && LooseNext(c, BeginStep(0, 0, true), TwoCalls(Launching(None), Waiting, None, {0}, []))
            && LooseNext(TwoCalls(Launching(None), Waiting, None, {0}, []), BeginStep(1, 0, true),
                         TwoCalls(Launching(None), Launching(None), None, {0}, []))
  {
  }

  lemma BothSucceed()
    ensures var done := Done(Resolved(Approve, false));
            && LooseNext(TwoCalls(Launching(None), Launching(None), None, {0}, []),
                         ReplyStep(0, Granted, true, 0, true),
                         TwoCalls(done, Launching(None), Some(Approve), {0, 1}, ["a"]))
            && LooseNext(TwoCalls(done, Launching(None), Some(Approve), {0, 1}, ["a"]),
                         ReplyStep(1, Granted, true, 0, true),
                         TwoCalls(done, done, Some(Approve), {0, 1, 2}, ["a", "a"]))
  {
  }

  /** The chain is needed: without it two calls that arrive together launch one approval twice. */
  lemma ChainIsNeeded() returns (states: seq<Coordinator>, steps: seq<Step>)
    ensures LooseRun(states, steps, TEST_POLICY_VERSION)
    ensures states[|steps|].launched == ["a", "a"]
  {
    steps := [RegisterStep("a", ONE_APPROVAL), ArriveStep(ONE_ASK), ArriveStep(ONE_ASK), BeginStep(0, 0, true),
              BeginStep(1, 0, true), ReplyStep(0, Granted, true, 0, true), ReplyStep(1, Granted, true, 0, true)];
    var done := Done(Resolved(Approve, false));
    var registered := Register(Initial(TEST_POLICY_VERSION), "a", ONE_APPROVAL).0;
    assert Arrive(Arrive(registered, ONE_ASK), ONE_ASK) == TwoCalls(Waiting, Waiting, None, {0}, []);
    states := [Initial(TEST_POLICY_VERSION), registered, Arrive(registered, ONE_ASK),
               TwoCalls(Waiting, Waiting, None, {0}, []), TwoCalls(Launching(None), Waiting, None, {0}, []),
               TwoCalls(Launching(None), Launching(None), None, {0}, []),
               TwoCalls(done, Launching(None), Some(Approve), {0, 1}, ["a"]),
               TwoCalls(done, done, Some(Approve), {0, 1, 2}, ["a", "a"])];
    hide Begin, OnReply;
    BothBegin();
    BothSucceed();
  }
}
