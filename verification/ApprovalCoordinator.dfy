/** The approval coordinator as an object; a suspended `decide` call is an entry of `calls`. */
module ApprovalCoordinator {
  import opened Base
  import opened Approvals

  class ApprovalCoordinator {
    const policyVersion: string
    var pending: map<string, Approval>
    var continuations: map<string, Continuation>
    var calls: seq<Call>
    /** The promise chain: its newest promise and the promises that have resolved. */
    var decisionTail: nat
    var resolved: set<nat>
    ghost var launched: seq<string>

    ghost function State(): Coordinator
      reads this
    {
      Coordinator(policyVersion, pending, continuations, calls, decisionTail, resolved, launched)
    }

    ghost predicate Valid()
      reads this
    {
      CoordinatorOk(State())
    }

    constructor (policy: string)
      ensures Valid() && State() == Initial(policy)
    {
      policyVersion := policy;
      pending, continuations, calls, decisionTail, resolved, launched := map[], map[], [], 0, {0}, [];
    }

    method RegisterRequired(id: string, approval: Approval) returns (r: Registered)
      requires Valid()
      modifies this
      ensures Valid() && (State(), r) == Register(old(State()), id, approval)
    {
      if approval.policy != TEST_POLICY_VERSION || approval.policy != policyVersion {
        return PolicyVersionMismatch;
      }
      if id in pending {
        return AlreadyExists;
      }
      NextKeeps(State(), RegisterStep(id, approval), Register(State(), id, approval).0);
      pending := pending[id := approval];
      r := Accepted;
    }

    method PrepareContinuation(session: string, continuation: Continuation)
      requires Valid()
      modifies this
      ensures Valid() && State() == Prepare(old(State()), session, continuation)
    {
      continuations := continuations[session := continuation];
    }

    /** `decide` up to its first await: read the tail, put a new promise in its place, wait. */
    method Decide(ask: Ask) returns (i: nat)
      requires Valid()
      modifies this
      ensures Valid() && State() == Arrive(old(State()), ask) && i == old(|calls|)
    {
      hide CoordinatorOk;
      ArriveKeeps(State(), ask);
      var previous := decisionTail;
      decisionTail := decisionTail + 1;
      i := |calls|;
      calls := calls + [Call(ask, previous, decisionTail, Waiting)];
    }

    function CheckNow(ask: Ask, now: Time): (o: Option<Outcome>)
      reads this
      ensures o == Check(State(), ask, now)
    {
      if ask.approval !in pending then Some(Refused(Failure.Unknown))
      else
        var a := pending[ask.approval];
        if a.session != ask.session then Some(Refused(Failure.Unknown))
        else if now >= a.expiresAt then Some(Refused(Expired))
        else if a.scope != ask.scope then Some(Refused(ScopeMismatch))
        else if a.principal != ask.principal then Some(Refused(PrincipalMismatch))
        else if a.policy != policyVersion || a.policy != TEST_POLICY_VERSION then Some(Refused(PolicyMismatch))
        else if ask.session in continuations && (a.refresh, a.fingerprint) !in continuations[ask.session].refreshes
        then Some(Refused(FingerprintMismatch))
        else if a.decision == Some(ask.decision) then Some(Resolved(ask.decision, true))
        else if a.decision.Some? then Some(Refused(ReplayOpposite))
        else None
    }

    /** The end of a call: its result is known and its promise resolves. */
    method Settle(i: nat, o: Outcome)
      requires i < |calls|
      modifies `calls, `resolved
      ensures State() == Finish(old(State()), i, o)
    {
      resolved := resolved + {calls[i].own};
      calls := calls[i := calls[i].(phase := Done(o))];
    }

    /** The call goes on once the promise it awaits has resolved. */
    method Resume(i: nat, now: Time, emits: bool)
      requires Valid() && CanBegin(State(), i)
      modifies this
      ensures Valid() && State() == Begin(old(State()), i, now, emits)
    {
      hide CoordinatorOk, Check;
      BeginKeeps(State(), i, now, emits);
      var ask := calls[i].ask;
      var early := CheckNow(ask, now);
      if early.Some? {
        Settle(i, early.value);
        return;
      }
      CheckedMeansPending(State(), ask, now);
      if ask.decision.Deny? {
        pending := pending[ask.approval := pending[ask.approval].(decision := Some(Deny))];
        Settle(i, if emits then Resolved(Deny, false) else Thrown);
        return;
      }
      var continuation := if ask.session in continuations then Some(continuations[ask.session]) else None;
      calls := calls[i := calls[i].(phase := Launching(continuation))];
    }

    /** The launcher's reply arrives: only now is an approval written down. */
    method Reply(i: nat, r: Reply, live: bool, now: Time, emits: bool)
      requires Valid() && CanReply(State(), i)
      modifies this
      ensures Valid() && State() == OnReply(old(State()), i, r, live, now, emits)
    {
      hide CoordinatorOk;
      ReplyKeeps(State(), i, r, live, now, emits);
      if r.Error? {
        Settle(i, Refused(Failure.Unknown));
        return;
      }
      if r.Rejected? {
        Settle(i, Thrown);
        return;
      }
      var id := calls[i].ask.approval;
      pending := pending[id := pending[id].(decision := Some(Approve))];
      launched := launched + [id];
      if !emits {
        Settle(i, Thrown);
      } else if calls[i].phase.continuation.Some? && live && now < pending[id].expiresAt {
        calls := calls[i := calls[i].(phase := Dispatching)];
      } else {
        Settle(i, Resolved(Approve, false));
      }
    }

    method Dispatched(i: nat, ok: bool)
      requires Valid() && CanEnd(State(), i)
      modifies this
      ensures Valid() && State() == OnDispatched(old(State()), i, ok)
    {
      hide CoordinatorOk;
      DispatchedKeeps(State(), i, ok);
      Settle(i, if ok then Resolved(Approve, false) else Thrown);
    }
  }

  lemma CheckedMeansPending(c: Coordinator, ask: Ask, now: Time)
    requires Check(c, ask, now).None?
    ensures ask.approval in c.pending
  {
  }
}
