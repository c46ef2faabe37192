/** The event hub and the cancel coordinator as one state machine: emitters, cancels and
    reconnections of every session, in any interleaving. */
module EventHub {
  import opened Base
  import opened EventRing
  import Decimal

  /** Everything ever emitted, session by session, and the keys of turns that have ended. */
  datatype Hub = Hub(logs: map<string, seq<AgentEvent>>, terminals: set<string>)

  function Log(h: Hub, session: string): seq<AgentEvent> {
    if session in h.logs then h.logs[session] else []
  }

  function TurnKey(session: string, turn: string): string {
    session + ":" + turn
  }

  /** `emit`; false is the protocol error "turn is already terminal". */
  function Emit(h: Hub, session: string, turn: string, kind: EventType, payload: string, at: string,
                wire: Wire): (Hub, bool) {
    if TurnKey(session, turn) in h.terminals then (h, false)
    else
      var n := |Log(h, session)| + 1;
      var e := AgentEvent(n, EventId(n, session), session, turn, at, kind, payload, wire);
      (Hub(h.logs[session := Log(h, session) + [e]],
           if IsTerminal(kind) then h.terminals + {TurnKey(session, turn)} else h.terminals), true)
  }

  // ---------------------------------------------------------------- the invariant

  /** Sequence numbers are 1..n and the ids follow them. */
  ghost predicate Numbered(log: seq<AgentEvent>, session: string) {
    forall i :: 0 <= i < |log| ==>
      log[i].sequence == i + 1 && log[i].id == EventId(i + 1, session) && log[i].session == session
  }

  /** Nothing follows a turn's terminal event in that turn: so it is the last one and the only one. */
  ghost predicate TerminalsLast(log: seq<AgentEvent>) {
    forall i, j :: 0 <= i < j < |log| && log[i].turn == log[j].turn ==> !IsTerminal(log[i].kind)
  }

  ghost predicate Ended(log: seq<AgentEvent>, turn: string) {
    exists i :: 0 <= i < |log| && log[i].turn == turn && IsTerminal(log[i].kind)
  }

  /** The terminal set holds exactly the keys of the turns that ended. */
  ghost predicate KeysExact(h: Hub) {
    && (forall s, t :: Ended(Log(h, s), t) ==> TurnKey(s, t) in h.terminals)
    && (forall k :: k in h.terminals ==> exists s, t :: Ended(Log(h, s), t) && TurnKey(s, t) == k)
  }

  ghost predicate HubOk(h: Hub) {
    && (forall s :: Numbered(Log(h, s), s) && TerminalsLast(Log(h, s)))
    && KeysExact(h)
  }

  /** What an accepted emit does to the set of ended turns. */
  lemma EmitEnds(h: Hub, session: string, turn: string, kind: EventType, payload: string, at: string, wire: Wire,
                 s: string, t: string)
    requires TurnKey(session, turn) !in h.terminals
    ensures var h' := Emit(h, session, turn, kind, payload, at, wire).0;
            Ended(Log(h', s), t) <==> Ended(Log(h, s), t) || (s == session && t == turn && IsTerminal(kind))
  {
    var h' := Emit(h, session, turn, kind, payload, at, wire).0;
    var log, log' := Log(h, s), Log(h', s);
    if Ended(log, t) {
      var i :| 0 <= i < |log| && log[i].turn == t && IsTerminal(log[i].kind);
      assert log'[i] == log[i];
    }
    if s == session && t == turn && IsTerminal(kind) {
      assert log'[|log|].turn == t;
    }
  }

  lemma EmitKeys(h: Hub, session: string, turn: string, kind: EventType, payload: string, at: string, wire: Wire)
    requires KeysExact(h) && TurnKey(session, turn) !in h.terminals
    ensures KeysExact(Emit(h, session, turn, kind, payload, at, wire).0)
  {
    var h' := Emit(h, session, turn, kind, payload, at, wire).0;
    forall s, t
      ensures Ended(Log(h', s), t) <==> Ended(Log(h, s), t) || (s == session && t == turn && IsTerminal(kind))
    {
      EmitEnds(h, session, turn, kind, payload, at, wire, s, t);
    }
    hide Ended, Log, TurnKey;
    forall k | k in h'.terminals
      ensures exists s, t :: Ended(Log(h', s), t) && TurnKey(s, t) == k
    {
      if k in h.terminals {
        var s, t :| Ended(Log(h, s), t) && TurnKey(s, t) == k;
        assert Ended(Log(h', s), t);
      } else {
        assert Ended(Log(h', session), turn);
      }
    }
  }

  lemma AppendKeeps(log: seq<AgentEvent>, e: AgentEvent, session: string)
    requires Numbered(log, session) && TerminalsLast(log) && !Ended(log, e.turn)
    requires e.sequence == |log| + 1 && e.id == EventId(|log| + 1, session) && e.session == session
    ensures Numbered(log + [e], session) && TerminalsLast(log + [e])
  {
    hide EventId;
  }

  /** An emit either is refused and changes nothing, or appends one event to its own session. */
  lemma EmitKeeps(h: Hub, session: string, turn: string, kind: EventType, payload: string, at: string, wire: Wire)
    requires HubOk(h)
    ensures var (h', ok) := Emit(h, session, turn, kind, payload, at, wire);
            && HubOk(h')
            && (!ok ==> h' == h)
            && (ok ==> |Log(h', session)| == |Log(h, session)| + 1 && Log(h, session) <= Log(h', session)
                       && Log(h', session)[|Log(h, session)|] ==
                            AgentEvent(|Log(h, session)| + 1, Decimal.ToText(|Log(h, session)| + 1) + "-" + session,
                                       session, turn, at, kind, payload, wire))
            && (forall s :: s != session ==> Log(h', s) == Log(h, s))
  {
    var (h', ok) := Emit(h, session, turn, kind, payload, at, wire);
    if ok {
      EmitKeys(h, session, turn, kind, payload, at, wire);
      assert !Ended(Log(h, session), turn);
      AppendKeeps(Log(h, session), Log(h', session)[|Log(h, session)|], session);
      hide KeysExact, Ended, Numbered, TerminalsLast;
      assert forall s :: s != session ==> Log(h', s) == Log(h, s);
    }
  }

  lemma EmitElsewhere(h: Hub, session: string, turn: string, kind: EventType, payload: string, at: string, wire: Wire)
    requires HubOk(h)
    ensures var (h', ok) := Emit(h, session, turn, kind, payload, at, wire);
            HubOk(h') && (!ok ==> h' == h) && forall s :: s != session ==> Log(h', s) == Log(h, s)
  {
    EmitKeeps(h, session, turn, kind, payload, at, wire);
    hide HubOk;
  }

  /** A turn ends with its first completed or failed event and with nothing else: after an accepted emit the turn takes
      no further event exactly when that emit was one of the two. */
  lemma TurnEndsExactly(h: Hub, session: string, turn: string, kind: EventType, payload: string, at: string, wire: Wire,
                        kind': EventType, payload': string, at': string, wire': Wire)
    requires Emit(h, session, turn, kind, payload, at, wire).1
    ensures var h' := Emit(h, session, turn, kind, payload, at, wire).0;
            Emit(h', session, turn, kind', payload', at', wire').1 <==> !(kind == TurnCompleted || kind == TurnFailed)
  {
  }

  /** The terminal key joins session and turn with a colon, so two different turns can share one: a
      session named "a:b" ending its turn "c" silences turn "b:c" of session "a". */
  lemma KeysCanCollide()
    ensures TurnKey("a:b", "c") == TurnKey("a", "b:c")
    ensures var h := Emit(Hub(map[], {}), "a:b", "c", TurnCompleted, "", "", Wire("", 0)).0;
            !Ended(Log(h, "a"), "b:c") && !Emit(h, "a", "b:c", TurnStarted, "", "", Wire("", 0)).1
  {
  }

  /** Neither session id is the other followed by a colon and more. Ids without a colon, such as the
      registry's base64url ids, are apart from each other. */
  predicate Apart(s: string, s': string) {
    !(s + ":" <= s') && !(s' + ":" <= s)
  }

  lemma NoColonsApart(s: string, s': string)
    requires ':' !in s && ':' !in s'
    ensures Apart(s, s')
  {
    if s + ":" <= s' {
      ColonInside(s, s');
    }
    if s' + ":" <= s {
      ColonInside(s', s);
    }
  }

  lemma ColonInside(s: string, s': string)
    requires s + ":" <= s'
    ensures ':' in s'
  {
    assert s'[|s|] == (s + ":")[|s|];
  }

  /** Turns of two sessions can share a key exactly when the session ids are not apart. */
  lemma KeysCollideExactly(s: string, s': string)
    requires s != s'
    ensures (exists t, t' :: TurnKey(s, t) == TurnKey(s', t')) <==> !Apart(s, s')
  {
    if t, t' :| TurnKey(s, t) == TurnKey(s', t') {
      SharedKey(s, t, s', t');
    }
    if !Apart(s, s') {
      var t, t' := CollidingTurns(s, s');
      assert TurnKey(s, t) == TurnKey(s', t');
    }
  }

  lemma SharedKey(s: string, t: string, s': string, t': string)
    requires TurnKey(s, t) == TurnKey(s', t')
    ensures (s == s' && t == t') || !Apart(s, s')
  {
    var k := TurnKey(s, t);
    assert s + ":" == k[..|s| + 1] && s' + ":" == k[..|s'| + 1] && s == k[..|s|] && s' == k[..|s'|];
    assert t == k[|s| + 1..] && t' == k[|s'| + 1..];
  }

  lemma CollidingTurns(s: string, s': string) returns (t: string, t': string)
    requires !Apart(s, s')
    ensures TurnKey(s, t) == TurnKey(s', t')
  {
    if s + ":" <= s' {
      t, t' := s'[|s| + 1..] + ":", "";
      assert s' == s + ":" + s'[|s| + 1..];
    } else {
      t, t' := "", s[|s'| + 1..] + ":";
      assert s == s' + ":" + s[|s'| + 1..];
    }
  }

  /** For session ids that are apart, an emit is refused exactly when its own turn has ended. */
  lemma RefusedExactlyWhenEnded(h: Hub, session: string, turn: string, kind: EventType, payload: string, at: string,
                                wire: Wire)
    requires HubOk(h) && forall s :: s in h.logs && s != session ==> Apart(s, session)
    ensures Emit(h, session, turn, kind, payload, at, wire).1 <==> !Ended(Log(h, session), turn)
  {
    if TurnKey(session, turn) in h.terminals {
      var s, t :| Ended(Log(h, s), t) && TurnKey(s, t) == TurnKey(session, turn);
      SharedKey(s, t, session, turn);
    }
  }

  /** For any two session ids that are not apart, ending some turn of one silences a turn of the other
      that never ended. */
  lemma CollisionSilences(s: string, s': string, at: string, wire: Wire) returns (t: string, t': string)
    requires s != s' && !Apart(s, s')
    ensures var h := Emit(Hub(map[], {}), s', t', TurnCompleted, "", at, wire).0;
            !Ended(Log(h, s), t) && !Emit(h, s, t, TurnStarted, "", at, wire).1
  {
    t, t' := CollidingTurns(s, s');
  }

  // ---------------------------------------------------------------- reconnection

  /** `replay`; None is the answer EVICTED. */
  ghost function Replay(h: Hub, session: string, last: Option<string>): Option<seq<AgentEvent>> {
    var ring := Retained(Log(h, session));
    match last
    case None => Some(ring)
    case Some(id) => if exists i :: 0 <= i < |ring| && ring[i].id == id then Some(After(ring, id)) else None
  }

  lemma {:induction false} AfterIndex(es: seq<AgentEvent>, i: nat)
    requires i < |es| && forall j :: 0 <= j < i ==> es[j].id != es[i].id
    ensures After(es, es[i].id) == es[i + 1..]
  {
    if i > 0 {
      AfterIndex(es[1..], i - 1);
    }
  }

  lemma IdsDiffer(log: seq<AgentEvent>, session: string)
    requires Numbered(log, session)
    ensures forall a, b :: 0 <= a < |log| && 0 <= b < |log| && log[a].id == log[b].id ==> a == b
  {
    forall a, b | 0 <= a < |log| && 0 <= b < |log| && log[a].id == log[b].id
      ensures a == b
    {
      EventIdInjective(a + 1, b + 1, session);
    }
  }

  /** Gapless replay: naming event `i` of the session's log answers EVICTED exactly when the event lies
      outside the retained suffix, and otherwise everything after it, in order and once. */
  lemma ReplayContinues(h: Hub, session: string, i: nat)
    requires HubOk(h) && i < |Log(h, session)|
    ensures var log := Log(h, session);
            Replay(h, session, Some(log[i].id)) == if Start(log) <= i then Some(log[i + 1..]) else None
  {
    hide Start, After, KeysExact, TerminalsLast;
    var log, k := Log(h, session), Start(Log(h, session));
    var ring := log[k..];
    IdsDiffer(log, session);
    hide Numbered;
    if k <= i {
      assert ring[i - k] == log[i];
      AfterIndex(ring, i - k);
      assert ring[i - k + 1..] == log[i + 1..];
    } else {
      forall j | 0 <= j < |ring|
        ensures ring[j].id != log[i].id
      {
        assert ring[j] == log[k + j];
      }
    }
  }

  lemma {:induction false} AfterIsSuffix(es: seq<AgentEvent>, id: string)
    ensures |After(es, id)| <= |es| && After(es, id) == es[|es| - |After(es, id)|..]
  {
    if es != [] && es[0].id != id {
      AfterIsSuffix(es[1..], id);
    }
  }

  /** Whatever a replay answers is the end of the log. */
  lemma ReplayIsSuffix(h: Hub, session: string, last: Option<string>)
    ensures var log, answer := Log(h, session), Replay(h, session, last);
            answer.Some? ==> |answer.value| <= |log| && answer.value == log[|log| - |answer.value|..]
  {
    var log := Log(h, session);
    if last.Some? {
      AfterIsSuffix(Retained(log), last.value);
    }
  }

  /** An id that names no event of this session, another session's ids included, is EVICTED. */
  lemma ForeignIdEvicted(h: Hub, session: string, id: string)
    requires forall i :: 0 <= i < |Log(h, session)| ==> Log(h, session)[i].id != id
    ensures Replay(h, session, Some(id)).None?
  {
    var log := Log(h, session);
    var ring := log[Start(log)..];
    forall i | 0 <= i < |ring|
      ensures ring[i].id != id
    {
      assert ring[i] == log[Start(log) + i];
    }
  }

  // ---------------------------------------------------------------- cancelling

  /** The running turn of each session and the keys of turns that a cancel found or made terminal. */
  datatype Coordinator = Coordinator(active: map<string, string>, ended: set<string>)

  datatype CancelResult = Cancelled | UnknownTurn | NotActive | SessionGone

  const CANCELLED_PAYLOAD := "{\"terminal_state\":\"cancelled\"}"

  /** The coordinator beside an optional hub. */
  datatype State = State(hub: Option<Hub>, coordinator: Coordinator)

  function EmitTerminal(hub: Option<Hub>, session: string, turn: string, at: string, wire: Wire): (Option<Hub>, bool) {
    match hub
    case None => (None, false)
    case Some(h) =>
      var (h', ok) := Emit(h, session, turn, TurnCompleted, CANCELLED_PAYLOAD, at, wire);
      (Some(h'), ok)
  }

  /** `cancel`; `live` is the registry's answer that the session is active. */
  function Cancel(st: State, live: bool, session: string, turn: string, at: string, wire: Wire): (State, CancelResult) {
    var c := st.coordinator;
    if !live then (st, SessionGone)
    else if session !in c.active then (st, if TurnKey(session, turn) in c.ended then NotActive else UnknownTurn)
    else if c.active[session] != turn then (st, UnknownTurn)
    else
      var (hub', ok) := EmitTerminal(st.hub, session, turn, at, wire);
      (State(hub', Coordinator(c.active - {session}, c.ended + {TurnKey(session, turn)})),
       if ok then Cancelled else NotActive)
  }

  /** A cancel reports success exactly when this call appended the turn's terminal event; a losing
      cancel appends nothing anywhere. */
  lemma CancelExact(st: State, live: bool, session: string, turn: string, at: string, wire: Wire)
    requires st.hub.Some? && HubOk(st.hub.value)
    ensures var (st', r) := Cancel(st, live, session, turn, at, wire);
            && st'.hub.Some? && HubOk(st'.hub.value)
            && (r.Cancelled? <==> st'.hub != st.hub)
            && (r.Cancelled? ==>
                  var log, log' := Log(st.hub.value, session), Log(st'.hub.value, session);
                  && live && session in st.coordinator.active && st.coordinator.active[session] == turn
                  && !Ended(log, turn)
                  && |log'| == |log| + 1 && log <= log'
                  && log'[|log|].turn == turn && log'[|log|].kind.TurnCompleted?
                     && log'[|log|].payload == CANCELLED_PAYLOAD
                  && (forall s :: s != session ==> Log(st'.hub.value, s) == Log(st.hub.value, s)))
  {
    EmitKeeps(st.hub.value, session, turn, TurnCompleted, CANCELLED_PAYLOAD, at, wire);
    var (st', r) := Cancel(st, live, session, turn, at, wire);
    if r.Cancelled? {
      assert |Log(st'.hub.value, session)| != |Log(st.hub.value, session)|;
    }
    hide HubOk;
    assert HubOk(st.hub.value);
  }

  /** Which answer a cancel gets, for sessions that are apart: gone for an inactive session; success exactly for the
      session's active turn that has not ended; "not active" for an active turn that has ended, and for a turn that an
      earlier cancel settled while no turn is active; and "unknown" for any other turn. A cancel of the active turn
      settles it either way. */
  lemma CancelAnswers(st: State, live: bool, session: string, turn: string, at: string, wire: Wire)
    requires st.hub.Some? && HubOk(st.hub.value)
    requires forall s :: s in st.hub.value.logs && s != session ==> Apart(s, session)
    ensures var (st', r) := Cancel(st, live, session, turn, at, wire);
            var c := st.coordinator;
            var isActive := session in c.active && c.active[session] == turn;
            && (r.SessionGone? <==> !live)
            && (r.Cancelled? <==> live && isActive && !Ended(Log(st.hub.value, session), turn))
            && (r.NotActive? <==> live && ((isActive && Ended(Log(st.hub.value, session), turn))
                                           || (session !in c.active && TurnKey(session, turn) in c.ended)))
            && st'.coordinator == (if live && isActive
                                   then Coordinator(c.active - {session}, c.ended + {TurnKey(session, turn)})
                                   else c)
  {
    RefusedExactlyWhenEnded(st.hub.value, session, turn, TurnCompleted, CANCELLED_PAYLOAD, at, wire);
    hide HubOk, Emit, Ended, Log;
  }

  // ---------------------------------------------------------------- whole runs

  datatype Call =
    | EmitCall(session: string, turn: string, kind: EventType, payload: string, at: string, wire: Wire)
    | RegisterCall(session: string, turn: string)
    | CancelCall(live: bool, session: string, turn: string, at: string, wire: Wire)

  function Step(st: State, c: Call): State
    requires st.hub.Some?
  {
    match c
    case EmitCall(s, t, kind, payload, at, wire) =>
      st.(hub := Some(Emit(st.hub.value, s, t, kind, payload, at, wire).0))
    case RegisterCall(s, t) => st.(coordinator := st.coordinator.(active := st.coordinator.active[s := t]))
    case CancelCall(live, s, t, at, wire) => Cancel(st, live, s, t, at, wire).0
  }

  const EMPTY_STATE := State(Some(Hub(map[], {})), Coordinator(map[], {}))

  ghost predicate Run(states: seq<State>, calls: seq<Call>) {
    && |states| == |calls| + 1
    && states[0] == EMPTY_STATE
    && (forall i :: 0 <= i < |calls| ==> states[i].hub.Some? && states[i + 1] == Step(states[i], calls[i]))
  }

  lemma StepKeeps(st: State, c: Call)
    requires st.hub.Some? && HubOk(st.hub.value)
    ensures var st' := Step(st, c);
            st'.hub.Some? && HubOk(st'.hub.value) && forall s :: Log(st.hub.value, s) <= Log(st'.hub.value, s)
  {
    hide HubOk;
    match c
    case EmitCall(s, t, kind, payload, at, wire) => EmitKeeps(st.hub.value, s, t, kind, payload, at, wire);
    case RegisterCall(s, t) =>
    case CancelCall(live, s, t, at, wire) =>
      CancelExact(st, live, s, t, at, wire);
      EmitKeeps(st.hub.value, s, t, TurnCompleted, CANCELLED_PAYLOAD, at, wire);
  }

  /** In every run of emitters and racing cancels, every session's events are numbered 1..n and a turn
      has at most one terminal event, which is its last event. */
  lemma {:induction false} OneTerminalPerTurn(states: seq<State>, calls: seq<Call>, k: nat)
    requires Run(states, calls) && k <= |calls|
    ensures states[k].hub.Some? && HubOk(states[k].hub.value)
  {
    hide HubOk, Step;
    if k == 0 {
      EmptyOk();
    } else {
      OneTerminalPerTurn(states, calls, k - 1);
      StepKeeps(states[k - 1], calls[k - 1]);
    }
  }

  lemma EmptyOk()
    ensures HubOk(EMPTY_STATE.hub.value)
  {
  }

  /** Logs only grow, so what a client has already received never changes under it. */
  lemma {:induction false} LogsOnlyGrow(states: seq<State>, calls: seq<Call>, i: nat, k: nat, session: string)
    requires Run(states, calls) && i <= k <= |calls|
    ensures states[i].hub.Some? && states[k].hub.Some?
    ensures Log(states[i].hub.value, session) <= Log(states[k].hub.value, session)
    decreases k - i
  {
    OneTerminalPerTurn(states, calls, i);
    hide HubOk, Step, Log;
    if i < k {
      StepKeeps(states[i], calls[i]);
      LogsOnlyGrow(states, calls, i + 1, k, session);
    }
  }

  /** At most one cancel of a turn ever succeeds, and none after the turn has ended otherwise. */
  lemma CancelSucceedsOnce(states: seq<State>, calls: seq<Call>, i: nat, k: nat)
    requires Run(states, calls) && i < k < |calls| && calls[k].CancelCall?
    requires states[i + 1].hub.Some? && Ended(Log(states[i + 1].hub.value, calls[k].session), calls[k].turn)
    ensures states[k + 1].hub == states[k].hub
    ensures !Cancel(states[k], calls[k].live, calls[k].session, calls[k].turn, calls[k].at, calls[k].wire).1.Cancelled?
  {
    var s, t := calls[k].session, calls[k].turn;
    LogsOnlyGrow(states, calls, i + 1, k, s);
    OneTerminalPerTurn(states, calls, k);
    hide HubOk;
    var log, later := Log(states[i + 1].hub.value, s), Log(states[k].hub.value, s);
    var x :| 0 <= x < |log| && log[x].turn == t && IsTerminal(log[x].kind);
    assert later[x] == log[x];
    CancelExact(states[k], calls[k].live, s, t, calls[k].at, calls[k].wire);
  }

  /** A client that read up to event `i` and names it when it reconnects any number of steps later gets,
      unless the event has left the ring, exactly the rest of the log: what it had, followed by what it
      gets, is the whole log. */
  lemma ReconnectLosesNothing(states: seq<State>, calls: seq<Call>, j: nat, k: nat, session: string, i: nat)
    requires Run(states, calls) && j <= k <= |calls|
    requires states[j].hub.Some? && i < |Log(states[j].hub.value, session)|
    ensures states[k].hub.Some?
    ensures var had, log := Log(states[j].hub.value, session)[..i + 1], Log(states[k].hub.value, session);
            var answer := Replay(states[k].hub.value, session, Some(had[i].id));
            && (answer.None? <==> i < Start(log))
            && (answer.Some? ==> had + answer.value == log)
  {
    LogsOnlyGrow(states, calls, j, k, session);
    OneTerminalPerTurn(states, calls, k);
    hide HubOk, Start, Replay, Run, Log;
    ReconnectNow(states[k].hub.value, session, Log(states[j].hub.value, session), i);
  }

  lemma ReconnectNow(h: Hub, session: string, earlier: seq<AgentEvent>, i: nat)
    requires HubOk(h) && earlier <= Log(h, session) && i < |earlier|
    ensures var had, answer := earlier[..i + 1], Replay(h, session, Some(earlier[i].id));
            && (answer.None? <==> i < Start(Log(h, session)))
            && (answer.Some? ==> had + answer.value == Log(h, session))
  {
    ReplayContinues(h, session, i);
    hide HubOk, Start, Replay;
    var log := Log(h, session);
    assert earlier[i] == log[i] && earlier[..i + 1] == log[..i + 1];
    assert log == log[..i + 1] + log[i + 1..];
  }
}
