/** Cancelling a turn against the hub's terminal set, as an object. */
module CancelCoordinator {
  import opened Base
  import opened EventRing
  import opened EventHub
  import S = SseHub

  class CancelCoordinator {
    const hub: S.SseHub?
    var activeTurns: map<string, string>
    var terminalTurns: set<string>

    ghost function State(): EventHub.State
      reads this, hub, (if hub != null then {hub.journal} else {})
    {
      EventHub.State(if hub == null then None else Some(hub.journal.Hub()), Coordinator(activeTurns, terminalTurns))
    }

    ghost predicate Valid()
      reads this, hub
      reads if hub != null then {hub.journal} + hub.journal.owned + hub.clients else {}
    {
      hub != null ==> hub.Valid()
    }

    constructor (events: S.SseHub?)
      requires events != null ==> events.Valid()
      ensures Valid() && hub == events && activeTurns == map[] && terminalTurns == {}
    {
      hub, activeTurns, terminalTurns := events, map[], {};
    }

    method RegisterActiveTurn(session: string, turn: string)
      requires Valid()
      modifies `activeTurns
      ensures Valid() && activeTurns == old(activeTurns)[session := turn]
    {
      activeTurns := activeTurns[session := turn];
    }

    method EmitTerminal(session: string, turn: string, at: string, wire: Wire) returns (ok: bool)
      requires Valid()
      modifies if hub != null then {hub.journal} + hub.journal.owned + hub.clients else {}
      ensures Valid()
      ensures (State().hub, ok) == EventHub.EmitTerminal(old(State()).hub, session, turn, at, wire)
      ensures activeTurns == old(activeTurns) && terminalTurns == old(terminalTurns)
    {
      hide Holds, HubOk, Emit, Log, S.StreamOk, S.AudienceOk, S.ClientsOk;
      if hub == null {
        return false;
      }
      ok := hub.Emit(session, turn, TurnCompleted, CANCELLED_PAYLOAD, at, wire);
    }

    /** `cancel`; `live` is the registry's answer that the session is active. */
    method Cancel(live: bool, session: string, turn: string, at: string, wire: Wire) returns (r: CancelResult)
      requires Valid()
      modifies this, if hub != null then {hub.journal} + hub.journal.owned + hub.clients else {}
      ensures Valid()
      ensures (State(), r) == EventHub.Cancel(old(State()), live, session, turn, at, wire)
    {
      hide Holds, HubOk, Emit, Log, S.StreamOk, S.AudienceOk, S.ClientsOk, EventHub.EmitTerminal;
      if !live {
        return SessionGone;
      }
      if session !in activeTurns {
        return if TurnKey(session, turn) in terminalTurns then NotActive else UnknownTurn;
      }
      if activeTurns[session] != turn {
        return UnknownTurn;
      }
      var emitted := EmitTerminal(session, turn, at, wire);
      activeTurns := activeTurns - {session};
      terminalTurns := terminalTurns + {TurnKey(session, turn)};
      r := if emitted then Cancelled else NotActive;
    }
  }
}
