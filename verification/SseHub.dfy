/** The event hub as objects: one ring per session, and one back-pressured queue per attached client. */
module SseHub {
  import opened Base
  import opened EventRing
  import EventHub

  const RETRY := "retry: 3000\n\n"

  function TypeName(t: EventType): string {
    match t
    case SessionStarted => "session.started"
    case TurnStarted => "turn.started"
    case MessageDelta => "message.delta"
    case ToolStarted => "tool.started"
    case ToolCompleted => "tool.completed"
    case ApprovalRequired => "approval.required"
    case ApprovalResolved => "approval.resolved"
    case ArtifactFinal => "artifact.final"
    case TurnCompleted => "turn.completed"
    case TurnFailed => "turn.failed"
  }

  /** One event on the wire. */
  function Frame(e: AgentEvent): string {
    "id: " + e.id + "\nevent: " + TypeName(e.kind) + "\ndata: " + e.wire.text + "\n\n"
  }

  /** The lines of a text. */
  function Lines(s: string): (ls: seq<string>)
    ensures ls != []
  {
    if s == "" then [""]
    else
      var rest := Lines(s[1..]);
      if s[0] == '\n' then [""] + rest else [[s[0]] + rest[0]] + rest[1..]
  }

  lemma {:induction false} LinesJoin(a: string, b: string)
    requires '\n' !in a
    ensures Lines(a + "\n" + b) == [a] + Lines(b)
  {
    var s := a + "\n" + b;
    if a == "" {
      assert s[1..] == b;
    } else {
      assert a == [a[0]] + a[1..] && s[1..] == a[1..] + "\n" + b && s[0] == a[0];
      LinesJoin(a[1..], b);
    }
  }

  /** What a client reads in a frame (section 9.2.6 of the WHATWG HTML Standard): an id line, an event line and a data
      line with exactly the event's id, type and JSON text, and the blank line that dispatches them. */
  lemma FrameReadsBack(e: AgentEvent)
    requires '\n' !in e.id && '\n' !in e.wire.text
    ensures Lines(Frame(e)) == ["id: " + e.id, "event: " + TypeName(e.kind), "data: " + e.wire.text, "", ""]
  {
    hide Lines;
    var data, kind := "data: " + e.wire.text, "event: " + TypeName(e.kind);
    assert Frame(e) == ("id: " + e.id) + "\n" + (kind + "\n" + (data + "\n" + ("" + "\n" + "")));
    LinesJoin("id: " + e.id, kind + "\n" + (data + "\n" + ("" + "\n" + "")));
    NoBreak(e.kind);
    LinesJoin(kind, data + "\n" + ("" + "\n" + ""));
    LinesJoin(data, "" + "\n" + "");
    LinesJoin("", "");
    assert Lines("") == [""] by { NoLines(); }
  }

  lemma NoLines()
    ensures Lines("") == [""]
  {
  }

  lemma NoBreak(t: EventType)
    ensures '\n' !in "event: " + TypeName(t)
  {
    match t
    case SessionStarted =>
    case TurnStarted =>
    case MessageDelta =>
    case ToolStarted =>
    case ToolCompleted =>
    case ApprovalRequired =>
    case ApprovalResolved =>
    case ArtifactFinal =>
    case TurnCompleted =>
    case TurnFailed =>
  }

  /** Event types keep their names apart. */
  lemma TypeNamesDiffer(a: EventType, b: EventType)
    requires TypeName(a) == TypeName(b)
    ensures a == b
  {
    assert TypeName(a)[|TypeName(a)| - 2] == TypeName(b)[|TypeName(b)| - 2];
    assert TypeName(a)[0] == TypeName(b)[0];
  }

  function Frames(es: seq<AgentEvent>): (fs: seq<string>)
    ensures |fs| == |es| && forall i :: 0 <= i < |fs| ==> fs[i] == Frame(es[i])
  {
    seq(|es|, i requires 0 <= i < |es| => Frame(es[i]))
  }

  /** A client connection. `response.write` may report at any time that its buffer is full; what it
      was given is still written, and a `drain` event follows later. */
  class Attachment {
    var queue: seq<string>
    var draining: bool
    /** What the response was given so far, and what the hub meant the client to get. */
    ghost var written: seq<string>
    ghost var sent: seq<string>
    /** The client's session, and the position in its log at which the client's stream begins. */
    ghost const session: string
    ghost const from: nat

    ghost predicate Valid()
      reads this
    {
      written + queue == sent && (!draining ==> queue == [])
    }

    constructor (ghost owner: string, ghost start: nat)
      ensures Valid() && sent == [] && session == owner && from == start && !draining
    {
      queue, draining, written, sent, session, from := [], false, [], [], owner, start;
    }

    method Write(text: string)
      requires Valid()
      modifies this
      ensures Valid() && sent == old(sent) + [text]
      ensures !old(draining) ==> written == old(written) + [text]
      ensures old(written) <= written
    {
      sent := sent + [text];
      if draining {
        queue := queue + [text];
        return;
      }
      written := written + [text];
      var room: bool := *;
      if !room {
        draining := true;
      }
    }

    /** The `drain` handler: offer everything queued again, in order; a refusal in the middle queues the
        rest again. Nothing is lost, repeated or reordered, and at least one item gets through. */
    method Drain()
      requires Valid() && draining
      modifies this
      ensures Valid() && sent == old(sent)
      ensures old(written) <= written
      ensures old(queue) != [] ==> |written| > |old(written)|
    {
      draining := false;
      var queued := queue;
      queue := [];
      sent := written;
      for i := 0 to |queued|
        invariant Valid() && sent == old(written) + queued[..i]
        invariant old(written) <= written && (i == 0 ==> !draining) && (i > 0 ==> |written| > |old(written)|)
      {
        assert queued[..i + 1] == queued[..i] + [queued[i]];
        Write(queued[i]);
      }
      assert queued[..|queued|] == queued;
    }
  }

  /** Hand one text to every client of the audience. */
  method Broadcast(audience: set<Attachment>, text: string)
    requires forall a :: a in audience ==> a.Valid()
    modifies audience
    ensures forall a :: a in audience ==> a.Valid() && a.sent == old(a.sent) + [text]
  {
    var todo := audience;
    while todo != {}
      invariant todo <= audience
      invariant forall a :: a in todo ==> a.Valid() && a.sent == old(a.sent)
      invariant forall a :: a in audience - todo ==> a.Valid() && a.sent == old(a.sent) + [text]
      decreases |todo|
    {
      var a :| a in todo;
      a.Write(text);
      todo := todo - {a};
    }
  }

  ghost predicate RingOk(ring: SessionEventRing, session: string, log: seq<AgentEvent>)
    reads ring
  {
    ring.Valid() && ring.session == session && ring.log == log
  }

  /** Each ring retains the end of its session's log, for every session but perhaps one. */
  ghost predicate RingsOk(rings: map<string, SessionEventRing>, logs: map<string, seq<AgentEvent>>,
                          owned: set<SessionEventRing>, but: set<string>)
    reads owned
  {
    forall s :: s in logs && s !in but ==> s in rings && rings[s] in owned && RingOk(rings[s], s, logs[s])
  }

  /** Rings and counters exist for the sessions with a log, and each counter counts its log. */
  ghost predicate CountersOk(rings: map<string, SessionEventRing>, sequences: map<string, nat>,
                             logs: map<string, seq<AgentEvent>>, but: set<string>) {
    && (forall s :: s !in but && (s in rings || s in sequences) ==> s in logs)
    && (forall s :: s in logs && s !in but ==> s in sequences && sequences[s] == |logs[s]|)
  }

  lemma RingPut(rings: map<string, SessionEventRing>, logs: map<string, seq<AgentEvent>>, owned: set<SessionEventRing>,
                session: string, ring: SessionEventRing)
    requires RingsOk(rings, logs, owned, {session}) && session in logs && ring in owned
    requires RingOk(ring, session, logs[session])
    ensures RingsOk(rings[session := ring], logs, owned, {})
  {
    hide RingOk;
  }

  lemma CounterPut(rings: map<string, SessionEventRing>, sequences: map<string, nat>, logs: map<string,
                   seq<AgentEvent>>,
                   session: string, ring: SessionEventRing)
    requires CountersOk(rings, sequences, logs, {session}) && session in logs
    ensures CountersOk(rings[session := ring], sequences[session := |logs[session]|], logs, {})
  {
  }

  lemma NextSequence(rings: map<string, SessionEventRing>, sequences: map<string, nat>,
                     logs: map<string, seq<AgentEvent>>, session: string)
    requires CountersOk(rings, sequences, logs, {})
    ensures session in sequences <==> session in logs
    ensures session in logs ==> sequences[session] == |logs[session]|
  {
  }

  /** The hub's rings, counters and terminal set. */
  class Journal {
    var rings: map<string, SessionEventRing>
    var sequences: map<string, nat>
    var terminals: set<string>
    /** Everything ever emitted, session by session, and the rings this journal made. */
    ghost var logs: map<string, seq<AgentEvent>>
    ghost var owned: set<SessionEventRing>

    ghost function Hub(): EventHub.Hub
      reads this
    {
      EventHub.Hub(logs, terminals)
    }

    /** Each ring retains the end of its session's log, and the counter counts it. */
    ghost predicate Valid()
      reads this, owned
    {
      RingsOk(rings, logs, owned, {}) && CountersOk(rings, sequences, logs, {})
    }

    /** The same for every session but one. */
    ghost predicate ValidBut(session: string)
      reads this, owned
    {
      RingsOk(rings, logs, owned, {session}) && CountersOk(rings, sequences, logs, {session})
    }

    constructor ()
      ensures Valid() && Hub() == EventHub.EMPTY_STATE.hub.value && owned == {}
    {
      rings, sequences, terminals, logs, owned := map[], map[], {}, map[], {};
    }

    /** The session's ring, made on first use. */
    method RingFor(session: string) returns (ring: SessionEventRing)
      requires Valid()
      modifies `owned
      ensures Valid() && ring in owned && old(owned) <= owned && fresh(owned - old(owned))
      ensures RingOk(ring, session, EventHub.Log(Hub(), session))
    {
      hide Holds;
      if session in rings {
        ring := rings[session];
        assert RingOk(ring, session, logs[session]);
      } else {
        ring := new SessionEventRing(session);
        owned := owned + {ring};
      }
    }

    method Keep(session: string, ring: SessionEventRing, sequence: nat)
      requires ValidBut(session) && session in logs && ring in owned && RingOk(ring, session, logs[session])
      requires sequence == |logs[session]|
      modifies `rings, `sequences
      ensures Valid()
    {
      hide RingOk, RingsOk, CountersOk;
      RingPut(rings, logs, owned, session, ring);
      CounterPut(rings, sequences, logs, session, ring);
      rings, sequences := rings[session := ring], sequences[session := sequence];
    }

    ghost method Note(session: string, log: seq<AgentEvent>)
      requires ValidBut(session)
      modifies `logs
      ensures ValidBut(session) && logs == old(logs)[session := log]
    {
      hide RingOk;
      logs := logs[session := log];
    }

    method Store(session: string, event: AgentEvent)
      requires Valid() && event.sequence == |EventHub.Log(Hub(), session)| + 1
      modifies this, owned
      ensures Valid() && fresh(owned - old(owned)) && terminals == old(terminals)
      ensures logs == old(logs)[session := EventHub.Log(old(Hub()), session) + [event]]
    {
      hide Holds, EventHub.Log;
      ghost var log := EventHub.Log(Hub(), session);
      var ring := RingFor(session);
      var _, _ := ring.Append(event);
      Note(session, log + [event]);
      Keep(session, ring, event.sequence);
    }

    /** The part of `emit` before the event goes out: refuse an ended turn, number, store, mark. */
    method Record(session: string, turn: string, kind: EventType, payload: string, at: string, wire: Wire)
      returns (event: Option<AgentEvent>)
      requires Valid()
      modifies this, owned
      ensures Valid() && fresh(owned - old(owned))
      ensures (Hub(), event.Some?) == EventHub.Emit(old(Hub()), session, turn, kind, payload, at, wire)
      ensures event.Some? ==> EventHub.Log(Hub(), session) == EventHub.Log(old(Hub()), session) + [event.value]
    {
      hide Holds, RingOk, RingsOk, CountersOk, EventId;
      NextSequence(rings, sequences, logs, session);
      var key := EventHub.TurnKey(session, turn);
      if key in terminals {
        return None;
      }
      var sequence := 1 + (if session in sequences then sequences[session] else 0);
      var e := AgentEvent(sequence, EventId(sequence, session), session, turn, at, kind, payload, wire);
      Store(session, e);
      if kind.TurnCompleted? || kind.TurnFailed? {
        terminals := terminals + {key};
      }
      event := Some(e);
    }

    /** `replay`; None is EVICTED. */
    method Replay(session: string, last: Option<string>) returns (r: Option<seq<AgentEvent>>)
      requires Valid()
      ensures r == EventHub.Replay(Hub(), session, last)
    {
      hide Total, Retained;
      if session !in rings {
        NothingRetained();
        return if last.Some? then None else Some([]);
      }
      var ring := rings[session];
      assert RingOk(ring, session, logs[session]);
      assert Events(ring.events) == Retained(EventHub.Log(Hub(), session));
      if last.Some? {
        var found := ring.Has(last.value);
        if !found {
          return None;
        }
      }
      var events := ring.Replay(last);
      r := Some(events);
    }
  }

  /** What was sent to a client is the retry hint and then the session's log from where it joined. */
  ghost predicate StreamOk(a: Attachment, session: string, log: seq<AgentEvent>)
    reads a
  {
    a.Valid() && a.session == session && a.from <= |log| && a.sent == [RETRY] + Frames(log[a.from..])
  }

  ghost predicate AudienceOk(audience: set<Attachment>, session: string, log: seq<AgentEvent>)
    reads audience
  {
    forall a :: a in audience ==> StreamOk(a, session, log)
  }

  ghost predicate ClientsOk(attachments: map<string, set<Attachment>>, clients: set<Attachment>, hub: EventHub.Hub)
    reads clients
  {
    forall s :: s in attachments ==> attachments[s] <= clients && AudienceOk(attachments[s], s, EventHub.Log(hub, s))
  }

  lemma NothingRetained()
    ensures Retained([]) == []
  {
  }

  class SseHub {
    const journal: Journal
    var attachments: map<string, set<Attachment>>
    ghost var clients: set<Attachment>

    ghost predicate Valid()
      reads this, journal, journal.owned, clients
    {
      journal.Valid() && EventHub.HubOk(journal.Hub()) && ClientsOk(attachments, clients, journal.Hub())
    }

    constructor ()
      ensures Valid() && fresh(journal) && journal.owned == {} && clients == {}
      ensures journal.Hub() == EventHub.EMPTY_STATE.hub.value
    {
      journal := new Journal();
      attachments, clients := map[], {};
      new;
      EventHub.EmptyOk();
    }

    method Emit(session: string, turn: string, kind: EventType, payload: string, at: string,
                wire: Wire) returns (ok: bool)
      requires Valid()
      modifies journal, journal.owned, clients
      ensures Valid() && fresh(journal.owned - old(journal.owned))
      ensures (journal.Hub(), ok) == EventHub.Emit(old(journal.Hub()), session, turn, kind, payload, at, wire)
    {
      hide Holds, EventHub.HubOk, EventHub.Emit, EventHub.Log, StreamOk, AudienceOk, ClientsOk;
      ghost var before := journal.Hub();
      EventHub.EmitElsewhere(before, session, turn, kind, payload, at, wire);
      var event := journal.Record(session, turn, kind, payload, at, wire);
      ok := event.Some?;
      if ok {
        Deliver(session, event.value, before);
      }
    }

    /** Send one new event to the clients of its session. */
    method Deliver(session: string, event: AgentEvent, ghost before: EventHub.Hub)
      requires journal.Valid() && EventHub.HubOk(journal.Hub()) && ClientsOk(attachments, clients, before)
      requires EventHub.Log(journal.Hub(), session) == EventHub.Log(before, session) + [event]
      requires forall s :: s != session ==> EventHub.Log(journal.Hub(), s) == EventHub.Log(before, s)
      modifies clients
      ensures Valid()
    {
      hide EventHub.Log, EventHub.HubOk, Holds, Frame;
      var audience := if session in attachments then attachments[session] else {};
      ghost var log := EventHub.Log(before, session);
      assert AudienceOk(audience, session, log);
      Broadcast(audience, Frame(event));
      assert AudienceOk(audience, session, log + [event]) by {
        forall a | a in audience
          ensures StreamOk(a, session, log + [event])
        {
          assert old(StreamOk(a, session, log));
          assert (log + [event])[a.from..] == log[a.from..] + [event];
          assert Frames(log[a.from..] + [event]) == Frames(log[a.from..]) + [Frame(event)];
        }
      }
      forall s | s in attachments && s != session
        ensures AudienceOk(attachments[s], s, EventHub.Log(before, s))
      {
        assert old(AudienceOk(attachments[s], s, EventHub.Log(before, s)));
        forall a | a in attachments[s]
          ensures StreamOk(a, s, EventHub.Log(before, s))
        {
          assert a !in audience by { assert old(StreamOk(a, s, EventHub.Log(before, s))); }
        }
      }
    }

    /** `attach`: a client joins where its last event id says; `live` is the registry's answer. */
    method Attach(live: bool, session: string, last: Option<string>) returns (r: Attached)
      requires Valid()
      modifies this
      ensures Valid() && clients >= old(clients) && fresh(clients - old(clients))
      ensures !live ==> r.Gone?
      ensures live ==> (r.Evicted? <==> EventHub.Replay(journal.Hub(), session, last).None?) && !r.Gone?
      ensures r.Joined? ==>
                && session in attachments && r.client in attachments[session] && fresh(r.client)
                && r.client.sent == [RETRY] + Frames(EventHub.Replay(journal.Hub(), session, last).value)
    {
      hide Holds, EventHub.HubOk, EventHub.Replay, EventHub.Log, StreamOk, AudienceOk, ClientsOk, Frames;
      if !live {
        return Gone;
      }
      var replay := journal.Replay(session, last);
      if replay.None? {
        return Evicted;
      }
      EventHub.ReplayIsSuffix(journal.Hub(), session, last);
      var client := Join(session, replay.value, EventHub.Log(journal.Hub(), session));
      Admit(session, client);
      r := Joined(client);
    }

    /** A new connection that has been given the retry hint and the replayed events. */
    method Join(session: string, events: seq<AgentEvent>, ghost log: seq<AgentEvent>) returns (client: Attachment)
      requires |events| <= |log| && events == log[|log| - |events|..]
      ensures fresh(client) && StreamOk(client, session, log) && client.sent == [RETRY] + Frames(events)
    {
      client := new Attachment(session, |log| - |events|);
      client.Write(RETRY);
      for i := 0 to |events|
        invariant client.Valid() && client.sent == [RETRY] + Frames(events[..i])
      {
        assert events[..i + 1] == events[..i] + [events[i]];
        assert Frames(events[..i + 1]) == Frames(events[..i]) + [Frame(events[i])];
        client.Write(Frame(events[i]));
      }
      assert events[..|events|] == events;
    }

    method Admit(session: string, client: Attachment)
      requires Valid() && StreamOk(client, session, EventHub.Log(journal.Hub(), session))
      modifies this
      ensures Valid() && clients == old(clients) + {client}
      ensures session in attachments && client in attachments[session]
    {
      hide Holds, EventHub.HubOk, EventHub.Log, StreamOk;
      var others := if session in attachments then attachments[session] else {};
      clients := clients + {client};
      attachments := attachments[session := others + {client}];
    }

    /** `detach`, when the connection closes. */
    method Detach(session: string, client: Attachment)
      requires Valid()
      modifies `attachments
      ensures Valid() && (session in attachments ==> client !in attachments[session])
      ensures forall s :: s in old(attachments) && s != session ==>
                s in attachments && attachments[s] == old(attachments)[s]
    {
      hide Holds, EventHub.HubOk, EventHub.Log, StreamOk;
      if session !in attachments {
        return;
      }
      var rest := attachments[session] - {client};
      if rest == {} {
        attachments := attachments - {session};
      } else {
        attachments := attachments[session := rest];
      }
    }

    /** A client's buffer has room again. */
    method OnDrain(session: string, client: Attachment)
      requires Valid() && session in attachments && client in attachments[session] && client.draining
      modifies client
      ensures Valid() && client.sent == old(client.sent)
    {
      hide Holds, EventHub.HubOk, EventHub.Log;
      assert StreamOk(client, session, EventHub.Log(journal.Hub(), session));
      client.Drain();
      forall s | s in attachments
        ensures AudienceOk(attachments[s], s, EventHub.Log(journal.Hub(), s))
      {
        assert old(AudienceOk(attachments[s], s, EventHub.Log(journal.Hub(), s)));
      }
    }
  }

  datatype Attached = Joined(client: Attachment) | Gone | Evicted
}
