/** The events of one session and the replay ring behind `Last-Event-ID` reconnection (section 9.2.4
    of the WHATWG HTML Standard). */
module EventRing {
  import opened Base
  import Decimal

  const MAX_EVENTS := 256
  const MAX_BYTES := 2 * 1024 * 1024

  datatype EventType =
    | SessionStarted | TurnStarted | MessageDelta | ToolStarted | ToolCompleted
    | ApprovalRequired | ApprovalResolved | ArtifactFinal | TurnCompleted | TurnFailed

  predicate IsTerminal(t: EventType) {
    t.TurnCompleted? || t.TurnFailed?
  }

  /** What the JSON printer makes of an event: its text and the length of that text in bytes. */
  datatype Wire = Wire(text: string, bytes: nat)

  /** `agent_event.v1` together with its JSON text. */
  datatype AgentEvent = AgentEvent(
    sequence: nat, id: string, session: string, turn: string, timestamp: string, kind: EventType, payload: string,
    wire: Wire)

  function EventId(sequence: nat, session: string): string {
    Decimal.ToText(sequence) + "-" + session
  }

  /** Within a session an event id names one sequence number. */
  lemma EventIdInjective(m: nat, n: nat, session: string)
    requires EventId(m, session) == EventId(n, session)
    ensures m == n
  {
    var a, b := Decimal.ToText(m), Decimal.ToText(n);
    assert |a| == |b|;
    assert a == EventId(m, session)[..|a|] && b == EventId(n, session)[..|b|];
    Decimal.Injective(m, n);
  }

  // ---------------------------------------------------------------- the retained suffix

  /** Wire bytes of a sequence of events. */
  ghost function Total(log: seq<AgentEvent>): nat {
    if log == [] then 0 else log[0].wire.bytes + Total(log[1..])
  }

  ghost predicate Fits(log: seq<AgentEvent>) {
    |log| <= MAX_EVENTS && Total(log) <= MAX_BYTES
  }

  /** Where the longest suffix of `log` that fits both limits begins. */
  ghost function Start(log: seq<AgentEvent>): (k: nat)
    ensures k <= |log|
  {
    if Fits(log) then 0 else if log == [] then 0 else 1 + Start(log[1..])
  }

  ghost function Retained(log: seq<AgentEvent>): seq<AgentEvent> {
    log[Start(log)..]
  }

  lemma {:induction false} TotalConcat(a: seq<AgentEvent>, b: seq<AgentEvent>)
    ensures Total(a + b) == Total(a) + Total(b)
  {
    if a == [] {
      assert a + b == b;
    } else {
      TotalConcat(a[1..], b);
      assert (a + b)[1..] == a[1..] + b;
    }
  }

  lemma OneTotal(e: AgentEvent)
    ensures Total([e]) == e.wire.bytes
  {
    assert Total([e][1..]) == 0;
  }

  lemma DropOne(log: seq<AgentEvent>, k: nat)
    requires k < |log|
    ensures Total(log[k..]) == log[k].wire.bytes + Total(log[k + 1..])
  {
    assert log[k..][1..] == log[k + 1..];
  }

  /** A shorter suffix is no heavier. */
  lemma SuffixFits(log: seq<AgentEvent>, i: nat, j: nat)
    requires i <= j <= |log| && Fits(log[i..])
    ensures Fits(log[j..])
  {
    assert log[i..] == log[i..j] + log[j..];
    TotalConcat(log[i..j], log[j..]);
  }

  lemma ButLastFits(log: seq<AgentEvent>, e: AgentEvent)
    requires Fits(log + [e])
    ensures Fits(log)
  {
    TotalConcat(log, [e]);
  }

  /** `Retained` is the longest suffix that fits: it fits, and a suffix fits exactly when it is no
      longer. */
  lemma {:induction false} StartIsLeast(log: seq<AgentEvent>, i: nat)
    requires i <= |log|
    ensures Fits(Retained(log)) && |Retained(log)| <= 256 && Total(Retained(log)) <= 2_097_152
    ensures Fits(log[i..]) <==> Start(log) <= i
    ensures |log[i..]| <= 256 && Total(log[i..]) <= 2_097_152 <==> Start(log) <= i
  {
    if Fits(log) {
      assert log[0..] == log;
      SuffixFits(log, 0, i);
    } else {
      assert log[1..][Start(log[1..])..] == log[1 + Start(log[1..])..];
      if i == 0 {
        StartIsLeast(log[1..], 0);
        assert log[0..] == log;
      } else {
        assert log[1..][i - 1..] == log[i..];
        StartIsLeast(log[1..], i - 1);
      }
    }
  }

  /** Eviction can work on the ring alone: appending to the retained suffix and trimming gives the
      retained suffix of the whole longer log. */
  lemma RingIsEnough(log: seq<AgentEvent>, e: AgentEvent)
    ensures Retained(log + [e]) == Retained(Retained(log) + [e])
  {
    hide Start, Fits;
    var longer, s := log + [e], Start(log);
    var ring := log[s..] + [e];
    assert ring == longer[s..];
    var n := Start(longer);
    StartIsLeast(longer, n);
    assert s <= n by {
      if n < s {
        assert longer[n..] == log[n..] + [e];
        ButLastFits(log[n..], e);
        StartIsLeast(log, n);
      }
    }
    var m := Start(ring);
    StartIsLeast(ring, m);
    assert ring[m..] == longer[s + m..];
    StartIsLeast(longer, s + m);
    assert ring[n - s..] == longer[n..];
    StartIsLeast(ring, n - s);
  }

  // ---------------------------------------------------------------- the ring object

  datatype Stored = Stored(event: AgentEvent, bytes: nat)

  function Events(stored: seq<Stored>): (es: seq<AgentEvent>)
    ensures |es| == |stored| && forall i :: 0 <= i < |es| ==> es[i] == stored[i].event
  {
    seq(|stored|, i requires 0 <= i < |stored| => stored[i].event)
  }

  /** The stored events are the end of the log that fits, with their sizes and the sum of them. */
  ghost predicate Holds(events: seq<Stored>, bytes: int, log: seq<AgentEvent>) {
    && (forall i :: 0 <= i < |events| ==> events[i].bytes == events[i].event.wire.bytes)
    && bytes == Total(Events(events))
    && Events(events) == Retained(log)
  }

  class SessionEventRing {
    var events: seq<Stored>
    var bytes: int
    /** The session it belongs to, and everything ever appended. */
    ghost const session: string
    ghost var log: seq<AgentEvent>

    ghost predicate Valid()
      reads this
    {
      Holds(events, bytes, log)
    }

    constructor (ghost owner: string)
      ensures Valid() && log == [] && session == owner
    {
      events, bytes, log, session := [], 0, [], owner;
    }

    method Append(event: AgentEvent) returns (sequence: nat, evicted: bool)
      requires Valid()
      modifies this
      ensures Valid() && log == old(log) + [event]
      ensures sequence == event.sequence
      ensures evicted <==> |events| <= old(|events|)
    {
      hide Total, Retained;
      ghost var ring := Events(events) + [event];
      TotalConcat(Events(events), [event]);
      OneTotal(event);
      RingIsEnough(log, event);
      events := events + [Stored(event, event.wire.bytes)];
      bytes := bytes + event.wire.bytes;
      log := log + [event];
      assert Events(events) == ring;
      evicted := Trim();
      sequence := event.sequence;
    }

    /** Drop the oldest events until the rest is within both limits. */
    method Trim() returns (evicted: bool)
      requires forall i :: 0 <= i < |events| ==> events[i].bytes == events[i].event.wire.bytes
      requires bytes == Total(Events(events))
      modifies `events, `bytes
      ensures forall i :: 0 <= i < |events| ==> events[i].bytes == events[i].event.wire.bytes
      ensures bytes == Total(Events(events))
      ensures Events(events) == Retained(old(Events(events)))
      ensures evicted <==> |events| < old(|events|)
    {
      hide Total, Start;
      ghost var ring := Events(events);
      ghost var k := 0;
      evicted := false;
      assert ring[0..] == ring;
      while |events| > MAX_EVENTS || bytes > MAX_BYTES
        invariant k <= |ring| && Events(events) == ring[k..] && bytes == Total(ring[k..])
        invariant forall i :: 0 <= i < |events| ==> events[i].bytes == events[i].event.wire.bytes
        invariant k <= Start(ring) && (evicted <==> k > 0)
        decreases |events|
      {
        StartIsLeast(ring, k);
        if events == [] {
          break;
        }
        DropOne(ring, k);
        bytes := bytes - events[0].bytes;
        events := events[1..];
        evicted, k := true, k + 1;
      }
      StartIsLeast(ring, k);
    }

    method Has(id: string) returns (found: bool)
      ensures found <==> exists i :: 0 <= i < |events| && events[i].event.id == id
    {
      for i := 0 to |events|
        invariant forall j :: 0 <= j < i ==> events[j].event.id != id
      {
        if events[i].event.id == id {
          return true;
        }
      }
      found := false;
    }

    /** Everything after the first event with the given id; everything when no id is given. */
    method Replay(after: Option<string>) returns (rest: seq<AgentEvent>)
      ensures after.None? ==> rest == Events(events)
      ensures after.Some? ==> rest == After(Events(events), after.value)
    {
      if after.None? {
        return Events(events);
      }
      for i := 0 to |events|
        invariant After(Events(events), after.value) == After(Events(events)[i..], after.value)
      {
        assert Events(events)[i..][1..] == Events(events)[i + 1..];
        if events[i].event.id == after.value {
          return Events(events[i + 1..]);
        }
      }
      rest := [];
    }
  }

  /** The events behind the first one named `id`. */
  function After(es: seq<AgentEvent>, id: string): seq<AgentEvent> {
    if es == [] then [] else if es[0].id == id then es[1..] else After(es[1..], id)
  }
}
