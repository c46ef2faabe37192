/** The durable request gate of one host group: one-second pacing and 429 Retry-After blocks
    (section 4 of RFC 6585, section 10.2.3 of RFC 9110). */
module Throttle {
  import opened Base

  /** A row of `host_throttle`; the host group is its key. */
  datatype Row = Row(nextAllowed: Time, blockedUntil: Option<Time>, lastStatus: Option<int>)

  type Table = map<string, Row>

  /** A Retry-After field value as the parser classifies it. */
  datatype RetryAfter = Absent | Unparsable | Seconds(n: nat) | SecondsOverflow | HttpDate(at: Time)

  function Deadline(value: RetryAfter, now: Time): Option<Time> {
    match value
    case Seconds(n) => Some(now + n * SECOND)
    case HttpDate(at) => Some(Max(at, now))
    case _ => None
  }

  function Latest(a: Option<Time>, b: Option<Time>): Option<Time> {
    if a.None? then b else if b.None? then a else Some(Max(a.value, b.value))
  }

  function StillAhead(a: Option<Time>, now: Time): Option<Time> {
    if a.Some? && a.value > now then a else None
  }

  /** `permit_host`; an error is `HostThrottleBlocked`. */
  function Permit(t: Table, host: string, continuation: bool, now: Time): (Table, Result<()>) {
    if host !in t then (t[host := Row(now + SECOND, None, None)], Ok(()))
    else
      var row := t[host];
      if StillAhead(row.blockedUntil, now).Some? then (t, Err(NotPermitted))
      else if continuation then (t, Ok(()))
      else if row.nextAllowed > now then (t, Err(NotPermitted))
      else (t[host := row.(nextAllowed := now + SECOND)], Ok(()))
  }

  /** `record_host_response` */
  function Respond(t: Table, host: string, status: int, retryAfter: RetryAfter, now: Time): (Table, Result<Row>) {
    if !(100 <= status <= 599) then (t, Err(InvalidArgument))
    else
      var until := if status == 429 then Deadline(retryAfter, now) else None;
      var oldBlock := if host in t then StillAhead(t[host].blockedUntil, now) else None;
      var blocked := Latest(oldBlock, until);
      var oldNext := if host in t then Max(t[host].nextAllowed, now) else now;
      var row := Row(match blocked case Some(b) => Max(oldNext, b) case None => oldNext, blocked, Some(status));
      (t[host := row], Ok(row))
  }

  // ---------------------------------------------------------------- runs

  datatype Call = Asked(continuation: bool) | Answered(status: int, retryAfter: RetryAfter)

  datatype Event = Event(host: string, now: Time, call: Call)

  function Step(t: Table, e: Event): Table {
    match e.call
    case Asked(c) => Permit(t, e.host, c, e.now).0
    case Answered(s, r) => Respond(t, e.host, s, r, e.now).0
  }

  /** The table after a run of calls from an empty table. */
  function After(run: seq<Event>): Table {
    if run == [] then map[] else Step(After(run[..|run| - 1]), run[|run| - 1])
  }

  predicate Granted(run: seq<Event>, i: nat)
    requires i < |run|
  {
    run[i].call.Asked? && Permit(After(run[..i]), run[i].host, run[i].call.continuation, run[i].now).1.Ok?
  }

  /** A permit that starts the second of pacing: a granted first hop, or a continuation for a host
      without a row, which the code treats as a first hop. */
  predicate Reserves(run: seq<Event>, i: nat)
    requires i < |run|
  {
    Granted(run, i) && (!run[i].call.continuation || run[i].host !in After(run[..i]))
  }

  /** The 429 deadline that call `i` recorded, if it recorded one. */
  function Recorded(run: seq<Event>, i: nat): Option<Time>
    requires i < |run|
  {
    if run[i].call.Answered? && run[i].call.status == 429 then Deadline(run[i].call.retryAfter, run[i].now) else None
  }

  predicate ClockForward(run: seq<Event>) {
    forall i, j :: 0 <= i <= j < |run| ==> run[i].now <= run[j].now
  }

  /** What the table still knows about an earlier first-hop permit and an earlier 429. */
  ghost predicate Remembers(run: seq<Event>, i: nat, now: Time)
    requires i < |run|
  {
    var t, e := After(run), run[i];
    && (Reserves(run, i) ==>
          now >= e.now + SECOND || (e.host in t && t[e.host].nextAllowed >= e.now + SECOND))
    && (Recorded(run, i).Some? ==>
          now >= Recorded(run, i).value
          || (e.host in t && t[e.host].blockedUntil.Some? && t[e.host].blockedUntil.value >= Recorded(run, i).value))
  }

  lemma {:induction false} TableRemembers(run: seq<Event>, i: nat)
    requires ClockForward(run) && i < |run|
    ensures Remembers(run, i, run[|run| - 1].now)
  {
    var n := |run| - 1;
    var before := run[..n];
    assert run[..n][..i] == run[..i];
    if i < n {
      assert Reserves(before, i) == Reserves(run, i) && Recorded(before, i) == Recorded(run, i);
      TableRemembers(before, i);
      assert before[|before| - 1] == run[n - 1];
    }
  }

  /** Host pacing. Whatever calls come in between, for any host: a granted first-hop permit comes at least
      one second after every earlier one, and no permit, first hop or continuation, is granted before the
      deadline of any 429 recorded earlier. */
  lemma HostPacing(run: seq<Event>, i: nat, j: nat)
    requires ClockForward(run) && i < j < |run| && run[i].host == run[j].host && Granted(run, j)
    ensures Reserves(run, i) && !run[j].call.continuation ==>
              run[j].now >= run[i].now + SECOND
    ensures Recorded(run, i).Some? ==> run[j].now >= Recorded(run, i).value
  {
    var before := run[..j];
    TableRemembers(before, i);
    assert before[..i] == run[..i];
    assert Reserves(before, i) == Reserves(run, i) && Recorded(before, i) == Recorded(run, i);
    assert before[|before| - 1].now <= run[j].now;
  }

  /** A response blocks its host exactly if it is a 429 with a usable Retry-After: for that many seconds, or until that
      date, or not at all if the date has passed. */
  lemma BlocksForRetryAfter(run: seq<Event>, i: nat)
    requires i < |run|
    ensures Recorded(run, i).Some? <==>
              run[i].call.Answered? && run[i].call.status == 429
              && (run[i].call.retryAfter.Seconds? || run[i].call.retryAfter.HttpDate?)
    ensures run[i].call.Answered? && run[i].call.status == 429 && run[i].call.retryAfter.Seconds? ==>
              Recorded(run, i) == Some(run[i].now + 1_000_000 * run[i].call.retryAfter.n)
    ensures run[i].call.Answered? && run[i].call.status == 429 && run[i].call.retryAfter.HttpDate? ==>
              Recorded(run, i) == Some(if run[i].call.retryAfter.at > run[i].now then run[i].call.retryAfter.at
                                       else run[i].now)
  {
  }

  /** An earlier call that still speaks against a permit at `now`: a reserving permit less than a second
      old, for a first hop, or a 429 whose deadline has not passed, for any permit. */
  predicate Blocks(run: seq<Event>, i: nat, host: string, continuation: bool, now: Time)
    requires i < |run|
  {
    && run[i].host == host
    && ((!continuation && Reserves(run, i) && now < run[i].now + SECOND)
        || (Recorded(run, i).Some? && now < Recorded(run, i).value))
  }

  predicate HasCause(run: seq<Event>, host: string, continuation: bool, now: Time) {
    exists i :: 0 <= i < |run| && Blocks(run, i, host, continuation, now)
  }

  /** Whatever the table still enforces has such a cause. */
  ghost predicate Explained(run: seq<Event>, host: string, now: Time) {
    var t := After(run);
    host in t ==>
      && (t[host].nextAllowed > now ==> HasCause(run, host, false, now))
      && (t[host].blockedUntil.Some? && t[host].blockedUntil.value > now ==> HasCause(run, host, true, now))
  }

  lemma {:induction false} TableExplained(run: seq<Event>, host: string, now: Time)
    requires ClockForward(run) && (run != [] ==> run[|run| - 1].now <= now)
    ensures Explained(run, host, now)
  {
    if run != [] {
      TableExplained(run[..|run| - 1], host, now);
      forall c | HasCause(run[..|run| - 1], host, c, now)
        ensures HasCause(run, host, c, now)
      {
        CauseStays(run, host, c, now);
      }
      if run[|run| - 1].host == host {
        LastCallExplained(run, now);
      }
      hide HasCause;
    }
  }

  /** A cause found in a shorter run is a cause in the longer one. */
  lemma CauseStays(run: seq<Event>, host: string, continuation: bool, now: Time)
    requires run != [] && HasCause(run[..|run| - 1], host, continuation, now)
    ensures HasCause(run, host, continuation, now)
  {
    var before := run[..|run| - 1];
    var i: nat :| i < |before| && Blocks(before, i, host, continuation, now);
    assert before[..i] == run[..i];
    assert Blocks(run, i, host, continuation, now);
  }

  /** A block that stops a continuation stops a first hop as well. */
  lemma CauseForBoth(run: seq<Event>, host: string, now: Time)
    requires HasCause(run, host, true, now)
    ensures HasCause(run, host, false, now)
  {
    var i: nat :| i < |run| && Blocks(run, i, host, true, now);
    assert Blocks(run, i, host, false, now);
  }

  /** What the last call wrote is either inherited or caused by that call. */
  lemma LastCallExplained(run: seq<Event>, now: Time)
    requires run != [] && run[|run| - 1].now <= now
    requires var n := |run| - 1; Explained(run[..n], run[n].host, now)
    ensures Explained(run, run[|run| - 1].host, now)
  {
    var n := |run| - 1;
    var before, e := run[..n], run[n];
    forall c | HasCause(before, e.host, c, now)
      ensures HasCause(run, e.host, c, now)
    {
      CauseStays(run, e.host, c, now);
    }
    if HasCause(before, e.host, true, now) {
      CauseForBoth(before, e.host, now);
    }
    match e.call
    case Asked(continuation) =>
      if Reserves(run, n) && now < e.now + SECOND {
        assert Blocks(run, n, e.host, false, now);
      }
    case Answered(status, retryAfter) =>
      if Recorded(run, n).Some? && now < Recorded(run, n).value {
        assert Blocks(run, n, e.host, false, now) && Blocks(run, n, e.host, true, now);
      }
  }

  /** Host pacing is exact: a permit is refused exactly when an earlier call of the run still speaks
      against it. */
  lemma RefusedExactlyForCause(run: seq<Event>, j: nat)
    requires ClockForward(run) && j < |run| && run[j].call.Asked?
    ensures !Granted(run, j) <==> HasCause(run[..j], run[j].host, run[j].call.continuation, run[j].now)
  {
    var before, e := run[..j], run[j];
    var c := e.call.continuation;
    TableExplained(before, e.host, e.now);
    if Granted(run, j) {
      forall i: nat | i < j
        ensures !Blocks(before, i, e.host, c, e.now)
      {
        assert before[..i] == run[..i];
        if run[i].host == e.host {
          HostPacing(run, i, j);
        }
      }
    } else if HasCause(before, e.host, true, e.now) {
      CauseForBoth(before, e.host, e.now);
    }
  }

  /** The run names the host in a call that the code did not refuse for its arguments. */
  predicate Known(run: seq<Event>, host: string) {
    exists i :: 0 <= i < |run| && run[i].host == host && (run[i].call.Answered? ==> 100 <= run[i].call.status <= 599)
  }

  lemma {:induction false} RowsAreKnown(run: seq<Event>, host: string)
    ensures host in After(run) <==> Known(run, host)
  {
    if run != [] {
      var n := |run| - 1;
      RowsAreKnown(run[..n], host);
      if i :| 0 <= i < n && run[..n][i].host == host
              && (run[..n][i].call.Answered? ==> 100 <= run[..n][i].call.status <= 599) {
        assert run[i] == run[..n][i];
      }
      if i :| 0 <= i < |run| && run[i].host == host && (run[i].call.Answered? ==> 100 <= run[i].call.status <= 599) {
        assert i < n ==> run[..n][i] == run[i];
      }
    }
  }

  /** The documentation promises that a continuation takes no part in the one-second pacing. The code
      keeps that exactly for hosts it has met before: a granted continuation writes a reservation if and
      only if it is the first call that names its host, and otherwise leaves the table as it was. */
  lemma ContinuationReserves(run: seq<Event>, i: nat)
    requires i < |run| && Granted(run, i) && run[i].call.continuation
    ensures Reserves(run, i) <==> !Known(run[..i], run[i].host)
    ensures var t, e := After(run[..i]), run[i];
            After(run[..i + 1]) == if Known(run[..i], e.host) then t else t[e.host := Row(e.now + SECOND, None, None)]
  {
    RowsAreKnown(run[..i], run[i].host);
    assert run[..i + 1][..i] == run[..i];
  }

  /** The documented promise fails: a first hop a microsecond after such a continuation is refused. */
  lemma ContinuationCompetes()
    ensures var run := [Event("h", 0, Asked(true)), Event("h", 1, Asked(false))];
            ClockForward(run) && Granted(run, 0) && !Granted(run, 1)
  {
    var run := [Event("h", 0, Asked(true)), Event("h", 1, Asked(false))];
    assert run[..0] == [] && run[..1][..0] == [];
    assert After(run[..1]) == map["h" := Row(SECOND, None, None)];
  }
}
