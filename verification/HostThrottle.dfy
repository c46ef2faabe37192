/** The `host_throttle` table as an object, with the calls it has served. */
module HostThrottle {
  import opened Base
  import Throttle

  class HostThrottle {
    var throttle: Throttle.Table
    ghost var run: seq<Throttle.Event>

    ghost predicate Valid()
      reads this
    {
      throttle == Throttle.After(run)
    }

    constructor ()
      ensures Valid() && run == []
    {
      throttle, run := map[], [];
    }

    /** Refused, if the clock did not run backwards, exactly when an earlier call still speaks against it;
        a refusal changes nothing. */
    method PermitHost(host: string, continuation: bool, now: Time) returns (r: Result<()>)
      requires Valid()
      modifies this
      ensures Valid() && run == old(run) + [Throttle.Event(host, now, Throttle.Asked(continuation))]
      ensures Throttle.ClockForward(run) ==> (r.Err? <==> Throttle.HasCause(old(run), host, continuation, now))
      ensures r.Err? ==> throttle == old(throttle)
      ensures r.Ok? && !continuation ==> host in throttle && throttle[host].nextAllowed == now + SECOND
      ensures NeverEarlier(old(throttle), throttle, now)
    {
      hide Throttle.HasCause, Throttle.ClockForward;
      ghost var e := Throttle.Event(host, now, Throttle.Asked(continuation));
      Asked(run, e, throttle);
      run := run + [e];
      if host !in throttle {
        throttle := throttle[host := Throttle.Row(now + SECOND, None, None)];
        return Ok(());
      }
      var row := throttle[host];
      if row.blockedUntil.Some? && row.blockedUntil.value > now {
        return Err(NotPermitted);
      }
      if continuation {
        return Ok(());
      }
      if row.nextAllowed > now {
        return Err(NotPermitted);
      }
      throttle := throttle[host := row.(nextAllowed := now + SECOND)];
      r := Ok(());
    }

    /** A 429 deadline is enforced from now on; pacing and every block that is still ahead only move later. */
    method RecordHostResponse(host: string, status: int, retryAfter: Throttle.RetryAfter, now: Time)
      returns (r: Result<Throttle.Row>)
      requires Valid()
      modifies this
      ensures Valid() && run == old(run) + [Throttle.Event(host, now, Throttle.Answered(status, retryAfter))]
      ensures r.Ok? <==> 100 <= status <= 599
      ensures r.Err? ==> throttle == old(throttle)
      ensures r.Ok? ==> host in throttle && throttle[host] == r.value && r.value.lastStatus == Some(status)
      ensures r.Ok? && status == 429 && Throttle.Deadline(retryAfter, now).Some? ==>
                r.value.blockedUntil.Some? && r.value.blockedUntil.value >= Throttle.Deadline(retryAfter, now).value
      ensures NeverEarlier(old(throttle), throttle, now)
    {
      hide NeverEarlier;
      ghost var e := Throttle.Event(host, now, Throttle.Answered(status, retryAfter));
      assert (run + [e])[..|run|] == run;
      run := run + [e];
      RespondOnlyDelays(throttle, host, status, retryAfter, now);
      if !(100 <= status <= 599) {
        return Err(InvalidArgument);
      }
      var until := if status == 429 then Throttle.Deadline(retryAfter, now) else None;
      var blocked, next := until, now;
      if host in throttle {
        var row := throttle[host];
        if row.blockedUntil.Some? && row.blockedUntil.value > now {
          blocked := Throttle.Latest(row.blockedUntil, until);
        }
        if row.nextAllowed > now {
          next := row.nextAllowed;
        }
      }
      if blocked.Some? {
        next := Max(next, blocked.value);
      }
      var row := Throttle.Row(next, blocked, Some(status));
      throttle := throttle[host := row];
      r := Ok(row);
    }
  }

  /** No row is lost, no pacing time moves to an earlier one, and no block that is still ahead does. */
  ghost predicate NeverEarlier(t: Throttle.Table, t': Throttle.Table, now: Time) {
    forall h :: h in t ==>
      && h in t' && t'[h].nextAllowed >= t[h].nextAllowed
      && (t[h].blockedUntil.Some? && t[h].blockedUntil.value > now ==>
            t'[h].blockedUntil.Some? && t'[h].blockedUntil.value >= t[h].blockedUntil.value)
  }

  lemma RespondOnlyDelays(t: Throttle.Table, host: string, status: int, retryAfter: Throttle.RetryAfter, now: Time)
    ensures NeverEarlier(t, Throttle.Respond(t, host, status, retryAfter, now).0, now)
  {
  }

  /** The answer to the next call of a run, read off its table. */
  lemma Asked(run: seq<Throttle.Event>, e: Throttle.Event, t: Throttle.Table)
    requires e.call.Asked? && t == Throttle.After(run)
    ensures Throttle.After(run + [e]) == Throttle.Permit(t, e.host, e.call.continuation, e.now).0
    ensures Throttle.ClockForward(run + [e]) ==>
              (Throttle.Permit(t, e.host, e.call.continuation, e.now).1.Err? <==>
               Throttle.HasCause(run, e.host, e.call.continuation, e.now))
  {
    var longer := run + [e];
    assert longer[..|run|] == run;
    if Throttle.ClockForward(longer) {
      Throttle.RefusedExactlyForCause(longer, |run|);
    }
  }
}
