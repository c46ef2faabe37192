/** The append-only promotion ledger and the reviews that feed it. */
module Promotions {
  import opened Base
  import opened Jobs
  import opened Leases

  datatype Verdict = Approved | Revoked

  datatype Mode = Automatic | ByReview

  /** A row of `run_promotion`. */
  datatype Decision = Decision(id: Id, seqNo: int, run: Id, verdict: Verdict, mode: Mode, at: Time)

  datatype ReviewState = Open | ApprovedReview | RejectedReview

  /** A review task, its definition's promotion settings, and whether an approval decision is stored. */
  datatype Review = Review(run: Option<Id>, state: ReviewState, manualPolicy: bool, production: bool, hasApproval: bool)

  /** `run_promotion` in insertion order, `review_task`, and `manual_review_promotion` by review. */
  datatype Promo = Promo(ledger: seq<Decision>, reviews: map<Id, Review>, links: map<Id, (Id, Id)>)

  datatype Promoted = Promoted(run: Id, promotion: Id, created: bool)

  const EMPTY_PROMO := Promo([], map[], map[])

  function MaxSeq(ledger: seq<Decision>): int {
    if ledger == [] then 0 else Max(MaxSeq(ledger[..|ledger| - 1]), ledger[|ledger| - 1].seqNo)
  }

  /** Later in the order (decision_at, promotion_seq). */
  predicate Newer(a: Decision, b: Decision) {
    a.at > b.at || (a.at == b.at && a.seqNo > b.seqNo)
  }

  /** The latest decision of a run among those taken at or before `asOf` (None: no limit). */
  function LatestAsOf(ledger: seq<Decision>, run: Id, asOf: Option<Time>): Option<Decision> {
    if ledger == [] then None
    else
      var rest, last := LatestAsOf(ledger[..|ledger| - 1], run, asOf), ledger[|ledger| - 1];
      if last.run == run && (asOf.Some? ==> last.at <= asOf.value) && (rest.Some? ==> Newer(last, rest.value))
      then Some(last) else rest
  }

  /** A run's decisions in the order they were appended. */
  function History(ledger: seq<Decision>, run: Id): seq<Decision> {
    if ledger == [] then []
    else
      var rest, last := History(ledger[..|ledger| - 1], run), ledger[|ledger| - 1];
      if last.run == run then rest + [last] else rest
  }

  predicate HasApproval(ledger: seq<Decision>, run: Id) {
    exists i :: 0 <= i < |ledger| && ledger[i].run == run && ledger[i].verdict.Approved?
  }

  function Record(p: Promo, id: Id, run: Id, verdict: Verdict, mode: Mode, at: Time): Promo {
    p.(ledger := p.ledger + [Decision(id, MaxSeq(p.ledger) + 1, run, verdict, mode, at)])
  }

  /** A successful production run whose attempt also succeeded. */
  predicate Eligible(c: Core, run: Id) {
    && run in c.runs
    && c.runs[run].lane.ProductionIngestion?
    && c.runs[run].status.Succeeded?
    && c.runs[run].attempt in c.attempts
    && c.attempts[c.runs[run].attempt].status.Succeeded?
  }

  function OpenReview(p: Promo, review: Id, row: Review): Promo {
    if review in p.reviews then p else p.(reviews := p.reviews[review := row.(state := Open, hasApproval := false)])
  }

  /** A review is opened undecided, and once. */
  lemma OpenExact(p: Promo, review: Id, row: Review)
    ensures var p' := OpenReview(p, review, row);
            && p'.ledger == p.ledger && p'.links == p.links
            && (review in p.reviews ==> p' == p)
            && (review !in p.reviews ==>
                  && p'.reviews.Keys == p.reviews.Keys + {review} && p'.reviews[review].state.Open?
                  && !p'.reviews[review].hasApproval && p'.reviews[review].run == row.run
                  && p'.reviews[review].manualPolicy == row.manualPolicy
                     && p'.reviews[review].production == row.production
                  && forall r :: r in p.reviews ==> p'.reviews[r] == p.reviews[r])
  {
  }

  /** `decide_review` */
  function DecideReview(p: Promo, review: Id, approve: bool): (Promo, Result<bool>) {
    if review !in p.reviews then (p, Err(Unknown))
    else if !p.reviews[review].state.Open? then (p, Ok(false))
    else
      var row := p.reviews[review];
      (p.(reviews := p.reviews[review := row.(state := if approve then ApprovedReview else RejectedReview,
                                              hasApproval := approve)]), Ok(true))
  }

  /** One review is decided; every other review, and everything else about this one, stays. */
  ghost predicate DecidedAs(reviews: map<Id, Review>, reviews': map<Id, Review>, review: Id, approve: bool) {
    && reviews'.Keys == reviews.Keys && review in reviews
    && (forall r :: r in reviews && r != review ==> reviews'[r] == reviews[r])
    && reviews'[review].state == (if approve then ApprovedReview else RejectedReview)
    && reviews'[review].hasApproval == approve
    && reviews'[review].(state := Open, hasApproval := false) == reviews[review].(state := Open, hasApproval := false)
  }

  /** `promote_review` */
  function PromoteReview(p: Promo, c: Core, review: Id, at: Time, id: Id): (Promo, Result<Promoted>) {
    if review in p.links then (p, Ok(Promoted(p.links[review].0, p.links[review].1, false)))
    else if review !in p.reviews then (p, Err(Unknown))
    else
      var row := p.reviews[review];
      if !row.state.ApprovedReview? then (p, Err(NotApproved))
      else if !row.manualPolicy || !row.production || row.run.None? then (p, Err(NotPermitted))
      else if !Eligible(c, row.run.value) then (p, Err(NotPermitted))
      else if !row.hasApproval then (p, Err(NotApproved))
      else if exists r :: r in p.links && p.links[r].0 == row.run.value then (p, Err(AlreadyPromoted))
      else if HasApproval(p.ledger, row.run.value) then (p, Err(AlreadyPromoted))
      else
        (Record(p, id, row.run.value, Approved, ByReview, at).(links := p.links[review := (row.run.value, id)]),
         Ok(Promoted(row.run.value, id, true)))
  }

  /** `revoke_promotion` */
  function Revoke(p: Promo, c: Core, run: Id, at: Time, id: Id): (Promo, Result<Promoted>) {
    match LatestAsOf(p.ledger, run, None)
    case None => (p, Err(Unknown))
    case Some(latest) =>
      if latest.verdict.Revoked? then (p, Ok(Promoted(run, latest.id, false)))
      else if !Eligible(c, run) then (p, Err(NotPermitted))
      else (Record(p, id, run, Revoked, latest.mode, at), Ok(Promoted(run, id, true)))
  }

  // ---------------------------------------------------------------- the invariant

  /** Empty, approved, or approved and then revoked in the same mode. */
  predicate Shape(h: seq<Decision>) {
    || h == []
    || (|h| == 1 && h[0].verdict.Approved?)
    || (|h| == 2 && h[0].verdict.Approved? && h[1].verdict.Revoked? && h[1].mode == h[0].mode)
  }

  ghost predicate Numbered(ledger: seq<Decision>) {
    forall i :: 0 <= i < |ledger| ==> ledger[i].seqNo == i + 1
  }

  ghost predicate TimesOk(ledger: seq<Decision>, now: Time) {
    && (forall i, j :: 0 <= i <= j < |ledger| ==> ledger[i].at <= ledger[j].at)
    && (forall i :: 0 <= i < |ledger| ==> ledger[i].at <= now)
  }

  ghost predicate LedgerOk(p: Promo, now: Time) {
    Numbered(p.ledger) && TimesOk(p.ledger, now) && (forall run :: Shape(History(p.ledger, run)))
  }

  /** Only production runs that succeeded were ever decided on; a run that is still going has no decision. */
  ghost predicate DecidedRunsOk(p: Promo, runs: map<Id, Run>) {
    forall i :: 0 <= i < |p.ledger| ==>
      p.ledger[i].run in runs && runs[p.ledger[i].run].status.Succeeded?
      && runs[p.ledger[i].run].lane.ProductionIngestion?
  }

  // ---------------------------------------------------------------- proofs

  lemma {:induction false} MaxSeqIsLength(ledger: seq<Decision>)
    requires Numbered(ledger)
    ensures MaxSeq(ledger) == |ledger|
  {
    if ledger != [] {
      MaxSeqIsLength(ledger[..|ledger| - 1]);
    }
  }

  lemma {:induction false} HistoryMembers(ledger: seq<Decision>, run: Id)
    ensures HasApproval(ledger, run) <==>
              exists k :: 0 <= k < |History(ledger, run)| && History(ledger, run)[k].verdict.Approved?
    ensures History(ledger, run) != [] ==> exists i :: 0 <= i < |ledger| && ledger[i].run == run
  {
    if ledger != [] {
      var n := |ledger| - 1;
      var rest := ledger[..n];
      HistoryMembers(rest, run);
      var h, hr := History(ledger, run), History(rest, run);
      assert forall i :: 0 <= i < n ==> rest[i] == ledger[i];
      if HasApproval(ledger, run) {
        var i :| 0 <= i < |ledger| && ledger[i].run == run && ledger[i].verdict.Approved?;
        if i < n {
          assert rest[i].run == run && rest[i].verdict.Approved?;
          var k :| 0 <= k < |hr| && hr[k].verdict.Approved?;
          assert h[k] == hr[k];
        } else {
          assert h[|h| - 1] == ledger[n];
        }
      }
      if k :| 0 <= k < |h| && h[k].verdict.Approved? {
        if k < |hr| {
          assert hr[k].verdict.Approved?;
          assert HasApproval(rest, run);
          var i :| 0 <= i < |rest| && rest[i].run == run && rest[i].verdict.Approved?;
          assert ledger[i].run == run;
        } else {
          assert ledger[n].run == run;
        }
      }
      if h != [] {
        if hr != [] {
          var i :| 0 <= i < |rest| && rest[i].run == run;
          assert ledger[i].run == run;
        } else {
          assert ledger[n].run == run;
        }
      }
    }
  }

  /** With nondecreasing decision times the latest decision is simply the last one appended. */
  lemma {:induction false} LatestIsLast(ledger: seq<Decision>, run: Id, now: Time)
    requires Numbered(ledger) && TimesOk(ledger, now)
    ensures var h := History(ledger, run);
            LatestAsOf(ledger, run, None) == if h == [] then None else Some(h[|h| - 1])
    ensures LatestAsOf(ledger, run, None).Some? ==> LatestAsOf(ledger, run, None).value in ledger
  {
    if ledger != [] {
      var n := |ledger| - 1;
      LatestIsLast(ledger[..n], run, now);
    }
  }

  lemma RecordLedgerOk(p: Promo, id: Id, run: Id, verdict: Verdict, mode: Mode, at: Time, now: Time)
    requires LedgerOk(p, now) && now <= at
    requires var h := History(p.ledger, run);
             if verdict.Approved? then h == [] else |h| == 1 && h[0].mode == mode
    ensures LedgerOk(Record(p, id, run, verdict, mode, at), at)
  {
    hide MaxSeq, Numbered, TimesOk, History;
    var p' := Record(p, id, run, verdict, mode, at);
    MaxSeqIsLength(p.ledger);
    assert p'.ledger[..|p.ledger|] == p.ledger;
    OrderGrows(p.ledger, p'.ledger[|p.ledger|], now);
    forall r
      ensures Shape(History(p'.ledger, r))
    {
      HistoryGrows(p.ledger, p'.ledger, r);
      assert Shape(History(p.ledger, r));
    }
  }

  lemma OrderGrows(ledger: seq<Decision>, d: Decision, now: Time)
    requires Numbered(ledger) && TimesOk(ledger, now) && now <= d.at && d.seqNo == |ledger| + 1
    ensures Numbered(ledger + [d]) && TimesOk(ledger + [d], d.at)
  {
  }

  lemma HistoryGrows(ledger: seq<Decision>, ledger': seq<Decision>, run: Id)
    requires |ledger'| == |ledger| + 1 && ledger'[..|ledger|] == ledger
    ensures var d := ledger'[|ledger|]; History(ledger', run) == History(ledger, run) + if d.run == run then [d] else []
  {
  }

  /** An approved review, decided so by a person, of a definition that is promoted by hand and of a production run that
      succeeded and has not been promoted, be it through another review or at all. */
  ghost predicate Promotable(p: Promo, c: Core, review: Id) {
    && review in p.reviews
    && var row := p.reviews[review];
       && row.state.ApprovedReview? && row.hasApproval && row.manualPolicy && row.production && row.run.Some?
       && Succeeded(c, row.run.value)
       && (forall r :: r in p.links ==> p.links[r].0 != row.run.value)
       && (forall i :: 0 <= i < |p.ledger| && p.ledger[i].run == row.run.value ==> p.ledger[i].verdict.Revoked?)
  }

  /** A production run that succeeded, attempt and all. */
  ghost predicate Succeeded(c: Core, run: Id) {
    && run in c.runs && c.runs[run].lane == ProductionIngestion && c.runs[run].status == AttemptStatus.Succeeded
    && c.runs[run].attempt in c.attempts && c.attempts[c.runs[run].attempt].status == AttemptStatus.Succeeded
  }

  lemma PromotesExactly(p: Promo, c: Core, review: Id, at: Time, id: Id)
    ensures var r := PromoteReview(p, c, review, at, id).1;
            && (r.Ok? && !r.value.created <==> review in p.links)
            && (r.Ok? && r.value.created <==> review !in p.links && Promotable(p, c, review))
  {
    hide MaxSeq;
  }

  /** An approval through a review keeps every run's history in shape; it is created exactly when `Promotable` says
      so; an error changes nothing, and
      promoting the same review again answers with the first promotion. */
  lemma PromoteKeepsShape(p: Promo, c: Core, review: Id, at: Time, id: Id, now: Time)
    requires LedgerOk(p, now) && now <= at
    ensures var (p', r) := PromoteReview(p, c, review, at, id);
            && LedgerOk(p', at)
            && (r.Ok? && !r.value.created <==> review in p.links)
            && (r.Ok? && r.value.created <==> review !in p.links && Promotable(p, c, review))
            && (r.Err? || !r.value.created ==> p' == p)
            && (r.Ok? ==> PromoteReview(p', c, review, at, id) == (p', Ok(r.value.(created := false))))
            && (r.Ok? && r.value.created ==>
                  && r.value.promotion == id && Eligible(c, r.value.run) && p'.reviews == p.reviews
                  && p'.ledger == p.ledger + [Decision(id, |p.ledger| + 1, r.value.run, Approved, ByReview, at)]
                  && History(p.ledger, r.value.run) == []
                  && p.reviews[review].state.ApprovedReview? && p.reviews[review].hasApproval
                     && p.reviews[review].run == Some(r.value.run))
  {
    hide MaxSeq, Eligible, Promotable, Numbered, TimesOk, HasApproval;
    var (p', r) := PromoteReview(p, c, review, at, id);
    PromotesExactly(p, c, review, at, id);
    if r.Ok? && r.value.created {
      HistoryMembers(p.ledger, r.value.run);
      assert Shape(History(p.ledger, r.value.run));
      RecordLedgerOk(p, id, r.value.run, Approved, ByReview, at, now);
      MaxSeqIsLength(p.ledger);
    } else {
      LedgerLater(p, now, at);
    }
  }

  /** An automatic approval of a run that was never decided on. */
  lemma AutoKeepsShape(p: Promo, run: Id, at: Time, id: Id, now: Time)
    requires LedgerOk(p, now) && now <= at
    requires forall i :: 0 <= i < |p.ledger| ==> p.ledger[i].run != run
    ensures LedgerOk(Record(p, id, run, Approved, Automatic, at), at)
  {
    HistoryMembers(p.ledger, run);
    RecordLedgerOk(p, id, run, Approved, Automatic, at, now);
  }

  /** With a clock that does not run backwards a revocation ends the history: it is appended once, and
      revoking again answers with it and adds nothing. */
  lemma RevokeOnce(p: Promo, c: Core, run: Id, at: Time, id: Id, now: Time, at': Time, id': Id)
    requires LedgerOk(p, now) && now <= at
    ensures var (p', r) := Revoke(p, c, run, at, id);
            && LedgerOk(p', at)
            && (r.Ok? <==> |History(p.ledger, run)| == 2 || (|History(p.ledger, run)| == 1 && Succeeded(c, run)))
            && (r.Ok? ==> (r.value.created <==> |History(p.ledger, run)| == 1))
            && (r.Err? ==> p' == p)
            && (r.Ok? && r.value.created ==>
                  var mode := History(p.ledger, run)[0].mode;
                  p'.ledger == p.ledger + [Decision(id, |p.ledger| + 1, run, Revoked, mode, at)])
            && (r.Ok? ==>
                  && |History(p'.ledger, run)| == 2
                  && r.value.promotion == History(p'.ledger, run)[1].id
                  && Revoke(p', c, run, at', id') == (p', Ok(r.value.(created := false))))
  {
    hide LatestAsOf, Numbered, TimesOk, Eligible, MaxSeq, Succeeded;
    var (p', r) := Revoke(p, c, run, at, id);
    MaxSeqIsLength(p.ledger);
    SucceededIsEligible(c, run);
    LatestIsLast(p.ledger, run, now);
    assert Shape(History(p.ledger, run));
    if r.Ok? {
      if r.value.created {
        RecordLedgerOk(p, id, run, Revoked, LatestAsOf(p.ledger, run, None).value.mode, at, now);
        assert p'.ledger[..|p'.ledger| - 1] == p.ledger;
      } else {
        LedgerLater(p, now, at);
      }
      hide LedgerOk;
      LatestIsLast(p'.ledger, run, at);
    } else {
      LedgerLater(p, now, at);
    }
  }

  lemma SucceededIsEligible(c: Core, run: Id)
    ensures Eligible(c, run) <==> Succeeded(c, run)
  {
  }

  /** Among a run's decisions at or before `asOf`. */
  predicate Counts(d: Decision, run: Id, asOf: Option<Time>) {
    d.run == run && (asOf.Some? ==> d.at <= asOf.value)
  }

  /** The latest decision is one that counts, and none that counts is dated later or, at the same time, numbered
      higher; there is none only if no decision counts. */
  lemma {:induction false} LatestIsNewest(ledger: seq<Decision>, run: Id, asOf: Option<Time>)
    ensures match LatestAsOf(ledger, run, asOf)
            case None => forall i :: 0 <= i < |ledger| ==> !Counts(ledger[i], run, asOf)
            case Some(d) =>
              && (exists i :: 0 <= i < |ledger| && ledger[i] == d && Counts(d, run, asOf))
              && (forall i :: 0 <= i < |ledger| && Counts(ledger[i], run, asOf) ==>
                    ledger[i].at < d.at || (ledger[i].at == d.at && ledger[i].seqNo <= d.seqNo))
  {
    if ledger != [] {
      var n := |ledger| - 1;
      var rest := ledger[..n];
      LatestIsNewest(rest, run, asOf);
      assert forall i :: 0 <= i < n ==> rest[i] == ledger[i];
    }
  }

  lemma LedgerLater(p: Promo, now: Time, at: Time)
    requires LedgerOk(p, now) && now <= at
    ensures LedgerOk(p, at) && Numbered(p.ledger) && TimesOk(p.ledger, at)
  {
  }

  /** What one operation may do to the ledger: nothing, or append one decision dated `now`. */
  predicate AppendsAt(ledger: seq<Decision>, ledger': seq<Decision>, now: Time) {
    || ledger' == ledger
    || (|ledger'| == |ledger| + 1 && ledger'[..|ledger|] == ledger && ledger'[|ledger|].at == now)
  }

  /** A decision dated later does not change what was latest before. */
  lemma AppendKeepsEarlier(ledger: seq<Decision>, ledger': seq<Decision>, now: Time, run: Id, asOf: Time)
    requires AppendsAt(ledger, ledger', now) && asOf < now
    ensures LatestAsOf(ledger', run, Some(asOf)) == LatestAsOf(ledger, run, Some(asOf))
  {
  }

  lemma {:induction false} LatestBelowMax(ledger: seq<Decision>, run: Id)
    ensures LatestAsOf(ledger, run, None).Some? ==> LatestAsOf(ledger, run, None).value.seqNo <= MaxSeq(ledger)
  {
    if ledger != [] {
      LatestBelowMax(ledger[..|ledger| - 1], run);
    }
  }

  /** Without the clock assumption a revocation need not be final, in any ledger: an approved run keeps
      answering "approved" after its revocation, and a second revocation is appended, exactly when the
      revocation is dated before the decision it revokes. */
  lemma BackdatedRevocationRepeats(p: Promo, c: Core, run: Id, at: Time, id: Id, at': Time, id': Id)
    requires Eligible(c, run)
    requires LatestAsOf(p.ledger, run, None).Some? && LatestAsOf(p.ledger, run, None).value.verdict.Approved?
    ensures var p1 := Revoke(p, c, run, at, id).0;
            var p2 := Revoke(p1, c, run, at', id').0;
            && |p1.ledger| == |p.ledger| + 1
            && (|p2.ledger| == |p.ledger| + 2 <==> at < LatestAsOf(p.ledger, run, None).value.at)
            && (p2 == p1 <==> at >= LatestAsOf(p.ledger, run, None).value.at)
  {
    LatestBelowMax(p.ledger, run);
    var p1 := Revoke(p, c, run, at, id).0;
    assert p1.ledger[..|p1.ledger| - 1] == p.ledger;
  }

  /** Such a ledger exists: approved at 10, revoked as of 5, and revoked again. */
  lemma RevokedTwice(c: Core, run: Id)
    requires Eligible(c, run)
    ensures var p := Record(EMPTY_PROMO, 1, run, Approved, Automatic, 10);
            var p2 := Revoke(Revoke(p, c, run, 5, 2).0, c, run, 6, 3).0;
            !Shape(History(p2.ledger, run))
  {
    hide Eligible;
    var approval := Decision(1, 1, run, Approved, Automatic, 10);
    var first, second := Decision(2, 2, run, Revoked, Automatic, 5), Decision(3, 3, run, Revoked, Automatic, 6);
    var p := Record(EMPTY_PROMO, 1, run, Approved, Automatic, 10);
    assert p.ledger == [approval];
    assert [approval][..0] == [] && [approval, first][..1] == [approval];
    assert [approval, first, second][..2] == [approval, first];
    assert LatestAsOf([approval], run, None) == Some(approval) && MaxSeq([approval]) == 1;
    assert LatestAsOf([approval, first], run, None) == Some(approval) && MaxSeq([approval, first]) == 2;
    var p1 := Revoke(p, c, run, 5, 2).0;
    assert p1.ledger == [approval, first];
    var p2 := Revoke(p1, c, run, 6, 3).0;
    assert p2.ledger == [approval, first, second];
  }
}
