/** The promotion ledger and the review tables as an object. */
module PromotionLedger {
  import opened Base
  import opened Jobs
  import opened Leases
  import P = Promotions
  import J = JobStore

  class PromotionLedger {
    const jobs: J.JobStore
    // run_promotion in insertion order, review_task, manual_review_promotion
    var promotions: seq<P.Decision>
    var reviews: map<Id, P.Review>
    var reviewLinks: map<Id, (Id, Id)>

    ghost function Promo(): P.Promo
      reads this
    {
      P.Promo(promotions, reviews, reviewLinks)
    }

    /** promotion_seq counts the ledger: 1..n in insertion order, whatever the clock did. */
    ghost predicate Valid()
      reads this
    {
      P.Numbered(promotions)
    }

    constructor (store: J.JobStore)
      ensures Valid() && Promo() == P.EMPTY_PROMO && jobs == store
    {
      jobs := store;
      promotions, reviews, reviewLinks := [], map[], map[];
    }

    /** True exactly for the call that decides an open review; afterwards no call, for either decision,
        changes anything. */
    method DecideReview(review: Id, approve: bool) returns (r: Result<bool>)
      modifies `reviews
      ensures (Promo(), r) == P.DecideReview(old(Promo()), review, approve)
      ensures r.Err? <==> review !in old(reviews)
      ensures r == Ok(true) <==> review in old(reviews) && old(reviews)[review].state.Open?
      ensures r != Ok(true) ==> reviews == old(reviews)
      ensures r == Ok(true) ==> P.DecidedAs(old(reviews), reviews, review, approve)
      ensures review in reviews ==> forall again :: P.DecideReview(Promo(), review, again) == (Promo(), Ok(false))
    {
      if review !in reviews {
        return Err(Unknown);
      }
      var row := reviews[review];
      if !row.state.Open? {
        return Ok(false);
      }
      var state := if approve then P.ApprovedReview else P.RejectedReview;
      reviews := reviews[review := row.(state := state, hasApproval := approve)];
      r := Ok(true);
    }

    /** The append of an automatic approval inside `finish_run`. */
    method RecordApproval(run: Id, now: Time, id: Id)
      requires Valid()
      modifies `promotions
      ensures Valid()
      ensures Promo() == P.Record(old(Promo()), id, run, P.Approved, P.Automatic, now)
    {
      P.MaxSeqIsLength(promotions);
      var last := MaxPromotionSeq();
      promotions := promotions + [P.Decision(id, last + 1, run, P.Approved, P.Automatic, now)];
    }

    /** `SELECT COALESCE(MAX(promotion_seq), 0) FROM run_promotion` */
    method MaxPromotionSeq() returns (m: int)
      ensures m == P.MaxSeq(promotions)
    {
      m := 0;
      for i := 0 to |promotions|
        invariant m == P.MaxSeq(promotions[..i])
      {
        assert promotions[..i + 1][..i] == promotions[..i];
        m := Max(m, promotions[i].seqNo);
      }
      assert promotions[..|promotions|] == promotions;
    }

    method LatestDecision(run: Id) returns (latest: Option<P.Decision>)
      ensures latest == P.LatestAsOf(promotions, run, None)
    {
      latest := None;
      for i := 0 to |promotions|
        invariant latest == P.LatestAsOf(promotions[..i], run, None)
      {
        assert promotions[..i + 1][..i] == promotions[..i];
        if promotions[i].run == run && (latest.Some? ==> P.Newer(promotions[i], latest.value)) {
          latest := Some(promotions[i]);
        }
      }
      assert promotions[..|promotions|] == promotions;
    }

    method RevokePromotion(run: Id, now: Time, id: Id) returns (r: Result<P.Promoted>)
      requires Valid()
      modifies `promotions
      ensures Valid() && ShapeKept(old(Promo()), Promo(), now)
      ensures (Promo(), r) == P.Revoke(old(Promo()), jobs.Core(), run, now, id)
    {
      hide ShapeKept;
      RevokeKeeps(Promo(), jobs.Core(), run, now, id);
      var latest := LatestDecision(run);
      if latest.None? {
        return Err(Unknown);
      }
      if latest.value.verdict.Revoked? {
        return Ok(P.Promoted(run, latest.value.id, false));
      }
      if !EligibleNow(run) {
        return Err(NotPermitted);
      }
      var last := MaxPromotionSeq();
      promotions := promotions + [P.Decision(id, last + 1, run, P.Revoked, latest.value.mode, now)];
      r := Ok(P.Promoted(run, id, true));
    }

    predicate EligibleNow(run: Id)
      reads jobs
      ensures EligibleNow(run) == P.Eligible(jobs.Core(), run)
    {
      && run in jobs.runs && jobs.runs[run].lane.ProductionIngestion? && jobs.runs[run].status.Succeeded?
      && jobs.runs[run].attempt in jobs.attempts && jobs.attempts[jobs.runs[run].attempt].status.Succeeded?
    }

    method PromoteReview(review: Id, now: Time, id: Id) returns (r: Result<P.Promoted>)
      requires Valid()
      modifies `promotions, `reviewLinks
      ensures Valid() && ShapeKept(old(Promo()), Promo(), now)
      ensures (Promo(), r) == P.PromoteReview(old(Promo()), jobs.Core(), review, now, id)
    {
      hide ShapeKept;
      PromoteKeeps(Promo(), jobs.Core(), review, now, id);
      if review in reviewLinks {
        return Ok(P.Promoted(reviewLinks[review].0, reviewLinks[review].1, false));
      }
      if review !in reviews {
        return Err(Unknown);
      }
      var row := reviews[review];
      if !row.state.ApprovedReview? {
        return Err(NotApproved);
      }
      if !row.manualPolicy || !row.production || row.run.None? || !EligibleNow(row.run.value) {
        return Err(NotPermitted);
      }
      var run := row.run.value;
      if !row.hasApproval {
        return Err(NotApproved);
      }
      if exists x :: x in reviewLinks && reviewLinks[x].0 == run {
        return Err(AlreadyPromoted);
      }
      if exists i :: 0 <= i < |promotions| && promotions[i].run == run && promotions[i].verdict.Approved? {
        return Err(AlreadyPromoted);
      }
      var last := MaxPromotionSeq();
      promotions := promotions + [P.Decision(id, last + 1, run, P.Approved, P.ByReview, now)];
      reviewLinks := reviewLinks[review := (run, id)];
      r := Ok(P.Promoted(run, id, true));
    }
  }

  /** If decisions were never dated before an earlier one, every run's history stays empty, approved, or
      approved and then revoked. */
  ghost predicate ShapeKept(p: P.Promo, p': P.Promo, now: Time) {
    forall t :: t <= now && P.LedgerOk(p, t) ==> P.LedgerOk(p', now)
  }

  lemma RevokeKeeps(p: P.Promo, c: Core, run: Id, now: Time, id: Id)
    requires P.Numbered(p.ledger)
    ensures var p' := P.Revoke(p, c, run, now, id).0;
            P.Numbered(p'.ledger) && ShapeKept(p, p', now)
  {
    hide P.LatestAsOf, P.Eligible, P.LedgerOk;
    P.MaxSeqIsLength(p.ledger);
    forall t | t <= now && P.LedgerOk(p, t)
      ensures P.LedgerOk(P.Revoke(p, c, run, now, id).0, now)
    {
      P.RevokeOnce(p, c, run, now, id, t, now, id);
    }
  }

  lemma PromoteKeeps(p: P.Promo, c: Core, review: Id, now: Time, id: Id)
    requires P.Numbered(p.ledger)
    ensures var p' := P.PromoteReview(p, c, review, now, id).0;
            P.Numbered(p'.ledger) && ShapeKept(p, p', now)
  {
    hide P.HasApproval, P.Eligible, P.LedgerOk;
    P.MaxSeqIsLength(p.ledger);
    forall t | t <= now && P.LedgerOk(p, t)
      ensures P.LedgerOk(P.PromoteReview(p, c, review, now, id).0, now)
    {
      P.PromoteKeepsShape(p, c, review, now, id, t);
    }
  }
}
