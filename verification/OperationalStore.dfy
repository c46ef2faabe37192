/** The operations whose transaction spans several table groups. */
module OperationalStore {
  import opened Base
  import opened Jobs
  import opened Leases
  import R = Revisions
  import P = Promotions
  import J = JobStore
  import O = ObservationStore
  import L = PromotionLedger
  import Store

  class OperationalStore {
    const jobs: J.JobStore
    const observations: O.ObservationStore
    const promotions: L.PromotionLedger

    ghost function Db(): Store.Db
      reads jobs, observations, promotions
    {
      Store.Db(jobs.Core(), observations.Obs(), promotions.Promo())
    }

    ghost predicate Valid()
      reads this, jobs, observations, promotions
    {
      jobs.Valid() && observations.Valid() && promotions.Valid()
    }

    constructor ()
      ensures fresh(jobs) && fresh(observations) && fresh(promotions)
      ensures Db() == Store.EMPTY_STORE && Valid()
    {
      var store := new J.JobStore();
      jobs := store;
      observations := new O.ObservationStore(store);
      promotions := new L.PromotionLedger(store);
    }

    /** `finish_run`: the close of the run and the automatic approval are one transaction, so whatever
        refuses the approval is found before anything is written. */
    method FinishRun(h: RunHandle, d: Definition, status: AttemptStatus, retryable: bool, retryAt: Option<Time>,
                     promote: bool, id: Id, now: Time) returns (r: Result<()>)
      requires Valid() && Genuine(jobs.Core(), h)
      modifies jobs, promotions
      ensures Valid()
      ensures forall t :: t <= now && Store.StoreOk(old(Db()), t) ==> Store.StoreOk(Db(), now)
      ensures (Db(), r) == Store.Finish(old(Db()), h, d, status, retryable, retryAt, promote, id, now)
    {
      hide Consistent, Genuine, P.Record, P.Numbered, R.StreamsOk, Store.StoreOk, Owns, Keeps, Leases.FinishRun;
      FinishAnswers(jobs.Core(), h, status, retryable, retryAt, now);
      FinishKeeps(Db(), h, d, status, retryable, retryAt, promote, id, now);
      if status.Running? || (retryAt.Some? && !retryable) {
        return Err(InvalidArgument);
      }
      if promote && !(status.Succeeded? && h.lane.ProductionIngestion? && d.automaticPromotion) {
        return Err(NotPermitted);
      }
      if !jobs.OwnsNow(h.lease, now) {
        return Err(NotOwned);
      }
      var meta := observations.meta;
      if promote && d.fullSnapshot && !(h.run in meta && meta[h.run].complete) {
        return Err(NotPermitted);
      }
      r := jobs.CloseRun(h, status, retryable, retryAt, now);
      if promote {
        promotions.RecordApproval(h.run, now, id);
      }
    }
  }

  lemma FinishAnswers(c: Core, h: RunHandle, status: AttemptStatus, retryable: bool, retryAt: Option<Time>, now: Time)
    ensures FinishRun(c, h, status, retryable, retryAt, now).1 ==
              if status.Running? || (retryAt.Some? && !retryable) then Err(InvalidArgument)
              else if !Owns(c, h.lease, now) then Err(NotOwned) else Ok(())
  {
  }

  lemma FinishKeeps(db: Store.Db, h: RunHandle, d: Definition, status: AttemptStatus, retryable: bool,
                    retryAt: Option<Time>, promote: bool, id: Id, now: Time)
    requires Genuine(db.core, h)
    ensures forall t :: t <= now && Store.StoreOk(db, t) ==>
              Store.StoreOk(Store.Finish(db, h, d, status, retryable, retryAt, promote, id, now).0, now)
  {
    hide Store.StoreOk, Genuine, Store.Finish, Progress;
    forall t | t <= now && Store.StoreOk(db, t)
      ensures Store.StoreOk(Store.Finish(db, h, d, status, retryable, retryAt, promote, id, now).0, now)
    {
      Store.FinishOk(db, t, now, Store.FinishOp(h, d, status, retryable, retryAt, promote, id));
    }
  }
}
