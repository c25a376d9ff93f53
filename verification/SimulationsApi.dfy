/** The endpoints that submit and delete simulations (app/api/v1/simulations.py). */
module SimulationsApi {
  import opened Domain
  import opened Database
  import opened UsageService
  import opened SimulationJobService

  datatype SubmitResult = Accepted | Refused(verdict: Reservation) | NotPersisted | SessionLost
  datatype DeleteResult = Deleted | NotFound | StillRunning

  /** Mode A: reserve, then create the row or give the reservation back. When the
      session is lost the reservation stays in flight for good.
      `reserved`, `written` are the times of the two halves. */
  function Submit(cfg: Config, db: Db, id: JobId, user: UserId, params: Params, write: Write, reserved: Time,
                  written: Time)
    : (Db, SubmitResult)
    requires user in db.users
  {
    var (db', verdict) := Reserve(cfg, db, id, user, params.interactions, reserved);
    if !verdict.Reserved? then (db', Refused(verdict))
    else match write
    case Works => (CreateJob(db', id, user, params, written), Accepted)
    case Raises => (Release(cfg, db', id, user, params.interactions, written), NotPersisted)
    case Breaks => (db', SessionLost)
  }

  function Delete(cfg: Config, db: Db, caller: UserId, id: JobId, now: Time): (Db, DeleteResult) {
    if id !in db.jobs || db.jobs[id].user != caller then (db, NotFound)
    else if db.jobs[id].status.Running? then (db, StillRunning)
    else if db.jobs[id].status.Pending? then
      (RemoveRows(Release(cfg, db, id, caller, db.jobs[id].params.interactions, now), {id}), Deleted)
    else (RemoveRows(db, {id}), Deleted)
  }

  /** The books after a submit: refused, nothing but perhaps an empty row of
      counters; otherwise one charge by the user's plan with its request event,
      followed on failure by one refund with its failure event. */
  ghost predicate Booked(cfg: Config, before: Db, after: Db, r: SubmitResult, user: UserId, n: nat, reserved: Time,
                         written: Time)
    requires user in before.users
  {
    exists mid: Db, answer: Reservation ::
      && AnsweredByPlan(cfg, before, mid, answer, user, n, reserved)
      && after.users == before.users
      && match r
         case Refused(verdict) =>
           answer == verdict && !verdict.Reserved? && after.usage == mid.usage && after.events == before.events
         case NotPersisted =>
           && answer.Reserved? && GaveBack(cfg, mid.usage, after.usage, user, n, written)
           && after.events == before.events + [Event(user, SimulationRequest, reserved, n, None, true)]
                                + [Event(user, SimulationFailed, written, 0, Some(0), false)]
         case _ =>
           && answer.Reserved? && after.usage == mid.usage
           && after.events == before.events + [Event(user, SimulationRequest, reserved, n, None, true)]
  }

  lemma SubmitBooks(cfg: Config, db: Db, id: JobId, user: UserId, params: Params, write: Write, reserved: Time,
                    written: Time)
    requires user in db.users
    ensures var (db', r) := Submit(cfg, db, id, user, params, write, reserved, written);
            Booked(cfg, db, db', r, user, params.interactions, reserved, written)
  {
    var (mid, answer) := Reserve(cfg, db, id, user, params.interactions, reserved);
    ReservationGoesByPlan(cfg, db, id, user, params.interactions, reserved);
    ReleaseGivesBack(cfg, mid, id, user, params.interactions, written);
    assert AnsweredByPlan(cfg, db, mid, answer, user, params.interactions, reserved);
  }

  method RunSimulationQueued(cfg: Config, db: Database, id: JobId, user: UserId, params: Params, write: Write,
                             reserved: Time, written: Time)
    returns (r: SubmitResult)
    requires user in db.users && id !in db.jobs
    modifies db
    ensures (db.Snapshot(), r) == Submit(cfg, old(db.Snapshot()), id, user, params, write, reserved, written)
    // who is told what
    ensures var verdict := Reserve(cfg, old(db.Snapshot()), id, user, params.interactions, reserved).1;
            && (r.Refused? <==> !verdict.Reserved?) && (r.Refused? ==> r.verdict == verdict)
            && (r.Accepted? <==> verdict.Reserved? && write == Works)
            && (r.NotPersisted? <==> verdict.Reserved? && write == Write.Raises)
            && (r.SessionLost? <==> verdict.Reserved? && write == Breaks)
    // and what is then in the tables
    ensures r.Accepted? <==> id in db.jobs
    ensures r.Accepted? ==> Inserted(old(db.jobs), db.jobs, id, user, params, written)
    ensures !r.Accepted? ==> db.jobs == old(db.jobs)
    ensures Booked(cfg, old(db.Snapshot()), db.Snapshot(), r, user, params.interactions, reserved, written)
  {
    SubmitBooks(cfg, db.Snapshot(), id, user, params, write, reserved, written);
    var plan := PlanOf(db.users[user]);
    if params.interactions > plan.maxInteractionsPerRequest {
      return Refused(InteractionLimitExceeded(plan.maxInteractionsPerRequest, params.interactions));
    }
    var verdict := ReserveUsage(cfg, db, id, user, params.interactions, reserved);
    if !verdict.Reserved? {
      return Refused(verdict);
    }
    var created := CreateSimulationJob(db, id, user, params, write.Works?, written);
    if write.Breaks? {
      return SessionLost;
    }
    if !created {
      RefundAndRecordFailure(cfg, db, id, user, params.interactions, written);
      return NotPersisted;
    }
    return Accepted;
  }

  method DeleteSimulation(cfg: Config, db: Database, caller: UserId, id: JobId, now: Time) returns (r: DeleteResult)
    modifies db
    ensures (db.Snapshot(), r) == Delete(cfg, old(db.Snapshot()), caller, id, now)
    // a foreign row looks like a missing one, a running one is refused, both without effect
    ensures r.NotFound? <==> id !in old(db.jobs) || old(db.jobs)[id].user != caller
    ensures r.StillRunning? <==>
              id in old(db.jobs) && old(db.jobs)[id].user == caller && old(db.jobs)[id].status == Running
    ensures r.Deleted? <==>
              id in old(db.jobs) && old(db.jobs)[id].user == caller && old(db.jobs)[id].status != Running
    ensures !r.Deleted? ==> db.Snapshot() == old(db.Snapshot())
    // otherwise this row goes and no other, refunded and logged once if it was pending
    ensures r.Deleted? ==>
              && db.jobs.Keys == old(db.jobs).Keys - {id} && db.users == old(db.users)
              && (forall x :: x in db.jobs ==> db.jobs[x] == old(db.jobs)[x])
              && (if old(db.jobs)[id].status.Pending?
                  then GaveBack(cfg, old(db.usage), db.usage, caller, old(db.jobs)[id].params.interactions, now)
                       && db.events == old(db.events) + [Event(caller, SimulationFailed, now, 0, Some(0), false)]
                  else db.usage == old(db.usage) && db.events == old(db.events))
  {
    if id !in db.jobs || db.jobs[id].user != caller {
      return NotFound;
    }
    var sim := db.jobs[id];
    if sim.status == Running {
      return StillRunning;
    }
    if sim.status == Pending {
      RefundAndRecordFailure(cfg, db, id, sim.user, sim.params.interactions, now);
    }
    ghost var before := db.Snapshot();
    db.jobs := db.jobs - {id};
    db.hist := RemoveRows(before, {id}).hist;
    return Deleted;
  }
}
