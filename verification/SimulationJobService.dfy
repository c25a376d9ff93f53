/** Job rows and their lifecycle (app/services/simulation_job.py). */
module SimulationJobService {
  import opened Domain
  import opened Database

  // ---- The lifecycle table ----

  predicate CanTransition(source: Status, target: Status) {
    match source
    case Pending => target.Running? || target.Failed?
    case Running => target.Completed? || target.Failed?
    case Completed => false
    case Failed => false
  }

  // ---- Rows ----

  function NewRow(user: UserId, params: Params, now: Time): Job {
    Job(user, params, Pending, None, None, params.seed.Some?, None, now, None, None, now, None, None, None,
        0, DEFAULT_MAX_ATTEMPTS)
  }

  function FailedRow(job: Job, code: string, now: Time): Job {
    job.(status := Failed, errorCode := Some(code), completedAt := Some(now), updatedAt := now)
  }

  function CompletedRow(job: Job, records: Records, computeMs: nat, now: Time): Job {
    job.(status := Completed, data := Some(records), computeMs := Some(computeMs), completedAt := Some(now),
        updatedAt := now)
  }

  function StartedRow(job: Job, now: Time): Job {
    job.(status := Running, startedAt := Some(now), updatedAt := now)
  }

  function PutRow(db: Db, id: JobId, row: Job): Db {
    db.(jobs := db.jobs[id := row])
  }

  /** Hard delete: the rows leave the table, the history keeps their last content. */
  function RemoveRows(db: Db, ids: set<JobId>): Db {
    db.(jobs := db.jobs - ids,
        hist := db.hist.(archived := db.hist.archived + (map id | id in db.jobs && id in ids :: db.jobs[id])))
  }

  function CreateJob(db: Db, id: JobId, user: UserId, params: Params, now: Time): Db {
    PutRow(db, id, NewRow(user, params, now)).(hist :=
      db.hist.(inFlight := db.hist.inFlight - {id}, submitted := db.hist.submitted[id := params]))
  }

  datatype Target =
    | ToRunning
    | ToCompleted(records: Option<Records>, computeMs: Option<nat>)
    | ToFailed(code: Option<string>)
  {
    function Status(): Status {
      match this case ToRunning => Running case ToCompleted(_, _) => Completed case ToFailed(_) => Failed
    }
  }

  datatype TransitionResult = Transitioned | InvalidTransition(source: Status, target: Status)

  /** The row after a permitted transition. */
  function Moved(job: Job, target: Target, now: Time): Job {
    match target
    case ToRunning => StartedRow(job, now)
    case ToCompleted(records, computeMs) =>
      job.(status := Completed, completedAt := Some(now), updatedAt := now,
           data := if records.Some? then records else job.data,
           computeMs := if computeMs.Some? then computeMs else job.computeMs)
    case ToFailed(code) => job.(status := Failed, completedAt := Some(now), updatedAt := now, errorCode := code)
  }

  /** What becomes of a write: it goes through; it fails before the session is
      touched; or its commit fails and leaves the session unusable, so that
      every later statement of the request raises as well. */
  datatype Write = Works | Raises | Breaks

  /** The outcome of a transition, on the columns: from pending a row may start or
      fail, from running it may complete or fail, and nothing else moves. */
  ghost predicate Follows(jobs: map<JobId, Job>, jobs': map<JobId, Job>, id: JobId, target: Target, now: Time,
                          r: TransitionResult)
    requires id in jobs
  {
    var j := jobs[id];
    match target
    case ToRunning =>
      if j.status == Pending then
        r == Transitioned && jobs' == jobs[id := j.(status := Running, startedAt := Some(now), updatedAt := now)]
      else jobs' == jobs && r == if j.status == Running then Transitioned else InvalidTransition(j.status, Running)
    case ToCompleted(records, computeMs) =>
      if j.status == Running then
        && r == Transitioned
        && jobs' == jobs[id := j.(status := Completed, completedAt := Some(now), updatedAt := now,
                                  data := if records == None then j.data else records,
                                  computeMs := if computeMs == None then j.computeMs else computeMs)]
      else jobs' == jobs && r == if j.status == Completed then Transitioned else InvalidTransition(j.status, Completed)
    case ToFailed(code) =>
      if j.status == Pending || j.status == Running then
        && r == Transitioned
        && jobs' == jobs[id := j.(status := Failed, completedAt := Some(now), updatedAt := now, errorCode := code)]
      else jobs' == jobs && r == if j.status == Failed then Transitioned else InvalidTransition(j.status, Failed)
  }

  /** One row more: pending, of this user, with these parameters, never claimed. */
  ghost predicate Inserted(jobs: map<JobId, Job>, jobs': map<JobId, Job>, id: JobId, user: UserId, params: Params,
                           now: Time)
  {
    jobs' == jobs[id := Job(user, params, Pending, None, None, params.seed != None, None, now, None, None, now, None,
                            None, None, 0, 3)]
  }

  // ---- The service ----

  /** Terminal rows never change; a row already in the target status is left
      alone; every other change follows the table. */
  method TransitionJobStatus(db: Database, id: JobId, target: Target, now: Time) returns (r: TransitionResult)
    requires id in db.jobs
    modifies db`jobs
    ensures r.InvalidTransition? <==>
            old(db.jobs[id]).status != target.Status() && !CanTransition(old(db.jobs[id]).status, target.Status())
    ensures r.InvalidTransition? ==> r == InvalidTransition(old(db.jobs[id]).status, target.Status())
    ensures r.InvalidTransition? || old(db.jobs[id]).status == target.Status() || old(db.jobs[id]).status.Terminal()
            ==> db.jobs == old(db.jobs)
    ensures CanTransition(old(db.jobs[id]).status, target.Status()) ==>
            db.jobs == old(db.jobs)[id := Moved(old(db.jobs[id]), target, now)]
    // the same on the columns
    ensures Follows(old(db.jobs), db.jobs, id, target, now, r)
  {
    var job := db.jobs[id];
    if job.status == target.Status() {
      return Transitioned;
    }
    if !CanTransition(job.status, target.Status()) {
      return InvalidTransition(job.status, target.Status());
    }
    job := job.(status := target.Status(), updatedAt := now);
    match target {
      case ToRunning =>
        job := job.(startedAt := Some(now));
      case ToCompleted(records, computeMs) =>
        job := job.(completedAt := Some(now));
        if records.Some? { job := job.(data := records); }
        if computeMs.Some? { job := job.(computeMs := computeMs); }
      case ToFailed(code) =>
        job := job.(completedAt := Some(now), errorCode := code);
    }
    db.jobs := db.jobs[id := job];
    return Transitioned;
  }

  /** `persisted` says whether the commit went through. */
  method CreateSimulationJob(db: Database, id: JobId, user: UserId, params: Params, persisted: bool, now: Time)
    returns (created: bool)
    requires id !in db.jobs
    modifies db
    ensures created == persisted
    ensures db.Snapshot() == if persisted then CreateJob(old(db.Snapshot()), id, user, params, now)
        else old(db.Snapshot())
    ensures Inserted(old(db.jobs), db.jobs, id, user, params, now) <==> persisted
    ensures !persisted ==> db.jobs == old(db.jobs)
    ensures db.usage == old(db.usage) && db.events == old(db.events) && db.users == old(db.users)
  {
    if !persisted {
      return false;
    }
    db.jobs := db.jobs[id := NewRow(user, params, now)];
    db.hist := db.hist.(inFlight := db.hist.inFlight - {id}, submitted := db.hist.submitted[id := params]);
    return true;
  }
}
