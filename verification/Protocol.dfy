/** Submitters, workers, deletions and cleaners interleaved in any order. */
module Protocol {
  import opened Domain
  import opened Database
  import opened UsageService
  import opened SimulationJobService
  import opened WorkerService
  import opened SimulationsApi
  import opened RetentionService

  /** A claimed job as the worker read it; `attempt` is the row's count at that time. */
  datatype Execution = Execution(job: JobId, user: UserId, params: Params, attempt: nat)

  datatype Worker = Idle | Busy(exec: Execution)

  /** One run of the retention cleaner, between its statements. */
  datatype Cleaner = Cleaner(
    cutoff: Time, batchSize: nat, selected: Option<seq<JobId>>, deleted: nat, batches: nat, active: bool, success: bool)

  /** `cleaned` is the history of what the cleaners removed. */
  datatype System = System(
    now: Time, db: Db, workers: map<WorkerId, Worker>, cleaners: map<nat, Cleaner>, cleaned: set<JobId>)

  /** What happens when a worker runs the engine. */
  datatype EngineRun = Produces(entropy: int, computeMs: nat) | Raises(code: string)

  datatype Step =
    | Tick(to: Time)
    | SetActive(user: UserId, active: bool)
    | ReserveQuota(id: JobId, user: UserId, interactions: nat)
    | CreateRow(id: JobId, params: Params)
    | CreateFails(id: JobId)
    | ClaimNext(worker: WorkerId)
    | ClaimBreaks(worker: WorkerId, inspected: nat)
    | FinishJob(worker: WorkerId, run: EngineRun, commit: Commit)
    | Crash(worker: WorkerId)
    | Beat(worker: WorkerId)
    | DeleteRow(caller: UserId, id: JobId)
    | StartCleaner(cleaner: nat, cutoff: Time, batchSize: nat)
    | SelectBatch(cleaner: nat)
    | DeleteBatch(cleaner: nat)
    | CleanerFails(cleaner: nat)

  function WorkerAt(s: System, w: WorkerId): Worker {
    if w in s.workers then s.workers[w] else Idle
  }

  function WithDb(s: System, db: Db): System { s.(db := db) }

  function WithWorker(s: System, w: WorkerId, state: Worker): System {
    s.(workers := s.workers[w := state])
  }

  function ApplyReserve(cfg: Config, s: System, id: JobId, user: UserId, interactions: nat): System {
    if id in s.db.hist.tickets || user !in s.db.users then s
    else WithDb(s, Reserve(cfg, s.db, id, user, interactions, s.now).0)
  }

  function ApplyCreate(s: System, id: JobId, params: Params): System {
    var h := s.db.hist;
    if id in h.inFlight && id in h.tickets && params.interactions == h.tickets[id].interactions
    then WithDb(s, CreateJob(s.db, id, h.tickets[id].user, params, s.now))
    else s
  }

  function ApplyCreateFails(cfg: Config, s: System, id: JobId): System {
    var h := s.db.hist;
    if id in h.inFlight && id in h.tickets
    then WithDb(s, Release(cfg, s.db, id, h.tickets[id].user, h.tickets[id].interactions, s.now))
    else s
  }

  /** Only an idle worker asks for a job, and it then runs what it was given. */
  function ApplyClaim(cfg: Config, s: System, w: WorkerId): System {
    if WorkerAt(s, w).Busy? then s else
    var (db, claimed) := Claim(cfg, s.db, w, s.now);
    if claimed.None? || claimed.value !in db.jobs then WithDb(s, db) else
    var row := db.jobs[claimed.value];
    WithWorker(WithDb(s, db), w, Busy(Execution(claimed.value, row.user, row.params, row.attempts)))
  }

  /** A claim call that raises; the worker stays idle. */
  function ApplyClaimBreaks(cfg: Config, s: System, w: WorkerId, inspected: nat): System {
    if WorkerAt(s, w).Busy? then s else WithDb(s, BrokenClaim(cfg, s.db, w, s.now, inspected))
  }

  function OutcomeOf(cfg: Config, exec: Execution, run: EngineRun): Outcome {
    match run
    case Produces(entropy, computeMs) => Generated(RunEngine(cfg, exec.params, entropy), computeMs)
    case Raises(code) => EngineFailed(code)
  }

  function FinishExecution(cfg: Config, s: System, w: WorkerId, exec: Execution, run: EngineRun, commit: Commit)
    : (Db, bool)
  {
    Finish(cfg, s.db, exec.job, exec.user, exec.params.interactions, w, OutcomeOf(cfg, exec, run), commit, s.now)
  }

  function ApplyFinish(cfg: Config, s: System, w: WorkerId, run: EngineRun, commit: Commit): System {
    match WorkerAt(s, w)
    case Idle => s
    case Busy(exec) => WithWorker(WithDb(s, FinishExecution(cfg, s, w, exec, run, commit).0), w, Idle)
  }

  function ApplyBeat(s: System, w: WorkerId): System {
    match WorkerAt(s, w)
    case Idle => s
    case Busy(exec) => WithDb(s, Heartbeat(s.db, exec.job, w, s.now).0)
  }

  function ApplyDelete(cfg: Config, s: System, caller: UserId, id: JobId): System {
    WithDb(s, Delete(cfg, s.db, caller, id, s.now).0)
  }

  function WithCleaner(s: System, c: nat, state: Cleaner): System {
    s.(cleaners := s.cleaners[c := state])
  }

  function ApplyStartCleaner(s: System, c: nat, cutoff: Time, batchSize: nat): System {
    if c in s.cleaners then s else WithCleaner(s, c, Cleaner(cutoff, batchSize, None, 0, 0, true, true))
  }

  function ApplySelect(s: System, c: nat): System {
    if c !in s.cleaners || !s.cleaners[c].active || s.cleaners[c].selected.Some? then s else
    var batch := ExpiredBatch(s.db.jobs, s.cleaners[c].cutoff, s.cleaners[c].batchSize);
    if batch == [] then WithCleaner(s, c, s.cleaners[c].(active := false))
    else WithCleaner(s, c, s.cleaners[c].(selected := Some(batch)))
  }

  /** The rows of the selection that are still there; their status is not looked at again. */
  function Remaining(s: System, c: nat): set<JobId>
    requires c in s.cleaners && s.cleaners[c].selected.Some?
  {
    set id | id in s.cleaners[c].selected.value && id in s.db.jobs
  }

  function ApplyDeleteBatch(s: System, c: nat): System {
    if c !in s.cleaners || !s.cleaners[c].active || s.cleaners[c].selected.None? then s else
    var gone := Remaining(s, c);
    var state := s.cleaners[c].(selected := None, deleted := s.cleaners[c].deleted + |gone|,
                                batches := s.cleaners[c].batches + (if gone != {} then 1 else 0));
    WithCleaner(WithDb(s, RemoveRows(s.db, gone)), c, state).(cleaned := s.cleaned + gone)
  }

  /** A batch is rolled back and the run ends; what it deleted before stays counted. */
  function ApplyCleanerFails(s: System, c: nat): System {
    if c !in s.cleaners || !s.cleaners[c].active then s
    else WithCleaner(s, c, s.cleaners[c].(selected := None, active := false, success := false))
  }

  /** One step; a step that is not possible changes nothing. */
  function Apply(cfg: Config, s: System, step: Step): System {
    match step
    case Tick(to) => if to >= s.now then s.(now := to) else s
    case SetActive(user, active) =>
      if user in s.db.users then WithDb(s, s.db.(users := s.db.users[user := s.db.users[user].(active := active)]))
          else s
    case ReserveQuota(id, user, interactions) => ApplyReserve(cfg, s, id, user, interactions)
    case CreateRow(id, params) => ApplyCreate(s, id, params)
    case CreateFails(id) => ApplyCreateFails(cfg, s, id)
    case ClaimNext(w) => ApplyClaim(cfg, s, w)
    case ClaimBreaks(w, inspected) => ApplyClaimBreaks(cfg, s, w, inspected)
    case FinishJob(w, run, commit) => ApplyFinish(cfg, s, w, run, commit)
    case Crash(w) => WithWorker(s, w, Idle)
    case Beat(w) => ApplyBeat(s, w)
    case DeleteRow(caller, id) => ApplyDelete(cfg, s, caller, id)
    case StartCleaner(c, cutoff, batchSize) => ApplyStartCleaner(s, c, cutoff, batchSize)
    case SelectBatch(c) => ApplySelect(s, c)
    case DeleteBatch(c) => ApplyDeleteBatch(s, c)
    case CleanerFails(c) => ApplyCleanerFails(s, c)
  }

  // ---- Which function a step is ----

  lemma ClaimNextIs(cfg: Config, s: System, step: Step)
    requires step.ClaimNext?
    ensures Apply(cfg, s, step) == ApplyClaim(cfg, s, step.worker)
  {
  }

  lemma ClaimBreaksIs(cfg: Config, s: System, step: Step)
    requires step.ClaimBreaks?
    ensures Apply(cfg, s, step) == ApplyClaimBreaks(cfg, s, step.worker, step.inspected)
  {
  }

  lemma FinishJobIs(cfg: Config, s: System, step: Step)
    requires step.FinishJob?
    ensures Apply(cfg, s, step) == ApplyFinish(cfg, s, step.worker, step.run, step.commit)
  {
  }

  lemma BeatIs(cfg: Config, s: System, step: Step)
    requires step.Beat?
    ensures Apply(cfg, s, step) == ApplyBeat(s, step.worker)
  {
  }

  lemma DeleteBatchIs(cfg: Config, s: System, step: Step)
    requires step.DeleteBatch?
    ensures Apply(cfg, s, step) == ApplyDeleteBatch(s, step.cleaner)
  {
  }

  lemma ReserveQuotaIs(cfg: Config, s: System, step: Step)
    requires step.ReserveQuota?
    ensures Apply(cfg, s, step) == ApplyReserve(cfg, s, step.id, step.user, step.interactions)
  {
  }

  lemma CreateRowIs(cfg: Config, s: System, step: Step)
    requires step.CreateRow?
    ensures Apply(cfg, s, step) == ApplyCreate(s, step.id, step.params)
  {
  }

  lemma CreateFailsIs(cfg: Config, s: System, step: Step)
    requires step.CreateFails?
    ensures Apply(cfg, s, step) == ApplyCreateFails(cfg, s, step.id)
  {
  }

  lemma DeleteRowIs(cfg: Config, s: System, step: Step)
    requires step.DeleteRow?
    ensures Apply(cfg, s, step) == ApplyDelete(cfg, s, step.caller, step.id)
  {
  }

  lemma StartCleanerIs(cfg: Config, s: System, step: Step)
    requires step.StartCleaner?
    ensures Apply(cfg, s, step) == ApplyStartCleaner(s, step.cleaner, step.cutoff, step.batchSize)
  {
  }

  lemma SelectBatchIs(cfg: Config, s: System, step: Step)
    requires step.SelectBatch?
    ensures Apply(cfg, s, step) == ApplySelect(s, step.cleaner)
  {
  }

  lemma CleanerFailsIs(cfg: Config, s: System, step: Step)
    requires step.CleanerFails?
    ensures Apply(cfg, s, step) == ApplyCleanerFails(s, step.cleaner)
  {
  }

  // ---- Runs ----

  function Run(cfg: Config, s: System, steps: seq<Step>): System {
    if steps == [] then s else Apply(cfg, Run(cfg, s, steps[..|steps| - 1]), steps[|steps| - 1])
  }

  lemma RunOne(cfg: Config, s: System, step: Step)
    ensures Run(cfg, s, [step]) == Apply(cfg, s, step)
  {
    assert [step][..0] == [];
  }

  lemma RunMore(cfg: Config, s: System, steps: seq<Step>, step: Step)
    ensures Run(cfg, s, steps + [step]) == Apply(cfg, Run(cfg, s, steps), step)
  {
    assert (steps + [step])[..|steps|] == steps;
  }

  /** Any users, an empty queue, no usage yet, nobody at work. */
  ghost predicate Initial(s: System) {
    s.db == EmptyDb(s.db.users) && s.workers == map[] && s.cleaners == map[] && s.cleaned == {}
  }

  /** A submit request is two steps of the protocol, between which anything may
      happen; one that loses its session takes only the first. */
  lemma SubmitIsReserveThenCreate(cfg: Config, s: System, id: JobId, user: UserId, params: Params, write: Write,
                                  written: Time)
    requires id !in s.db.hist.tickets && id !in s.db.hist.inFlight && user in s.db.users && s.now <= written
    ensures var reserved := Apply(cfg, s, ReserveQuota(id, user, params.interactions));
            var later := Apply(cfg, reserved, Tick(written));
            Submit(cfg, s.db, id, user, params, write, s.now, written).0 ==
              if write.Breaks? then later.db
              else Apply(cfg, later, if write.Works? then CreateRow(id, params) else CreateFails(id)).db
  {
    RefusalIsJustified(cfg, s.db, id, user, params.interactions, s.now);
  }
}
