/** Runs in which a claim call that failed a candidate goes on with rows it
    fetched before and no longer holds (app/services/worker.py:127-257). */
module SplitScenarios {
  import opened Domain
  import opened Database
  import opened JobOrder
  import opened SimulationJobService
  import opened WorkerService
  import opened Protocol
  import opened FencingTheorems
  import opened SplitClaim
  import opened SplitRuns
  import opened SplitOnce
  import opened Scenarios

  /** One user who may run two jobs at a time. */
  const PAIR := System(0, EmptyDb(map[0 := User(true, Some(Plan(100, 10000, 1000, 5, 2)))]), map[], map[], {})
  const START := Split(PAIR, map[])

  // ---- Runs and their counts ----

  function Plains(steps: seq<Step>): seq<SplitStep> {
    if steps == [] then [] else Plains(steps[..|steps| - 1]) + [Plain(steps[|steps| - 1])]
  }

  /** The counts of one job over a split run that led to `s`. */
  ghost predicate Leads(steps: seq<SplitStep>, s: Split, id: JobId, starts: nat, overtaken: bool) {
    && SplitRun(STEADY, START, steps) == s
    && SplitStartsIn(STEADY, START, steps, id) == starts && !SplitRecoveredIn(STEADY, START, steps, id)
    && OvertakenIn(STEADY, START, steps, id) == overtaken
  }

  lemma LeadsOn(steps: seq<SplitStep>, s: Split, step: SplitStep, id: JobId, starts: nat, overtaken: bool)
    requires Leads(steps, s, id, starts, overtaken) && !RecoversSplit(STEADY, s, step, id)
    ensures Leads(steps + [step], ApplySplit(STEADY, s, step), id,
                  starts + (if StartsSplit(STEADY, s, step, id) then 1 else 0),
                  overtaken || Overtakes(STEADY, s, step, id))
  {
    assert (steps + [step])[..|steps + [step]| - 1] == steps;
  }

  /** Without calls the split protocol is the protocol. */
  lemma {:induction false} PlainsLead(steps: seq<Step>, id: JobId)
    requires forall step :: step in steps ==> !step.ClaimNext? && !step.ClaimBreaks? && !step.Crash?
    ensures Leads(Plains(steps), Split(Run(STEADY, PAIR, steps), map[]), id, 0, false)
    decreases |steps|
  {
    if steps != [] {
      var before, step := steps[..|steps| - 1], steps[|steps| - 1];
      PlainsLead(before, id);
      LeadsOn(Plains(before), Split(Run(STEADY, PAIR, before), map[]), Plain(step), id, 0, false);
    }
  }

  lemma OneFetched(cfg: Config, jobs: map<JobId, Job>, locked: set<JobId>, id: JobId, now: Time)
    requires EligibleIds(cfg, jobs, now) - locked == {id} && id in jobs
    ensures FetchRows(cfg, jobs, locked, now) == [Seen(id, jobs[id])]
  {
    SortedIsOrdered(jobs, {id});
    var s := Sorted(jobs, {id});
    assert s[0] in Elements(s);
  }

  lemma TwoFetched(cfg: Config, jobs: map<JobId, Job>, a: JobId, b: JobId, now: Time)
    requires EligibleIds(cfg, jobs, now) == {a, b} && a != b && a in jobs && b in jobs && Before(jobs, a, b)
    ensures FetchRows(cfg, jobs, {}, now) == [Seen(a, jobs[a]), Seen(b, jobs[b])]
  {
    TwoCandidates(cfg, jobs, a, b, now);
    assert EligibleIds(cfg, jobs, now) - {} == EligibleIds(cfg, jobs, now);
    assert FetchIds(cfg, jobs, {}, now) == [a, b];
  }

  /** A look that takes its candidate while nobody else holds a lock. */
  lemma TakingAlone(s: Split, w: WorkerId, row: Job)
    requires Looking(s, w) && Locked(s.calls - {w}) == {}
    requires NextLook(STEADY, s, w) == (PutRow(s.base.db, Candidate(s, w).id, row), Taken)
    ensures var id, db := Candidate(s, w).id, PutRow(s.base.db, Candidate(s, w).id, row);
            ApplySplit(STEADY, s, Look(w))
              == Split(WithWorker(WithDb(s.base, db), w, Busy(Execution(id, row.user, row.params, row.attempts))),
                       s.calls - {w})
    ensures StartsSplit(STEADY, s, Look(w), Candidate(s, w).id)
  {
  }

  // ---- Two jobs, the older overdue ----

  const TWO_JOBS := [
    ReserveQuota(1, 0, 10), CreateRow(1, JOB), Tick(3000), ReserveQuota(2, 0, 10), CreateRow(2, JOB), Tick(4000)]
  const OLD := NewRow(0, JOB, 0)
  const YOUNG := NewRow(0, JOB, 3000)

  lemma FirstSubmitted()
    ensures var s := Run(STEADY, PAIR, TWO_JOBS[..3]);
            && s.now == 3000 && s.db.users == PAIR.db.users && s.workers == map[] && s.db.jobs == map[1 := OLD]
            && UsageOf(s.db.usage, 0, 1) == Usage(1, 10)
            && s.db.hist.tickets.Keys == {1} && s.db.hist.inFlight == {}
  {
    Submitting(STEADY, PAIR, 1, 0, JOB);
    assert TWO_JOBS[..1] == [TWO_JOBS[0]] && TWO_JOBS[..2] == TWO_JOBS[..1] + [TWO_JOBS[1]];
    assert TWO_JOBS[..3] == TWO_JOBS[..2] + [TWO_JOBS[2]];
    RunOne(STEADY, PAIR, TWO_JOBS[0]);
    RunMore(STEADY, PAIR, TWO_JOBS[..1], TWO_JOBS[1]);
    RunMore(STEADY, PAIR, TWO_JOBS[..2], TWO_JOBS[2]);
  }

  lemma BothSubmitted()
    ensures var s := Run(STEADY, PAIR, TWO_JOBS);
            && s.now == 4000 && s.db.users == PAIR.db.users && s.workers == map[]
            && s.db.jobs == map[1 := OLD, 2 := YOUNG]
  {
    FirstSubmitted();
    Submitting(STEADY, Run(STEADY, PAIR, TWO_JOBS[..3]), 2, 0, JOB);
    assert TWO_JOBS[..4] == TWO_JOBS[..3] + [TWO_JOBS[3]] && TWO_JOBS[..5] == TWO_JOBS[..4] + [TWO_JOBS[4]];
    assert TWO_JOBS == TWO_JOBS[..5] + [TWO_JOBS[5]];
    RunMore(STEADY, PAIR, TWO_JOBS[..3], TWO_JOBS[3]);
    RunMore(STEADY, PAIR, TWO_JOBS[..4], TWO_JOBS[4]);
    RunMore(STEADY, PAIR, TWO_JOBS[..5], TWO_JOBS[5]);
  }

  const FETCHED := [Seen(1, OLD), Seen(2, YOUNG)]

  /** Worker 1 fetches both rows and fails the older one. */
  ghost predicate OldOneFailed(s: Split) {
    && s.base.now == 4000 && s.base.db.users == PAIR.db.users && s.base.workers == map[]
    && s.base.db.jobs == map[1 := FailedRow(OLD, QUEUE_TIMEOUT, 4000), 2 := YOUNG]
    && s.calls == map[1 := Call(FETCHED, 1, 4000, false)]
  }

  lemma WorkerOneFetches(s: Split)
    requires s.base.now == 4000 && s.base.db.jobs == map[1 := OLD, 2 := YOUNG] && s.base.workers == map[]
    requires s.calls == map[]
    ensures ApplySplit(STEADY, s, Fetch(1)) == Split(s.base, map[1 := Call(FETCHED, 0, 4000, true)])
  {
    assert EligibleIds(STEADY, s.base.db.jobs, 4000) == {1, 2};
    TwoFetched(STEADY, s.base.db.jobs, 1, 2, 4000);
    assert Locked(s.calls) == {};
  }

  lemma WorkerOneFails(s: Split)
    requires s.base.now == 4000 && s.base.db.users == PAIR.db.users && s.base.workers == map[]
    requires s.base.db.jobs == map[1 := OLD, 2 := YOUNG] && s.calls == map[1 := Call(FETCHED, 0, 4000, true)]
    ensures OldOneFailed(ApplySplit(STEADY, s, Look(1)))
    ensures !StartsSplit(STEADY, s, Look(1), 2)
  {
    assert s.calls - {1} == map[] && Locked(s.calls - {1}) == {};
    LookAtUnchanged(STEADY, s.base.db, Seen(1, OLD), 1, 4000, 4000);
  }

  /** Worker 2 takes the younger one, which worker 1 has unlocked. */
  ghost predicate YoungOneTaken(s: Split) {
    && s.base.now == 4000 && s.base.db.users == PAIR.db.users
    && s.base.db.jobs == map[1 := FailedRow(OLD, QUEUE_TIMEOUT, 4000), 2 := ClaimedRow(YOUNG, 2, 4000)]
    && s.base.workers == map[2 := Busy(Execution(2, 0, JOB, 1))]
    && s.calls == map[1 := Call(FETCHED, 1, 4000, false)]
  }

  lemma WorkerTwoFetches(s: Split)
    requires OldOneFailed(s)
    ensures ApplySplit(STEADY, s, Fetch(2))
         == Split(s.base, s.calls[2 := Call([Seen(2, YOUNG)], 0, 4000, true)])
  {
    assert Locked(s.calls) == {};
    assert EligibleIds(STEADY, s.base.db.jobs, 4000) - {} == {2};
    OneFetched(STEADY, s.base.db.jobs, {}, 2, 4000);
  }

  lemma WorkerTwoLooks(s: Split, db: Db)
    requires OldOneFailed(s) && db == s.base.db
    ensures LookAt(STEADY, db, Seen(2, YOUNG), 2, 4000, 4000) == (PutRow(db, 2, ClaimedRow(YOUNG, 2, 4000)), Taken)
  {
    assert RunningIds(db.jobs, 0) - {} == {};
    LookAtUnchanged(STEADY, db, Seen(2, YOUNG), 2, 4000, 4000);
  }

  /** Worker 2 has fetched the younger row. */
  ghost predicate YoungOneFetched(s: Split) {
    && Looking(s, 2) && Candidate(s, 2) == Seen(2, YOUNG) && s.calls[2].at == 4000 && Locked(s.calls - {2}) == {}
    && OldOneFailed(Split(s.base, s.calls - {2}))
  }

  lemma YoungFetched(s: Split)
    requires OldOneFailed(s)
    ensures YoungOneFetched(Split(s.base, s.calls[2 := Call([Seen(2, YOUNG)], 0, 4000, true)]))
  {
    assert s.calls[2 := Call([Seen(2, YOUNG)], 0, 4000, true)] - {2} == s.calls;
    assert Locked(s.calls) == {};
  }

  lemma YoungTaken(s: Split)
    requires OldOneFailed(s)
    ensures YoungOneTaken(Split(WithWorker(WithDb(s.base, PutRow(s.base.db, 2, ClaimedRow(YOUNG, 2, 4000))), 2,
                                           Busy(Execution(2, 0, JOB, 1))), s.calls))
  {
  }

  lemma YoungIsUnclaimed(s: Split)
    requires YoungOneFetched(s)
    ensures !Overtakes(STEADY, s, Look(2), 2) && !RecoversSplit(STEADY, s, Look(2), 2)
  {
  }

  lemma WorkerTwoTakes(s: Split)
    requires YoungOneFetched(s)
    ensures YoungOneTaken(ApplySplit(STEADY, s, Look(2))) && StartsSplit(STEADY, s, Look(2), 2)
  {
    WorkerTwoLooks(Split(s.base, s.calls - {2}), s.base.db);
    TakingAlone(s, 2, ClaimedRow(YOUNG, 2, 4000));
    YoungTaken(Split(s.base, s.calls - {2}));
  }

  const FAILED := Plains(TWO_JOBS) + [Fetch(1)] + [Look(1)]
  const TAKEN := FAILED + [Fetch(2)] + [Look(2)]

  lemma OneFailsOld()
    ensures exists s: Split :: OldOneFailed(s) && Leads(FAILED, s, 2, 0, false)
  {
    BothSubmitted();
    PlainsLead(TWO_JOBS, 2);
    var s := Split(Run(STEADY, PAIR, TWO_JOBS), map[]);
    var fetched := ApplySplit(STEADY, s, Fetch(1));
    WorkerOneFetches(s);
    LeadsOn(Plains(TWO_JOBS), s, Fetch(1), 2, 0, false);
    WorkerOneFails(fetched);
    LeadsOn(Plains(TWO_JOBS) + [Fetch(1)], fetched, Look(1), 2, 0, false);
  }

  lemma TwoTakesYoung()
    ensures exists s: Split :: YoungOneTaken(s) && Leads(TAKEN, s, 2, 1, false)
  {
    OneFailsOld();
    var s: Split :| OldOneFailed(s) && Leads(FAILED, s, 2, 0, false);
    var fetched := ApplySplit(STEADY, s, Fetch(2));
    WorkerTwoFetches(s);
    LeadsOn(FAILED, s, Fetch(2), 2, 0, false);
    YoungFetched(s);
    YoungIsUnclaimed(fetched);
    WorkerTwoTakes(fetched);
    LeadsOn(FAILED + [Fetch(2)], fetched, Look(2), 2, 0, false);
  }

  /** Worker 1 goes on with its copy of the younger row. */
  lemma WorkerOneTakesItToo(s: Split)
    requires YoungOneTaken(s)
    ensures StartsSplit(STEADY, s, Look(1), 2) && Overtakes(STEADY, s, Look(1), 2)
    ensures var s' := ApplySplit(STEADY, s, Look(1)).base;
            && s'.workers == s.base.workers[1 := Busy(Execution(2, 0, JOB, 1))]
            && 2 in s'.db.jobs && s'.db.jobs[2] == ClaimedRow(YOUNG, 1, 4000)
  {
    assert s.calls - {1} == map[] && Locked(s.calls - {1}) == {};
    assert RunningIds(s.base.db.jobs, 0) - {} == {2};
    assert Written(YOUNG, ClaimedRow(YOUNG, 1, 4000), ClaimedRow(YOUNG, 2, 4000)) == ClaimedRow(YOUNG, 1, 4000);
    TakingAlone(s, 1, ClaimedRow(YOUNG, 1, 4000));
  }

  /** Two workers run the same attempt of a job whose lease never ran out. */
  lemma AttemptStartedTwice()
    ensures SplitInitial(START) && MonotonePeriod(STEADY)
    ensures var steps := TAKEN + [Look(1)];
            && SplitStartsIn(STEADY, START, steps, 2) == 2
            && !SplitRecoveredIn(STEADY, START, steps, 2) && OvertakenIn(STEADY, START, steps, 2)
            && var s := SplitRun(STEADY, START, steps).base;
               WorkerAt(s, 1) == WorkerAt(s, 2) == Busy(Execution(2, 0, JOB, 1))
  {
    TwoTakesYoung();
    var s: Split :| YoungOneTaken(s) && Leads(TAKEN, s, 2, 1, false);
    WorkerOneTakesItToo(s);
    LeadsOn(TAKEN, s, Look(1), 2, 1, false);
  }

  // ---- The same after worker 2 is done ----

  const DONE := Plain(FinishJob(2, Produces(0, 5), Committed))

  lemma WorkerTwoCompletes(s: Split)
    requires YoungOneTaken(s)
    ensures var s' := ApplySplit(STEADY, s, DONE);
            && s'.base.db.jobs == s.base.db.jobs[2 := CompletedRow(ClaimedRow(YOUNG, 2, 4000), [], 5, 4000)]
            && s'.base.db.users == s.base.db.users && s'.base.now == 4000 && s'.calls == s.calls
  {
    assert Locked(s.calls) == {};
  }

  lemma WorkerOneLooksAgain(s: Split, db: Db)
    requires YoungOneTaken(s) && db.users == s.base.db.users
    requires db.jobs == s.base.db.jobs[2 := CompletedRow(ClaimedRow(YOUNG, 2, 4000), [], 5, 4000)]
    ensures var row := ClaimedRow(YOUNG, 1, 4000).(data := Some([]), computeMs := Some(5), completedAt := Some(4000));
            LookAt(STEADY, db, Seen(2, YOUNG), 1, 4000, 4000) == (PutRow(db, 2, row), Taken)
  {
    assert RunningIds(db.jobs, 0) - {} == {};
  }

  lemma WorkerOneRevives(s: Split, s': Split)
    requires YoungOneTaken(s) && s'.base.now == 4000 && s'.base.db.users == s.base.db.users && s'.calls == s.calls
    requires s'.base.db.jobs == s.base.db.jobs[2 := CompletedRow(ClaimedRow(YOUNG, 2, 4000), [], 5, 4000)]
    ensures var s'' := ApplySplit(STEADY, s', Look(1)).base;
            && 2 in s''.db.jobs && s''.db.jobs[2].status.Running? && s''.db.jobs[2].data == Some([])
            && WorkerAt(s'', 1) == Busy(Execution(2, 0, JOB, 1))
  {
    assert s'.calls - {1} == map[] && Locked(s'.calls - {1}) == {};
    WorkerOneLooksAgain(s, s'.base.db);
    TakingAlone(s', 1, ClaimedRow(YOUNG, 1, 4000).(data := Some([]), computeMs := Some(5), completedAt := Some(4000)));
  }

  /** A completed job is running again, with its result still in the row. */
  lemma CompletedJobRevived()
    ensures FinalIn(SplitRun(STEADY, START, TAKEN + [DONE]).base.db, 2)
    ensures var s := SplitRun(STEADY, START, TAKEN + [DONE] + [Look(1)]).base;
            && 2 in s.db.jobs && s.db.jobs[2].status.Running? && s.db.jobs[2].data == Some([])
            && WorkerAt(s, 1) == Busy(Execution(2, 0, JOB, 1))
  {
    TwoTakesYoung();
    var s: Split :| YoungOneTaken(s) && Leads(TAKEN, s, 2, 1, false);
    WorkerTwoCompletes(s);
    WorkerOneRevives(s, ApplySplit(STEADY, s, DONE));
    assert (TAKEN + [DONE])[..|TAKEN|] == TAKEN;
    assert (TAKEN + [DONE] + [Look(1)])[..|TAKEN| + 1] == TAKEN + [DONE];
  }
}
