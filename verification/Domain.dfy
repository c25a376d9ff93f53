/** The rows of the database and the values the services pass around. */
module Domain {

  datatype Option<+T> = None | Some(value: T)

  type UserId = nat
  type JobId = nat      // UUIDs: only their order and equality matter
  type WorkerId = nat
  type Time = int       // microseconds
  type Period = int     // a usage month
  type Records = seq<string>  // JSON-rendered interaction records

  datatype Status = Pending | Running | Completed | Failed
  {
    predicate Terminal() { Completed? || Failed? }
  }

  /** What the client asked for; stored on the row at creation. */
  datatype Params = Params(
    preset: string,
    interactions: nat,
    seed: Option<int>,
    profile: Option<string>,
    initialState: Option<string>)

  /** A row of the `simulations` table. */
  datatype Job = Job(
    user: UserId,
    params: Params,
    status: Status,
    data: Option<Records>,
    computeMs: Option<nat>,
    reproducible: bool,
    errorCode: Option<string>,
    createdAt: Time,
    startedAt: Option<Time>,
    completedAt: Option<Time>,
    updatedAt: Time,
    worker: Option<WorkerId>,
    claimedAt: Option<Time>,
    heartbeatAt: Option<Time>,
    attempts: nat,
    maxAttempts: nat)

  datatype Plan = Plan(
    monthlyRequests: nat,
    monthlyInteractions: nat,
    maxInteractionsPerRequest: nat,
    requestsPerMinute: nat,
    maxConcurrentSimulations: nat)

  datatype User = User(active: bool, plan: Option<Plan>)

  /** A row of `monthly_usage`, keyed by user and period. Plain integers, so
      that staying non-negative is something to prove. */
  datatype Usage = Usage(requests: int, interactions: int)

  type UsageTable = map<(UserId, Period), Usage>

  datatype EventKind = SimulationRequest | SimulationCompleted | SimulationFailed

  datatype Event = Event(
    user: UserId, kind: EventKind, at: Time, interactions: nat, computeMs: Option<nat>, success: bool)

  /** A reservation as it was charged. */
  datatype Ticket = Ticket(user: UserId, interactions: nat, period: Period)

  type Tickets = map<JobId, Ticket>
  type LateReleases = map<JobId, Period>

  /** What has happened so far. No service reads it: it only lets properties
      speak about the past.
        tickets   every reservation ever granted, under the id its job will get
        inFlight  reservations not yet turned into a job or released
        submitted the parameters of every job ever created
        archived  the last content of every row removed from the table
        late      reservations released in another month than they were charged,
                  with the month they were released in */
  datatype History = History(
    tickets: Tickets,
    inFlight: set<JobId>,
    submitted: map<JobId, Params>,
    archived: map<JobId, Job>,
    late: LateReleases)

  datatype Db = Db(
    users: map<UserId, User>,
    jobs: map<JobId, Job>,
    usage: UsageTable,
    events: seq<Event>,
    hist: History)

  /** `period` is the usage month of a time; `engine` is the generator, a
      function of the request and of the randomness it draws. */
  datatype Config = Config(
    period: Time -> Period,
    engine: (Params, int) -> Records,
    leaseTimeout: nat,
    maxPending: nat)

  const DEFAULT_MAX_ATTEMPTS: nat := 3
  const CLAIM_LIMIT: nat := 10
  const FREE_PLAN := Plan(100, 10000, 1000, 5, 1)

  function PlanOf(user: User): Plan {
    if user.plan.Some? then user.plan.value else FREE_PLAN
  }

  function Min(a: nat, b: nat): nat {
    if a <= b then a else b
  }

  /** A plan's limit of zero counts as one. */
  function ConcurrencyLimit(user: User): nat {
    var limit := PlanOf(user).maxConcurrentSimulations;
    if limit != 0 then limit else 1
  }

  /** The clock's months follow one another. */
  ghost predicate MonotonePeriod(cfg: Config) {
    forall s: Time, t: Time :: s <= t ==> cfg.period(s) <= cfg.period(t)
  }

  /** A seeded run draws its randomness from the seed, any other run from the
      entropy at hand. */
  function RunEngine(cfg: Config, params: Params, entropy: int): Records {
    cfg.engine(params, if params.seed.Some? then params.seed.value else entropy)
  }

  function UsageOf(usage: UsageTable, user: UserId, period: Period): Usage {
    if (user, period) in usage then usage[(user, period)] else Usage(0, 0)
  }
}
