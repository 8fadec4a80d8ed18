/** The leased-job classification protocol as a state machine: one event is one SQL statement, one transaction, the
    passing of time or the loss of a worker (src/app/classifications/queue.rs, src/jobs/lease.rs,
    src/classification/jobs.rs, src/classification/service.rs). */
module ClassificationProtocol {
  import opened Wrappers
  import opened RuleEvaluation
  import opened RulePacks
  import opened RulePackProperties

  // ---- Rows ----

  /** A product's facts as frozen JSON; `json` is its serialised text. */
  datatype Snapshot = Snapshot(jurisdiction: string, json: string)

  datatype Product = Product(tenant: nat, archived: bool, ready: bool, jurisdiction: string, facts: string)

  datatype RunOutcome = RunOutcome(matchedRules: seq<Rule>, rejected: seq<RejectedCandidate>,
                                   candidateCodes: seq<string>,
                                   selectedCode: Option<string>, confidence: real, riskBand: string)

  datatype RunRow = RunRow(tenant: nat, productId: nat, rulePackId: Option<nat>, rulePackVersion: Option<string>,
                           jurisdiction: string, productSnapshot: Snapshot, inputSnapshot: Snapshot,
                           status: RunStatus, failureReason: Option<string>, outcome: Option<RunOutcome>)

  /** A job's JSON payload; a field that is missing, null or unreadable is `None`. */
  datatype Payload = Payload(rulePackId: Option<nat>, inputSnapshot: Option<Snapshot>)

  datatype JobStatus = JobQueued | JobLeased | JobCompleted | JobFailed

  datatype JobRow = JobRow(tenant: nat, productId: nat, runId: nat, payload: Payload, status: JobStatus,
                           leaseOwner: Option<string>, lockedAt: Option<int>, leasedUntil: Option<int>,
                           attempts: nat, priority: int, createdAt: int)

  // ---- Workers ----

  /** The columns a worker reads of a job it leased. */
  datatype LeasedJob = LeasedJob(id: nat, tenant: nat, productId: nat, runId: nat, payload: Payload)

  /** What a worker holds between two statements of `classify_job`. */
  datatype Task =
    | FetchingRun(job: LeasedJob)
    | FetchingPack(job: LeasedJob, snapshot: Snapshot, rulePackId: nat)
    | Persisting(job: LeasedJob, rulePackId: nat, version: string, snapshot: Snapshot, result: Classification)
    | Completing(job: LeasedJob)
    | Failing(job: LeasedJob)

  /** A running call of `classify_queued_products`: the job in hand and those still to come. */
  datatype Thread = Thread(task: Task, todo: seq<LeasedJob>)

  /** A statement may fail before it took effect, or take effect and then fail to report it. */
  datatype Fault = NoFault | Lost | Unacknowledged

  datatype State = State(catalogue: Catalogue, products: map<nat, Product>, runs: map<nat, RunRow>,
                         jobs: map<nat, JobRow>,
                         threads: map<nat, Thread>, nextId: nat)

  const INITIAL := State(EMPTY_CATALOGUE, map[], map[], map[], map[], 0)

  // ---- Enqueueing ----

  datatype QueueError = MissingProductIds | TooManyProducts | ProductNotFound | ProductNotReady

  function ProductSnapshot(product: Product): Snapshot {
    Snapshot(product.jurisdiction, product.facts)
  }

  predicate IsExistingRun(run: RunRow, tenant: nat, productId: nat, pack: nat) {
    && run.tenant == tenant && run.productId == productId && run.rulePackId == Some(pack)
    && (run.status.Queued? || run.status.Running? || run.status.Classified? || run.status.NeedsReview?
        || run.status.Blocked?)
  }

  function BlockedRun(tenant: nat, productId: nat, snapshot: Snapshot): RunRow {
    RunRow(tenant, productId, None, None, snapshot.jurisdiction, snapshot, snapshot, Blocked,
           Some("no_active_rule_pack"), None)
  }

  function QueuedRun(tenant: nat, productId: nat, snapshot: Snapshot, pack: nat, version: string): RunRow {
    RunRow(tenant, productId, Some(pack), Some(version), snapshot.jurisdiction, snapshot, snapshot, Queued, None, None)
  }

  function QueuedJob(tenant: nat, productId: nat, runId: nat, pack: nat, snapshot: Snapshot, now: int): JobRow {
    JobRow(tenant, productId, runId, Payload(Some(pack), Some(snapshot)), JobQueued, None, None, None, 0, 0, now)
  }

  /** `queue_product_classification` */
  function QueueProduct(s: State, tenant: nat, productId: nat): Result<State, QueueError> {
    if productId !in s.products || s.products[productId].tenant != tenant || s.products[productId].archived then
      Err(ProductNotFound)
    else if !s.products[productId].ready then Err(ProductNotReady)
    else
      var snapshot := ProductSnapshot(s.products[productId]);
      match FetchActivePack(s.catalogue.packs, tenant, snapshot.jurisdiction)
      case None =>
        Ok(s.(runs := s.runs[s.nextId := BlockedRun(tenant, productId, snapshot)], nextId := s.nextId + 1))
      case Some(pack) =>
        if exists r | r in s.runs :: IsExistingRun(s.runs[r], tenant, productId, pack) then Ok(s)
        else
          var run := QueuedRun(tenant, productId, snapshot, pack, s.catalogue.packs[pack].version);
          var job := QueuedJob(tenant, productId, s.nextId, pack, snapshot, s.catalogue.now);
          Ok(s.(runs := s.runs[s.nextId := run], jobs := s.jobs[s.nextId + 1 := job], nextId := s.nextId + 2))
  }

  /** The request's transaction: all products are queued, or none. */
  function QueueProducts(s: State, tenant: nat, productIds: seq<nat>): Result<State, QueueError> {
    if productIds == [] then Ok(s)
    else
      var front := QueueProducts(s, tenant, productIds[..|productIds| - 1]);
      if front.Err? then front else QueueProduct(front.value, tenant, productIds[|productIds| - 1])
  }

  function RunClassifications(s: State, tenant: nat, productIds: seq<nat>): Result<State, QueueError> {
    if productIds == [] then Err(MissingProductIds)
    else if |productIds| > 100 then Err(TooManyProducts)
    else QueueProducts(s, tenant, productIds)
  }

  // ---- Leasing ----

  function AtLeastOne(n: int): (r: nat) { if n < 1 then 1 else n }

  function Min(a: nat, b: nat): nat { if a <= b then a else b }

  predicate Leasable(job: JobRow, now: int) {
    job.status.JobQueued? || (job.status.JobLeased? && job.leasedUntil.Some? && job.leasedUntil.value < now)
  }

  predicate LeasesBefore(a: JobRow, b: JobRow) {
    a.priority > b.priority || (a.priority == b.priority && a.createdAt <= b.createdAt)
  }

  function LeasableIds(jobs: map<nat, JobRow>, now: int, locked: set<nat>): set<nat> {
    set j | j in jobs && j !in locked && Leasable(jobs[j], now)
  }

  /** `ORDER BY priority DESC, created_at ASC LIMIT .. FOR UPDATE SKIP LOCKED` may pick these jobs. */
  predicate MayPick(jobs: map<nat, JobRow>, now: int, limit: nat, locked: set<nat>, picked: set<nat>) {
    var candidates := LeasableIds(jobs, now, locked);
    && picked <= candidates
    && |picked| == Min(limit, |candidates|)
    && forall p, q | p in picked && q in candidates - picked :: LeasesBefore(jobs[p], jobs[q])
  }

  function Leased(job: JobRow, worker: string, now: int, seconds: nat): JobRow {
    job.(status := JobLeased, leaseOwner := Some(worker), lockedAt := Some(now), leasedUntil := Some(now + seconds),
         attempts := job.attempts + 1)
  }

  function LeaseJobs(jobs: map<nat, JobRow>, now: int, worker: string, seconds: nat,
                     picked: set<nat>): map<nat, JobRow> {
    map j | j in jobs :: if j in picked then Leased(jobs[j], worker, now, seconds) else jobs[j]
  }

  predicate HeldBy(job: JobRow, worker: string, now: int) {
    job.status.JobLeased? && job.leaseOwner == Some(worker) && job.leasedUntil.Some? && job.leasedUntil.value > now
  }

  function HeldIds(jobs: map<nat, JobRow>, worker: string, now: int): set<nat> {
    set j | j in jobs && HeldBy(jobs[j], worker, now)
  }

  /** `leased_jobs` may return these rows, oldest lock first. */
  predicate MaySelect(jobs: map<nat, JobRow>, now: int, worker: string, limit: nat, chosen: seq<nat>) {
    var held := HeldIds(jobs, worker, now);
    && |chosen| == Min(limit, |held|)
    && (forall i | 0 <= i < |chosen| :: chosen[i] in held)
    && (forall i, j | 0 <= i < j < |chosen| ::
          chosen[i] != chosen[j] && jobs[chosen[i]].lockedAt.Or(0) <= jobs[chosen[j]].lockedAt.Or(0))
    && forall i, j | 0 <= i < |chosen| && j in held && j !in chosen ::
          jobs[chosen[i]].lockedAt.Or(0) <= jobs[j].lockedAt.Or(0)
  }

  function Row(jobs: map<nat, JobRow>, id: nat): LeasedJob
    requires id in jobs
  {
    LeasedJob(id, jobs[id].tenant, jobs[id].productId, jobs[id].runId, jobs[id].payload)
  }

  function Rows(jobs: map<nat, JobRow>, ids: seq<nat>): (r: seq<LeasedJob>)
    requires forall i | 0 <= i < |ids| :: ids[i] in jobs
    ensures |r| == |ids|
  {
    seq(|ids|, i requires 0 <= i < |ids| => Row(jobs, ids[i]))
  }

  // ---- Classifying one job ----

  function PayloadSnapshot(payload: Payload, run: RunRow): Snapshot {
    payload.inputSnapshot.Or(run.inputSnapshot)
  }

  function PayloadRulePackId(payload: Payload, run: RunRow): Option<nat> {
    if payload.rulePackId.Some? then payload.rulePackId else run.rulePackId
  }

  /** The task after `fetch_run`, or `None` when the worker panics on a run without a rule pack. */
  function AfterFetchRun(s: State, job: LeasedJob): Option<Task> {
    if job.runId !in s.runs || s.runs[job.runId].tenant != job.tenant || s.runs[job.runId].productId != job.productId
    then Some(Failing(job))
    else
      var run := s.runs[job.runId];
      if TerminalStatus(run.status) then Some(Completing(job))
      else
        match PayloadRulePackId(job.payload, run)
        case Some(pack) => Some(FetchingPack(job, PayloadSnapshot(job.payload, run), pack))
        case None => None
  }

  /** The step after `fetch_pack` and the evaluation. */
  function AfterFetchPack(s: State, job: LeasedJob, snapshot: Snapshot, pack: nat): Task {
    if pack !in s.catalogue.packs || s.catalogue.packs[pack].tenant != job.tenant then Failing(job)
    else
      var row := s.catalogue.packs[pack];
      match Evaluate(PRODUCTION_RUNTIME, PayloadJson(row.document), snapshot.json)
      case Ok(result) => Persisting(job, pack, row.version, snapshot, result)
      case Err(_) => Failing(job)
  }

  /** The columns `persist_run_outcome` writes. */
  function Decided(run: RunRow, pack: nat, version: string, snapshot: Snapshot, result: Classification): RunRow {
    var decision := OutcomeDecision(result);
    run.(rulePackId := Some(pack), rulePackVersion := Some(version), jurisdiction := snapshot.jurisdiction,
         productSnapshot := snapshot, inputSnapshot := snapshot, status := decision.status,
           failureReason := decision.failureReason,
         outcome := Some(RunOutcome(result.matchedRules, result.rejected, CandidateCodes(result), result.selectedCode,
                                    result.confidence, result.riskBand)))
  }

  /** `persist_run_outcome`: guarded by the run's status, not by the lease. */
  function PersistOutcome(runs: map<nat, RunRow>, job: LeasedJob, pack: nat, version: string, snapshot: Snapshot,
                          result: Classification): map<nat, RunRow> {
    if job.runId in runs && runs[job.runId].tenant == job.tenant && !TerminalStatus(runs[job.runId].status)
    then runs[job.runId := Decided(runs[job.runId], pack, version, snapshot, result)]
    else runs
  }

  /** `mark_job_completed`, `mark_job_failed`: by id alone, whoever holds the lease. */
  function MarkJob(jobs: map<nat, JobRow>, id: nat, status: JobStatus): map<nat, JobRow> {
    if id in jobs then jobs[id := jobs[id].(status := status)] else jobs
  }

  function Dropped(threads: map<nat, Thread>, thread: nat): map<nat, Thread> {
    map t | t in threads && t != thread :: threads[t]
  }

  function SetTask(s: State, thread: nat, task: Task): State
    requires thread in s.threads
  {
    s.(threads := s.threads[thread := s.threads[thread].(task := task)])
  }

  /** The worker goes on to its next job, or is done. */
  function NextJob(threads: map<nat, Thread>, thread: nat): map<nat, Thread>
    requires thread in threads
  {
    var todo := threads[thread].todo;
    if todo == [] then Dropped(threads, thread) else threads[thread := Thread(FetchingRun(todo[0]), todo[1..])]
  }

  /** The worker's next statement. An error of `classify_one` fails the job; an error of marking it ends the call. */
  function WorkerStep(s: State, thread: nat, fault: Fault): State
    requires thread in s.threads
  {
    match s.threads[thread].task
    case FetchingRun(job) =>
      if !fault.NoFault? then SetTask(s, thread, Failing(job))
      else
        var next := AfterFetchRun(s, job);
        if next.Some? then SetTask(s, thread, next.value) else s.(threads := Dropped(s.threads, thread))
    case FetchingPack(job, snapshot, pack) =>
      SetTask(s, thread, if fault.NoFault? then AfterFetchPack(s, job, snapshot, pack) else Failing(job))
    case Persisting(job, pack, version, snapshot, result) =>
      var written := if fault.Lost? then s
        else s.(runs := PersistOutcome(s.runs, job, pack, version, snapshot, result));
      SetTask(written, thread, if fault.NoFault? then Completing(job) else Failing(job))
    case Completing(job) => Marked(s, thread, job.id, JobCompleted, fault)
    case Failing(job) => Marked(s, thread, job.id, JobFailed, fault)
  }

  function Marked(s: State, thread: nat, id: nat, status: JobStatus, fault: Fault): State
    requires thread in s.threads
  {
    s.(jobs := if fault.Lost? then s.jobs else MarkJob(s.jobs, id, status),
       threads := if fault.NoFault? then NextJob(s.threads, thread) else Dropped(s.threads, thread))
  }

  // ---- Events ----

  datatype Event =
    | OfPacks(event: PackEvent)                                   // uploads, re-validations, activations, time
    | PutProduct(id: nat, product: Product)                       // import or edit
    | Request(tenant: nat, productIds: seq<nat>)
    | Lease(worker: string, limit: int, seconds: int, locked: set<nat>, picked: set<nat>)
    | SelectLeased(thread: nat, worker: string, limit: int, chosen: seq<nat>)
    | Work(thread: nat, fault: Fault)
    | Crash(thread: nat)

  /** An event that cannot happen in `s` leaves it as it is. */
  function Apply(s: State, event: Event): State {
    match event
    case OfPacks(e) => s.(catalogue := RulePackProperties.Apply(s.catalogue, e))
    case PutProduct(id, product) =>
      if id in s.products && s.products[id].tenant != product.tenant then s
      else s.(products := s.products[id := product])
    case Request(tenant, productIds) =>
      var r := RunClassifications(s, tenant, productIds);
      if r.Ok? then r.value else s
    case Lease(worker, limit, seconds, locked, picked) =>
      if MayPick(s.jobs, s.catalogue.now, AtLeastOne(limit), locked, picked)
      then s.(jobs := LeaseJobs(s.jobs, s.catalogue.now, worker, AtLeastOne(seconds), picked))
      else s
    case SelectLeased(thread, worker, limit, chosen) =>
      if thread !in s.threads && chosen != [] && MaySelect(s.jobs, s.catalogue.now, worker, AtLeastOne(limit), chosen)
      then
        var rows := Rows(s.jobs, chosen);
        s.(threads := s.threads[thread := Thread(FetchingRun(rows[0]), rows[1..])])
      else s
    case Work(thread, fault) => if thread in s.threads then WorkerStep(s, thread, fault) else s
    case Crash(thread) => s.(threads := Dropped(s.threads, thread))
  }

  function Replay(s: State, events: seq<Event>): State {
    if events == [] then s
    else Apply(Replay(s, events[..|events| - 1]), events[|events| - 1])
  }

  function After(events: seq<Event>): State { Replay(INITIAL, events) }
}
