/** Safety of the classification protocol over every run: any number of workers, crashes, lost and unacknowledged
    statements, expiring leases, product edits and pack activations. */
module ProtocolProperties {
  import opened Wrappers
  import opened Sequences
  import Text
  import opened RuleEvaluation
  import opened RuleProperties
  import opened RulePacks
  import RPP = RulePackProperties
  import opened ClassificationProtocol

  // ---- What only grows ----

  /** The inputs frozen into a run at enqueue time stay, and a terminal run stays as it is. */
  predicate RunKeeps(before: RunRow, after: RunRow) {
    && after.tenant == before.tenant && after.productId == before.productId && after.rulePackId == before.rulePackId
    && after.rulePackVersion == before.rulePackVersion && after.inputSnapshot == before.inputSnapshot
    && (TerminalStatus(before.status) ==> after == before)
  }

  ghost predicate RunsGrow(before: map<nat, RunRow>, after: map<nat, RunRow>) {
    forall r | r in before :: r in after && RunKeeps(before[r], after[r])
  }

  predicate Closed(status: JobStatus) { status.JobCompleted? || status.JobFailed? }

  /** A job keeps its identity; once completed or failed it is never leased again. */
  predicate JobKeeps(before: JobRow, after: JobRow) {
    && after.tenant == before.tenant && after.productId == before.productId && after.runId == before.runId
    && after.payload == before.payload
    && (Closed(before.status) ==>
        Closed(after.status) && after.attempts == before.attempts && after.leaseOwner == before.leaseOwner)
  }

  ghost predicate JobsGrow(before: map<nat, JobRow>, after: map<nat, JobRow>) {
    forall j | j in before :: j in after && JobKeeps(before[j], after[j])
  }

  ghost predicate Grows(before: State, after: State) {
    && RPP.PacksGrow(before.catalogue.packs, after.catalogue.packs)
    && RunsGrow(before.runs, after.runs)
    && JobsGrow(before.jobs, after.jobs)
  }

  // ---- The invariant ----

  /** What the frozen inputs of a run evaluate to. */
  function FrozenEvaluation(packs: map<nat, PackRow>, run: RunRow): Result<Classification, RuntimeError>
    requires run.rulePackId.Some? && run.rulePackId.value in packs
  {
    Evaluate(PRODUCTION_RUNTIME, PayloadJson(packs[run.rulePackId.value].document), run.inputSnapshot.json)
  }

  /** The run as it was queued. */
  predicate IsQueued(run: RunRow) {
    run.status.Queued? && run.outcome.None? && run.failureReason.None?
  }

  predicate Reports(outcome: RunOutcome, result: Classification) {
    && outcome.matchedRules == result.matchedRules && outcome.rejected == result.rejected
    && outcome.candidateCodes == CandidateCodes(result) && outcome.selectedCode == result.selectedCode
    && outcome.confidence == result.confidence && outcome.riskBand == result.riskBand
  }

  /** The run carries exactly the decision on its frozen evaluation. */
  predicate IsDecided(packs: map<nat, PackRow>, run: RunRow)
    requires run.rulePackId.Some? && run.rulePackId.value in packs && run.rulePackVersion.Some?
  {
    && FrozenEvaluation(packs, run).Ok?
    && var result := FrozenEvaluation(packs, run).value;
       && run.status == OutcomeDecision(result).status && run.failureReason == OutcomeDecision(result).failureReason
       && run.outcome.Some? && Reports(run.outcome.value, result)
  }

  predicate RunOk(packs: map<nat, PackRow>, run: RunRow) {
    && run.productSnapshot == run.inputSnapshot && run.jurisdiction == run.inputSnapshot.jurisdiction
    && if run.rulePackId.None? then run == BlockedRun(run.tenant, run.productId, run.inputSnapshot)
       else
         var pack := run.rulePackId.value;
         && pack in packs && packs[pack].tenant == run.tenant && run.rulePackVersion == Some(packs[pack].version)
         && packs[pack].activatedAt.Some?
         && (IsQueued(run) || IsDecided(packs, run))
  }

  predicate JobOk(runs: map<nat, RunRow>, job: JobRow) {
    && job.runId in runs
    && var run := runs[job.runId];
       && run.tenant == job.tenant && run.productId == job.productId && run.rulePackId.Some?
       && job.payload == Payload(run.rulePackId, Some(run.inputSnapshot))
       && (job.status.JobCompleted? ==> TerminalStatus(run.status))
  }

  predicate HoldsRow(jobs: map<nat, JobRow>, job: LeasedJob) {
    job.id in jobs && job == Row(jobs, job.id)
  }

  /** What a worker carries between statements agrees with the frozen inputs. */
  predicate TaskOk(s: State, task: Task)
    requires HoldsRow(s.jobs, task.job) && task.job.runId in s.runs
  {
    var run := s.runs[task.job.runId];
    match task
    case FetchingRun(_) => true
    case FetchingPack(_, snapshot, pack) => snapshot == run.inputSnapshot && run.rulePackId == Some(pack)
    case Persisting(_, pack, version, snapshot, result) =>
      && snapshot == run.inputSnapshot && run.rulePackId == Some(pack)
      && pack in s.catalogue.packs && version == s.catalogue.packs[pack].version
      && FrozenEvaluation(s.catalogue.packs, run) == Ok(result)
    case Completing(_) => TerminalStatus(run.status)
    case Failing(_) => true
  }

  predicate ThreadOk(s: State, thread: Thread) {
    && HoldsRow(s.jobs, thread.task.job) && thread.task.job.runId in s.runs && TaskOk(s, thread.task)
    && forall i | 0 <= i < |thread.todo| :: HoldsRow(s.jobs, thread.todo[i])
  }

  /** Enqueueing is idempotent: one run per tenant, product and pack, and one job per run. */
  ghost predicate OneRunEach(runs: map<nat, RunRow>) {
    forall r, q | r in runs && q in runs && runs[r].rulePackId.Some? && runs[r].tenant == runs[q].tenant &&
                  runs[r].productId == runs[q].productId && runs[r].rulePackId == runs[q].rulePackId :: r == q
  }

  ghost predicate OneJobEach(jobs: map<nat, JobRow>) {
    forall j, k | j in jobs && k in jobs && jobs[j].runId == jobs[k].runId :: j == k
  }

  ghost predicate RowsOk(catalogue: RPP.Catalogue, runs: map<nat, RunRow>, jobs: map<nat, JobRow>, nextId: nat) {
    && RPP.Inv(catalogue)
    && (forall r | r in runs :: r < nextId && RunOk(catalogue.packs, runs[r]))
    && (forall j | j in jobs :: j < nextId && JobOk(runs, jobs[j]))
    && OneRunEach(runs) && OneJobEach(jobs)
  }

  ghost predicate Inv(s: State) {
    && RowsOk(s.catalogue, s.runs, s.jobs, s.nextId)
    && forall t | t in s.threads :: ThreadOk(s, s.threads[t])
  }

  // ---- Growth keeps the parts of the invariant that an event does not touch ----

  lemma RunOkStable(packs: map<nat, PackRow>, packs': map<nat, PackRow>, run: RunRow)
    requires RPP.PacksGrow(packs, packs') && RunOk(packs, run)
    ensures RunOk(packs', run)
  {
    hide Evaluate, Decided;
  }

  lemma JobOkStable(runs: map<nat, RunRow>, runs': map<nat, RunRow>, job: JobRow)
    requires RunsGrow(runs, runs') && JobOk(runs, job)
    ensures JobOk(runs', job)
  {
  }

  lemma ThreadOkStable(s: State, s': State, thread: Thread)
    requires Grows(s, s') && ThreadOk(s, thread)
    ensures ThreadOk(s', thread)
  {
    hide Evaluate, RPP.Inv;
    match thread.task
    case FetchingRun(_) =>
    case FetchingPack(_, _, _) =>
    case Persisting(_, _, _, _, _) =>
    case Completing(_) =>
    case Failing(_) =>
  }

  lemma HeldRunExists(s: State, job: LeasedJob)
    requires RowsOk(s.catalogue, s.runs, s.jobs, s.nextId) && HoldsRow(s.jobs, job)
    ensures job.runId in s.runs && s.runs[job.runId].tenant == job.tenant
  {
    hide RPP.Inv, RunOk, OneRunEach, OneJobEach;
    assert JobOk(s.runs, s.jobs[job.id]);
  }

  lemma GrowsReflexive(s: State)
    ensures Grows(s, s)
  {
  }

  lemma GrowsTransitive(a: State, b: State, c: State)
    requires Grows(a, b) && Grows(b, c)
    ensures Grows(a, c)
  {
  }

  // ---- Each event keeps the invariant ----

  lemma PackEventKeepsInv(s: State, e: RPP.PackEvent)
    requires Inv(s)
    ensures var s' := s.(catalogue := RPP.Apply(s.catalogue, e)); Inv(s') && Grows(s, s')
  {
    hide RPP.Apply, RPP.Inv, RPP.PacksGrow, RunOk, JobOk, ThreadOk, OneRunEach, OneJobEach;
    var s' := s.(catalogue := RPP.Apply(s.catalogue, e));
    RPP.ApplyKeepsInv(s.catalogue, e);
    RPP.PacksAreImmutable(s.catalogue, e);
    assert Grows(s, s');
    forall r | r in s'.runs ensures RunOk(s'.catalogue.packs, s'.runs[r]) {
      RunOkStable(s.catalogue.packs, s'.catalogue.packs, s.runs[r]);
    }
    forall t | t in s'.threads ensures ThreadOk(s', s'.threads[t]) {
      ThreadOkStable(s, s', s.threads[t]);
    }
  }

  lemma QueueProductKeepsInv(s: State, tenant: nat, productId: nat)
    requires Inv(s) && QueueProduct(s, tenant, productId).Ok?
    ensures Inv(QueueProduct(s, tenant, productId).value) && Grows(s, QueueProduct(s, tenant, productId).value)
  {
    var s' := QueueProduct(s, tenant, productId).value;
    QueueProductKeepsRows(s, tenant, productId);
    hide QueueProduct, ThreadOk, RowsOk;
    forall t | t in s'.threads ensures ThreadOk(s', s'.threads[t]) {
      ThreadOkStable(s, s', s.threads[t]);
    }
  }

  lemma QueueProductKeepsRows(s: State, tenant: nat, productId: nat)
    requires RowsOk(s.catalogue, s.runs, s.jobs, s.nextId) && QueueProduct(s, tenant, productId).Ok?
    ensures var s' := QueueProduct(s, tenant, productId).value;
            RowsOk(s'.catalogue, s'.runs, s'.jobs, s'.nextId) && Grows(s, s') && s'.threads == s.threads
  {
    hide RPP.Inv, RunOk, JobOk, OneRunEach, OneJobEach, FetchActivePack;
    var s' := QueueProduct(s, tenant, productId).value;
    if s'.nextId == s.nextId + 1 {
      BlockedRunIsOk(s, s', tenant, productId);
    } else if s'.nextId == s.nextId + 2 {
      QueuedRunIsOk(s, s', tenant, productId);
      QueuedJobIsOk(s, s', tenant, productId);
    }
  }

  lemma BlockedRunIsOk(s: State, s': State, tenant: nat, productId: nat)
    requires RowsOk(s.catalogue, s.runs, s.jobs, s.nextId)
    requires QueueProduct(s, tenant, productId) == Ok(s') && s'.nextId == s.nextId + 1
    ensures s.nextId in s'.runs && RunOk(s.catalogue.packs, s'.runs[s.nextId]) && OneRunEach(s'.runs)
    ensures forall j | j in s.jobs :: JobOk(s'.runs, s.jobs[j])
  {
    hide RPP.Inv, IsDecided, FetchActivePack, OneJobEach, JobOk, IsExistingRun;
    forall j | j in s.jobs ensures JobOk(s'.runs, s.jobs[j]) {
      JobOkStable(s.runs, s'.runs, s.jobs[j]);
    }
  }

  lemma QueuedRunIsOk(s: State, s': State, tenant: nat, productId: nat)
    requires RowsOk(s.catalogue, s.runs, s.jobs, s.nextId)
    requires QueueProduct(s, tenant, productId) == Ok(s') && s'.nextId == s.nextId + 2
    ensures s.nextId in s'.runs && RunOk(s.catalogue.packs, s'.runs[s.nextId]) && OneRunEach(s'.runs)
  {
    hide RPP.Inv, IsDecided, OneJobEach, JobOk;
    var pack := FetchActivePack(s.catalogue.packs, tenant, s.products[productId].jurisdiction).value;
    ActivePackIsActivated(s, tenant, s.products[productId].jurisdiction);
    hide FetchActivePack;
    forall r | r in s.runs
      ensures !(s.runs[r].tenant == tenant && s.runs[r].productId == productId && s.runs[r].rulePackId == Some(pack))
    {
      RunStatusIsKnown(s.catalogue.packs, s.runs[r]);
      assert !IsExistingRun(s.runs[r], tenant, productId, pack);
    }
  }

  lemma QueuedJobIsOk(s: State, s': State, tenant: nat, productId: nat)
    requires RowsOk(s.catalogue, s.runs, s.jobs, s.nextId)
    requires QueueProduct(s, tenant, productId) == Ok(s') && s'.nextId == s.nextId + 2
    ensures OneJobEach(s'.jobs) && forall j | j in s'.jobs :: JobOk(s'.runs, s'.jobs[j])
  {
    hide RPP.Inv, RunOk, OneRunEach, FetchActivePack, IsExistingRun;
    forall j | j in s.jobs ensures JobOk(s'.runs, s.jobs[j]) {
      JobOkStable(s.runs, s'.runs, s.jobs[j]);
    }
  }

  lemma ActivePackIsActivated(s: State, tenant: nat, jurisdiction: string)
    requires RPP.Inv(s.catalogue) && FetchActivePack(s.catalogue.packs, tenant, jurisdiction).Some?
    ensures var pack := FetchActivePack(s.catalogue.packs, tenant, jurisdiction).value;
            pack in s.catalogue.packs && s.catalogue.packs[pack].tenant == tenant
              && s.catalogue.packs[pack].activatedAt.Some?
  {
    var pack := FetchActivePack(s.catalogue.packs, tenant, jurisdiction).value;
    assert RPP.Consistent(s.catalogue.packs[pack]);
  }

  /** A run with a pack is queued or has one of the three statuses a decision gives. */
  lemma RunStatusIsKnown(packs: map<nat, PackRow>, run: RunRow)
    requires RunOk(packs, run)
    ensures run.status.Queued? || run.status.Classified? || run.status.NeedsReview? || run.status.Blocked?
    ensures run.rulePackId.Some? ==> (IsQueued(run) <==> !TerminalStatus(run.status))
  {
    hide Evaluate;
  }

  lemma {:induction false} QueueProductsKeepInv(s: State, tenant: nat, productIds: seq<nat>)
    requires Inv(s) && QueueProducts(s, tenant, productIds).Ok?
    ensures Inv(QueueProducts(s, tenant, productIds).value) && Grows(s, QueueProducts(s, tenant, productIds).value)
  {
    hide Inv, QueueProduct;
    if productIds == [] {
      GrowsReflexive(s);
    } else {
      var last := |productIds| - 1;
      QueueProductsKeepInv(s, tenant, productIds[..last]);
      var front := QueueProducts(s, tenant, productIds[..last]).value;
      QueueProductKeepsInv(front, tenant, productIds[last]);
      GrowsTransitive(s, front, QueueProducts(s, tenant, productIds).value);
    }
  }

  lemma LeaseKeepsRows(s: State, worker: string, seconds: nat, picked: set<nat>)
    requires RowsOk(s.catalogue, s.runs, s.jobs, s.nextId)
    requires forall j | j in picked :: j in s.jobs && Leasable(s.jobs[j], s.catalogue.now)
    ensures var jobs' := LeaseJobs(s.jobs, s.catalogue.now, worker, seconds, picked);
            RowsOk(s.catalogue, s.runs, jobs', s.nextId) && JobsGrow(s.jobs, jobs')
  {
    hide RPP.Inv, RunOk, OneRunEach;
    var jobs' := LeaseJobs(s.jobs, s.catalogue.now, worker, seconds, picked);
    forall j | j in jobs' ensures JobOk(s.runs, jobs'[j]) {
      assert JobOk(s.runs, s.jobs[j]);
    }
  }

  lemma LeaseKeepsInv(s: State, worker: string, seconds: nat, picked: set<nat>)
    requires Inv(s)
    requires forall j | j in picked :: j in s.jobs && Leasable(s.jobs[j], s.catalogue.now)
    ensures var s' := s.(jobs := LeaseJobs(s.jobs, s.catalogue.now, worker, seconds, picked));
            Inv(s') && Grows(s, s')
  {
    hide RowsOk, LeaseJobs, ThreadOk, Leasable;
    LeaseKeepsRows(s, worker, seconds, picked);
    var s' := s.(jobs := LeaseJobs(s.jobs, s.catalogue.now, worker, seconds, picked));
    GrowsReflexive(s);
    forall t | t in s'.threads ensures ThreadOk(s', s'.threads[t]) {
      ThreadOkStable(s, s', s.threads[t]);
    }
  }

  lemma SelectKeepsInv(s: State, thread: nat, chosen: seq<nat>)
    requires Inv(s) && chosen != [] && forall i | 0 <= i < |chosen| :: chosen[i] in s.jobs
    ensures var rows := Rows(s.jobs, chosen);
            var s' := s.(threads := s.threads[thread := Thread(FetchingRun(rows[0]), rows[1..])]);
            Inv(s') && Grows(s, s')
  {
    hide RowsOk, FrozenEvaluation;
    var rows := Rows(s.jobs, chosen);
    var s' := s.(threads := s.threads[thread := Thread(FetchingRun(rows[0]), rows[1..])]);
    GrowsReflexive(s);
    HeldRunExists(s, rows[0]);
    hide TaskOk;
    forall t | t in s'.threads && t != thread ensures ThreadOk(s', s'.threads[t]) {
      ThreadOkStable(s, s', s.threads[t]);
    }
  }

  // ---- The worker's statements ----

  /** After a worker's statement: rows are in order and grown, its own thread is in order or gone, the others are as
      before. */
  ghost predicate GoodStep(s: State, thread: nat, s': State) {
    && RowsOk(s'.catalogue, s'.runs, s'.jobs, s'.nextId) && Grows(s, s')
    && (thread in s'.threads ==> ThreadOk(s', s'.threads[thread]))
    && forall t | t in s'.threads && t != thread :: t in s.threads && s'.threads[t] == s.threads[t]
  }

  lemma GoodStepKeepsInv(s: State, thread: nat, s': State)
    requires Inv(s) && GoodStep(s, thread, s')
    ensures Inv(s')
  {
    hide RowsOk, ThreadOk;
    forall t | t in s'.threads ensures ThreadOk(s', s'.threads[t]) {
      if t != thread { ThreadOkStable(s, s', s.threads[t]); }
    }
  }

  lemma HeldPayloadIsFrozen(s: State, job: LeasedJob)
    requires RowsOk(s.catalogue, s.runs, s.jobs, s.nextId) && HoldsRow(s.jobs, job) && job.runId in s.runs
    ensures job.payload == Payload(s.runs[job.runId].rulePackId, Some(s.runs[job.runId].inputSnapshot))
    ensures s.runs[job.runId].rulePackId.Some?
    ensures RunOk(s.catalogue.packs, s.runs[job.runId])
  {
    hide RPP.Inv, RunOk, OneRunEach, OneJobEach;
    assert JobOk(s.runs, s.jobs[job.id]);
  }

  lemma FetchIsGood(s: State, thread: nat, fault: Fault)
    requires Inv(s) && thread in s.threads
    requires s.threads[thread].task.FetchingRun? || s.threads[thread].task.FetchingPack?
    ensures GoodStep(s, thread, WorkerStep(s, thread, fault))
  {
    hide RowsOk, RunOk, Evaluate, PersistOutcome, Marked;
    var job := s.threads[thread].task.job;
    assert ThreadOk(s, s.threads[thread]);
    HeldRunExists(s, job);
    HeldPayloadIsFrozen(s, job);
    GrowsReflexive(s);
  }

  /** The guarded write decides the run, and touches nothing else. */
  lemma WriteDecidesRun(s: State, task: Task)
    requires RowsOk(s.catalogue, s.runs, s.jobs, s.nextId) && task.Persisting?
    requires HoldsRow(s.jobs, task.job) && task.job.runId in s.runs && TaskOk(s, task)
    ensures var runs' := PersistOutcome(s.runs, task.job, task.rulePackId, task.version, task.snapshot, task.result);
            && RowsOk(s.catalogue, runs', s.jobs, s.nextId) && RunsGrow(s.runs, runs')
            && task.job.runId in runs' && TerminalStatus(runs'[task.job.runId].status)
            && runs'.Keys == s.runs.Keys && (forall r | r in s.runs && r != task.job.runId :: runs'[r] == s.runs[r])
            && (TerminalStatus(s.runs[task.job.runId].status) ==> runs' == s.runs)
  {
    hide RPP.Inv, Decided, RunOk, JobOk, OneJobEach, FrozenEvaluation;
    var Persisting(job, pack, version, snapshot, result) := task;
    var runs' := PersistOutcome(s.runs, job, pack, version, snapshot, result);
    HeldRunExists(s, job);
    assert RunOk(s.catalogue.packs, s.runs[job.runId]);
    WrittenRunIsDecided(s.catalogue.packs, s.runs[job.runId], pack, version, snapshot, result);
    assert RunsGrow(s.runs, runs');
    forall j | j in s.jobs ensures JobOk(runs', s.jobs[j]) {
      JobOkStable(s.runs, runs', s.jobs[j]);
    }
  }

  lemma PersistIsGood(s: State, thread: nat, fault: Fault)
    requires Inv(s) && thread in s.threads && s.threads[thread].task.Persisting?
    ensures GoodStep(s, thread, WorkerStep(s, thread, fault))
  {
    hide RowsOk, PersistOutcome, FrozenEvaluation, AfterFetchRun, AfterFetchPack, Marked;
    GrowsReflexive(s);
    assert ThreadOk(s, s.threads[thread]);
    WriteDecidesRun(s, s.threads[thread].task);
  }

  lemma WrittenRunIsDecided(packs: map<nat, PackRow>, run: RunRow, pack: nat, version: string, snapshot: Snapshot,
                            result: Classification)
    requires RunOk(packs, run) && run.rulePackId == Some(pack) && snapshot == run.inputSnapshot
             && version == packs[pack].version
    requires FrozenEvaluation(packs, run) == Ok(result)
    ensures var written := Decided(run, pack, version, snapshot, result);
            RunOk(packs, written) && TerminalStatus(written.status)
              && (!TerminalStatus(run.status) ==> RunKeeps(run, written))
  {
    hide Evaluate, CandidateCodes, HasTieCandidate;
  }

  lemma MarkKeepsRows(s: State, job: LeasedJob, status: JobStatus)
    requires RowsOk(s.catalogue, s.runs, s.jobs, s.nextId) && HoldsRow(s.jobs, job) && job.runId in s.runs
    requires Closed(status) && (status.JobCompleted? ==> TerminalStatus(s.runs[job.runId].status))
    ensures RowsOk(s.catalogue, s.runs, MarkJob(s.jobs, job.id, status), s.nextId)
    ensures JobsGrow(s.jobs, MarkJob(s.jobs, job.id, status))
  {
    hide RPP.Inv, RunOk, OneRunEach;
  }

  lemma MarkIsGood(s: State, thread: nat, fault: Fault)
    requires Inv(s) && thread in s.threads
    requires s.threads[thread].task.Completing? || s.threads[thread].task.Failing?
    ensures GoodStep(s, thread, WorkerStep(s, thread, fault))
  {
    hide RowsOk, PersistOutcome, FrozenEvaluation, AfterFetchRun, AfterFetchPack;
    var task, todo := s.threads[thread].task, s.threads[thread].todo;
    assert ThreadOk(s, s.threads[thread]);
    MarkKeepsRows(s, task.job, if task.Completing? then JobCompleted else JobFailed);
    if todo != [] {
      assert HoldsRow(s.jobs, todo[0]);
      HeldRunExists(s, todo[0]);
    }
    GrowsReflexive(s);
    var s' := WorkerStep(s, thread, fault);
    assert forall i | 0 <= i < |todo| :: HoldsRow(s'.jobs, todo[i]);
  }

  lemma CrashIsGood(s: State, thread: nat)
    requires Inv(s)
    ensures GoodStep(s, thread, Apply(s, Crash(thread)))
  {
    hide RowsOk;
    GrowsReflexive(s);
  }

  // ---- Every event, every run ----

  /** Every event keeps the invariant, the frozen inputs, the terminal runs and the closed jobs. */
  lemma EventKeepsInv(s: State, event: Event)
    requires Inv(s)
    ensures Inv(Apply(s, event)) && Grows(s, Apply(s, event))
  {
    hide Inv, QueueProducts, WorkerStep, RPP.Apply, Leasable, LeasesBefore, HeldBy;
    GrowsReflexive(s);
    match event
    case OfPacks(e) => PackEventKeepsInv(s, e);
    case PutProduct(id, product) => ProductsAreNotRead(s, event);
    case Request(tenant, productIds) =>
      if RunClassifications(s, tenant, productIds).Ok? { QueueProductsKeepInv(s, tenant, productIds); }
    case Lease(worker, limit, seconds, locked, picked) =>
      if MayPick(s.jobs, s.catalogue.now, AtLeastOne(limit), locked, picked) {
        LeaseKeepsInv(s, worker, AtLeastOne(seconds), picked);
      }
    case SelectLeased(thread, worker, limit, chosen) =>
      if MaySelect(s.jobs, s.catalogue.now, worker, AtLeastOne(limit), chosen)
        && chosen != [] { SelectKeepsInv(s, thread, chosen); }
    case Work(thread, fault) => if thread in s.threads { WorkIsGood(s, thread, fault); }
    case Crash(thread) =>
      CrashIsGood(s, thread);
      GoodStepKeepsInv(s, thread, Apply(s, event));
  }

  lemma ProductsAreNotRead(s: State, event: Event)
    requires Inv(s) && event.PutProduct?
    ensures Inv(Apply(s, event)) && Grows(s, Apply(s, event))
  {
    hide RowsOk, ThreadOk;
    var s' := Apply(s, event);
    GrowsReflexive(s);
    forall t | t in s'.threads ensures ThreadOk(s', s'.threads[t]) {
      ThreadOkStable(s, s', s.threads[t]);
    }
  }

  lemma WorkIsGood(s: State, thread: nat, fault: Fault)
    requires Inv(s) && thread in s.threads
    ensures Inv(WorkerStep(s, thread, fault)) && Grows(s, WorkerStep(s, thread, fault))
  {
    hide WorkerStep, Inv;
    match s.threads[thread].task
    case FetchingRun(_) => FetchIsGood(s, thread, fault); GoodStepKeepsInv(s, thread, WorkerStep(s, thread, fault));
    case FetchingPack(_, _, _) =>
      FetchIsGood(s, thread, fault); GoodStepKeepsInv(s, thread, WorkerStep(s, thread, fault));
    case Persisting(_, _, _, _, _) =>
      PersistIsGood(s, thread, fault); GoodStepKeepsInv(s, thread, WorkerStep(s, thread, fault));
    case Completing(_) => MarkIsGood(s, thread, fault); GoodStepKeepsInv(s, thread, WorkerStep(s, thread, fault));
    case Failing(_) => MarkIsGood(s, thread, fault); GoodStepKeepsInv(s, thread, WorkerStep(s, thread, fault));
  }

  lemma {:induction false} ReplayKeepsInv(s: State, events: seq<Event>)
    requires Inv(s)
    ensures Inv(Replay(s, events)) && Grows(s, Replay(s, events))
  {
    hide Inv, Grows, Apply;
    if events == [] {
      GrowsReflexive(s);
    } else {
      var before := Replay(s, events[..|events| - 1]);
      ReplayKeepsInv(s, events[..|events| - 1]);
      EventKeepsInv(before, events[|events| - 1]);
      GrowsTransitive(s, before, Replay(s, events));
    }
  }

  lemma InitialIsGood()
    ensures Inv(INITIAL)
  {
  }

  lemma {:induction false} ReplayAppend(s: State, first: seq<Event>, second: seq<Event>)
    ensures Replay(s, first + second) == Replay(Replay(s, first), second)
  {
    hide Apply;
    if second == [] {
      assert first + second == first;
    } else {
      var last := |second| - 1;
      assert (first + second)[..|first + second| - 1] == first + second[..last];
      ReplayAppend(s, first, second[..last]);
    }
  }

  /** Once a run is terminal it never changes, whatever happens later. */
  lemma TerminalRunsNeverChange(past: seq<Event>, future: seq<Event>, r: nat)
    requires r in After(past).runs && TerminalStatus(After(past).runs[r].status)
    ensures r in After(past + future).runs && After(past + future).runs[r] == After(past).runs[r]
  {
    hide Inv, Replay;
    InitialIsGood();
    ReplayKeepsInv(INITIAL, past);
    ReplayKeepsInv(After(past), future);
    ReplayAppend(INITIAL, past, future);
  }

  /** In every reachable state a run made for a rule pack is either as it was queued, or carries exactly the decision
      that its frozen snapshot and its frozen pack give. */
  lemma OutcomeIsFrozenEvaluation(events: seq<Event>, r: nat)
    requires r in After(events).runs && After(events).runs[r].rulePackId.Some?
    ensures var s := After(events);
            var run := s.runs[r];
            && run.rulePackId.value in s.catalogue.packs && run.rulePackVersion.Some?
            && (if TerminalStatus(run.status) then IsDecided(s.catalogue.packs, run) else IsQueued(run))
  {
    InitialIsGood();
    ReplayKeepsInv(INITIAL, events);
    hide Replay, RPP.Inv, IsDecided;
    RunStatusIsKnown(After(events).catalogue.packs, After(events).runs[r]);
  }

  /** In every reachable state, what a finished run says is a fact about the rules frozen for it: it is classified
      exactly when, among those whose text stands in the frozen snapshot, one is a clear winner, whose code and
      confidence it then has, and its candidates are the codes of all rules. */
  lemma FinishedRunsMeanTheirRules(events: seq<Event>, r: nat)
    requires r in After(events).runs && After(events).runs[r].rulePackId.Some?
             && TerminalStatus(After(events).runs[r].status)
    ensures var run := After(events).runs[r];
            && run.outcome.Some? && run.rulePackId.value in After(events).catalogue.packs
            && var document := After(events).catalogue.packs[run.rulePackId.value].document;
               var matches := multiset(Hitting(PayloadJson(document).rules.value, run.inputSnapshot.json));
               && (run.status == RunStatus.Classified <==> exists top :: ClearWinner(matches, top))
               && (run.status == RunStatus.Classified <==> run.failureReason.None?)
               && (forall top | ClearWinner(matches, top) ::
                     run.outcome.value.selectedCode == top.code && run.outcome.value.confidence == Confidence(top))
               && multiset(run.outcome.value.candidateCodes) ==
                 multiset(Map((rule: RuleDefinition) => rule.code, document.rules))
  {
    hide Replay, RPP.Inv, ClearWinner;
    OutcomeIsFrozenEvaluation(events, r);
    var run := After(events).runs[r];
    var document := After(events).catalogue.packs[run.rulePackId.value].document;
    PayloadIsEvaluated(document, run.inputSnapshot.json);
    PayloadMeaning(document, Text.Lower(run.inputSnapshot.json));
    HittingIsMatched(PayloadJson(document).rules.value, run.inputSnapshot.json);
  }

  lemma PayloadIsEvaluated(document: RulePackDocument, json: string)
    ensures Evaluate(PRODUCTION_RUNTIME, PayloadJson(document), json)
            == Ok(Classify(PayloadJson(document).rules.value, Text.Lower(json)))
  {
    hide Classify, Text.Lower;
  }

  lemma PayloadMeaning(document: RulePackDocument, haystack: string)
    ensures var rules := PayloadJson(document).rules.value;
            var result := Classify(rules, haystack);
            && (OutcomeDecision(result).status == RunStatus.Classified <==>
                exists top :: ClearWinner(multiset(Matched(rules, haystack)), top))
            && (OutcomeDecision(result).status == RunStatus.Classified <==> OutcomeDecision(result).failureReason.None?)
            && (forall top | ClearWinner(multiset(Matched(rules, haystack)), top) ::
                  result.selectedCode == top.code && result.confidence == Confidence(top))
            && multiset(CandidateCodes(result)) == multiset(Map((rule: RuleDefinition) => rule.code, document.rules))
  {
    hide Classify, Matched, ClearWinner, CandidateCodes, HasTieCandidate;
    var rules := PayloadJson(document).rules.value;
    ClassifiedIffClearWinner(rules, haystack);
    CandidateConservation(rules, haystack);
    PayloadCodes(document.rules);
  }

  lemma {:induction false} PayloadCodes(rules: seq<RuleDefinition>)
    ensures PresentCodes(Map(Code, Map(RuleJson, rules))) == Map((rule: RuleDefinition) => rule.code, rules)
  {
    if rules != [] {
      PayloadCodes(rules[1..]);
      var rest := Map(Code, Map(RuleJson, rules[1..]));
      assert Map(Code, Map(RuleJson, rules)) == [Some(rules[0].code)] + rest;
      PresentCodesAppend([Some(rules[0].code)], rest);
      assert PresentCodes([Some(rules[0].code)]) == [rules[0].code];
    }
  }

  /** Confluence: two different futures that both finish a run finish it with the same row. */
  lemma FuturesAgree(past: seq<Event>, one: seq<Event>, other: seq<Event>, r: nat)
    requires r in After(past).runs
    requires r in After(past + one).runs && TerminalStatus(After(past + one).runs[r].status)
    requires r in After(past + other).runs && TerminalStatus(After(past + other).runs[r].status)
    ensures After(past + one).runs[r] == After(past + other).runs[r]
  {
    hide Replay, Inv, RPP.Inv, Evaluate;
    InitialIsGood();
    ReplayKeepsInv(INITIAL, past);
    ReplayKeepsInv(After(past), one);
    ReplayKeepsInv(After(past), other);
    ReplayAppend(INITIAL, past, one);
    ReplayAppend(INITIAL, past, other);
    PastRunIsOk(past, r);
    if After(past).runs[r].rulePackId.Some? {
      OutcomeIsFrozenEvaluation(past + one, r);
      OutcomeIsFrozenEvaluation(past + other, r);
      PastRunIsOk(past + one, r);
      PastRunIsOk(past + other, r);
      SameInputsSameRow(After(past).catalogue.packs, After(past + one).catalogue.packs,
                        After(past + other).catalogue.packs,
                        After(past).runs[r], After(past + one).runs[r], After(past + other).runs[r]);
    }
  }

  lemma SameInputsSameRow(packs: map<nat, PackRow>, packs1: map<nat, PackRow>, packs2: map<nat, PackRow>,
                          run: RunRow, one: RunRow, other: RunRow)
    requires RunOk(packs, run) && RunOk(packs1, one) && RunOk(packs2, other) && run.rulePackId.Some?
    requires RPP.PacksGrow(packs, packs1) && RPP.PacksGrow(packs, packs2) && RunKeeps(run, one) && RunKeeps(run, other)
    requires IsDecided(packs1, one) && IsDecided(packs2, other)
    ensures one == other
  {
    hide Evaluate, OutcomeDecision, CandidateCodes;
    assert FrozenEvaluation(packs1, one) == FrozenEvaluation(packs2, other);
  }

  lemma PastRunIsOk(past: seq<Event>, r: nat)
    requires r in After(past).runs
    ensures RunOk(After(past).catalogue.packs, After(past).runs[r])
    ensures After(past).runs[r].rulePackId.None? ==> TerminalStatus(After(past).runs[r].status)
  {
    hide Replay, RPP.Inv, RunOk;
    InitialIsGood();
    ReplayKeepsInv(INITIAL, past);
    if After(past).runs[r].rulePackId.None? {
      BlockedRunsAreTerminal(After(past).catalogue.packs, After(past).runs[r]);
    }
  }

  lemma BlockedRunsAreTerminal(packs: map<nat, PackRow>, run: RunRow)
    requires RunOk(packs, run) && run.rulePackId.None?
    ensures TerminalStatus(run.status)
  {
  }

  // ---- At most one write ----

  /** How often an event changes the row of run `r` after its insertion. */
  function Writes(events: seq<Event>, r: nat): nat {
    if events == [] then 0
    else
      var before := After(events[..|events| - 1]);
      Writes(events[..|events| - 1], r)
      + (if r in before.runs && (r !in After(events).runs || After(events).runs[r] != before.runs[r]) then 1 else 0)
  }

  /** A run's row is written at most once after its insertion, and when it was written it is terminal. */
  lemma {:induction false} AtMostOneWrite(events: seq<Event>, r: nat)
    ensures Writes(events, r) <= 1
    ensures Writes(events, r) == 1 ==> r in After(events).runs && TerminalStatus(After(events).runs[r].status)
    ensures r in After(events).runs && !TerminalStatus(After(events).runs[r].status) ==> Writes(events, r) == 0
  {
    if events != [] {
      var past, event := events[..|events| - 1], events[|events| - 1];
      assert events == past + [event];
      AtMostOneWrite(past, r);
      hide After, TerminalStatus;
      if r in After(past).runs {
        ChangedRunBecomesTerminal(past, event, r);
      }
    }
  }

  lemma ChangedRunBecomesTerminal(past: seq<Event>, event: Event, r: nat)
    requires r in After(past).runs
    ensures r in After(past + [event]).runs
    ensures After(past).runs[r] != After(past + [event]).runs[r] ==>
              !TerminalStatus(After(past).runs[r].status) && TerminalStatus(After(past + [event]).runs[r].status)
  {
    hide Replay, Inv, RPP.Inv, Evaluate, IsDecided;
    InitialIsGood();
    ReplayKeepsInv(INITIAL, past);
    ReplayKeepsInv(After(past), [event]);
    ReplayAppend(INITIAL, past, [event]);
    if !TerminalStatus(After(past + [event]).runs[r].status) {
      QueuedRowIsFixed(past, event, r);
    }
  }

  /** A run that is still queued has the row it was inserted with. */
  lemma QueuedRowIsFixed(past: seq<Event>, event: Event, r: nat)
    requires r in After(past).runs && r in After(past + [event]).runs
    requires RunKeeps(After(past).runs[r], After(past + [event]).runs[r])
    requires !TerminalStatus(After(past).runs[r].status) && !TerminalStatus(After(past + [event]).runs[r].status)
    ensures After(past).runs[r] == After(past + [event]).runs[r]
  {
    hide Replay, RPP.Inv, IsDecided;
    PastRunIsOk(past, r);
    PastRunIsOk(past + [event], r);
    RunStatusIsKnown(After(past).catalogue.packs, After(past).runs[r]);
    RunStatusIsKnown(After(past + [event]).catalogue.packs, After(past + [event]).runs[r]);
  }

  // ---- Jobs and leases ----

  /** How often a lease was granted on job `j`. */
  function LeasesGranted(events: seq<Event>, j: nat): nat {
    if events == [] then 0
    else
      LeasesGranted(events[..|events| - 1], j)
      + (if Grants(After(events[..|events| - 1]), events[|events| - 1], j) then 1 else 0)
  }

  predicate Grants(s: State, event: Event, j: nat) {
    event.Lease? && j in event.picked
      && MayPick(s.jobs, s.catalogue.now, AtLeastOne(event.limit), event.locked, event.picked)
  }

  /** What one event does to one job. */
  lemma EventOnJob(s: State, event: Event, j: nat)
    requires Inv(s) && j in s.jobs
    ensures j in Apply(s, event).jobs
    ensures Grants(s, event, j) ==> Leasable(s.jobs[j], s.catalogue.now)
    ensures Grants(s, event, j) ==>
              Apply(s, event).jobs[j] == Leased(s.jobs[j], event.worker, s.catalogue.now, AtLeastOne(event.seconds))
    ensures !Grants(s, event, j) ==>
              Apply(s, event).jobs[j] == s.jobs[j] ||
              (Closed(Apply(s, event).jobs[j].status)
                && Apply(s, event).jobs[j] == s.jobs[j].(status := Apply(s, event).jobs[j].status))
  {
    hide RowsOk, ThreadOk, QueueProducts, RPP.Apply, LeasesBefore, AfterFetchRun, AfterFetchPack, PersistOutcome,
      Leasable;
    if event.Request? && RunClassifications(s, event.tenant, event.productIds).Ok? {
      QueueingKeepsJobs(s, event.tenant, event.productIds, j);
    }
  }

  lemma QueueProductJobs(s: State, tenant: nat, productId: nat)
    requires QueueProduct(s, tenant, productId).Ok? && forall j | j in s.jobs :: j < s.nextId
    ensures var s' := QueueProduct(s, tenant, productId).value;
            && (forall j | j in s.jobs :: j in s'.jobs && s'.jobs[j] == s.jobs[j])
            && (forall j | j in s'.jobs && j !in s.jobs :: s'.jobs[j].attempts == 0)
  {
    hide FetchActivePack, IsExistingRun;
  }

  lemma JobIdsBelowNext(s: State)
    requires Inv(s)
    ensures forall j | j in s.jobs :: j < s.nextId
  {
    hide RPP.Inv, RunOk, JobOk, OneRunEach, OneJobEach, ThreadOk;
  }

  lemma {:induction false} QueueingKeepsJobs(s: State, tenant: nat, productIds: seq<nat>, j: nat)
    requires Inv(s) && QueueProducts(s, tenant, productIds).Ok?
    ensures var s' := QueueProducts(s, tenant, productIds).value;
            && (j in s.jobs ==> j in s'.jobs && s'.jobs[j] == s.jobs[j])
            && (j !in s.jobs && j in s'.jobs ==> s'.jobs[j].attempts == 0)
  {
    if productIds != [] {
      hide Inv, QueueProduct, Grows;
      var last := |productIds| - 1;
      var front := QueueProducts(s, tenant, productIds[..last]).value;
      QueueingKeepsJobs(s, tenant, productIds[..last], j);
      QueueProductsKeepInv(s, tenant, productIds[..last]);
      JobIdsBelowNext(front);
      QueueProductJobs(front, tenant, productIds[last]);
    }
  }

  /** A new job starts without a lease. */
  lemma NewJobIsUnleased(s: State, event: Event, j: nat)
    requires Inv(s) && j !in s.jobs && j in Apply(s, event).jobs
    ensures Apply(s, event).jobs[j].attempts == 0 && !Grants(s, event, j)
  {
    hide RowsOk, ThreadOk, QueueProducts, RPP.Apply, LeasesBefore, AfterFetchRun, AfterFetchPack, PersistOutcome,
      Leasable;
    if event.Request? && RunClassifications(s, event.tenant, event.productIds).Ok? {
      QueueingKeepsJobs(s, event.tenant, event.productIds, j);
    }
  }

  /** `attempts` counts the leases granted. */
  lemma {:induction false} AttemptsCountLeases(events: seq<Event>, j: nat)
    ensures j in After(events).jobs ==> After(events).jobs[j].attempts == LeasesGranted(events, j)
    ensures j !in After(events).jobs ==> LeasesGranted(events, j) == 0
  {
    if events != [] {
      hide Inv, Apply, Leasable;
      var last := |events| - 1;
      var before := After(events[..last]);
      AttemptsCountLeases(events[..last], j);
      InitialIsGood();
      ReplayKeepsInv(INITIAL, events[..last]);
      if j in before.jobs {
        EventOnJob(before, events[last], j);
      } else if j in After(events).jobs {
        NewJobIsUnleased(before, events[last], j);
      }
    }
  }

  /** A lease that has not expired is never taken over: the next event leaves owner, deadline and attempts alone, and
      leaves the job leased, completed or failed. */
  lemma UnexpiredLeaseIsKept(past: seq<Event>, event: Event, j: nat)
    requires j in After(past).jobs
    requires var job := After(past).jobs[j];
             job.status.JobLeased? && job.leasedUntil.Some? && job.leasedUntil.value >= After(past).catalogue.now
    ensures j in Apply(After(past), event).jobs
    ensures var job, job' := After(past).jobs[j], Apply(After(past), event).jobs[j];
            && job'.leaseOwner == job.leaseOwner && job'.leasedUntil == job.leasedUntil && job'.attempts == job.attempts
            && (job'.status.JobLeased? || Closed(job'.status))
  {
    hide Replay, Inv, Apply;
    InitialIsGood();
    ReplayKeepsInv(INITIAL, past);
    EventOnJob(After(past), event, j);
  }

  /** A completed or failed job stays closed and is never leased again; a completed job's run is terminal. */
  lemma ClosedJobsStayClosed(past: seq<Event>, future: seq<Event>, j: nat)
    requires j in After(past).jobs && Closed(After(past).jobs[j].status)
    ensures j in After(past + future).jobs && Closed(After(past + future).jobs[j].status)
    ensures LeasesGranted(past + future, j) == LeasesGranted(past, j)
  {
    hide Replay, Inv;
    InitialIsGood();
    ReplayKeepsInv(INITIAL, past);
    ReplayKeepsInv(After(past), future);
    ReplayAppend(INITIAL, past, future);
    AttemptsCountLeases(past, j);
    AttemptsCountLeases(past + future, j);
  }

  /** Every job belongs to a run, carries exactly the inputs frozen into it before and after the outcome is written, and
      is the only job of that run; a completed job's run is terminal. */
  lemma JobsCarryFrozenInputs(events: seq<Event>, j: nat)
    requires j in After(events).jobs
    ensures var s := After(events);
            var job := s.jobs[j];
            && job.runId in s.runs
            && job.payload == Payload(s.runs[job.runId].rulePackId, Some(s.runs[job.runId].inputSnapshot))
            && (job.status.JobCompleted? ==> TerminalStatus(s.runs[job.runId].status))
            && forall k | k in s.jobs && s.jobs[k].runId == job.runId :: k == j
  {
    InitialIsGood();
    ReplayKeepsInv(INITIAL, events);
    hide Replay, RPP.Inv, RunOk, ThreadOk;
    assert JobOk(After(events).runs, After(events).jobs[j]);
  }

  /** Enqueueing the same product for the same pack again never makes a second run. */
  lemma OneRunPerProductAndPack(events: seq<Event>, r: nat, q: nat)
    requires r in After(events).runs && q in After(events).runs
    requires After(events).runs[r].rulePackId.Some?
             && After(events).runs[r].rulePackId == After(events).runs[q].rulePackId
    requires After(events).runs[r].tenant == After(events).runs[q].tenant
             && After(events).runs[r].productId == After(events).runs[q].productId
    ensures r == q
  {
    InitialIsGood();
    ReplayKeepsInv(INITIAL, events);
  }

  /** Every run made for a pack was made for one that passes all its golden cases in production. */
  lemma RunsUseGoldenPacks(events: seq<Event>, r: nat)
    requires r in After(events).runs && After(events).runs[r].rulePackId.Some?
    ensures var s := After(events);
            s.runs[r].rulePackId.value in s.catalogue.packs
              && RPP.PassesGoldenCases(s.catalogue.packs[s.runs[r].rulePackId.value])
  {
    PastRunIsOk(events, r);
    InitialIsGood();
    ReplayKeepsInv(INITIAL, events);
    hide Replay, RPP.Consistent, RPP.PassesGoldenCases, IsDecided, JobOk, ThreadOk;
    RPP.ConsistentRowPasses(After(events).catalogue.packs[After(events).runs[r].rulePackId.value]);
  }

  // ---- Enqueueing uses the pack activated last ----

  /** The rule-pack events among the events of a run. */
  function PackEvents(events: seq<Event>): seq<RPP.PackEvent> {
    if events == [] then []
    else
      PackEvents(events[..|events| - 1])
      + (if events[|events| - 1].OfPacks? then [events[|events| - 1].event] else [])
  }

  lemma {:induction false} CatalogueProjects(events: seq<Event>)
    ensures After(events).catalogue == RPP.Run(PackEvents(events))
  {
    if events != [] {
      hide RPP.Apply, Apply;
      var past, event := events[..|events| - 1], events[|events| - 1];
      CatalogueProjects(past);
      if event.OfPacks? {
        PackEventsReachCatalogue(After(past), event.event);
        assert PackEvents(events)[..|PackEvents(events)| - 1] == PackEvents(past);
      } else {
        assert PackEvents(events) == PackEvents(past);
        OtherEventsLeaveCatalogue(After(past), event);
      }
    }
  }

  lemma PackEventsReachCatalogue(s: State, e: RPP.PackEvent)
    ensures Apply(s, OfPacks(e)).catalogue == RPP.Apply(s.catalogue, e)
  {
  }

  lemma OtherEventsLeaveCatalogue(s: State, event: Event)
    requires !event.OfPacks?
    ensures Apply(s, event).catalogue == s.catalogue
  {
    hide QueueProducts, AfterFetchRun, AfterFetchPack, PersistOutcome;
    if event.Request? && RunClassifications(s, event.tenant, event.productIds).Ok? {
      QueueingFreezesInputs(s, event.tenant, event.productIds);
    }
  }

  /** The inputs a newly made run freezes: the product as it is, and the pack the lookup finds. */
  predicate FreezesCurrentInputs(s: State, tenant: nat, run: RunRow) {
    && run.tenant == tenant && run.productId in s.products
      && run.inputSnapshot == ProductSnapshot(s.products[run.productId])
    && run.rulePackId == FetchActivePack(s.catalogue.packs, tenant, run.inputSnapshot.jurisdiction)
  }

  lemma {:induction false} QueueingFreezesInputs(s: State, tenant: nat, productIds: seq<nat>)
    requires QueueProducts(s, tenant, productIds).Ok?
    ensures var s' := QueueProducts(s, tenant, productIds).value;
            && s'.catalogue == s.catalogue && s'.products == s.products
            && forall r | r in s'.runs && (r !in s.runs || s'.runs[r] != s.runs[r]) ::
              FreezesCurrentInputs(s, tenant, s'.runs[r])
  {
    if productIds != [] {
      hide FetchActivePack, IsExistingRun;
      var last := |productIds| - 1;
      QueueingFreezesInputs(s, tenant, productIds[..last]);
    }
  }

  /** A request makes runs for the pack that was activated last for the product's jurisdiction, or blocked runs when
      none was, and freezes the product as it is at that moment. */
  lemma RequestsUseLastActivatedPack(events: seq<Event>, tenant: nat, productIds: seq<nat>, r: nat)
    requires RunClassifications(After(events), tenant, productIds).Ok? && r !in After(events).runs
    requires r in RunClassifications(After(events), tenant, productIds).value.runs
    ensures var s := After(events);
            var run := RunClassifications(s, tenant, productIds).value.runs[r];
            && run.productId in s.products && run.inputSnapshot == ProductSnapshot(s.products[run.productId])
            && run.rulePackId == RPP.LastActivated(PackEvents(events), tenant, run.inputSnapshot.jurisdiction)
  {
    hide Replay, QueueProducts, FetchActivePack, RPP.LastActivated, RPP.Run, PackEvents;
    var s := After(events);
    QueueingFreezesInputs(s, tenant, productIds);
    CatalogueProjects(events);
    RPP.LookupFindsLastActivated(PackEvents(events), tenant,
                                 RunClassifications(s, tenant, productIds).value.runs[r].inputSnapshot.jurisdiction);
  }
}
