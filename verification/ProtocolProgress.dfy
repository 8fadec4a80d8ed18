/** Progress of the classification protocol: a request queues its products, a lease takes the jobs that are free, and a
    worker whose statements succeed decides the run of every job it selected, whatever happens in between
    (src/app/classifications/queue.rs, src/jobs/lease.rs, src/classification/service.rs). */
module ProtocolProgress {
  import opened Wrappers
  import opened RuleEvaluation
  import opened RulePacks
  import RPP = RulePackProperties
  import opened ClassificationProtocol
  import opened ProtocolProperties

  // ---- Events of others ----

  /** An event that is not a statement, the start or the end of the given worker thread. */
  predicate IsOther(event: Event, thread: nat) {
    match event
    case SelectLeased(t, _, _, _) => t != thread
    case Work(t, _) => t != thread
    case Crash(t) => t != thread
    case _ => true
  }

  lemma {:induction false} QueueingKeepsThreads(s: State, tenant: nat, productIds: seq<nat>)
    requires QueueProducts(s, tenant, productIds).Ok?
    ensures QueueProducts(s, tenant, productIds).value.threads == s.threads
    ensures QueueProducts(s, tenant, productIds).value.catalogue == s.catalogue
  {
    if productIds != [] {
      hide FetchActivePack, IsExistingRun;
      QueueingKeepsThreads(s, tenant, productIds[..|productIds| - 1]);
    }
  }

  /** Other workers' events leave a worker's locals alone. */
  lemma OtherEventLeavesThread(s: State, event: Event, thread: nat)
    requires IsOther(event, thread)
    ensures thread in Apply(s, event).threads <==> thread in s.threads
    ensures thread in s.threads ==> Apply(s, event).threads[thread] == s.threads[thread]
  {
    hide QueueProducts, AfterFetchRun, AfterFetchPack, PersistOutcome, RPP.Apply;
    if event.Request? && RunClassifications(s, event.tenant, event.productIds).Ok? {
      QueueingKeepsThreads(s, event.tenant, event.productIds);
    }
  }

  lemma {:induction false} OthersLeaveThread(s: State, events: seq<Event>, thread: nat)
    requires forall i | 0 <= i < |events| :: IsOther(events[i], thread)
    ensures thread in Replay(s, events).threads <==> thread in s.threads
    ensures thread in s.threads ==> Replay(s, events).threads[thread] == s.threads[thread]
  {
    if events != [] {
      hide Apply, IsOther;
      OthersLeaveThread(s, events[..|events| - 1], thread);
      OtherEventLeavesThread(Replay(s, events[..|events| - 1]), events[|events| - 1], thread);
    }
  }

  // ---- One job ----

  /** Nothing but successful statements of the thread, and any events of others. */
  predicate Undisturbed(events: seq<Event>, thread: nat) {
    forall i | 0 <= i < |events| :: IsOther(events[i], thread) || events[i] == Work(thread, NoFault)
  }

  /** How many statements of the thread there are. */
  function Works(events: seq<Event>, thread: nat): nat {
    if events == [] then 0
    else Works(events[..|events| - 1], thread) + if events[|events| - 1] == Work(thread, NoFault) then 1 else 0
  }

  /** The thread has carried out `k` statements for the job and none has failed. */
  predicate OnTheWay(s: State, thread: nat, job: LeasedJob, todo: seq<LeasedJob>, k: nat) {
    && thread in s.threads && s.threads[thread].todo == todo && s.threads[thread].task.job == job
    && match s.threads[thread].task
       case FetchingRun(_) => k == 0
       case FetchingPack(_, _, _) => k == 1
       case Persisting(_, _, _, _, _) => k == 2
       case Completing(_) => 1 <= k <= 3
       case Failing(_) => false
  }

  /** The job is completed and its run decided. */
  predicate IsDone(s: State, job: LeasedJob) {
    && job.id in s.jobs && s.jobs[job.id].status.JobCompleted?
    && job.runId in s.runs && TerminalStatus(s.runs[job.runId].status)
  }

  lemma FetchAdvances(s: State, thread: nat, todo: seq<LeasedJob>)
    requires Inv(s) && thread in s.threads && s.threads[thread].todo == todo && s.threads[thread].task.FetchingRun?
    ensures OnTheWay(WorkerStep(s, thread, NoFault), thread, s.threads[thread].task.job, todo, 1)
  {
    hide RowsOk, RunOk, TerminalStatus, FrozenEvaluation;
    var job := s.threads[thread].task.job;
    assert ThreadOk(s, s.threads[thread]);
    HeldRunExists(s, job);
    HeldPayloadIsFrozen(s, job);
    assert JobOk(s.runs, s.jobs[job.id]) by { HeldJobIsOk(s, job); }
  }

  lemma HeldJobIsOk(s: State, job: LeasedJob)
    requires RowsOk(s.catalogue, s.runs, s.jobs, s.nextId) && HoldsRow(s.jobs, job)
    ensures JobOk(s.runs, s.jobs[job.id])
  {
    hide RPP.Inv, RunOk, OneRunEach, OneJobEach, JobOk;
  }

  /** The pack is there, and evaluating a stored pack never fails. */
  lemma EvaluationAdvances(s: State, thread: nat, todo: seq<LeasedJob>)
    requires Inv(s) && thread in s.threads && s.threads[thread].todo == todo && s.threads[thread].task.FetchingPack?
    ensures OnTheWay(WorkerStep(s, thread, NoFault), thread, s.threads[thread].task.job, todo, 2)
  {
    hide RowsOk, Evaluate, PayloadJson, Classify, FrozenEvaluation, IsDecided;
    var task := s.threads[thread].task;
    assert ThreadOk(s, s.threads[thread]);
    HeldRunExists(s, task.job);
    HeldPayloadIsFrozen(s, task.job);
    PayloadIsEvaluated(s.catalogue.packs[task.rulePackId].document, task.snapshot.json);
  }

  lemma WriteAdvances(s: State, thread: nat, todo: seq<LeasedJob>)
    requires Inv(s) && thread in s.threads && s.threads[thread].todo == todo && s.threads[thread].task.Persisting?
    ensures OnTheWay(WorkerStep(s, thread, NoFault), thread, s.threads[thread].task.job, todo, 3)
  {
    hide RowsOk, PersistOutcome;
  }

  lemma MarkCompletes(s: State, thread: nat)
    requires Inv(s) && thread in s.threads && s.threads[thread].task.Completing?
    ensures var s' := WorkerStep(s, thread, NoFault);
            IsDone(s', s.threads[thread].task.job) && s'.threads == NextJob(s.threads, thread)
  {
    hide RowsOk;
    assert ThreadOk(s, s.threads[thread]);
  }

  /** One successful statement: the next one is at hand, or the job is completed and its run decided. */
  lemma StatementAdvances(s: State, thread: nat, job: LeasedJob, todo: seq<LeasedJob>, k: nat)
    requires Inv(s) && OnTheWay(s, thread, job, todo, k)
    ensures var s' := Apply(s, Work(thread, NoFault));
            if s.threads[thread].task.Completing? then IsDone(s', job) && s'.threads == NextJob(s.threads, thread)
            else OnTheWay(s', thread, job, todo, k + 1)
  {
    hide Inv, WorkerStep, NextJob;
    match s.threads[thread].task
    case FetchingRun(_) => FetchAdvances(s, thread, todo);
    case FetchingPack(_, _, _) => EvaluationAdvances(s, thread, todo);
    case Persisting(_, _, _, _, _) => WriteAdvances(s, thread, todo);
    case Completing(_) => MarkCompletes(s, thread);
  }

  /** Event `n` marks the job as completed, when its run is decided; the thread goes on to its next job. */
  predicate CompletesAt(s: State, events: seq<Event>, thread: nat, job: LeasedJob, todo: seq<LeasedJob>, n: nat) {
    && n < |events| && events[n] == Work(thread, NoFault) && IsDone(Replay(s, events[..n + 1]), job)
    && var before := Replay(s, events[..n]);
       && thread in before.threads && before.threads[thread] == Thread(Completing(job), todo)
       && Replay(s, events[..n + 1]).threads == NextJob(before.threads, thread)
  }

  lemma {:induction false} JobProgresses(s: State, thread: nat, job: LeasedJob, todo: seq<LeasedJob>,
                                         events: seq<Event>)
    requires Inv(s) && thread in s.threads && s.threads[thread] == Thread(FetchingRun(job), todo)
    requires Undisturbed(events, thread)
    ensures || OnTheWay(Replay(s, events), thread, job, todo, Works(events, thread))
            || exists n | 0 <= n < |events| ::
                 CompletesAt(s, events, thread, job, todo, n) && Works(events[..n + 1], thread) <= 4
  {
    hide Inv, Apply, IsOther, OnTheWay, CompletesAt;
    if events == [] {
      StartsOut(s, thread, job, todo);
    } else {
      var m := |events| - 1;
      var front, last := events[..m], events[m];
      var before := Replay(s, front);
      JobProgresses(s, thread, job, todo, front);
      ReplayKeepsInv(s, front);
      if OnTheWay(before, thread, job, todo, Works(front, thread)) {
        OneMoreEvent(s, thread, job, todo, events);
      } else {
        var n :| 0 <= n < m && CompletesAt(s, front, thread, job, todo, n) && Works(front[..n + 1], thread) <= 4;
        assert front[..n] == events[..n] && front[..n + 1] == events[..n + 1];
        StillCompletes(s, front, events, thread, job, todo, n);
      }
    }
  }

  lemma StartsOut(s: State, thread: nat, job: LeasedJob, todo: seq<LeasedJob>)
    requires thread in s.threads && s.threads[thread] == Thread(FetchingRun(job), todo)
    ensures OnTheWay(s, thread, job, todo, 0)
  {
  }

  lemma StillCompletes(s: State, front: seq<Event>, events: seq<Event>, thread: nat, job: LeasedJob,
                       todo: seq<LeasedJob>, n: nat)
    requires CompletesAt(s, front, thread, job, todo, n) && |front| <= |events| && front == events[..|front|]
    ensures CompletesAt(s, events, thread, job, todo, n)
  {
    hide Replay, IsDone;
    assert front[..n] == events[..n] && front[..n + 1] == events[..n + 1];
  }

  lemma OneMoreEvent(s: State, thread: nat, job: LeasedJob, todo: seq<LeasedJob>, events: seq<Event>)
    requires events != [] && Undisturbed(events, thread)
    requires var front := events[..|events| - 1];
             Inv(Replay(s, front)) && OnTheWay(Replay(s, front), thread, job, todo, Works(front, thread))
    ensures || OnTheWay(Replay(s, events), thread, job, todo, Works(events, thread))
            || (CompletesAt(s, events, thread, job, todo, |events| - 1) && Works(events, thread) <= 4)
    ensures events[..|events| - 1 + 1] == events
  {
    hide Inv, Apply, IsOther, IsDone, NextJob;
    var m := |events| - 1;
    var front, last := events[..m], events[m];
    var before := Replay(s, front);
    assert events[..m + 1] == events;
    if last == Work(thread, NoFault) {
      StatementAdvances(before, thread, job, todo, Works(front, thread));
    } else {
      assert IsOther(last, thread);
      OtherEventLeavesThread(before, last, thread);
    }
  }

  /** When the next four statements of the thread succeed, one of them marks its job as completed, and by then the run
      of the job is decided, whatever the other workers and requests do in between. */
  lemma FourStatementsDecide(s: State, thread: nat, job: LeasedJob, todo: seq<LeasedJob>, events: seq<Event>)
    returns (n: nat)
    requires Inv(s) && thread in s.threads && s.threads[thread] == Thread(FetchingRun(job), todo)
    requires Undisturbed(events, thread) && Works(events, thread) >= 4
    ensures CompletesAt(s, events, thread, job, todo, n) && Works(events[..n + 1], thread) <= 4
    ensures job.runId in Replay(s, events).runs && TerminalStatus(Replay(s, events).runs[job.runId].status)
  {
    hide Inv, Undisturbed, Replay, IsOther, CompletesAt;
    JobProgresses(s, thread, job, todo, events);
    n :| 0 <= n < |events| && CompletesAt(s, events, thread, job, todo, n) && Works(events[..n + 1], thread) <= 4;
    DoneStays(s, events, thread, job, todo, n);
  }

  lemma DoneStays(s: State, events: seq<Event>, thread: nat, job: LeasedJob, todo: seq<LeasedJob>, n: nat)
    requires Inv(s) && CompletesAt(s, events, thread, job, todo, n)
    ensures var end := Replay(s, events);
            && job.runId in end.runs && TerminalStatus(end.runs[job.runId].status)
            && job.id in end.jobs && Closed(end.jobs[job.id].status)
  {
    hide Inv, Replay;
    var past, future := events[..n + 1], events[n + 1..];
    assert events == past + future;
    ReplayAppend(s, past, future);
    ReplayKeepsInv(s, past);
    ReplayKeepsInv(Replay(s, past), future);
  }

  // ---- All jobs of a worker ----

  lemma {:induction false} WorksAppend(first: seq<Event>, second: seq<Event>, thread: nat)
    ensures Works(first + second, thread) == Works(first, thread) + Works(second, thread)
  {
    if second == [] {
      assert first + second == first;
    } else {
      var m := |second| - 1;
      assert (first + second)[..|first + second| - 1] == first + second[..m];
      WorksAppend(first, second[..m], thread);
    }
  }

  /** The run of the job is decided and the job is closed. */
  predicate Settled(s: State, job: LeasedJob) {
    && job.runId in s.runs && TerminalStatus(s.runs[job.runId].status)
    && job.id in s.jobs && Closed(s.jobs[job.id].status)
  }

  /** A worker with enough successful statements decides the runs of all its jobs. */
  lemma {:induction false} UndisturbedWorkerDecides(s: State, thread: nat, job: LeasedJob, todo: seq<LeasedJob>,
                                                    events: seq<Event>)
    requires Inv(s) && thread in s.threads && s.threads[thread] == Thread(FetchingRun(job), todo)
    requires Undisturbed(events, thread) && Works(events, thread) >= 4 * (1 + |todo|)
    ensures Settled(Replay(s, events), job)
    ensures forall i | 0 <= i < |todo| :: Settled(Replay(s, events), todo[i])
    decreases |todo|
  {
    hide Inv, Replay, IsOther, CompletesAt, Settled;
    var n := FourStatementsDecide(s, thread, job, todo, events);
    assert Settled(Replay(s, events), job) by { DoneIsSettled(s, events, thread, job, todo, n); }
    if todo != [] {
      assert n < |events| by { CompletesInside(s, events, thread, job, todo, n); }
      var past, future := events[..n + 1], events[n + 1..];
      assert events == past + future;
      ReplayAppend(s, past, future);
      ReplayKeepsInv(s, past);
      WorksAppend(past, future, thread);
      NextJobIsAtHand(s, events, thread, job, todo, n);
      UndisturbedWorkerDecides(Replay(s, past), thread, todo[0], todo[1..], future);
      assert forall i | 0 < i < |todo| :: todo[i] == todo[1..][i - 1];
    }
  }

  lemma CompletesInside(s: State, events: seq<Event>, thread: nat, job: LeasedJob, todo: seq<LeasedJob>, n: nat)
    requires CompletesAt(s, events, thread, job, todo, n)
    ensures n < |events|
  {
  }

  lemma DoneIsSettled(s: State, events: seq<Event>, thread: nat, job: LeasedJob, todo: seq<LeasedJob>, n: nat)
    requires Inv(s) && CompletesAt(s, events, thread, job, todo, n)
    ensures Settled(Replay(s, events), job)
  {
    hide Inv, Replay, CompletesAt;
    DoneStays(s, events, thread, job, todo, n);
  }

  lemma NextJobIsAtHand(s: State, events: seq<Event>, thread: nat, job: LeasedJob, todo: seq<LeasedJob>, n: nat)
    requires CompletesAt(s, events, thread, job, todo, n) && todo != []
    ensures n < |events|
    ensures var after := Replay(s, events[..n + 1]);
            thread in after.threads && after.threads[thread] == Thread(FetchingRun(todo[0]), todo[1..])
  {
    hide Replay, IsDone;
  }

  // ---- Statements that fail ----

  /** A statement of the job that fails leaves the job to be marked as failed, and writes an outcome only when it is the
      write itself and took effect. */
  lemma FailedStatementStops(s: State, thread: nat, fault: Fault)
    requires thread in s.threads && fault != NoFault
    requires !s.threads[thread].task.Completing? && !s.threads[thread].task.Failing?
    ensures var task, s' := s.threads[thread].task, Apply(s, Work(thread, fault));
            && s' == s.(threads := s.threads[thread := Thread(Failing(task.job), s.threads[thread].todo)],
                        runs := if task.Persisting? && fault == Unacknowledged then s'.runs else s.runs)
  {
    hide PersistOutcome;
  }

  /** Marking a job gives it that status and goes on to the next job; when it fails the worker stops, and the job keeps
      its status unless the statement took effect. */
  lemma MarkingIsExact(s: State, thread: nat, fault: Fault)
    requires Inv(s) && thread in s.threads
    requires s.threads[thread].task.Completing? || s.threads[thread].task.Failing?
    ensures var task, s' := s.threads[thread].task, Apply(s, Work(thread, fault));
            var status := if task.Completing? then JobCompleted else JobFailed;
            && task.job.id in s.jobs && s'.runs == s.runs
            && s'.jobs == (if fault == Lost then s.jobs
                           else s.jobs[task.job.id := s.jobs[task.job.id].(status := status)])
            && (fault != NoFault ==> s'.threads.Keys == s.threads.Keys - {thread})
            && (fault == NoFault ==> s'.threads == NextJob(s.threads, thread))
  {
    hide RowsOk;
    assert ThreadOk(s, s.threads[thread]);
  }

  // ---- Requests ----

  /** The product is there for the tenant, and ready. */
  predicate Orderable(products: map<nat, Product>, tenant: nat, productId: nat) {
    && productId in products && products[productId].tenant == tenant && !products[productId].archived
    && products[productId].ready
  }

  predicate IsActivePack(row: PackRow, tenant: nat, jurisdiction: string) {
    row.status.Active? && row.tenant == tenant && row.jurisdiction == jurisdiction
  }

  /** The run is for the product, and made for an active pack of its jurisdiction, or blocked when there is none. */
  predicate Serves(s: State, run: RunRow, tenant: nat, productId: nat, jurisdiction: string) {
    && run.tenant == tenant && run.productId == productId
    && if exists p | p in s.catalogue.packs :: IsActivePack(s.catalogue.packs[p], tenant, jurisdiction) then
         run.rulePackId.Some? && run.rulePackId.value in s.catalogue.packs
           && IsActivePack(s.catalogue.packs[run.rulePackId.value], tenant, jurisdiction)
       else run.rulePackId.None? && run.status.Blocked?
  }

  predicate IsServed(s: State, tenant: nat, productId: nat, jurisdiction: string) {
    exists r | r in s.runs :: Serves(s, s.runs[r], tenant, productId, jurisdiction)
  }

  /** Every run made for a pack has a job. */
  predicate HasJob(jobs: map<nat, JobRow>, r: nat) {
    exists j | j in jobs :: jobs[j].runId == r
  }

  predicate RunsHaveJobs(s: State) {
    forall r | r in s.runs && s.runs[r].rulePackId.Some? :: HasJob(s.jobs, r)
  }

  /** Rows are only added. */
  ghost predicate Adds(s: State, s': State) {
    && s'.catalogue == s.catalogue && s'.products == s.products
    && (forall r | r in s.runs :: r in s'.runs && s'.runs[r] == s.runs[r])
    && forall j | j in s.jobs :: j in s'.jobs && s'.jobs[j] == s.jobs[j]
  }

  /** One product: it is refused exactly when it is not orderable; otherwise it is served. */
  lemma QueueProductServes(s: State, tenant: nat, productId: nat)
    requires Inv(s)
    ensures var r := QueueProduct(s, tenant, productId);
            if !Orderable(s.products, tenant, productId) then
              r.Err? && (r.error.ProductNotReady? <==> productId in s.products && s.products[productId].tenant == tenant
                                                       && !s.products[productId].archived)
            else
              r.Ok? && Adds(s, r.value) && IsServed(r.value, tenant, productId, s.products[productId].jurisdiction)
                && (RunsHaveJobs(s) ==> RunsHaveJobs(r.value))
  {
    hide Inv, FetchActivePack, RunsHaveJobs;
    if Orderable(s.products, tenant, productId) {
      var jurisdiction := s.products[productId].jurisdiction;
      ActivePackIsFetched(s.catalogue.packs, tenant, jurisdiction);
      var s' := QueueProduct(s, tenant, productId).value;
      var fetched := FetchActivePack(s.catalogue.packs, tenant, jurisdiction);
      IdsBelowNext(s);
      if fetched.Some? && s' == s {
        var r :| r in s.runs && IsExistingRun(s.runs[r], tenant, productId, fetched.value);
        assert Serves(s', s'.runs[r], tenant, productId, jurisdiction);
      } else {
        assert Serves(s', s'.runs[s.nextId], tenant, productId, jurisdiction);
      }
      if RunsHaveJobs(s) { JobsStay(s, s'); }
    }
  }

  lemma IdsBelowNext(s: State)
    requires Inv(s)
    ensures forall r | r in s.runs :: r < s.nextId
    ensures forall j | j in s.jobs :: j < s.nextId
  {
    hide RPP.Inv, RunOk, OneRunEach, OneJobEach, TaskOk;
    JobIdsBelowNext(s);
  }

  lemma JobsStay(s: State, s': State)
    requires RunsHaveJobs(s) && Adds(s, s')
    requires forall r | r in s'.runs && r !in s.runs && s'.runs[r].rulePackId.Some? ::
               r + 1 in s'.jobs && s'.jobs[r + 1].runId == r
    ensures RunsHaveJobs(s')
  {
    forall r | r in s'.runs && s'.runs[r].rulePackId.Some? ensures HasJob(s'.jobs, r) {
      if r in s.runs {
        var j :| j in s.jobs && s.jobs[j].runId == r;
        assert s'.jobs[j].runId == r;
      }
    }
  }

  lemma ActivePackIsFetched(packs: map<nat, PackRow>, tenant: nat, jurisdiction: string)
    ensures var fetched := FetchActivePack(packs, tenant, jurisdiction);
            if exists p | p in packs :: IsActivePack(packs[p], tenant, jurisdiction) then
              fetched.Some? && fetched.value in packs && IsActivePack(packs[fetched.value], tenant, jurisdiction)
            else fetched.None?
  {
    var ids, fetched := ActiveIds(packs, tenant, jurisdiction), FetchActivePack(packs, tenant, jurisdiction);
    if exists p | p in packs :: IsActivePack(packs[p], tenant, jurisdiction) {
      var p :| p in packs && IsActivePack(packs[p], tenant, jurisdiction);
      assert p in ids;
    }
  }

  /** A request is refused exactly for its first product that is not orderable; otherwise every product is served. */
  lemma {:induction false} RequestServesAll(s: State, tenant: nat, productIds: seq<nat>)
    requires Inv(s)
    ensures var r := QueueProducts(s, tenant, productIds);
            if exists i | 0 <= i < |productIds| :: !Orderable(s.products, tenant, productIds[i]) then r.Err?
            else
              && r.Ok? && Adds(s, r.value) && (RunsHaveJobs(s) ==> RunsHaveJobs(r.value))
              && forall i | 0 <= i < |productIds| ::
                   IsServed(r.value, tenant, productIds[i], s.products[productIds[i]].jurisdiction)
  {
    hide Inv, QueueProduct, IsServed, RunsHaveJobs;
    if productIds != [] {
      var m := |productIds| - 1;
      var front, last := QueueProducts(s, tenant, productIds[..m]), productIds[m];
      RequestServesAll(s, tenant, productIds[..m]);
      assert forall i | 0 <= i < m :: productIds[..m][i] == productIds[i];
      if front.Ok? {
        QueueProductsKeepInv(s, tenant, productIds[..m]);
        QueueProductServes(front.value, tenant, last);
        if Orderable(s.products, tenant, last) {
          var end := QueueProduct(front.value, tenant, last).value;
          forall i | 0 <= i < m ensures IsServed(end, tenant, productIds[i], s.products[productIds[i]].jurisdiction) {
            StillServed(front.value, end, tenant, productIds[i], s.products[productIds[i]].jurisdiction);
          }
        }
      }
    }
  }

  lemma StillServed(s: State, s': State, tenant: nat, productId: nat, jurisdiction: string)
    requires Adds(s, s') && IsServed(s, tenant, productId, jurisdiction)
    ensures IsServed(s', tenant, productId, jurisdiction)
  {
    var r :| r in s.runs && Serves(s, s.runs[r], tenant, productId, jurisdiction);
    assert Serves(s', s'.runs[r], tenant, productId, jurisdiction);
  }

  /** The whole request: it is accepted exactly for one to a hundred orderable products, and then serves all of them. */
  lemma RequestIsAnswered(s: State, tenant: nat, productIds: seq<nat>)
    requires Inv(s)
    ensures var r := RunClassifications(s, tenant, productIds);
            && (r.Ok? <==> 1 <= |productIds| <= 100 &&
                           forall i | 0 <= i < |productIds| :: Orderable(s.products, tenant, productIds[i]))
            && (r.Ok? ==> Adds(s, r.value) && forall i | 0 <= i < |productIds| ::
                            IsServed(r.value, tenant, productIds[i], s.products[productIds[i]].jurisdiction))
            && (r == Err(MissingProductIds) <==> productIds == [])
            && (r == Err(TooManyProducts) <==> |productIds| > 100)
  {
    hide Inv, Orderable, IsServed, Adds, QueueProduct;
    RequestServesAll(s, tenant, productIds);
    ErrorsAreOfProducts(s, tenant, productIds);
  }

  lemma {:induction false} ErrorsAreOfProducts(s: State, tenant: nat, productIds: seq<nat>)
    ensures var r := QueueProducts(s, tenant, productIds);
            r.Err? ==> r.error.ProductNotFound? || r.error.ProductNotReady?
  {
    hide FetchActivePack;
    if productIds != [] { ErrorsAreOfProducts(s, tenant, productIds[..|productIds| - 1]); }
  }

  lemma OtherEventsAddNoRun(s: State, event: Event)
    requires !event.Request?
    ensures Apply(s, event).runs.Keys == s.runs.Keys
  {
    hide AfterFetchRun, AfterFetchPack, Decided, TerminalStatus, MayPick, MaySelect, RPP.Apply;
  }

  lemma EventKeepsJobsOfRuns(s: State, event: Event)
    requires Inv(s) && RunsHaveJobs(s)
    ensures RunsHaveJobs(Apply(s, event))
  {
    hide Inv, Apply, QueueProducts, HasJob;
    if event.Request? {
      RequestKeepsJobs(s, event);
    } else {
      var s' := Apply(s, event);
      EventKeepsInv(s, event);
      OtherEventsAddNoRun(s, event);
      forall r | r in s'.runs && s'.runs[r].rulePackId.Some? ensures HasJob(s'.jobs, r) {
        assert RunKeeps(s.runs[r], s'.runs[r]);
        JobIsKept(s.jobs, s'.jobs, r);
      }
    }
  }

  lemma JobIsKept(jobs: map<nat, JobRow>, jobs': map<nat, JobRow>, r: nat)
    requires JobsGrow(jobs, jobs') && HasJob(jobs, r)
    ensures HasJob(jobs', r)
  {
    var j :| j in jobs && jobs[j].runId == r;
    assert jobs'[j].runId == r;
  }

  lemma RequestKeepsJobs(s: State, event: Event)
    requires Inv(s) && RunsHaveJobs(s) && event.Request?
    ensures RunsHaveJobs(Apply(s, event))
  {
    hide Inv, QueueProducts, RunsHaveJobs, Orderable, IsServed;
    RequestServesAll(s, event.tenant, event.productIds);
  }

  /** In every reachable state every run that was made for a pack has a job that carries it. */
  lemma {:induction false} EveryRunHasItsJob(events: seq<Event>)
    ensures RunsHaveJobs(After(events))
  {
    hide Inv, Apply;
    if events != [] {
      var m := |events| - 1;
      EveryRunHasItsJob(events[..m]);
      InitialIsGood();
      ReplayKeepsInv(INITIAL, events[..m]);
      EventKeepsJobsOfRuns(After(events[..m]), events[m]);
    }
  }

  // ---- From the queue to a decision ----

  /** Waiting, or leased by a worker whose lease has run out. */
  predicate IsFree(job: JobRow, now: int) {
    || job.status == JobQueued
    || (job.status == JobLeased && job.leasedUntil.Some? && job.leasedUntil.value < now)
  }

  /** A free job that no other transaction locks is leased, unless the limit is used up on jobs that come no later: of
      higher priority, or of the same and no younger. */
  lemma FreeJobIsLeased(jobs: map<nat, JobRow>, now: int, limit: nat, locked: set<nat>, picked: set<nat>, j: nat)
    requires MayPick(jobs, now, limit, locked, picked)
    requires j in jobs && j !in locked && IsFree(jobs[j], now)
    ensures picked <= jobs.Keys
    ensures j in picked || (|picked| == limit && forall p | p in picked ::
              jobs[p].priority > jobs[j].priority ||
              (jobs[p].priority == jobs[j].priority && jobs[p].createdAt <= jobs[j].createdAt))
  {
    var candidates := LeasableIds(jobs, now, locked);
    assert j in candidates;
    if j !in picked {
      StrictSubset(picked, candidates, j);
    }
  }

  lemma StrictSubset(a: set<nat>, b: set<nat>, x: nat)
    requires a <= b && x in b && x !in a
    ensures |a| < |b|
  {
    var rest := b - a;
    assert b == a + rest && x in rest;
    assert |b| == |a| + |rest|;
  }

  /** Only free jobs are leased, and no more than the limit. */
  lemma LeasedWasFree(jobs: map<nat, JobRow>, now: int, limit: nat, locked: set<nat>, picked: set<nat>, j: nat)
    requires MayPick(jobs, now, limit, locked, picked) && j in picked
    ensures j in jobs && j !in locked && IsFree(jobs[j], now) && |picked| <= limit
  {
    assert j in LeasableIds(jobs, now, locked);
  }

  /** The worker holds a lease that has not run out. */
  predicate IsHeld(job: JobRow, worker: string, now: int) {
    && job.status == JobLeased && job.leaseOwner == Some(worker)
    && job.leasedUntil.Some? && job.leasedUntil.value > now
  }

  /** A job the worker holds is selected, unless the limit is used up on leases taken no later. */
  lemma HeldJobIsSelected(jobs: map<nat, JobRow>, now: int, worker: string, limit: nat, chosen: seq<nat>, j: nat)
    requires MaySelect(jobs, now, worker, limit, chosen)
    requires j in jobs && IsHeld(jobs[j], worker, now)
    ensures forall i | 0 <= i < |chosen| :: chosen[i] in jobs
    ensures j in chosen || (|chosen| == limit && forall i | 0 <= i < |chosen| ::
                              jobs[chosen[i]].lockedAt.Or(0) <= jobs[j].lockedAt.Or(0))
  {
    var held := HeldIds(jobs, worker, now);
    assert j in held;
    if j !in chosen {
      var some := set i | 0 <= i < |chosen| :: chosen[i];
      SetOfDistinct(chosen);
      StrictSubset(some, held, j);
    }
  }

  /** Only jobs the worker holds are selected, each once, no more than the limit, those leased first coming first. */
  lemma SelectedAreHeld(jobs: map<nat, JobRow>, now: int, worker: string, limit: nat, chosen: seq<nat>)
    requires MaySelect(jobs, now, worker, limit, chosen)
    ensures |chosen| <= limit
    ensures forall i | 0 <= i < |chosen| :: chosen[i] in jobs && IsHeld(jobs[chosen[i]], worker, now)
    ensures forall i, j | 0 <= i < j < |chosen| ::
              chosen[i] != chosen[j] && jobs[chosen[i]].lockedAt.Or(0) <= jobs[chosen[j]].lockedAt.Or(0)
  {
    forall i | 0 <= i < |chosen| ensures chosen[i] in jobs && IsHeld(jobs[chosen[i]], worker, now) {
      assert chosen[i] in HeldIds(jobs, worker, now);
    }
  }

  lemma {:induction false} SetOfDistinct(s: seq<nat>)
    requires forall i, j | 0 <= i < j < |s| :: s[i] != s[j]
    ensures |set i | 0 <= i < |s| :: s[i]| == |s|
  {
    if s != [] {
      var m := |s| - 1;
      SetOfDistinct(s[..m]);
      var front := set i | 0 <= i < m :: s[..m][i];
      assert (set i | 0 <= i < |s| :: s[i]) == front + {s[m]};
      assert s[m] !in front;
    }
  }

  /** A worker tick with room for all jobs, whose statements succeed, decides the run of every free job: it leases them,
      selects them, and classifies one after the other, whatever happens in between. */
  lemma TickDecides(s: State, thread: nat, worker: string, limit: int, seconds: int, picked: set<nat>,
                    chosen: seq<nat>, events: seq<Event>, j: nat)
    requires Inv(s) && thread !in s.threads && j in s.jobs && IsFree(s.jobs[j], s.catalogue.now)
    requires limit > |s.jobs| && MayPick(s.jobs, s.catalogue.now, limit, {}, picked)
    requires var leased := Apply(s, Lease(worker, limit, seconds, {}, picked));
             MaySelect(leased.jobs, leased.catalogue.now, worker, limit, chosen)
    requires Undisturbed(events, thread) && Works(events, thread) >= 4 * |chosen|
    ensures var leased := Apply(s, Lease(worker, limit, seconds, {}, picked));
            var end := Replay(Apply(leased, SelectLeased(thread, worker, limit, chosen)), events);
            && s.jobs[j].runId in end.runs && TerminalStatus(end.runs[s.jobs[j].runId].status)
            && j in end.jobs && Closed(end.jobs[j].status)
  {
    hide Inv, Replay, IsOther, MaySelect, MayPick, Apply, Undisturbed, IsFree, IsHeld;
    var lease := Lease(worker, limit, seconds, {}, picked);
    var leased := Apply(s, lease);
    EventKeepsInv(s, lease);
    LeaseTakesAll(s, worker, limit, seconds, picked, j);
    HeldJobIsSelected(leased.jobs, leased.catalogue.now, worker, limit, chosen, j);
    AllChosen(leased.jobs, leased.catalogue.now, worker, limit, chosen);
    var i :| 0 <= i < |chosen| && chosen[i] == j;
    SelectedIsDecided(leased, thread, worker, limit, chosen, events, i);
  }

  /** A lease with room for all jobs takes every free one. */
  lemma LeaseTakesAll(s: State, worker: string, limit: int, seconds: int, picked: set<nat>, j: nat)
    requires j in s.jobs && IsFree(s.jobs[j], s.catalogue.now)
    requires limit > |s.jobs| && MayPick(s.jobs, s.catalogue.now, limit, {}, picked)
    ensures var leased := Apply(s, Lease(worker, limit, seconds, {}, picked));
            && |leased.jobs| == |s.jobs| && leased.threads == s.threads && leased.catalogue.now == s.catalogue.now
            && j in leased.jobs && leased.jobs[j].runId == s.jobs[j].runId
            && IsHeld(leased.jobs[j], worker, leased.catalogue.now)
  {
    hide MayPick, IsFree;
    var leased := Apply(s, Lease(worker, limit, seconds, {}, picked));
    FreeJobIsLeased(s.jobs, s.catalogue.now, limit, {}, picked, j);
    AllPicked(s.jobs, picked, limit);
    assert leased.jobs[j] == Leased(s.jobs[j], worker, s.catalogue.now, AtLeastOne(seconds));
    assert leased.jobs.Keys == s.jobs.Keys;
    SameCount(leased.jobs, s.jobs);
  }

  /** A worker decides the run of every job it has selected. */
  lemma SelectedIsDecided(s: State, thread: nat, worker: string, limit: int, chosen: seq<nat>, events: seq<Event>,
                          i: nat)
    requires Inv(s) && thread !in s.threads && limit > 0
    requires MaySelect(s.jobs, s.catalogue.now, worker, limit, chosen)
    requires i < |chosen| && chosen[i] in s.jobs
    requires Undisturbed(events, thread) && Works(events, thread) >= 4 * |chosen|
    ensures var j, end := chosen[i], Replay(Apply(s, SelectLeased(thread, worker, limit, chosen)), events);
            && s.jobs[j].runId in end.runs && TerminalStatus(end.runs[s.jobs[j].runId].status)
            && j in end.jobs && Closed(end.jobs[j].status)
  {
    hide Inv, Replay, IsOther, MaySelect, Rows, Undisturbed;
    ChosenExist(s.jobs, s.catalogue.now, worker, limit, chosen);
    var selected := SelectLeased(thread, worker, limit, chosen);
    var started := Apply(s, selected);
    EventKeepsInv(s, selected);
    var rows := Rows(s.jobs, chosen);
    RowAt(s.jobs, chosen, i);
    assert started.threads[thread] == Thread(FetchingRun(rows[0]), rows[1..]);
    UndisturbedWorkerDecides(started, thread, rows[0], rows[1..], events);
    assert i > 0 ==> rows[i] == rows[1..][i - 1];
  }

  lemma ChosenExist(jobs: map<nat, JobRow>, now: int, worker: string, limit: nat, chosen: seq<nat>)
    requires MaySelect(jobs, now, worker, limit, chosen)
    ensures forall k | 0 <= k < |chosen| :: chosen[k] in jobs
  {
  }

  lemma RowAt(jobs: map<nat, JobRow>, ids: seq<nat>, i: nat)
    requires forall k | 0 <= k < |ids| :: ids[k] in jobs
    requires i < |ids|
    ensures Rows(jobs, ids)[i] == Row(jobs, ids[i])
  {
  }

  lemma AllPicked(jobs: map<nat, JobRow>, picked: set<nat>, limit: nat)
    requires picked <= jobs.Keys && limit > |jobs|
    ensures |picked| < limit
  {
    SmallerSet(picked, jobs.Keys);
    assert |jobs.Keys| == |jobs|;
  }

  lemma AllChosen(jobs: map<nat, JobRow>, now: int, worker: string, limit: nat, chosen: seq<nat>)
    requires MaySelect(jobs, now, worker, limit, chosen) && limit > |jobs|
    ensures |chosen| < limit
  {
    var held := HeldIds(jobs, worker, now);
    SmallerSet(held, jobs.Keys);
    assert |jobs.Keys| == |jobs|;
  }

  lemma SameCount(a: map<nat, JobRow>, b: map<nat, JobRow>)
    requires a.Keys == b.Keys
    ensures |a| == |b|
  {
    assert |a.Keys| == |a| && |b.Keys| == |b|;
  }

  lemma SmallerSet(a: set<nat>, b: set<nat>)
    requires a <= b
    ensures |a| <= |b|
  {
    var rest := b - a;
    assert b == a + rest;
    assert |b| == |a| + |rest|;
  }
}
