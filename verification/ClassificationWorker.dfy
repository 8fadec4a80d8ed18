/** The workers and the request handlers as they run against the tables, with everything else in the system free to
    act between any two statements of a worker (src/jobs/lease.rs, src/classification/service.rs,
    src/classification/jobs.rs, src/app/classifications/queue.rs, src/app/rule_packs.rs,
    src/app/rule_packs/activation.rs). */
module ClassificationWorker {
  import opened Wrappers
  import opened Sequences
  import opened RuleEvaluation
  import opened RulePacks
  import RPP = RulePackProperties
  import opened ClassificationProtocol
  import opened ProtocolProperties
  import opened ProtocolProgress

  datatype DatabaseError = StatementFailed | RowNotFound
  datatype WorkerReport = WorkerReport(completed: nat, failed: nat)

  // ---- Lemmas about single steps ----

  lemma {:induction false} FailedPrefixFails(s: State, tenant: nat, productIds: seq<nat>, n: nat)
    requires n <= |productIds| && QueueProducts(s, tenant, productIds[..n]).Err?
    ensures QueueProducts(s, tenant, productIds) == QueueProducts(s, tenant, productIds[..n])
    decreases |productIds| - n
  {
    hide QueueProduct;
    if n < |productIds| {
      assert productIds[..n + 1][..n] == productIds[..n];
      FailedPrefixFails(s, tenant, productIds, n + 1);
    } else {
      assert productIds[..n] == productIds;
    }
  }

  /** The worker never meets a run without a rule pack. */
  lemma FetchedRunHasPack(s: State, thread: nat)
    requires Inv(s) && thread in s.threads && s.threads[thread].task.FetchingRun?
    ensures var job := s.threads[thread].task.job;
            job.runId in s.runs && s.runs[job.runId].rulePackId.Some? && job.payload.rulePackId.Some?
  {
    hide RowsOk, RunOk, FrozenEvaluation;
    var job := s.threads[thread].task.job;
    assert ThreadOk(s, s.threads[thread]);
    HeldPayloadIsFrozen(s, job);
  }

  /** No statement failed. */
  predicate NoneFailed(faults: seq<Fault>) {
    forall i | 0 <= i < |faults| :: faults[i].NoFault?
  }

  lemma OneMoreFault(faults: seq<Fault>, fault: Fault)
    ensures NoneFailed(faults + [fault]) <==> NoneFailed(faults) && fault.NoFault?
  {
    var longer := faults + [fault];
    assert forall i | 0 <= i < |faults| :: longer[i] == faults[i];
    assert longer[|faults|] == fault;
  }

  lemma MoreFaults(faults: seq<Fault>, more: seq<Fault>)
    ensures NoneFailed(faults + more) <==> NoneFailed(faults) && NoneFailed(more)
  {
    var longer := faults + more;
    assert forall i | 0 <= i < |faults| :: longer[i] == faults[i];
    assert forall i | 0 <= i < |more| :: longer[|faults| + i] == more[i];
  }

  /** The worker finds the run of its job, and the pack it needs. */
  lemma FetchedRowsExist(s: State, thread: nat)
    requires Inv(s) && thread in s.threads
    ensures var task := s.threads[thread].task;
            && task.job.runId in s.runs && s.runs[task.job.runId].tenant == task.job.tenant
            && s.runs[task.job.runId].productId == task.job.productId
            && (task.FetchingPack? ==> task.rulePackId in s.catalogue.packs
                                       && s.catalogue.packs[task.rulePackId].tenant == task.job.tenant)
  {
    hide RowsOk, RunOk, FrozenEvaluation, IsDecided;
    var job := s.threads[thread].task.job;
    assert ThreadOk(s, s.threads[thread]);
    HeldPayloadIsFrozen(s, job);
    HeldJobIsOk(s, job);
    RunPackIsThere(s.catalogue.packs, s.runs[job.runId]);
  }

  lemma RunPackIsThere(packs: map<nat, PackRow>, run: RunRow)
    requires RunOk(packs, run) && run.rulePackId.Some?
    ensures run.rulePackId.value in packs && packs[run.rulePackId.value].tenant == run.tenant
  {
    hide IsDecided;
  }

  lemma CompletingRunIsTerminal(s: State, thread: nat)
    requires Inv(s) && thread in s.threads && s.threads[thread].task.Completing?
    ensures var job := s.threads[thread].task.job;
            && job.id in s.jobs && s.jobs[job.id].runId == job.runId
            && job.runId in s.runs && TerminalStatus(s.runs[job.runId].status)
  {
    hide RowsOk, FrozenEvaluation;
    assert ThreadOk(s, s.threads[thread]);
  }

  /** The job is closed. */
  predicate Ended(s: State, j: nat) {
    j in s.jobs && Closed(s.jobs[j].status)
  }

  predicate Finished(s: State, j: nat) {
    j in s.jobs && s.jobs[j].runId in s.runs && TerminalStatus(s.runs[s.jobs[j].runId].status)
  }

  lemma HeldJobExists(s: State, thread: nat)
    requires Inv(s) && thread in s.threads
    ensures s.threads[thread].task.job.id in s.jobs
  {
    hide RowsOk, TaskOk;
    assert ThreadOk(s, s.threads[thread]);
  }

  predicate DistinctIds(rows: seq<LeasedJob>) {
    forall i, j | 0 <= i < j < |rows| :: rows[i].id != rows[j].id
  }

  function IdsOf(rows: seq<LeasedJob>): set<nat> {
    set i | 0 <= i < |rows| :: rows[i].id
  }

  lemma SelectedAreDistinct(jobs: map<nat, JobRow>, now: int, worker: string, limit: nat, rows: seq<LeasedJob>)
    requires MaySelect(jobs, now, worker, limit, seq(|rows|, i requires 0 <= i < |rows| => rows[i].id))
    ensures DistinctIds(rows)
  {
    var chosen := seq(|rows|, i requires 0 <= i < |rows| => rows[i].id);
    forall i, j | 0 <= i < j < |rows| ensures rows[i].id != rows[j].id {
      assert chosen[i] != chosen[j];
    }
  }

  lemma SomeIds(rows: seq<LeasedJob>, i: nat)
    requires i < |rows|
    ensures IdsOf(rows[..i]) <= IdsOf(rows)
  {
    forall id | id in IdsOf(rows[..i]) ensures id in IdsOf(rows) {
      var k :| 0 <= k < i && rows[..i][k].id == id;
      assert rows[k].id == id;
    }
  }

  lemma OneMoreId(rows: seq<LeasedJob>, i: nat)
    requires i < |rows| && DistinctIds(rows)
    ensures IdsOf(rows[..i + 1]) == IdsOf(rows[..i]) + {rows[i].id} && rows[i].id !in IdsOf(rows[..i])
  {
    var front, longer := rows[..i], rows[..i + 1];
    forall id ensures id in IdsOf(longer) <==> id in IdsOf(front) || id == rows[i].id {
      if id in IdsOf(front) {
        var k :| 0 <= k < i && front[k].id == id;
        assert longer[k].id == id;
      }
      assert longer[i] == rows[i];
    }
  }

  /** A closed job stays closed. */
  lemma EndedStays(start: State, past: seq<Event>, now: seq<Event>, j: nat)
    requires Inv(start) && past <= now && Ended(Replay(start, past), j)
    ensures Ended(Replay(start, now), j)
  {
    hide Inv, Replay;
    var later := now[|past|..];
    assert now == past + later;
    ReplayKeepsInv(start, past);
    ReplayAppend(start, past, later);
    ReplayKeepsInv(Replay(start, past), later);
  }

  /** A job whose run is terminal stays so. */
  lemma FinishedStays(start: State, past: seq<Event>, now: seq<Event>, j: nat)
    requires Inv(start) && past <= now && Finished(Replay(start, past), j)
    ensures Finished(Replay(start, now), j)
  {
    hide Inv, Replay, TerminalStatus;
    var later := now[|past|..];
    assert now == past + later;
    ReplayKeepsInv(start, past);
    ReplayKeepsInv(Replay(start, past), later);
    ReplayAppend(start, past, later);
    assert RunKeeps(Replay(start, past).runs[Replay(start, past).jobs[j].runId],
                    Replay(start, now).runs[Replay(start, past).jobs[j].runId]);
  }

  /** What the worker did so far still stands. */
  predicate Outcomes(s: State, completed: set<nat>, failed: set<nat>) {
    (forall j | j in completed + failed :: Ended(s, j)) && forall j | j in completed :: Finished(s, j)
  }

  /** The report counts each of the first `n` jobs once. */
  predicate Counted(rows: seq<LeasedJob>, n: nat, report: WorkerReport, completed: set<nat>, failed: set<nat>)
    requires n <= |rows|
  {
    report == WorkerReport(|completed|, |failed|) && completed !! failed && completed + failed == IdsOf(rows[..n])
  }

  lemma NothingCounted(s: State, rows: seq<LeasedJob>)
    ensures Counted(rows, 0, WorkerReport(0, 0), {}, {}) && Outcomes(s, {}, {})
  {
    assert rows[..0] == [];
  }

  lemma AllCounted(rows: seq<LeasedJob>, report: WorkerReport, completed: set<nat>, failed: set<nat>)
    requires Counted(rows, |rows|, report, completed, failed)
    ensures report == WorkerReport(|completed|, |failed|) && completed !! failed && completed + failed == IdsOf(rows)
  {
    assert rows[..|rows|] == rows;
  }

  lemma OutcomesAre(s: State, completed: set<nat>, failed: set<nat>)
    requires Outcomes(s, completed, failed)
    ensures forall j | j in completed + failed :: Ended(s, j)
    ensures forall j | j in completed :: Finished(s, j)
  {
  }

  lemma OutcomesStay(start: State, past: seq<Event>, now: seq<Event>, completed: set<nat>, failed: set<nat>)
    requires Inv(start) && past <= now && Outcomes(Replay(start, past), completed, failed)
    ensures Outcomes(Replay(start, now), completed, failed)
  {
    hide Inv, Replay, Finished, Ended;
    forall j | j in completed ensures Finished(Replay(start, now), j) {
      FinishedStays(start, past, now, j);
    }
    forall j | j in completed + failed ensures Ended(Replay(start, now), j) {
      EndedStays(start, past, now, j);
    }
  }

  lemma OneMoreOutcome(s: State, completed: set<nat>, failed: set<nat>, id: nat)
    requires Outcomes(s, completed, failed) && Ended(s, id)
    ensures Outcomes(s, completed, failed + {id}) && (Finished(s, id) ==> Outcomes(s, completed + {id}, failed))
  {
    hide Ended, Finished;
  }

  lemma OneMoreCounted(rows: seq<LeasedJob>, i: nat, report: WorkerReport, completed: set<nat>, failed: set<nat>)
    requires i < |rows| && DistinctIds(rows) && Counted(rows, i, report, completed, failed)
    ensures Counted(rows, i + 1, report.(completed := report.completed + 1), completed + {rows[i].id}, failed)
    ensures Counted(rows, i + 1, report.(failed := report.failed + 1), completed, failed + {rows[i].id})
    ensures completed !! failed && completed + failed <= IdsOf(rows)
  {
    hide IdsOf, DistinctIds;
    OneMoreId(rows, i);
    SomeIds(rows, i);
    OneMoreDone(completed, failed, rows[i].id);
    OneMoreDone(failed, completed, rows[i].id);
  }

  lemma OneMoreDone(done: set<nat>, others: set<nat>, id: nat)
    requires done !! others && id !in done + others
    ensures |done + {id}| == |done| + 1 && done + {id} !! others && done + {id} + others == done + others + {id}
    ensures others + (done + {id}) == done + others + {id}
  {
  }

  // ---- Picking rows ----

  /** Takes the best candidate `limit` times: `ORDER BY priority DESC, created_at ASC LIMIT`. */
  method PickJobs(jobs: map<nat, JobRow>, now: int, limit: nat, locked: set<nat>) returns (picked: set<nat>)
    ensures MayPick(jobs, now, limit, locked, picked)
  {
    var candidates := LeasableIds(jobs, now, locked);
    hide Leasable, LeasesBefore;
    var rest := candidates;
    picked := {};
    while |picked| < limit && rest != {}
      invariant picked !! rest && picked + rest == candidates
      invariant |picked| + |rest| == |candidates| && |picked| <= limit
      invariant forall p, q | p in picked && q in rest :: LeasesBefore(jobs[p], jobs[q])
      decreases rest
    {
      var best := FirstToLease(jobs, rest);
      picked, rest := picked + {best}, rest - {best};
    }
    assert candidates - picked == rest;
  }

  method FirstToLease(jobs: map<nat, JobRow>, ids: set<nat>) returns (best: nat)
    requires ids <= jobs.Keys && ids != {}
    ensures best in ids && forall q | q in ids :: LeasesBefore(jobs[best], jobs[q])
  {
    best :| best in ids;
    var rest := ids - {best};
    while rest != {}
      invariant rest <= ids && best in ids
      invariant forall q | q in ids - rest :: LeasesBefore(jobs[best], jobs[q])
      decreases rest
    {
      var q :| q in rest;
      if !LeasesBefore(jobs[best], jobs[q]) {
        best := q;
      }
      rest := rest - {q};
    }
  }

  /** Takes the oldest lock `limit` times: `ORDER BY locked_at ASC LIMIT`. */
  method OldestLocks(jobs: map<nat, JobRow>, now: int, worker: string, limit: nat) returns (chosen: seq<nat>)
    ensures MaySelect(jobs, now, worker, limit, chosen)
  {
    var held := HeldIds(jobs, worker, now);
    hide HeldBy;
    var rest := held;
    chosen := [];
    while |chosen| < limit && rest != {}
      invariant forall i | 0 <= i < |chosen| :: chosen[i] in held && chosen[i] !in rest
      invariant rest <= held && forall j | j in held - rest :: j in chosen
      invariant |chosen| + |rest| == |held| && |chosen| <= limit
      invariant forall i, j | 0 <= i < j < |chosen| ::
                  chosen[i] != chosen[j] && jobs[chosen[i]].lockedAt.Or(0) <= jobs[chosen[j]].lockedAt.Or(0)
      invariant forall i, j | 0 <= i < |chosen| && j in rest :: jobs[chosen[i]].lockedAt.Or(0) <= jobs[j].lockedAt.Or(0)
      decreases rest
    {
      var oldest := OldestLock(jobs, rest);
      chosen, rest := chosen + [oldest], rest - {oldest};
    }
  }

  method OldestLock(jobs: map<nat, JobRow>, ids: set<nat>) returns (oldest: nat)
    requires ids <= jobs.Keys && ids != {}
    ensures oldest in ids && forall q | q in ids :: jobs[oldest].lockedAt.Or(0) <= jobs[q].lockedAt.Or(0)
  {
    oldest :| oldest in ids;
    var rest := ids - {oldest};
    while rest != {}
      invariant rest <= ids && oldest in ids
      invariant forall q | q in ids - rest :: jobs[oldest].lockedAt.Or(0) <= jobs[q].lockedAt.Or(0)
      decreases rest
    {
      var q :| q in rest;
      if jobs[q].lockedAt.Or(0) < jobs[oldest].lockedAt.Or(0) {
        oldest := q;
      }
      rest := rest - {q};
    }
  }

  class Database {
    var catalogue: RPP.Catalogue
    var products: map<nat, Product>
    var runs: map<nat, RunRow>
    var jobs: map<nat, JobRow>
    var nextId: nat
    /** What each running worker holds between statements. */
    var threads: map<nat, Thread>

    ghost var start: State
    ghost var history: seq<Event>

    function View(): State
      reads this
    {
      State(catalogue, products, runs, jobs, threads, nextId)
    }

    /** The tables are in order, and got here from `start` by the events of `history`. */
    ghost predicate Valid()
      reads this
    {
      Inv(start) && Inv(View()) && View() == Replay(start, history)
    }

    twostate predicate Extends()
      reads this
    {
      start == old(start) && old(history) <= history
    }

    constructor ()
      ensures Valid() && View() == INITIAL && start == INITIAL && history == []
    {
      catalogue, products, runs, jobs, threads, nextId := RPP.EMPTY_CATALOGUE, map[], map[], map[], map[], 0;
      start, history := INITIAL, [];
      new;
      InitialIsGood();
    }

    /** Records one event that has just been carried out. */
    ghost method Record(before: State, event: Event)
      requires Inv(start) && Inv(before) && before == Replay(start, history) && View() == Apply(before, event)
      modifies this`history
      ensures history == old(history) + [event] && Valid()
    {
      hide Apply, Inv;
      EventKeepsInv(before, event);
      history := history + [event];
      assert history[..|history| - 1] == old(history);
    }

    /** Between two statements of a worker anything else may happen, any number of times. */
    method Interfere(thread: nat)
      requires Valid()
      modifies this
      ensures Valid() && Extends() && (thread in threads <==> thread in old(threads))
      ensures thread in threads ==> threads[thread] == old(threads[thread])
    {
      hide Inv, Replay, IsOther, Grows;
      var events: seq<Event> := *;
      var others := Filter((event: Event) => IsOther(event, thread), events);
      var s := Replay(View(), others);
      ReplayKeepsInv(View(), others);
      ReplayAppend(start, history, others);
      OthersLeaveThread(View(), others, thread);
      catalogue, products, runs, jobs, threads, nextId := s.catalogue, s.products, s.runs, s.jobs, s.threads, s.nextId;
      history := history + others;
    }

    // ---- Requests ----

    /** `handle` of the queue: one transaction over all products. */
    method RunClassifications(tenant: nat, productIds: seq<nat>) returns (error: Option<QueueError>)
      requires Valid()
      modifies this
      ensures Valid() && Extends()
      ensures View() == Apply(old(View()), Request(tenant, productIds))
      ensures var queued := ClassificationProtocol.RunClassifications(old(View()), tenant, productIds);
              error == if queued.Err? then Some(queued.error) else None
    {
      hide Inv, QueueProduct, Replay;
      ghost var before := View();
      if productIds == [] {
        Record(before, Request(tenant, productIds));
        return Some(MissingProductIds);
      }
      if |productIds| > 100 {
        Record(before, Request(tenant, productIds));
        return Some(TooManyProducts);
      }
      var tx := View();
      var i := 0;
      while i < |productIds|
        invariant 0 <= i <= |productIds|
        invariant QueueProducts(before, tenant, productIds[..i]) == Result.Ok(tx)
      {
        assert productIds[..i + 1][..i] == productIds[..i];
        var queued := QueueProduct(tx, tenant, productIds[i]);
        if queued.Err? {
          FailedPrefixFails(before, tenant, productIds, i + 1);
          Record(before, Request(tenant, productIds));
          return Some(queued.error);
        }
        tx := queued.value;
        i := i + 1;
      }
      assert productIds[..i] == productIds;
      QueueingKeepsThreads(before, tenant, productIds);
      catalogue, products, runs, jobs, nextId := tx.catalogue, tx.products, tx.runs, tx.jobs, tx.nextId;
      Record(before, Request(tenant, productIds));
      error := None;
    }

    /** `upload_rule_pack`: validate, then insert a draft row. */
    method UploadRulePack(upload: Upload) returns (error: Option<ApiError>)
      requires Valid()
      modifies this
      ensures Valid() && Extends()
      ensures View() == Apply(old(View()), OfPacks(RPP.UploadEvent(upload)))
      ensures var uploaded := UploadPack(old(catalogue.packs), old(catalogue.nextId), old(catalogue.now), upload);
              error == if uploaded.Err? then Some(uploaded.error) else None
    {
      hide Inv, Replay, ReportOf, ParseRulePack, Conflicts, NewRow, MetadataError;
      ghost var before := View();
      error := MetadataError(upload);
      if error.None? {
        var validated := ValidateSource(upload.source);
        if validated.None? {
          error := Some(InvalidSource);
        } else if !validated.value.1.valid {
          error := Some(ValidationFailed);
        } else {
          var row := NewRow(upload, validated.value.0, validated.value.1, catalogue.now);
          if Conflicts(catalogue.packs, row) {
            error := Some(Conflict);
          } else {
            catalogue := catalogue.(packs := catalogue.packs[catalogue.nextId := row], nextId := catalogue.nextId + 1);
          }
        }
      }
      Record(before, OfPacks(RPP.UploadEvent(upload)));
    }

    /** `validate_rule_pack`: validate the stored source again and write its report. */
    method ValidateRulePack(tenant: nat, id: nat) returns (error: Option<ApiError>)
      requires Valid()
      modifies this
      ensures Valid() && Extends()
      ensures View() == Apply(old(View()), OfPacks(RPP.RevalidateEvent(tenant, id)))
      ensures var validated := RevalidatePack(old(catalogue.packs), tenant, id);
              error == if validated.Err? then Some(validated.error) else None
    {
      hide Inv, Replay, ReportOf, ParseRulePack;
      ghost var before := View();
      if id !in catalogue.packs || catalogue.packs[id].tenant != tenant {
        error := Some(NotFound);
      } else {
        var row := catalogue.packs[id];
        var validated := ValidateSource(row.source);
        if validated.None? {
          error := Some(InvalidSource);
        } else {
          var report, count := validated.value.1, AsI32(validated.value.1.goldenCaseCount);
          if TriggerRejects(row, report, count) {
            error := Some(ActivePackImmutable);
          } else {
            catalogue := catalogue.(packs := catalogue.packs[id := row.(report := report, goldenCaseCount := count)]);
            error := None;
          }
        }
      }
      Record(before, OfPacks(RPP.RevalidateEvent(tenant, id)));
    }

    /** `activation::handle`: retire the others, then activate. */
    method ActivateRulePack(tenant: nat, id: nat) returns (error: Option<ApiError>)
      requires Valid()
      modifies this
      ensures Valid() && Extends()
      ensures View() == Apply(old(View()), OfPacks(RPP.ActivateEvent(tenant, id)))
      ensures var activated := ActivatePack(old(catalogue.packs), old(catalogue.now), tenant, id);
              error == if activated.Err? then Some(activated.error) else None
      ensures error.None? ==>
                id in catalogue.packs && ActiveIds(catalogue.packs, tenant, catalogue.packs[id].jurisdiction) == {id}
    {
      hide Inv, Replay, ActivationReportValid;
      ghost var before := View();
      var packs := catalogue.packs;
      if id !in packs || packs[id].tenant != tenant {
        error := Some(NotFound);
      } else if !ActivationReportValid(packs[id].report, packs[id].goldenCaseCount) {
        error := Some(ActivationBlocked);
      } else {
        packs := RetireActivePacks(packs, tenant, id, packs[id].jurisdiction);
        packs := packs[id := packs[id].(status := Active,
                                        activatedAt := Some(packs[id].activatedAt.Or(catalogue.now)))];
        catalogue := catalogue.(packs := packs);
        error := None;
      }
      Record(before, OfPacks(RPP.ActivateEvent(tenant, id)));
    }

    // ---- Leasing ----

    /** `lease_classification_jobs`, skipping the rows other transactions have locked. */
    method LeaseClassificationJobs(worker: string, limit: int, seconds: int, locked: set<nat>)
      returns (picked: set<nat>)
      requires Valid()
      modifies this
      ensures Valid() && Extends()
      ensures MayPick(old(jobs), old(catalogue.now), AtLeastOne(limit), locked, picked)
      ensures View() == Apply(old(View()), Lease(worker, limit, seconds, locked, picked))
    {
      hide Inv, Replay, MayPick;
      ghost var before := View();
      picked := PickJobs(jobs, catalogue.now, AtLeastOne(limit), locked);
      jobs := LeaseJobs(jobs, catalogue.now, worker, AtLeastOne(seconds), picked);
      Record(before, Lease(worker, limit, seconds, locked, picked));
    }

    // ---- The worker ----

    /** The classification part of `run_worker_tick`: lease, and classify when something was leased. */
    method RunWorkerTick(thread: nat, worker: string, limit: int, seconds: int, locked: set<nat>)
      returns (leased: set<nat>, report: Option<Result<WorkerReport, DatabaseError>>, ghost completed: set<nat>,
               ghost failed: set<nat>, ghost faults: seq<Fault>)
      requires Valid() && thread !in threads
      modifies this
      ensures Valid() && Extends() && thread !in threads
      ensures MayPick(old(jobs), old(catalogue.now), AtLeastOne(limit), locked, leased)
      ensures report.Some? <==> leased != {}
      ensures NoneFailed(faults) ==> failed == {} && (report.Some? ==> report.value.Ok?)
      ensures report.Some? && report.value.Ok? ==> report.value.value == WorkerReport(|completed|, |failed|)
      ensures completed !! failed && forall j | j in completed + failed :: Ended(View(), j)
      ensures forall j | j in completed :: Finished(View(), j)
    {
      hide Inv, Replay, MayPick, MaySelect, Finished, Ended;
      leased := LeaseClassificationJobs(worker, limit, seconds, locked);
      report, completed, failed, faults := None, {}, {}, [];
      if leased != {} {
        Interfere(thread);
        var r, selected, done, undone, lost := ClassifyQueuedProducts(thread, worker, limit);
        report, completed, failed, faults := Some(r), done, undone, lost;
      }
    }

    /** `classify_queued_products`: what it does to the tables is a run of the state machine. When it ends without an
        error, the selected jobs are those it completed and those it failed, each counted once and all closed, and the
        run of every job it completed is terminal. When no statement fails it completes them all. */
    method ClassifyQueuedProducts(thread: nat, worker: string, limit: int)
      returns (r: Result<WorkerReport, DatabaseError>, ghost selected: seq<LeasedJob>, ghost completed: set<nat>,
               ghost failed: set<nat>, ghost faults: seq<Fault>)
      requires Valid() && thread !in threads
      modifies this
      ensures Valid() && Extends() && thread !in threads
      ensures MaySelect(old(jobs), old(catalogue.now), worker, AtLeastOne(limit),
                        seq(|selected|, i requires 0 <= i < |selected| => selected[i].id))
      ensures completed !! failed && completed + failed <= IdsOf(selected)
      ensures r.Ok? ==> r.value == WorkerReport(|completed|, |failed|) && completed + failed == IdsOf(selected)
      ensures NoneFailed(faults) ==> r.Ok? && failed == {}
      ensures forall j | j in completed + failed :: Ended(View(), j)
      ensures forall j | j in completed :: Finished(View(), j)
    {
      hide Inv, Replay, MaySelect, Finished, Ended, IdsOf, DistinctIds, Counted, Outcomes;
      completed, failed, faults := {}, {}, [];
      var rows := SelectLeased(thread, worker, limit);
      selected := rows;
      SelectedAreDistinct(old(jobs), old(catalogue.now), worker, AtLeastOne(limit), rows);
      var report := WorkerReport(0, 0);
      NothingCounted(View(), rows);
      var i := 0;
      while i < |rows|
        invariant 0 <= i <= |rows| && Valid() && Extends()
        invariant if i == |rows| then thread !in threads
                  else thread in threads && threads[thread] == Thread(FetchingRun(rows[i]), rows[i + 1..])
        invariant Counted(rows, i, report, completed, failed) && Outcomes(View(), completed, failed)
        invariant NoneFailed(faults) ==> failed == {}
      {
        ghost var past := history;
        var done, lost := ClassifyJob(thread, rows[i]);
        MoreFaults(faults, lost);
        faults := faults + lost;
        OutcomesStay(start, past, history, completed, failed);
        OneMoreCounted(rows, i, report, completed, failed);
        if done.Err? {
          OutcomesAre(View(), completed, failed);
          return Err(done.error), selected, completed, failed, faults;
        }
        OneMoreOutcome(View(), completed, failed, rows[i].id);
        if done.value {
          completed := completed + {rows[i].id};
          report := report.(completed := report.completed + 1);
        } else {
          failed := failed + {rows[i].id};
          report := report.(failed := report.failed + 1);
        }
        i := i + 1;
      }
      AllCounted(rows, report, completed, failed);
      OutcomesAre(View(), completed, failed);
      r := Ok(report);
    }

    /** `leased_jobs`: the worker's unexpired leases, oldest lock first. */
    method SelectLeased(thread: nat, worker: string, limit: int) returns (rows: seq<LeasedJob>)
      requires Valid() && thread !in threads
      modifies this
      ensures Valid() && Extends()
      ensures MaySelect(old(jobs), old(catalogue.now), worker, AtLeastOne(limit),
                        seq(|rows|, i requires 0 <= i < |rows| => rows[i].id))
      ensures if rows == [] then thread !in threads
              else thread in threads && threads[thread] == Thread(FetchingRun(rows[0]), rows[1..])
    {
      hide Inv, Replay, HeldBy;
      ghost var before := View();
      var chosen := OldestLocks(jobs, catalogue.now, worker, AtLeastOne(limit));
      rows := Rows(jobs, chosen);
      assert chosen == seq(|rows|, i requires 0 <= i < |rows| => rows[i].id);
      if chosen != [] {
        threads := threads[thread := Thread(FetchingRun(rows[0]), rows[1..])];
      }
      Record(before, Event.SelectLeased(thread, worker, limit, chosen));
    }

    /** `classify_job`: true when the job was completed, which it is exactly when no statement fails, false when it
        failed, an error when it could not be marked. */
    method ClassifyJob(thread: nat, job: LeasedJob) returns (r: Result<bool, DatabaseError>, ghost faults: seq<Fault>)
      requires Valid() && thread in threads && threads[thread].task == FetchingRun(job)
      modifies this
      ensures Valid() && Extends()
      ensures if r.Err? || old(threads[thread].todo) == [] then thread !in threads
              else
                thread in threads &&
                threads[thread] == Thread(FetchingRun(old(threads[thread].todo)[0]), old(threads[thread].todo)[1..])
      ensures r.Ok? ==> job.id in jobs && jobs[job.id].status == (if r.value then JobCompleted else JobFailed)
      ensures r.Ok? ==> Ended(View(), job.id)
      ensures r == Ok(true) ==> Finished(View(), job.id)
      ensures r == Ok(true) <==> NoneFailed(faults)
    {
      hide Inv, Replay;
      var classified;
      classified, faults := ClassifyExistingRun(thread, job);
      Interfere(thread);
      var fault: Fault := *;
      if classified.Ok? {
        CompletingRunIsTerminal(View(), thread);
      }
      OneMoreFault(faults, fault);
      faults := faults + [fault];
      r := Mark(thread, job, classified.Ok?, fault);
    }

    /** `mark_job_completed` and `mark_job_failed`: by id, whoever holds the lease by now. */
    method Mark(thread: nat, job: LeasedJob, success: bool, fault: Fault) returns (r: Result<bool, DatabaseError>)
      requires Valid() && thread in threads
      requires threads[thread].task == if success then Completing(job) else Failing(job)
      modifies this
      ensures Valid() && Extends() && View() == WorkerStep(old(View()), thread, fault)
      ensures r == if fault.NoFault? then Ok(success) else Err(StatementFailed)
      ensures job.id in jobs && (r.Ok? ==> jobs[job.id].status == if success then JobCompleted else JobFailed)
    {
      hide Inv, Replay;
      ghost var before := View();
      HeldJobExists(before, thread);
      if !fault.Lost? {
        jobs := MarkJob(jobs, job.id, if success then JobCompleted else JobFailed);
      }
      threads := if fault.NoFault? then NextJob(threads, thread) else Dropped(threads, thread);
      Record(before, Work(thread, fault));
      r := if fault.NoFault? then Ok(success) else Err(StatementFailed);
    }

    /** `classify_existing_run`: read the run, read the pack, evaluate, write the outcome under the status guard. It
        succeeds exactly when no statement fails, and then the run is decided. */
    method ClassifyExistingRun(thread: nat, job: LeasedJob)
      returns (r: Result<(), DatabaseError>, ghost faults: seq<Fault>)
      requires Valid() && thread in threads && threads[thread].task == FetchingRun(job)
      modifies this
      ensures Valid() && Extends() && thread in threads
      ensures threads[thread] == Thread(if r.Ok? then Completing(job) else Failing(job), old(threads[thread].todo))
      ensures r.Ok? <==> NoneFailed(faults)
      ensures r.Ok? ==> job.runId in runs && TerminalStatus(runs[job.runId].status)
    {
      hide Inv, Replay, Evaluate, TerminalStatus, PayloadJson, PersistOutcome, MarkJob;
      Interfere(thread);
      var fault: Fault := *;
      faults := [fault];
      assert faults[0] == fault;
      FetchedRunHasPack(View(), thread);
      FetchedRowsExist(View(), thread);
      var run := FetchRun(job, fault);
      if run.Err? {
        Advance(thread, fault, Failing(job));
        return Err(run.error), faults;
      }
      if TerminalStatus(run.value.status) {
        Advance(thread, fault, Completing(job));
        return Ok(()), faults;
      }
      var snapshot := PayloadSnapshot(job.payload, run.value);
      var packId := PayloadRulePackId(job.payload, run.value).value;
      Advance(thread, fault, FetchingPack(job, snapshot, packId));
      ghost var lost;
      r, lost := EvaluateAndPersist(thread, job, snapshot, packId);
      MoreFaults(faults, lost);
      faults := faults + lost;
    }

    /** The rest of `classify_existing_run`, from reading the pack on. Evaluating a stored pack never fails
        (`PayloadIsEvaluated`), so that the error of the evaluation does not arise. */
    method EvaluateAndPersist(thread: nat, job: LeasedJob, snapshot: Snapshot, packId: nat)
      returns (r: Result<(), DatabaseError>, ghost faults: seq<Fault>)
      requires Valid() && thread in threads && threads[thread].task == FetchingPack(job, snapshot, packId)
      modifies this
      ensures Valid() && Extends() && thread in threads
      ensures threads[thread] == Thread(if r.Ok? then Completing(job) else Failing(job), old(threads[thread].todo))
      ensures r.Ok? <==> NoneFailed(faults)
      ensures r.Ok? ==> job.runId in runs && TerminalStatus(runs[job.runId].status)
    {
      hide Inv, Replay, Evaluate, TerminalStatus, PayloadJson, PersistOutcome, MarkJob, Classify;
      Interfere(thread);
      var fault: Fault := *;
      faults := [fault];
      assert faults[0] == fault;
      FetchedRowsExist(View(), thread);
      var pack := FetchPack(job.tenant, packId, fault);
      if pack.Err? {
        Advance(thread, fault, Failing(job));
        return Err(pack.error), faults;
      }
      var result := EvaluateJson(PRODUCTION_RUNTIME, PayloadJson(pack.value.document), snapshot.json);
      PayloadIsEvaluated(pack.value.document, snapshot.json);
      Advance(thread, fault, Persisting(job, packId, pack.value.version, snapshot, result.value));
      Interfere(thread);
      fault := *;
      OneMoreFault(faults, fault);
      faults := faults + [fault];
      r := PersistRunOutcome(thread, job, packId, pack.value.version, snapshot, result.value, fault);
      if r.Ok? { CompletingRunIsTerminal(View(), thread); }
    }

    method FetchRun(job: LeasedJob, fault: Fault) returns (r: Result<RunRow, DatabaseError>)
      ensures r == if !fault.NoFault? then Err(StatementFailed)
                   else if job.runId in runs && runs[job.runId].tenant == job.tenant
                     && runs[job.runId].productId == job.productId
                        then Ok(runs[job.runId]) else Err(RowNotFound)
    {
      if !fault.NoFault? {
        return Err(StatementFailed);
      }
      if job.runId in runs && runs[job.runId].tenant == job.tenant && runs[job.runId].productId == job.productId {
        return Ok(runs[job.runId]);
      }
      r := Err(RowNotFound);
    }

    method FetchPack(tenant: nat, packId: nat, fault: Fault) returns (r: Result<PackRow, DatabaseError>)
      ensures r == if !fault.NoFault? then Err(StatementFailed)
                   else if packId in catalogue.packs && catalogue.packs[packId].tenant == tenant
                        then Ok(catalogue.packs[packId]) else Err(RowNotFound)
    {
      if !fault.NoFault? {
        return Err(StatementFailed);
      }
      if packId in catalogue.packs && catalogue.packs[packId].tenant == tenant {
        return Ok(catalogue.packs[packId]);
      }
      r := Err(RowNotFound);
    }

    /** `persist_run_outcome` */
    method PersistRunOutcome(thread: nat, job: LeasedJob, packId: nat, version: string, snapshot: Snapshot,
                             result: Classification, fault: Fault) returns (r: Result<(), DatabaseError>)
      requires Valid() && thread in threads
               && threads[thread].task == Persisting(job, packId, version, snapshot, result)
      modifies this
      ensures Valid() && Extends() && View() == WorkerStep(old(View()), thread, fault)
      ensures thread in threads
      ensures threads[thread] == Thread(if r.Ok? then Completing(job) else Failing(job), old(threads[thread].todo))
      ensures r.Ok? <==> fault.NoFault?
    {
      hide Inv, Replay, Decided;
      ghost var before := View();
      if !fault.Lost? && job.runId in runs && runs[job.runId].tenant == job.tenant
        && !TerminalStatus(runs[job.runId].status) {
        runs := runs[job.runId := Decided(runs[job.runId], packId, version, snapshot, result)];
      }
      threads := threads[thread := threads[thread].(task := if fault.NoFault? then Completing(job) else Failing(job))];
      Record(before, Work(thread, fault));
      r := if fault.NoFault? then Ok(()) else Err(StatementFailed);
    }

    /** The worker goes on to `next`, which is where the state machine takes it. */
    method Advance(thread: nat, fault: Fault, next: Task)
      requires Valid() && thread in threads
      requires SetTask(View(), thread, next) == WorkerStep(View(), thread, fault)
      modifies this
      ensures Valid() && Extends() && View() == WorkerStep(old(View()), thread, fault)
      ensures thread in threads && threads[thread] == Thread(next, old(threads[thread].todo))
    {
      hide Inv, Replay, WorkerStep;
      ghost var before := View();
      threads := threads[thread := threads[thread].(task := next)];
      Record(before, Work(thread, fault));
    }
  }
}
