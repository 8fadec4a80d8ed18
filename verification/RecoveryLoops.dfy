/** The bounded recovery loops against arbitrary agents (tools/klevar-yolo-runtime/src/runtime.ts:726-814 and 881-945,
    tools/klevar-yolo-runtime/src/adjudication.ts, tools/klevar-yolo-runtime/src/gate-findings.ts:25-60,
    tools/klevar-yolo-runtime/src/validators/index.ts:81-83). */
module RecoveryLoops {
  import opened Wrappers
  import opened Sequences
  import opened Text
  import opened FlagClassification
  import opened FindingState
  import opened RuntimeTypes
  import opened RecoverySignatures

  // ---- Gates ----

  predicate GatePasses(gate: GateResult) {
    && (forall i | 0 <= i < |gate.flags| :: !IsBlockingFlag(gate.flags[i]))
    && (gate.passed ||
        forall i | 0 <= i < |gate.flags| :: IsWarningFlag(gate.flags[i], gate.name) || IsPositiveFlag(gate.flags[i]))
  }

  predicate GatesPassed(gates: seq<GateResult>) {
    forall i | 0 <= i < |gates| :: GatePasses(gates[i])
  }

  function GateFlags(gates: seq<GateResult>): seq<string> {
    if gates == [] then [] else GateFlags(gates[..|gates| - 1]) + gates[|gates| - 1].flags
  }

  // ---- Adjudication ----

  datatype Severity = HardFail | Ambiguous | Warning | Pass

  datatype GateFindingReport = GateFindingReport(hardFailures: seq<string>, ambiguities: seq<string>,
                                                 warnings: seq<string>)

  predicate IsFrontendRecoveryCode(code: string) {
    code in ["IMPECCABLE_DETECTOR_FINDINGS", "IMPECCABLE_DETECTOR_FAILED", "IMPECCABLE_DETECTOR_NOT_CONFIGURED",
             "MISSING_PRODUCT_CONTEXT", "MISSING_DESIGN_CONTEXT", "MISSING_FRONTEND_IMPECCABLE_AUDIT_PASS",
             "MISSING_FRONTEND_IMPECCABLE_POLISH_PASS", "FRONTEND_IMPECCABLE_BLOCKING_FINDINGS"]
  }

  /** `/:e2e:(?:not run|not applicable|skipped|N\/A)\b/i` */
  predicate SkipsE2e(flag: string) {
    var notes := [":E2E:NOT RUN", ":E2E:NOT APPLICABLE", ":E2E:SKIPPED", ":E2E:N/A"];
    exists i, n | 0 <= i < |flag| && 0 <= n < |notes| :: EndsWordAt(Upper(flag), notes[n], i)
  }

  predicate EndsWordAt(text: string, note: string, i: nat) {
    OccursAt(text, note, i) && (i + |note| == |text| || !IsWordChar(text[i + |note|]))
  }

  function SeverityFor(gate: string, flag: string): Severity {
    var code := FlagCode(flag);
    if IsWarningFlag(flag, gate) then Warning
    else if IsPositiveFlag(flag) then Pass
    else if IsFrontendRecoveryCode(code) then HardFail
    else if code in ["INVALID_FLAGS_SHAPE", "INVALID_LOCAL_ONLY_FILES_SHAPE", "INVALID_ARTIFACTS_SHAPE"] then Ambiguous
    else if code == "COMMAND_RERUN_FAILED" && SkipsE2e(flag) then Ambiguous
    else if code in ["INVALID_FILES_CHANGED_SHAPE", "INVALID_ITEMS_COMPLETED_SHAPE"] then Ambiguous
    else HardFail
  }

  function OfSeverity(gates: seq<GateResult>, severity: Severity): seq<string> {
    if gates == [] then []
    else
      var gate := gates[|gates| - 1];
      OfSeverity(gates[..|gates| - 1], severity)
        + Filter((flag: string) => SeverityFor(gate.name, flag) == severity, gate.flags)
  }

  function GateFlagsOf(gate: GateResult, severity: Severity, flags: seq<string>): seq<string> {
    Filter((flag: string) => SeverityFor(gate.name, flag) == severity, flags)
  }

  /** `classifyGateFindings` */
  method ClassifyGateFindings(gates: seq<GateResult>) returns (report: GateFindingReport)
    ensures report == GateFindingReport(OfSeverity(gates, HardFail), OfSeverity(gates, Ambiguous),
                                        OfSeverity(gates, Warning))
  {
    hide SeverityFor;
    report := GateFindingReport([], [], []);
    for n := 0 to |gates|
      invariant report == GateFindingReport(OfSeverity(gates[..n], HardFail), OfSeverity(gates[..n], Ambiguous),
                                            OfSeverity(gates[..n], Warning))
    {
      assert gates[..n + 1][..n] == gates[..n];
      report := ClassifyGate(gates[n], report);
    }
    assert gates[..|gates|] == gates;
  }

  /** The inner loop: pushes each flag of one gate into the report. */
  method ClassifyGate(gate: GateResult, report: GateFindingReport) returns (next: GateFindingReport)
    ensures next.hardFailures == report.hardFailures + GateFlagsOf(gate, HardFail, gate.flags)
    ensures next.ambiguities == report.ambiguities + GateFlagsOf(gate, Ambiguous, gate.flags)
    ensures next.warnings == report.warnings + GateFlagsOf(gate, Warning, gate.flags)
  {
    hide SeverityFor;
    next := report;
    assert GateFlagsOf(gate, HardFail, []) == [] && GateFlagsOf(gate, Ambiguous, []) == []
      && GateFlagsOf(gate, Warning, []) == [];
    hide GateFlagsOf;
    for m := 0 to |gate.flags|
      invariant next.hardFailures == report.hardFailures + GateFlagsOf(gate, HardFail, gate.flags[..m])
      invariant next.ambiguities == report.ambiguities + GateFlagsOf(gate, Ambiguous, gate.flags[..m])
      invariant next.warnings == report.warnings + GateFlagsOf(gate, Warning, gate.flags[..m])
    {
      var flag := gate.flags[m];
      assert gate.flags[..m + 1] == gate.flags[..m] + [flag];
      OneMoreFlag(gate, HardFail, gate.flags[..m], flag);
      OneMoreFlag(gate, Ambiguous, gate.flags[..m], flag);
      OneMoreFlag(gate, Warning, gate.flags[..m], flag);
      match SeverityFor(gate.name, flag)
      case HardFail => next := next.(hardFailures := next.hardFailures + [flag]);
      case Ambiguous => next := next.(ambiguities := next.ambiguities + [flag]);
      case Warning => next := next.(warnings := next.warnings + [flag]);
      case Pass =>
    }
    assert gate.flags[..|gate.flags|] == gate.flags;
  }

  lemma OneMoreFlag(gate: GateResult, severity: Severity, flags: seq<string>, flag: string)
    ensures GateFlagsOf(gate, severity, flags + [flag]) ==
            GateFlagsOf(gate, severity, flags) + (if SeverityFor(gate.name, flag) == severity then [flag] else [])
  {
    hide SeverityFor;
    FilterAppend((flag: string) => SeverityFor(gate.name, flag) == severity, flags, [flag]);
  }

  predicate AdjudicationAllowed(gates: seq<GateResult>) {
    OfSeverity(gates, HardFail) == [] && OfSeverity(gates, Ambiguous) != []
  }

  datatype Decided = Accept | AcceptWithWarnings | RequireBugfix | EscalateToUser

  datatype Adjudication = Adjudication(status: string, decision: Decided, requiresBugfix: bool, requiresHuman: bool)

  predicate AdjudicationAccepted(a: Adjudication) {
    a.status == "SUCCESS" && (a.decision.Accept? || a.decision.AcceptWithWarnings?) && !a.requiresBugfix
      && !a.requiresHuman
  }

  predicate AdjudicationNeedsBugfix(a: Adjudication) {
    a.status == "SUCCESS" && (a.decision.RequireBugfix? || a.requiresBugfix)
  }

  predicate AdjudicationNeedsHuman(a: Adjudication) {
    a.status != "SUCCESS" || a.decision.EscalateToUser? || a.requiresHuman
  }

  datatype Verdict = VerdictAccepted | BugfixNeeded | HumanNeeded | NoVerdict

  /** `adjudicateIfPossible`: the file that is there already, or else the one the agent writes. */
  function Adjudicate(gates: seq<GateResult>, existing: Option<Adjudication>, written: Option<Adjudication>): Verdict {
    if !AdjudicationAllowed(gates) then NoVerdict
    else if existing.Some? && AdjudicationAccepted(existing.value) then VerdictAccepted
    else if existing.Some? && AdjudicationNeedsBugfix(existing.value) then BugfixNeeded
    else if existing.Some? && AdjudicationNeedsHuman(existing.value) then HumanNeeded
    else if written.None? then NoVerdict
    else if AdjudicationAccepted(written.value) then VerdictAccepted
    else if AdjudicationNeedsBugfix(written.value) then BugfixNeeded
    else HumanNeeded
  }

  // ---- Budgets ----

  datatype Budget = Budget(signature: string, attemptForSignature: nat, total: nat, owned: map<string, int>)

  datatype Decision = StopRuntimeOwned | StopPoisoned | OutOfAttempts | Go(budget: Budget)

  /** The head of both loops: stop, give up, or spend one attempt on the current signature. */
  function Decide(budget: Budget, flags: seq<string>, failureType: Option<string>, attempts: nat): Decision {
    var next := FailureSignature(flags, failureType);
    if IsRuntimeOwnedRecoverySignature(next) then StopRuntimeOwned
    else
      var b := if next != budget.signature then budget.(signature := next, attemptForSignature := 0) else budget;
      var runtimeOwned := IsRuntimeOwnedRecoverySignature(b.signature);
      var previous := if b.signature in b.owned then b.owned[b.signature] else 0;
      if b.attemptForSignature >= attempts || (runtimeOwned && previous >= attempts) then
        if IsPoisoned(b.signature, flags, failureType) then StopPoisoned else OutOfAttempts
      else
        Go(b.(attemptForSignature := b.attemptForSignature + 1, total := b.total + 1,
              owned := if runtimeOwned then b.owned[b.signature := previous + 1] else b.owned))
  }

  function Attempts(maxBugfixAttempts: Option<int>): (r: nat)
    ensures r >= 1
  {
    if maxBugfixAttempts.Or(1) < 1 then 1 else maxBugfixAttempts.Or(1)
  }

  // ---- What agents and validators answer after one dispatch ----

  /** The bugfix result and its contract gate, the merged and imported result with the gates and findings of its
      validation, the adjudication files, and the second adversarial validation. */
  datatype Round = Round(bugfix: BatchResult, contract: GateResult, recovered: BatchResult, gates: seq<GateResult>,
                         state: BatchState,
                         existing: Option<Adjudication>, written: Option<Adjudication>, validation: BatchResult,
                         validationContract: GateResult, excused: bool)

  datatype Turn =
    | Continue(flags: seq<string>, failureType: Option<string>)
    | Return(result: BatchResult)
    | Poisoned
    | AskHuman

  function Ids(findings: seq<Finding>): seq<string> {
    Map((f: Finding) => f.id, findings)
  }

  predicate BugfixAccepted(round: Round) {
    round.contract.passed && round.bugfix.status == "SUCCESS"
  }

  function BugfixFlags(round: Round): seq<string> {
    round.contract.flags + round.bugfix.flags + [round.bugfix.failureType.Or("BUGFIX_RECOVERY_FAILED")]
  }

  /** The rest of an iteration of `recoverGateFailure`. */
  function GateTurn(round: Round, signature: string): Turn {
    if !BugfixAccepted(round) then Continue(BugfixFlags(round), Some(GATES_REJECTED))
    else
      var passed, open := GatesPassed(round.gates), BlockingOpenFindings(round.state);
      if passed && open == [] then Return(round.recovered)
      else
        var verdict := if !passed then Adjudicate(round.gates, round.existing, round.written) else NoVerdict;
        var flags := if passed then Ids(open) else GateFlags(round.gates);
        if verdict.VerdictAccepted? then Return(round.recovered)
        else if IsPoisoned(signature, flags, Some(GATES_REJECTED)) then Poisoned
        else if verdict.HumanNeeded? then AskHuman
        else Continue(flags, Some(GATES_REJECTED))
  }

  /** The rest of an iteration of `validateAdversarial`. */
  function AdversarialTurn(round: Round, signature: string): Turn {
    if !BugfixAccepted(round) then Continue(BugfixFlags(round), Some("BUGFIX_RESULT_INVALID"))
    else if !GatesPassed(round.gates) then
      match Adjudicate(round.gates, round.existing, round.written)
      case VerdictAccepted => Return(round.recovered)
      case HumanNeeded => AskHuman
      case _ => Continue(GateFlags(round.gates), Some("RUNTIME_GATES_REJECTED_AFTER_VALIDATION_BUGFIX"))
    else
      var validation := round.validation;
      if round.validationContract.passed
        && (validation.status == "SUCCESS" || (validation.status == "FAILURE" && round.excused))
      then Return(round.recovered)
      else
        var flags := round.validationContract.flags + validation.flags
          + [validation.failureType.Or("VALIDATOR_REJECTED_AFTER_BUGFIX")];
        if IsPoisoned(signature, flags, validation.failureType) then Poisoned
          else Continue(flags, validation.failureType)
  }

  // ---- The loops ----

  datatype Dispatch = Dispatch(signature: string, flags: seq<string>)

  datatype LoopEnd =
    | NonRecoverable | RuntimeOwned | PoisonedLoop | NeedsHuman
    | Exhausted(flags: seq<string>)
    | Recovered(result: BatchResult)

  datatype LoopRun = LoopRun(end: LoopEnd, dispatches: seq<Dispatch>)

  predicate HasNonRecoverableRuntimeBlocker(flags: seq<string>) {
    exists i | 0 <= i < |flags| :: IsNonRecoverableRuntimeFlag(flags[i])
  }

  /** A turn of the gate loop, or of the adversarial loop. */
  function TurnOf(adversarial: bool, round: Round, signature: string): Turn {
    if adversarial then AdversarialTurn(round, signature) else GateTurn(round, signature)
  }

  /** Both loops from an iteration on. The adversarial one looks for non-recoverable blockers every time. */
  function Loop(budget: Budget, flags: seq<string>, failureType: Option<string>, answers: nat -> Round, attempts: nat,
                adversarial: bool): LoopRun
    decreases 4 * attempts - budget.total
  {
    if budget.total >= 4 * attempts then LoopRun(Exhausted(flags), [])
    else if adversarial && HasNonRecoverableRuntimeBlocker(flags) then LoopRun(NonRecoverable, [])
    else
      match Decide(budget, flags, failureType, attempts)
      case StopRuntimeOwned => LoopRun(RuntimeOwned, [])
      case StopPoisoned => LoopRun(PoisonedLoop, [])
      case OutOfAttempts => LoopRun(Exhausted(flags), [])
      case Go(next) =>
        var dispatch := Dispatch(next.signature, BlockingRecoveryFlags(flags, failureType));
        match TurnOf(adversarial, answers(budget.total), next.signature)
        case Continue(flags', failureType') =>
          var rest := Loop(next, flags', failureType', answers, attempts, adversarial);
          rest.(dispatches := [dispatch] + rest.dispatches)
        case Return(result) => LoopRun(Recovered(result), [dispatch])
        case Poisoned => LoopRun(PoisonedLoop, [dispatch])
        case AskHuman => LoopRun(NeedsHuman, [dispatch])
  }

  function Fresh(flags: seq<string>, failureType: Option<string>): Budget {
    Budget(FailureSignature(flags, failureType), 0, 0, map[])
  }

  predicate RequiresHumanSecurityApproval(flags: seq<string>) {
    exists i | 0 <= i < |flags| :: NeedsSecurityApproval(flags[i])
  }

  predicate NeedsSecurityApproval(flag: string) {
    StartsWithAny(flag, ["EXTERNAL_MUTATION_NOT_ALLOWED:", "EXTERNAL_MUTATION_COMMAND_NOT_ALLOWED:",
                         "EXTERNAL_MUTATION_EVIDENCE_NOT_ALLOWED:"])
  }

  function GateRecovery(flags: seq<string>, maxBugfixAttempts: Option<int>, answers: nat -> Round): LoopRun {
    if RequiresHumanSecurityApproval(flags) || HasNonRecoverableRuntimeBlocker(flags) then LoopRun(NonRecoverable, [])
    else Loop(Fresh(flags, Some(GATES_REJECTED)), flags, Some(GATES_REJECTED), answers, Attempts(maxBugfixAttempts),
              false)
  }

  function AdversarialValidation(implementation: BatchResult, validation: BatchResult, contract: GateResult,
                                 maxBugfixAttempts: Option<int>, answers: nat -> Round): LoopRun {
    if contract.passed && validation.status == "SUCCESS" then LoopRun(Recovered(implementation), [])
    else
      var flags := contract.flags + validation.flags + [validation.failureType.Or("VALIDATOR_REJECTED")];
      Loop(Fresh(flags, validation.failureType), flags, validation.failureType, answers, Attempts(maxBugfixAttempts),
           true)
  }

  /** `recoverGateFailure`; `answers(n)` is what the n-th dispatch brings. */
  method RecoverGateFailure(flags: seq<string>, maxBugfixAttempts: Option<int>, answers: nat -> Round)
    returns (result: Option<BatchResult>, run: LoopRun)
    ensures run == GateRecovery(flags, maxBugfixAttempts, answers)
    ensures result == if run.end.Recovered? then Some(run.end.result) else None
  {
    hide Decide, GateTurn, FailureSignature;
    if RequiresHumanSecurityApproval(flags) || HasNonRecoverableRuntimeBlocker(flags) {
      return None, LoopRun(NonRecoverable, []);
    }
    result, run := RunLoop(flags, Some(GATES_REJECTED), Attempts(maxBugfixAttempts), answers, false);
  }

  /** `validateAdversarial`, from the first validation on. */
  method ValidateAdversarial(implementation: BatchResult, validation: BatchResult, contract: GateResult,
                             maxBugfixAttempts: Option<int>, answers: nat -> Round)
    returns (result: Option<BatchResult>, run: LoopRun)
    ensures run == AdversarialValidation(implementation, validation, contract, maxBugfixAttempts, answers)
    ensures result == if run.end.Recovered? then Some(run.end.result) else None
  {
    hide Loop;
    if contract.passed && validation.status == "SUCCESS" {
      return Some(implementation), LoopRun(Recovered(implementation), []);
    }
    var flags := contract.flags + validation.flags + [validation.failureType.Or("VALIDATOR_REJECTED")];
    result, run := RunLoop(flags, validation.failureType, Attempts(maxBugfixAttempts), answers, true);
  }

  /** The `while` loop the two functions share. */
  method RunLoop(flags: seq<string>, failureType: Option<string>, attempts: nat, answers: nat -> Round,
                 adversarial: bool)
    returns (result: Option<BatchResult>, run: LoopRun)
    ensures run == Loop(Fresh(flags, failureType), flags, failureType, answers, attempts, adversarial)
    ensures result == if run.end.Recovered? then Some(run.end.result) else None
  {
    hide FailureSignature, HasNonRecoverableRuntimeBlocker, IsRuntimeOwnedRecoverySignature, IsPoisoned, TurnOf,
      BlockingRecoveryFlags;
    var maxTotalAttempts := attempts * 4;
    var currentFlags, currentType := flags, failureType;
    var budget := Fresh(flags, failureType);
    var dispatches: seq<Dispatch> := [];
    ghost var whole := Loop(budget, flags, failureType, answers, attempts, adversarial);
    result := None;
    while budget.total < maxTotalAttempts
      invariant result.None?
      invariant whole == Prepend(dispatches, Loop(budget, currentFlags, currentType, answers, attempts, adversarial))
      decreases maxTotalAttempts - budget.total
    {
      if adversarial && HasNonRecoverableRuntimeBlocker(currentFlags) {
        run := Prepend(dispatches, LoopRun(NonRecoverable, []));
        return;
      }
      var nextSignature := FailureSignature(currentFlags, currentType);
      if IsRuntimeOwnedRecoverySignature(nextSignature) {
        run := Prepend(dispatches, LoopRun(RuntimeOwned, []));
        return;
      }
      var b := budget;
      if nextSignature != b.signature {
        b := b.(signature := nextSignature, attemptForSignature := 0);
      }
      var runtimeOwned := IsRuntimeOwnedRecoverySignature(b.signature);
      var previous := if b.signature in b.owned then b.owned[b.signature] else 0;
      if b.attemptForSignature >= attempts || (runtimeOwned && previous >= attempts) {
        if IsPoisoned(b.signature, currentFlags, currentType) {
          run := Prepend(dispatches, LoopRun(PoisonedLoop, []));
          return;
        }
        run := Prepend(dispatches, LoopRun(Exhausted(currentFlags), []));
        return;
      }
      b := b.(attemptForSignature := b.attemptForSignature + 1, total := b.total + 1,
              owned := if runtimeOwned then b.owned[b.signature := previous + 1] else b.owned);
      assert Decide(budget, currentFlags, currentType, attempts) == Go(b);
      var dispatch := Dispatch(b.signature, BlockingRecoveryFlags(currentFlags, currentType));
      match TurnOf(adversarial, answers(budget.total), b.signature) {
        case Continue(flags', failureType') =>
          PrependOne(dispatches, dispatch, Loop(b, flags', failureType', answers, attempts, adversarial));
          currentFlags, currentType := flags', failureType';
        case Return(recovered) =>
          run := Prepend(dispatches, LoopRun(Recovered(recovered), [dispatch]));
          result := Some(recovered);
          return;
        case Poisoned =>
          run := Prepend(dispatches, LoopRun(PoisonedLoop, [dispatch]));
          return;
        case AskHuman =>
          run := Prepend(dispatches, LoopRun(NeedsHuman, [dispatch]));
          return;
      }
      dispatches := dispatches + [dispatch];
      budget := b;
    }
    run := Prepend(dispatches, LoopRun(Exhausted(currentFlags), []));
  }

  function Prepend(dispatches: seq<Dispatch>, run: LoopRun): LoopRun {
    run.(dispatches := dispatches + run.dispatches)
  }

  lemma PrependOne(dispatches: seq<Dispatch>, dispatch: Dispatch, run: LoopRun)
    ensures Prepend(dispatches, run.(dispatches := [dispatch] + run.dispatches)) ==
            Prepend(dispatches + [dispatch], run)
  {
  }
}
