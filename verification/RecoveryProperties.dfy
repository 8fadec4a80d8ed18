/** Budgets, signatures and results of the recovery loops, for arbitrary agents. */
module RecoveryProperties {
  import opened Wrappers
  import opened Sequences
  import opened Text
  import opened FlagClassification
  import opened FindingState
  import opened RuntimeTypes
  import opened RecoverySignatures
  import opened RecoveryLoops

  // ---- The total budget ----

  lemma {:induction false} LoopBudget(b: Budget, flags: seq<string>, failureType: Option<string>, answers: nat -> Round,
                                      attempts: nat,
                                      adversarial: bool)
    requires b.total <= 4 * attempts
    ensures |Loop(b, flags, failureType, answers, attempts, adversarial).dispatches| <= 4 * attempts - b.total
    decreases 4 * attempts - b.total
  {
    hide FailureSignature, HasNonRecoverableRuntimeBlocker, IsRuntimeOwnedRecoverySignature, IsPoisoned, TurnOf,
      BlockingRecoveryFlags;
    if b.total < 4 * attempts {
      var decision := Decide(b, flags, failureType, attempts);
      if decision.Go? {
        var turn := TurnOf(adversarial, answers(b.total), decision.budget.signature);
        if turn.Continue? {
          LoopBudget(decision.budget, turn.flags, turn.failureType, answers, attempts, adversarial);
        }
      }
    }
  }

  // ---- The budget of one signature ----

  predicate SameSignature(dispatches: seq<Dispatch>, i: nat, j: nat) {
    j <= |dispatches| && forall k | i <= k < j :: dispatches[k].signature == dispatches[i].signature
  }

  /** The next dispatches of a loop that has already spent part of a signature's budget on it. */
  lemma {:induction false} HeadRun(b: Budget, flags: seq<string>, failureType: Option<string>, answers: nat -> Round,
                                   attempts: nat,
                                   adversarial: bool, signature: string, n: nat)
    requires b.attemptForSignature <= attempts
    requires var ds := Loop(b, flags, failureType, answers, attempts, adversarial).dispatches;
             n <= |ds| && forall k | 0 <= k < n :: ds[k].signature == signature
    ensures n + (if signature == b.signature then b.attemptForSignature else 0) <= attempts
    decreases 4 * attempts - b.total
  {
    hide FailureSignature, HasNonRecoverableRuntimeBlocker, IsRuntimeOwnedRecoverySignature, IsPoisoned, TurnOf,
      BlockingRecoveryFlags;
    if n > 0 {
      var decision := Decide(b, flags, failureType, attempts);
      var ds := Loop(b, flags, failureType, answers, attempts, adversarial).dispatches;
      assert ds[0].signature == decision.budget.signature;
      var turn := TurnOf(adversarial, answers(b.total), decision.budget.signature);
      if turn.Continue? {
        var rest := Loop(decision.budget, turn.flags, turn.failureType, answers, attempts, adversarial).dispatches;
        assert ds == [ds[0]] + rest;
        assert forall k | 0 <= k < n - 1 :: rest[k] == ds[k + 1];
        HeadRun(decision.budget, turn.flags, turn.failureType, answers, attempts, adversarial, signature, n - 1);
      }
    }
  }

  lemma {:induction false} RunsOfSignature(b: Budget, flags: seq<string>, failureType: Option<string>,
                                           answers: nat -> Round, attempts: nat,
                                           adversarial: bool, i: nat, j: nat)
    requires b.attemptForSignature <= attempts && i <= j
    requires SameSignature(Loop(b, flags, failureType, answers, attempts, adversarial).dispatches, i, j)
    ensures j - i <= attempts
    decreases 4 * attempts - b.total
  {
    hide FailureSignature, HasNonRecoverableRuntimeBlocker, IsRuntimeOwnedRecoverySignature, IsPoisoned, TurnOf,
      BlockingRecoveryFlags;
    var ds := Loop(b, flags, failureType, answers, attempts, adversarial).dispatches;
    if i == 0 {
      HeadRun(b, flags, failureType, answers, attempts, adversarial, if j > 0 then ds[0].signature else "", j);
    } else if i < j {
      var decision := Decide(b, flags, failureType, attempts);
      var turn := TurnOf(adversarial, answers(b.total), decision.budget.signature);
      var rest := Loop(decision.budget, turn.flags, turn.failureType, answers, attempts, adversarial).dispatches;
      assert ds == [ds[0]] + rest;
      forall k | i - 1 <= k < j - 1 ensures rest[k].signature == rest[i - 1].signature {
        assert rest[k] == ds[k + 1] && rest[i - 1] == ds[i];
      }
      RunsOfSignature(decision.budget, turn.flags, turn.failureType, answers, attempts, adversarial, i - 1, j - 1);
    }
  }

  // ---- No dispatch on a runtime-owned signature; every dispatch carries its signature's flags ----

  lemma {:induction false} DispatchesAreProductOwned(b: Budget, flags: seq<string>, failureType: Option<string>,
                                                     answers: nat -> Round,
                                                     attempts: nat, adversarial: bool, i: nat)
    requires i < |Loop(b, flags, failureType, answers, attempts, adversarial).dispatches|
    ensures !IsRuntimeOwnedRecoverySignature(Loop(b, flags, failureType, answers, attempts,
                                                  adversarial).dispatches[i].signature)
    decreases 4 * attempts - b.total
  {
    hide FailureSignature, HasNonRecoverableRuntimeBlocker, IsRuntimeOwnedRecoverySignature, IsPoisoned, TurnOf,
      BlockingRecoveryFlags;
    if i > 0 {
      var decision := Decide(b, flags, failureType, attempts);
      var turn := TurnOf(adversarial, answers(b.total), decision.budget.signature);
      DispatchesAreProductOwned(decision.budget, turn.flags, turn.failureType, answers, attempts, adversarial, i - 1);
    }
  }

  /** The budget of each loop, for any agents. */
  lemma RecoveryBudget(flags: seq<string>, failureType: Option<string>, maxBugfixAttempts: Option<int>,
                       answers: nat -> Round, adversarial: bool,
                       i: nat, j: nat)
    ensures var attempts := Attempts(maxBugfixAttempts);
            var ds := Loop(Fresh(flags, failureType), flags, failureType, answers, attempts, adversarial).dispatches;
            && |ds| <= 4 * attempts
            && (i <= j && SameSignature(ds, i, j) ==> j - i <= attempts)
            && (i < |ds| ==> !IsRuntimeOwnedRecoverySignature(ds[i].signature))
  {
    hide Loop, FailureSignature;
    var attempts := Attempts(maxBugfixAttempts);
    var b := Fresh(flags, failureType);
    var ds := Loop(b, flags, failureType, answers, attempts, adversarial).dispatches;
    LoopBudget(b, flags, failureType, answers, attempts, adversarial);
    if i <= j && SameSignature(ds, i,
                               j) { RunsOfSignature(b, flags, failureType, answers, attempts, adversarial, i, j); }
    if i < |ds| { DispatchesAreProductOwned(b, flags, failureType, answers, attempts, adversarial, i); }
  }

  // ---- Results ----

  /** Every finding that is open is a warning or reports something positive. */
  predicate NothingBlocks(findings: seq<Finding>) {
    forall i | 0 <= i < |findings| && findings[i].status.Open? ::
      IsWarningFlag(findings[i].id, "") || IsPositiveFlag(findings[i].id)
  }

  /** No flag of the gate blocks, and it passed or lists nothing but warnings and positive flags. */
  predicate Satisfied(gate: GateResult) {
    && (forall i | 0 <= i < |gate.flags| :: !IsBlockingFlag(gate.flags[i]))
    && (gate.passed || forall i | 0 <= i < |gate.flags| ::
                         IsWarningFlag(gate.flags[i], gate.name) || IsPositiveFlag(gate.flags[i]))
  }

  predicate AllSatisfied(gates: seq<GateResult>) {
    forall i | 0 <= i < |gates| :: Satisfied(gates[i])
  }

  /** The validation satisfied every gate and left nothing open that blocks. */
  predicate ValidationStands(round: Round) {
    AllSatisfied(round.gates) && NothingBlocks(round.state.findings)
  }

  lemma {:induction false} NoneBlocking(findings: seq<Finding>)
    ensures Filter(BlockingOpen, findings) == [] <==> NothingBlocks(findings)
  {
    hide IsWarningFlag, IsPositiveFlag;
    if findings != [] {
      NoneBlocking(findings[1..]);
      assert forall i | 0 <= i < |findings[1..]| :: findings[1..][i] == findings[i + 1];
      if NothingBlocks(findings[1..]) && !BlockingOpen(findings[0]) {
        forall i | 0 <= i < |findings| && findings[i].status.Open?
          ensures IsWarningFlag(findings[i].id, "") || IsPositiveFlag(findings[i].id)
        {
          if i > 0 { assert findings[i] == findings[1..][i - 1]; }
        }
      }
    }
  }

  /** The list of blocking findings is empty exactly when every open finding is a warning or positive. */
  lemma BlockingMeansOpen(state: BatchState)
    ensures BlockingOpenFindings(state) == [] <==> NothingBlocks(state.findings)
  {
    hide IsWarningFlag, IsPositiveFlag, NothingBlocks, BlockingOpen;
    NoneBlocking(state.findings);
  }

  lemma GatesPassedMeans(gates: seq<GateResult>)
    ensures GatesPassed(gates) <==> AllSatisfied(gates)
  {
    hide IsWarningFlag, IsPositiveFlag, IsBlockingFlag;
  }

  /** On satisfied gates with such a finding open, an accepted bugfix is never answered by a result: the loop goes on
      with the ids of the findings, or ends as poisoned. */
  lemma OpenFindingIsNotReturned(round: Round, signature: string, i: nat)
    requires BugfixAccepted(round) && AllSatisfied(round.gates)
    requires i < |round.state.findings| && round.state.findings[i].status.Open?
    requires !IsWarningFlag(round.state.findings[i].id, "") && !IsPositiveFlag(round.state.findings[i].id)
    ensures var turn := GateTurn(round, signature);
            && (turn.Poisoned? || turn.Continue?)
            && (turn.Continue? ==> round.state.findings[i].id in turn.flags)
  {
    hide IsWarningFlag, IsPositiveFlag, GatesPassed, AllSatisfied, IsPoisoned, Ids, BugfixFlags, GateFlags;
    GatesPassedMeans(round.gates);
    var f := round.state.findings[i];
    var open := BlockingOpenFindings(round.state);
    FilterKeeps(BlockingOpen, round.state.findings, f);
    var k :| 0 <= k < |open| && open[k] == f;
    assert Ids(open)[k] == f.id by { IdAt(open, k); }
  }

  lemma IdAt(findings: seq<Finding>, k: nat)
    requires k < |findings|
    ensures |Ids(findings)| == |findings| && Ids(findings)[k] == findings[k].id
  {
  }

  /** An adjudication was accepted on gates with ambiguities and without a hard failure. */
  predicate AdjudicationStands(round: Round) {
    && OfSeverity(round.gates, HardFail) == [] && OfSeverity(round.gates, Ambiguous) != []
    && ((round.existing.Some? && AdjudicationAccepted(round.existing.value))
        || (round.written.Some? && AdjudicationAccepted(round.written.value)))
  }

  /** What stands behind a recovered result of the gate loop. */
  predicate GateProof(round: Round) {
    ValidationStands(round) || AdjudicationStands(round)
  }

  /** What stands behind a recovered result of the adversarial loop. */
  predicate AdversarialProof(round: Round) {
    || (!AllSatisfied(round.gates) && AdjudicationStands(round))
    || (AllSatisfied(round.gates) && round.validationContract.passed
        && (round.validation.status == "SUCCESS" || round.excused))
  }

  lemma TurnReturnsProven(adversarial: bool, round: Round, signature: string)
    requires TurnOf(adversarial, round, signature).Return?
    ensures TurnOf(adversarial, round, signature).result == round.recovered && BugfixAccepted(round)
    ensures if adversarial then AdversarialProof(round) else GateProof(round)
  {
    hide GatesPassed, AllSatisfied, NothingBlocks, BlockingOpenFindings, IsPoisoned, OfSeverity;
    GatesPassedMeans(round.gates);
    BlockingMeansOpen(round.state);
  }

  /** A result is what the last dispatch recovered, and the last validation or an accepted adjudication without hard
      failures stands behind it. */
  lemma {:induction false} RecoveredIsProven(b: Budget, flags: seq<string>, failureType: Option<string>,
                                             answers: nat -> Round, attempts: nat,
                                             adversarial: bool)
    requires Loop(b, flags, failureType, answers, attempts, adversarial).end.Recovered?
    ensures var run := Loop(b, flags, failureType, answers, attempts, adversarial);
            && run.dispatches != []
            && var round := answers(b.total + |run.dispatches| - 1);
               run.end.result == round.recovered && BugfixAccepted(round) && if adversarial then AdversarialProof(round)
                 else GateProof(round)
    decreases 4 * attempts - b.total
  {
    hide FailureSignature, HasNonRecoverableRuntimeBlocker, IsRuntimeOwnedRecoverySignature, IsPoisoned, TurnOf,
      BlockingRecoveryFlags,
         GateProof, AdversarialProof, BugfixAccepted;
    var decision := Decide(b, flags, failureType, attempts);
    var turn := TurnOf(adversarial, answers(b.total), decision.budget.signature);
    if turn.Continue? {
      RecoveredIsProven(decision.budget, turn.flags, turn.failureType, answers, attempts, adversarial);
    } else {
      TurnReturnsProven(adversarial, answers(b.total), decision.budget.signature);
    }
  }

  /** A non-null result of `recoverGateFailure`: the last validation passed every gate with no blocking finding open, or
      an adjudication was accepted on gates without a hard failure. */
  lemma GateRecoveryIsProven(flags: seq<string>, maxBugfixAttempts: Option<int>, answers: nat -> Round)
    requires GateRecovery(flags, maxBugfixAttempts, answers).end.Recovered?
    ensures var run := GateRecovery(flags, maxBugfixAttempts, answers);
            && 1 <= |run.dispatches| <= 4 * Attempts(maxBugfixAttempts)
            && run.end.result == answers(|run.dispatches| - 1).recovered
            && GateProof(answers(|run.dispatches| - 1))
  {
    hide Loop, GateProof, RequiresHumanSecurityApproval, HasNonRecoverableRuntimeBlocker, FailureSignature,
      BugfixAccepted;
    RecoveredIsProven(Fresh(flags, Some(GATES_REJECTED)), flags, Some(GATES_REJECTED), answers,
                      Attempts(maxBugfixAttempts), false);
    LoopBudget(Fresh(flags, Some(GATES_REJECTED)), flags, Some(GATES_REJECTED), answers, Attempts(maxBugfixAttempts),
               false);
  }

  /** The first bugfix settles it: its gates are satisfied and nothing blocks, or the second validation succeeds. */
  predicate FirstRoundSettles(adversarial: bool, round: Round) {
    && BugfixAccepted(round) && AllSatisfied(round.gates)
    && if adversarial then round.validationContract.passed && round.validation.status == "SUCCESS"
       else NothingBlocks(round.state.findings)
  }

  lemma SettledTurn(adversarial: bool, round: Round, signature: string)
    requires FirstRoundSettles(adversarial, round)
    ensures TurnOf(adversarial, round, signature) == Return(round.recovered)
  {
    hide GatesPassed, AllSatisfied, NothingBlocks, BlockingOpenFindings, IsPoisoned, BugfixAccepted;
    GatesPassedMeans(round.gates);
    BlockingMeansOpen(round.state);
  }

  /** A failure that is not the runtime's own is dispatched, with its signature and its blocking flags; when the first
      bugfix settles it, its result is returned after this one dispatch. */
  lemma FailureIsDispatched(flags: seq<string>, failureType: Option<string>, maxBugfixAttempts: Option<int>,
                            answers: nat -> Round, adversarial: bool)
    requires !IsRuntimeOwnedRecoverySignature(FailureSignature(flags, failureType))
    requires adversarial ==> !HasNonRecoverableRuntimeBlocker(flags)
    ensures var run := Loop(Fresh(flags, failureType), flags, failureType, answers, Attempts(maxBugfixAttempts),
                            adversarial);
            var first := Dispatch(FailureSignature(flags, failureType), BlockingRecoveryFlags(flags, failureType));
            && run.dispatches != [] && run.dispatches[0] == first
            && (FirstRoundSettles(adversarial, answers(0)) ==>
                run == LoopRun(Recovered(answers(0).recovered), [first]))
  {
    hide FailureSignature, HasNonRecoverableRuntimeBlocker, IsRuntimeOwnedRecoverySignature, IsPoisoned, TurnOf,
      BlockingRecoveryFlags, FirstRoundSettles;
    if FirstRoundSettles(adversarial, answers(0)) {
      SettledTurn(adversarial, answers(0), FailureSignature(flags, failureType));
    }
  }

  /** No gate that lists a hard failure is left to adjudication. */
  lemma HardFailureForbidsAdjudication(gates: seq<GateResult>, i: nat, flag: string, existing: Option<Adjudication>,
                                       written: Option<Adjudication>)
    requires i < |gates| && flag in gates[i].flags && SeverityFor(gates[i].name, flag).HardFail?
    ensures Adjudicate(gates, existing, written) == NoVerdict
  {
    hide SeverityFor;
    HardFailureIsListed(gates, i, flag);
  }

  lemma {:induction false} HardFailureIsListed(gates: seq<GateResult>, i: nat, flag: string)
    requires i < |gates| && flag in gates[i].flags && SeverityFor(gates[i].name, flag).HardFail?
    ensures flag in OfSeverity(gates, HardFail)
  {
    hide SeverityFor;
    var n := |gates| - 1;
    if i < n {
      HardFailureIsListed(gates[..n], i, flag);
    } else {
      FilterKeeps((f: string) => SeverityFor(gates[n].name, f) == HardFail, gates[n].flags, flag);
    }
  }

  // ---- A whole batch ----

  /** The dispatches of a batch: gate recovery on open findings or on failed gates, never on both, then adversarial
      validation. */
  function BatchDispatches(gates: seq<GateResult>, open: seq<Finding>, verdict: Verdict, maxBugfixAttempts: Option<int>,
                           gateAnswers: nat -> Round, requiresValidation: bool, implementation: BatchResult,
                             validation: BatchResult,
                           contract: GateResult, adversarialAnswers: nat -> Round): seq<Dispatch> {
    var recovery :=
      if GatesPassed(gates) then
        if open == [] then Option.None else Some(GateRecovery(Ids(open), maxBugfixAttempts, gateAnswers))
      else if verdict.VerdictAccepted? then None
        else Some(GateRecovery(GateFlags(gates), maxBugfixAttempts, gateAnswers));
    var first := if recovery.Some? then recovery.value.dispatches else [];
    if !requiresValidation || (recovery.Some? && !recovery.value.end.Recovered?) then first
    else first + AdversarialValidation(implementation, validation, contract, maxBugfixAttempts,
                                       adversarialAnswers).dispatches
  }

  lemma BatchBudget(gates: seq<GateResult>, open: seq<Finding>, verdict: Verdict, maxBugfixAttempts: Option<int>,
                    gateAnswers: nat -> Round, requiresValidation: bool, implementation: BatchResult,
                      validation: BatchResult,
                    contract: GateResult, adversarialAnswers: nat -> Round)
    ensures |BatchDispatches(gates, open, verdict, maxBugfixAttempts, gateAnswers, requiresValidation, implementation,
                             validation, contract,
                             adversarialAnswers)| <= 8 * Attempts(maxBugfixAttempts)
  {
    hide GatesPassed, Loop, FailureSignature, RequiresHumanSecurityApproval, HasNonRecoverableRuntimeBlocker;
    var attempts := Attempts(maxBugfixAttempts);
    var ids, failed := Ids(open), GateFlags(gates);
    LoopBudget(Fresh(ids, Some(GATES_REJECTED)), ids, Some(GATES_REJECTED), gateAnswers, attempts, false);
    LoopBudget(Fresh(failed, Some(GATES_REJECTED)), failed, Some(GATES_REJECTED), gateAnswers, attempts, false);
    var flags := contract.flags + validation.flags + [validation.failureType.Or("VALIDATOR_REJECTED")];
    LoopBudget(Fresh(flags, validation.failureType), flags, validation.failureType, adversarialAnswers, attempts, true);
  }

  // ---- Signatures ----

  predicate NormalizedFlag(flag: string) {
    flag != "" && Trim(flag) == flag
  }

  lemma {:induction false} TrimKeepsChars(s: string, c: char)
    requires c !in s
    ensures c !in Trim(s)
  {
    TrimStartIsTail(s);
  }

  lemma NormalizeKeepsShape(flag: string)
    requires NormalizeRecoveryFlag(flag).Some?
    ensures NormalizedFlag(NormalizeRecoveryFlag(flag).value)
    ensures '|' !in flag ==> '|' !in NormalizeRecoveryFlag(flag).value
  {
    hide IsRuntimeRecoveryMetaFlag, IsPositiveFlag, IsWarningFlag, EndsWithAny;
    var value := if StartsWith(flag, SOURCE_PREFIX) then flag[|SOURCE_PREFIX|..] else flag;
    TrimIdempotent(value);
    if '|' !in flag { TrimKeepsChars(value, '|'); }
  }

  lemma TrimIdempotent(s: string)
    ensures Trim(Trim(s)) == Trim(s)
  {
  }

  predicate AllNormalized(flags: seq<string>) {
    forall i | 0 <= i < |flags| :: NormalizedFlag(flags[i])
  }

  lemma {:induction false} NormalizedAreNormalized(flags: seq<string>)
    ensures AllNormalized(NormalizeAll(flags))
  {
    hide NormalizeRecoveryFlag, NormalizedFlag;
    if flags != [] {
      var last := flags[|flags| - 1];
      NormalizedAreNormalized(flags[..|flags| - 1]);
      if NormalizeRecoveryFlag(last).Some? { NormalizeKeepsShape(last); }
    }
  }

  lemma {:induction false} NormalizedArePipeFree(flags: seq<string>)
    requires PipeFree(flags)
    ensures PipeFree(NormalizeAll(flags))
  {
    hide NormalizeRecoveryFlag, NormalizedFlag;
    if flags != [] {
      var last := flags[|flags| - 1];
      NormalizedArePipeFree(flags[..|flags| - 1]);
      if NormalizeRecoveryFlag(last).Some? { NormalizeKeepsShape(last); }
    }
  }

  /** The blocking flags: distinct, trimmed, non-empty; pipe-free when their sources are. */
  lemma BlockingFlagsShape(flags: seq<string>, failureType: Option<string>)
    ensures var blocking := BlockingRecoveryFlags(flags, failureType);
            Distinct(blocking) && AllNormalized(blocking)
              && (PipeFree(flags + [failureType.Or(UNKNOWN)]) ==> PipeFree(blocking))
  {
    hide NormalizeAll, NormalizedFlag;
    var sources := [failureType.Or(UNKNOWN)] + flags;
    NormalizedAreNormalized(sources);
    var blocking := BlockingRecoveryFlags(flags, failureType);
    UniqueIsDistinct(NormalizeAll(sources));
    if PipeFree(flags + [failureType.Or(UNKNOWN)]) {
      PipeFreeCommutes(flags, failureType.Or(UNKNOWN));
      NormalizedArePipeFree(sources);
      forall i | 0 <= i < |blocking| ensures '|' !in blocking[i] {
        assert blocking[i] in NormalizeAll(sources);
      }
    }
    forall i | 0 <= i < |blocking| ensures NormalizedFlag(blocking[i]) {
      assert blocking[i] in NormalizeAll(sources);
    }
  }

  lemma PipeFreeCommutes(flags: seq<string>, flag: string)
    requires PipeFree(flags + [flag])
    ensures PipeFree([flag] + flags)
  {
    forall i | 0 <= i < |[flag] + flags| ensures '|' !in ([flag] + flags)[i] {
      assert ([flag] + flags)[i] in flags + [flag];
    }
  }

  /** A joined non-empty list of blocking flags is not empty, and splits into the sorted list again. */
  lemma SortedSplits(blocking: seq<string>)
    requires Distinct(blocking) && AllNormalized(blocking) && PipeFree(blocking) && blocking != []
    ensures Join(Sort(blocking)) != "" && Split(Join(Sort(blocking)), '|') == Sort(blocking)
    ensures PipeFree(Sort(blocking)) && AllNormalized(Sort(blocking)) && Sort(blocking) != []
  {
    hide NormalizedFlag;
    SortSorts(blocking);
    var sorted := Sort(blocking);
    assert blocking[0] in sorted;
    forall i | 0 <= i < |sorted| ensures '|' !in sorted[i] && NormalizedFlag(sorted[i]) {
      assert sorted[i] in blocking;
    }
    SplitJoin(sorted);
    if Join(sorted) == "" {
      assert Split("", '|') == [""];
      assert NormalizedFlag(sorted[0]);
      NormalizedIsNotEmpty(sorted[0]);
      assert false;
    }
  }

  lemma NormalizedIsNotEmpty(flag: string)
    requires NormalizedFlag(flag)
    ensures flag != ""
  {
  }

  /** A signature of pipe-free flags is runtime-owned exactly when all of them are. */
  lemma OwnedSignature(flags: seq<string>, failureType: Option<string>)
    requires PipeFree(flags + [failureType.Or(UNKNOWN)]) && BlockingRecoveryFlags(flags, failureType) != []
    ensures IsRuntimeOwnedRecoverySignature(FailureSignature(flags, failureType)) <==>
            AllRuntimeOwned(BlockingRecoveryFlags(flags, failureType))
  {
    hide BlockingRecoveryFlags, IsRuntimeOwnedRecoveryFlag, NormalizedFlag, Join, Split, Sort;
    var blocking := BlockingRecoveryFlags(flags, failureType);
    BlockingFlagsShape(flags, failureType);
    SortedSplits(blocking);
    SortSorts(blocking);
    var sorted := Sort(blocking);
    TrimmedParts(sorted);
    assert SignatureFlags(FailureSignature(flags, failureType)) == sorted;
    assert forall f :: f in sorted <==> f in blocking;
    AllOwnedSame(sorted, blocking);
  }

  lemma AllOwnedSame(a: seq<string>, b: seq<string>)
    requires forall f :: f in a <==> f in b
    ensures AllRuntimeOwned(a) <==> AllRuntimeOwned(b)
  {
    hide IsRuntimeOwnedRecoveryFlag;
    if AllRuntimeOwned(a) {
      forall i | 0 <= i < |b| ensures IsRuntimeOwnedRecoveryFlag(b[i]) { assert b[i] in a; }
    }
    if AllRuntimeOwned(b) {
      forall i | 0 <= i < |a| ensures IsRuntimeOwnedRecoveryFlag(a[i]) { assert a[i] in b; }
    }
  }

  lemma TrimmedParts(parts: seq<string>)
    requires AllNormalized(parts)
    ensures Filter((flag: string) => flag != "", Map(Trim, parts)) == parts
  {
    assert Map(Trim, parts) == parts by {
      forall i | 0 <= i < |parts| ensures Map(Trim, parts)[i] == parts[i] { assert NormalizedFlag(parts[i]); }
    }
    forall i | 0 <= i < |parts| ensures parts[i] != "" { assert NormalizedFlag(parts[i]); }
    FilterAll((flag: string) => flag != "", parts);
  }

  /** On a signature a bugfix was dispatched for, pipe-free flags never look poisoned. */
  lemma NeverPoisoned(signature: string, flags: seq<string>, failureType: Option<string>)
    requires PipeFree(flags + [failureType.Or(UNKNOWN)]) && !IsRuntimeOwnedRecoverySignature(signature)
    ensures !IsPoisoned(signature, flags, failureType)
  {
    hide FailureSignature, IsRuntimeOwnedRecoverySignature, BlockingRecoveryFlags, AllRuntimeOwned;
    if IsPoisoned(signature, flags, failureType) {
      OwnedSignature(flags, failureType);
    }
  }

  lemma NoPipes()
    ensures '|' !in GATES_REJECTED && '|' !in "BUGFIX_RESULT_INVALID"
            && '|' !in "RUNTIME_GATES_REJECTED_AFTER_VALIDATION_BUGFIX"
    ensures '|' !in UNKNOWN
  {
  }

  // ---- When two signatures agree ----

  ghost predicate SameFlags(a: seq<string>, b: seq<string>) {
    forall f :: f in a <==> f in b
  }

  lemma UnknownSplits()
    ensures Split(UNKNOWN, '|') == [UNKNOWN]
  {
    NoPipes();
    FirstPart(UNKNOWN, "");
  }

  /** Signatures of pipe-free flags are equal exactly when the sets of blocking flags are, except that no blocking
      flag at all has the signature of an unknown failure alone. */
  lemma SignatureIsFlagSet(f1: seq<string>, t1: Option<string>, f2: seq<string>, t2: Option<string>)
    requires PipeFree(f1 + [t1.Or(UNKNOWN)]) && PipeFree(f2 + [t2.Or(UNKNOWN)])
    ensures var b1, b2 := BlockingRecoveryFlags(f1, t1), BlockingRecoveryFlags(f2, t2);
            FailureSignature(f1, t1) == FailureSignature(f2, t2) <==>
            SameFlags(b1, b2) || (b1 == [] && SameFlags(b2, [UNKNOWN])) || (b2 == [] && SameFlags(b1, [UNKNOWN]))
  {
    hide BlockingRecoveryFlags, NormalizedFlag, Join, Split, Sort;
    var b1, b2 := BlockingRecoveryFlags(f1, t1), BlockingRecoveryFlags(f2, t2);
    BlockingFlagsShape(f1, t1);
    BlockingFlagsShape(f2, t2);
    SignatureOf(f1, t1);
    SignatureOf(f2, t2);
    if b1 != [] && b2 != [] {
      assert b1[0] in b1 && b2[0] in b2;
      SameSorted(b1, b2);
    } else if b1 == [] && b2 != [] {
      assert b2[0] in b2 && b2[0] !in b1;
      SameSorted(b2, [UNKNOWN]);
    } else if b2 == [] && b1 != [] {
      assert b1[0] in b1 && b1[0] !in b2;
      SameSorted(b1, [UNKNOWN]);
    }
  }

  /** What a signature splits into. */
  lemma SignatureOf(flags: seq<string>, failureType: Option<string>)
    requires PipeFree(flags + [failureType.Or(UNKNOWN)])
    ensures var b := BlockingRecoveryFlags(flags, failureType);
            && FailureSignature(flags, failureType) == (if b == [] then UNKNOWN else Join(Sort(b)))
            && Split(FailureSignature(flags, failureType), '|') == (if b == [] then Sort([UNKNOWN]) else Sort(b))
            && (b == [] ==> FailureSignature(flags, failureType) == Join(Sort([UNKNOWN])))
  {
    hide BlockingRecoveryFlags, Join, Sort, Split, NormalizedFlag;
    BlockingFlagsShape(flags, failureType);
    var b := BlockingRecoveryFlags(flags, failureType);
    if b != [] {
      SortedSplits(b);
    } else {
      UnknownSplits();
      NothingJoined();
    }
  }

  lemma NothingJoined()
    ensures Join(Sort([])) == "" && Sort([UNKNOWN]) == [UNKNOWN] && Join([UNKNOWN]) == UNKNOWN
  {
    assert [UNKNOWN][1..] == [];
  }

  lemma SameSorted(a: seq<string>, b: seq<string>)
    requires Distinct(a) && Distinct(b)
    ensures SameFlags(a, b) <==> Sort(a) == Sort(b)
  {
    SortSorts(a);
    SortSorts(b);
    if SameFlags(a, b) { AscendingIsUnique(Sort(a), Sort(b)); }
  }
}
