/** What one turn of a recovery loop, an adjudication and a whole recovery end in, told on the fields of what agents and
    validators answered (tools/klevar-yolo-runtime/src/runtime.ts:726-945 and 1069-1098,
    tools/klevar-yolo-runtime/src/adjudication.ts:22-41). */
module RecoveryTurns {
  import opened Wrappers
  import opened Sequences
  import opened Text
  import opened FindingState
  import opened RuntimeTypes
  import opened RecoverySignatures
  import opened RecoveryLoops
  import opened RecoveryProperties

  // ---- Adjudication ----

  predicate GateLists(gate: GateResult, severity: Severity) {
    exists k | 0 <= k < |gate.flags| :: SeverityFor(gate.name, gate.flags[k]) == severity
  }

  /** Some gate lists a flag of this severity. */
  predicate ListsSome(gates: seq<GateResult>, severity: Severity) {
    exists i | 0 <= i < |gates| :: GateLists(gates[i], severity)
  }

  lemma GateListsSome(gate: GateResult, severity: Severity)
    ensures Filter((flag: string) => SeverityFor(gate.name, flag) == severity, gate.flags) != [] <==>
            GateLists(gate, severity)
  {
    hide SeverityFor;
    var keep := (flag: string) => SeverityFor(gate.name, flag) == severity;
    var listed := Filter(keep, gate.flags);
    if listed != [] {
      FilterKeeps(keep, gate.flags, listed[0]);
    }
    if GateLists(gate, severity) {
      var k :| 0 <= k < |gate.flags| && SeverityFor(gate.name, gate.flags[k]) == severity;
      FilterKeeps(keep, gate.flags, gate.flags[k]);
    }
  }

  lemma {:induction false} ListedBySomeGate(gates: seq<GateResult>, severity: Severity)
    ensures OfSeverity(gates, severity) != [] <==> ListsSome(gates, severity)
  {
    hide SeverityFor, GateLists;
    if gates != [] {
      var n := |gates| - 1;
      ListedBySomeGate(gates[..n], severity);
      GateListsSome(gates[n], severity);
      assert forall i | 0 <= i < n :: gates[..n][i] == gates[i];
    }
  }

  /** Gates are left to adjudication exactly when none lists a hard failure and some lists an ambiguity. */
  lemma AdjudicationNeedsAmbiguity(gates: seq<GateResult>)
    ensures AdjudicationAllowed(gates) <==> !ListsSome(gates, HardFail) && ListsSome(gates, Ambiguous)
  {
    hide OfSeverity, ListsSome;
    ListedBySomeGate(gates, HardFail);
    ListedBySomeGate(gates, Ambiguous);
  }

  /** What an adjudication says: one that did not succeed escalates, and a request for a bugfix goes before one for a
      human. */
  function Says(a: Adjudication): Verdict {
    if a.status != "SUCCESS" then HumanNeeded
    else if a.decision.RequireBugfix? || a.requiresBugfix then BugfixNeeded
    else if a.decision.EscalateToUser? || a.requiresHuman then HumanNeeded
    else VerdictAccepted
  }

  /** The verdict on gates that may be adjudicated is what the file says that is there, and only without one what the
      agent writes; on other gates there is none. */
  lemma VerdictMeans(gates: seq<GateResult>, existing: Option<Adjudication>, written: Option<Adjudication>)
    ensures Adjudicate(gates, existing, written) ==
            if ListsSome(gates, HardFail) || !ListsSome(gates, Ambiguous) then NoVerdict
            else if existing.Some? then Says(existing.value)
            else if written.Some? then Says(written.value)
            else NoVerdict
  {
    hide AdjudicationAllowed, ListsSome;
    AdjudicationNeedsAmbiguity(gates);
  }

  // ---- One turn ----

  /** The bugfix kept its contract and reports success. */
  predicate BugfixStands(round: Round) {
    round.contract.passed && round.bugfix.status == "SUCCESS"
  }

  /** A bugfix that does not stand is not validated: its own flags are the next failure. */
  lemma FailedBugfixGoesOn(adversarial: bool, round: Round, signature: string)
    requires !BugfixStands(round)
    ensures var turn := TurnOf(adversarial, round, signature);
            && turn.Continue?
            && turn.flags == round.contract.flags + round.bugfix.flags
                             + [round.bugfix.failureType.Or("BUGFIX_RECOVERY_FAILED")]
            && turn.failureType == Some(if adversarial then "BUGFIX_RESULT_INVALID" else "RUNTIME_GATES_REJECTED")
  {
    hide GatesPassed, BlockingOpenFindings, IsPoisoned, Adjudicate;
  }

  /** The flags a failed turn goes on with: the ids of what is open when the gates are satisfied, else their flags. */
  function NextFlags(round: Round): seq<string> {
    if AllSatisfied(round.gates) then Ids(BlockingOpenFindings(round.state)) else GateFlags(round.gates)
  }

  /** A turn of gate recovery: it returns, stops as poisoned, asks a human or goes on, exactly in these cases. */
  lemma GateTurnMeans(round: Round, signature: string)
    requires BugfixStands(round)
    ensures var verdict := Adjudicate(round.gates, round.existing, round.written);
            var settled := if AllSatisfied(round.gates) then NothingBlocks(round.state.findings)
                           else verdict.VerdictAccepted?;
            GateTurn(round, signature) ==
              if settled then Return(round.recovered)
              else if IsPoisoned(signature, NextFlags(round), Some(GATES_REJECTED)) then Poisoned
              else if !AllSatisfied(round.gates) && verdict.HumanNeeded? then AskHuman
              else Continue(NextFlags(round), Some(GATES_REJECTED))
  {
    hide GatesPassed, AllSatisfied, NothingBlocks, BlockingOpenFindings, IsPoisoned, Adjudicate, GateFlags, Ids;
    GatesPassedMeans(round.gates);
    BlockingMeansOpen(round.state);
  }

  /** What a second validation that does not pass brings as the next failure. */
  function ValidationFlags(round: Round): seq<string> {
    round.validationContract.flags + round.validation.flags
    + [round.validation.failureType.Or("VALIDATOR_REJECTED_AFTER_BUGFIX")]
  }

  /** The second validation passes, or its failure is excused. */
  predicate ValidationPasses(round: Round) {
    && round.validationContract.passed
    && (round.validation.status == "SUCCESS" || (round.validation.status == "FAILURE" && round.excused))
  }

  /** A turn of the adversarial loop, likewise. */
  lemma AdversarialTurnMeans(round: Round, signature: string)
    requires BugfixStands(round)
    ensures var verdict := Adjudicate(round.gates, round.existing, round.written);
            AdversarialTurn(round, signature) ==
              if AllSatisfied(round.gates) then
                if ValidationPasses(round) then Return(round.recovered)
                else if IsPoisoned(signature, ValidationFlags(round), round.validation.failureType) then Poisoned
                else Continue(ValidationFlags(round), round.validation.failureType)
              else if verdict.VerdictAccepted? then Return(round.recovered)
              else if verdict.HumanNeeded? then AskHuman
              else Continue(GateFlags(round.gates), Some("RUNTIME_GATES_REJECTED_AFTER_VALIDATION_BUGFIX"))
  {
    hide GatesPassed, AllSatisfied, IsPoisoned, Adjudicate, GateFlags;
    GatesPassedMeans(round.gates);
  }

  // ---- The ends of a recovery ----

  const MUTATIONS: seq<string> := ["EXTERNAL_MUTATION_NOT_ALLOWED:", "EXTERNAL_MUTATION_COMMAND_NOT_ALLOWED:",
                                   "EXTERNAL_MUTATION_EVIDENCE_NOT_ALLOWED:"]

  /** A flag on a mutation of the outside world that was not allowed, or one the runtime cannot recover from. */
  predicate IsUnsafe(flag: string) {
    || (exists m | 0 <= m < |MUTATIONS| :: |flag| >= |MUTATIONS[m]| && flag[..|MUTATIONS[m]|] == MUTATIONS[m])
    || IsNonRecoverableRuntimeFlag(flag)
  }

  lemma MutationsNeedApproval(flag: string)
    ensures NeedsSecurityApproval(flag) <==>
            exists m | 0 <= m < |MUTATIONS| :: |flag| >= |MUTATIONS[m]| && flag[..|MUTATIONS[m]|] == MUTATIONS[m]
  {
    var prefixes := ["EXTERNAL_MUTATION_NOT_ALLOWED:", "EXTERNAL_MUTATION_COMMAND_NOT_ALLOWED:",
                     "EXTERNAL_MUTATION_EVIDENCE_NOT_ALLOWED:"];
    assert forall m | 0 <= m < 3 ::
        StartsWith(flag, prefixes[m]) <==> |flag| >= |MUTATIONS[m]| && flag[..|MUTATIONS[m]|] == MUTATIONS[m];
  }

  /** Gate recovery never dispatches on an unsafe flag: it stops before the first bugfix exactly for the sake of one,
      or when the whole failure is the runtime's own. */
  lemma UnsafeFlagStops(flags: seq<string>, maxBugfixAttempts: Option<int>, answers: nat -> Round)
    ensures var run := GateRecovery(flags, maxBugfixAttempts, answers);
            && (run.end.NonRecoverable? <==> exists i | 0 <= i < |flags| :: IsUnsafe(flags[i]))
            && (run.end.NonRecoverable? ==> run.dispatches == [])
            && (run.dispatches == [] <==>
                run.end.NonRecoverable?
                || IsRuntimeOwnedRecoverySignature(FailureSignature(flags, Some(GATES_REJECTED))))
  {
    hide IsNonRecoverableRuntimeFlag, NeedsSecurityApproval, FailureSignature, IsRuntimeOwnedRecoverySignature,
      IsPoisoned, GateTurn, BlockingRecoveryFlags;
    forall i | 0 <= i < |flags|
      ensures IsUnsafe(flags[i]) <==> NeedsSecurityApproval(flags[i]) || IsNonRecoverableRuntimeFlag(flags[i])
    {
      MutationsNeedApproval(flags[i]);
    }
    if !RequiresHumanSecurityApproval(flags) && !HasNonRecoverableRuntimeBlocker(flags) {
      GateLoopIsRecoverable(Fresh(flags, Some(GATES_REJECTED)), flags, Some(GATES_REJECTED), answers,
                            Attempts(maxBugfixAttempts));
    }
  }

  lemma {:induction false} GateLoopIsRecoverable(b: Budget, flags: seq<string>, failureType: Option<string>,
                                                 answers: nat -> Round, attempts: nat)
    ensures !Loop(b, flags, failureType, answers, attempts, false).end.NonRecoverable?
    decreases 4 * attempts - b.total
  {
    hide FailureSignature, IsRuntimeOwnedRecoverySignature, IsPoisoned, TurnOf, BlockingRecoveryFlags,
      HasNonRecoverableRuntimeBlocker;
    if b.total < 4 * attempts {
      var decision := Decide(b, flags, failureType, attempts);
      if decision.Go? {
        var turn := TurnOf(false, answers(b.total), decision.budget.signature);
        if turn.Continue? {
          GateLoopIsRecoverable(decision.budget, turn.flags, turn.failureType, answers, attempts);
        }
      }
    }
  }

  /** Adversarial validation returns without a dispatch exactly when the first validation passed, and then the
      implementation itself. */
  lemma PassedAtOnce(implementation: BatchResult, validation: BatchResult, contract: GateResult,
                     maxBugfixAttempts: Option<int>, answers: nat -> Round)
    ensures var run := AdversarialValidation(implementation, validation, contract, maxBugfixAttempts, answers);
            && (contract.passed && validation.status == "SUCCESS" <==> run.end.Recovered? && run.dispatches == [])
            && (contract.passed && validation.status == "SUCCESS" ==> run.end.result == implementation)
  {
    hide Loop, Fresh, BugfixAccepted, AdversarialProof;
    if !(contract.passed && validation.status == "SUCCESS") {
      var flags := contract.flags + validation.flags + [validation.failureType.Or("VALIDATOR_REJECTED")];
      var b, attempts := Fresh(flags, validation.failureType), Attempts(maxBugfixAttempts);
      if Loop(b, flags, validation.failureType, answers, attempts, true).end.Recovered? {
        RecoveredIsProven(b, flags, validation.failureType, answers, attempts, true);
      }
    }
  }

  // ---- Attempts ----

  /** Every bugfix fails, and the failure it leaves has the same signature. */
  predicate FailsAlike(round: Round, signature: string) {
    !BugfixStands(round) && FailureSignature(BugfixFlags(round), Some(GATES_REJECTED)) == signature
  }

  /** A failure no bugfix changes gets as many attempts as are configured, at least one, and is then given up. */
  lemma AttemptsAreSpent(flags: seq<string>, maxBugfixAttempts: Option<int>, answers: nat -> Round)
    requires !RequiresHumanSecurityApproval(flags) && !HasNonRecoverableRuntimeBlocker(flags)
    requires var signature := FailureSignature(flags, Some(GATES_REJECTED));
             && !IsRuntimeOwnedRecoverySignature(signature) && !IsPoisoned(signature, flags, Some(GATES_REJECTED))
             && forall n: nat :: FailsAlike(answers(n), signature)
                  && !IsPoisoned(signature, BugfixFlags(answers(n)), Some(GATES_REJECTED))
    ensures var run := GateRecovery(flags, maxBugfixAttempts, answers);
            && run.end.Exhausted?
            && |run.dispatches| == (if maxBugfixAttempts.Some? && maxBugfixAttempts.value >= 1
                                    then maxBugfixAttempts.value else 1)
  {
    hide FailureSignature, IsRuntimeOwnedRecoverySignature, IsPoisoned, Loop, HasNonRecoverableRuntimeBlocker,
      RequiresHumanSecurityApproval, FailsAlike, BugfixFlags;
    SpendsTheRest(Fresh(flags, Some(GATES_REJECTED)), flags, answers, Attempts(maxBugfixAttempts));
  }

  lemma {:induction false} SpendsTheRest(b: Budget, flags: seq<string>, answers: nat -> Round, attempts: nat)
    requires b.attemptForSignature == b.total <= attempts
    requires b.signature == FailureSignature(flags, Some(GATES_REJECTED))
    requires !IsRuntimeOwnedRecoverySignature(b.signature) && !IsPoisoned(b.signature, flags, Some(GATES_REJECTED))
    requires forall n: nat :: FailsAlike(answers(n), b.signature)
                              && !IsPoisoned(b.signature, BugfixFlags(answers(n)), Some(GATES_REJECTED))
    ensures var run := Loop(b, flags, Some(GATES_REJECTED), answers, attempts, false);
            run.end.Exhausted? && |run.dispatches| == attempts - b.total
    decreases attempts - b.total
  {
    hide FailureSignature, IsRuntimeOwnedRecoverySignature, IsPoisoned, BlockingRecoveryFlags, GateTurn,
      HasNonRecoverableRuntimeBlocker;
    if b.total < attempts {
      var round := answers(b.total);
      assert FailsAlike(round, b.signature);
      var next := Decide(b, flags, Some(GATES_REJECTED), attempts).budget;
      FailedBugfixGoesOn(false, round, b.signature);
      SpendsTheRest(next, BugfixFlags(round), answers, attempts);
    }
  }
}
