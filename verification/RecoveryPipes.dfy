/** Signatures of flags that may hold pipe characters: exactly when one is runtime-owned, and exactly when a repeated
    failure ends as a poisoned loop. */
module RecoveryPipes {
  import opened Wrappers
  import opened Sequences
  import opened Text
  import opened FindingState
  import opened RecoverySignatures
  import opened RecoveryLoops
  import opened RecoveryProperties

  // ---- The parts of a signature ----

  lemma {:induction false} SplitConcat(a: string, b: string)
    ensures Split(a + "|" + b, '|') == Split(a, '|') + Split(b, '|')
    decreases |a|
  {
    hide Before;
    var part, joined := Before(a, '|'), a + "|" + b;
    FirstOfConcat(a, b);
    if |part| == |a| {
      assert joined[|part| + 1..] == b;
    } else {
      var rest := a[|part| + 1..];
      assert joined[|part| + 1..] == rest + "|" + b;
      SplitConcat(rest, b);
      assert [part] + (Split(rest, '|') + Split(b, '|')) == [part] + Split(rest, '|') + Split(b, '|');
    }
  }

  lemma FirstOfConcat(a: string, b: string)
    ensures Before(a + "|" + b, '|') == Before(a, '|') && |Before(a, '|')| < |a + "|" + b|
  {
    var part := Before(a, '|');
    var rest := (a + "|" + b)[|part|..];
    assert a + "|" + b == part + rest && rest[0] == '|';
    BeforeOfJoined(part, rest, '|');
    assert Before(rest, '|') == "";
    assert part + "" == part;
  }

  /** The parts of all flags: what a pipe separates, trimmed, without the empty ones. */
  function AllParts(flags: seq<string>): seq<string> {
    if flags == [] then [] else SignatureFlags(flags[0]) + AllParts(flags[1..])
  }

  lemma SignatureConcat(a: string, b: string)
    ensures SignatureFlags(a + "|" + b) == SignatureFlags(a) + SignatureFlags(b)
  {
    hide Split, Trim;
    SplitConcat(a, b);
    var one, two := Split(a, '|'), Split(b, '|');
    assert Map(Trim, one + two) == Map(Trim, one) + Map(Trim, two);
    FilterAppend((flag: string) => flag != "", Map(Trim, one), Map(Trim, two));
  }

  /** A joined list has the parts of its members. */
  lemma {:induction false} SignatureOfJoined(flags: seq<string>)
    requires flags != []
    ensures SignatureFlags(Join(flags)) == AllParts(flags)
  {
    hide SignatureFlags;
    if |flags| == 1 {
      assert AllParts(flags[1..]) == [];
    } else {
      SignatureConcat(flags[0], Join(flags[1..]));
      SignatureOfJoined(flags[1..]);
    }
  }

  lemma {:induction false} PartOfSome(flags: seq<string>, part: string)
    ensures part in AllParts(flags) <==> exists flag | flag in flags :: part in SignatureFlags(flag)
  {
    hide SignatureFlags;
    if flags != [] {
      PartOfSome(flags[1..], part);
      assert forall flag :: flag in flags <==> flag == flags[0] || flag in flags[1..];
    }
  }

  /** The signature of the flags is owned: they have parts, and all are. */
  predicate PartsOwned(flags: seq<string>) {
    AllParts(flags) != [] && AllRuntimeOwned(AllParts(flags))
  }

  lemma SameParts(a: seq<string>, b: seq<string>)
    requires SameFlags(a, b)
    ensures PartsOwned(a) <==> PartsOwned(b)
  {
    hide AllRuntimeOwned, SignatureFlags, AllParts;
    forall part ensures part in AllParts(a) <==> part in AllParts(b) {
      PartOfSome(a, part);
      PartOfSome(b, part);
    }
    AllOwnedSame(AllParts(a), AllParts(b));
    if AllParts(a) != [] { assert AllParts(a)[0] in AllParts(b); }
    if AllParts(b) != [] { assert AllParts(b)[0] in AllParts(a); }
  }

  /** For any flags: their signature is runtime-owned exactly when they have parts and every part is owned. */
  lemma OwnedExactly(flags: seq<string>, failureType: Option<string>)
    requires BlockingRecoveryFlags(flags, failureType) != []
    ensures IsRuntimeOwnedRecoverySignature(FailureSignature(flags, failureType)) <==>
            PartsOwned(BlockingRecoveryFlags(flags, failureType))
  {
    hide BlockingRecoveryFlags, AllRuntimeOwned, SignatureFlags, AllParts, Join, Sort;
    var blocking := BlockingRecoveryFlags(flags, failureType);
    BlockingFlagsShape(flags, failureType);
    SortSorts(blocking);
    var sorted := Sort(blocking);
    assert blocking[0] in sorted;
    assert sorted[0] in blocking && AllNormalized(blocking);
    JoinedIsNotEmpty(sorted);
    SignatureOfJoined(sorted);
    SameParts(sorted, blocking);
  }

  lemma JoinedIsNotEmpty(flags: seq<string>)
    requires flags != [] && flags[0] != ""
    ensures Join(flags) != ""
  {
  }

  // ---- Failures that look owned flag by flag, and not as a signature ----

  /** Every blocking flag is runtime-owned, but not every part of them. */
  predicate Hidden(flags: seq<string>, failureType: Option<string>) {
    var blocking := BlockingRecoveryFlags(flags, failureType);
    blocking != [] && AllRuntimeOwned(blocking) && !PartsOwned(blocking)
  }

  /** On a signature a bugfix was dispatched for, flags look poisoned exactly when they have that signature and are
      hidden. */
  lemma PoisonedExactly(signature: string, flags: seq<string>, failureType: Option<string>)
    requires !IsRuntimeOwnedRecoverySignature(signature)
    ensures IsPoisoned(signature, flags, failureType) <==>
            FailureSignature(flags, failureType) == signature && Hidden(flags, failureType)
  {
    hide BlockingRecoveryFlags, AllRuntimeOwned, PartsOwned, FailureSignature, IsRuntimeOwnedRecoverySignature;
    if BlockingRecoveryFlags(flags, failureType) != [] { OwnedExactly(flags, failureType); }
  }

  /** A failure is dispatched, and looks poisoned when it comes back, exactly when its flags are hidden. */
  lemma DispatchedThenPoisoned(flags: seq<string>, failureType: Option<string>)
    ensures var signature := FailureSignature(flags, failureType);
            !IsRuntimeOwnedRecoverySignature(signature) && IsPoisoned(signature, flags, failureType) <==>
              Hidden(flags, failureType)
  {
    hide BlockingRecoveryFlags, AllRuntimeOwned, PartsOwned, FailureSignature, IsRuntimeOwnedRecoverySignature;
    if BlockingRecoveryFlags(flags, failureType) != [] { OwnedExactly(flags, failureType); }
  }

  /** Flags without pipe characters are never hidden. */
  lemma PipeFreeIsNotHidden(flags: seq<string>, failureType: Option<string>)
    requires PipeFree(flags + [failureType.Or(UNKNOWN)])
    ensures !Hidden(flags, failureType)
  {
    hide FailureSignature, IsRuntimeOwnedRecoverySignature, IsPoisoned, Hidden;
    DispatchedThenPoisoned(flags, failureType);
    if !IsRuntimeOwnedRecoverySignature(FailureSignature(flags, failureType)) {
      NeverPoisoned(FailureSignature(flags, failureType), flags, failureType);
    }
  }

  // ---- The loops ----

  /** The flags a turn goes on with or compares with the signature. */
  function TurnFlags(adversarial: bool, round: Round): (seq<string>, Option<string>) {
    if !adversarial then
      (if !BugfixAccepted(round) then BugfixFlags(round)
       else if GatesPassed(round.gates) then Ids(BlockingOpenFindings(round.state))
         else GateFlags(round.gates), Some(GATES_REJECTED))
    else if !BugfixAccepted(round) then (BugfixFlags(round), Some("BUGFIX_RESULT_INVALID"))
    else if !GatesPassed(round.gates) then
      (GateFlags(round.gates), Some("RUNTIME_GATES_REJECTED_AFTER_VALIDATION_BUGFIX"))
    else (round.validationContract.flags + round.validation.flags +
          [round.validation.failureType.Or("VALIDATOR_REJECTED_AFTER_BUGFIX")], round.validation.failureType)
  }

  predicate HiddenRound(adversarial: bool, round: Round) {
    Hidden(TurnFlags(adversarial, round).0, TurnFlags(adversarial, round).1)
  }

  lemma TurnGoesOn(adversarial: bool, round: Round, signature: string)
    ensures var turn, next := TurnOf(adversarial, round, signature), TurnFlags(adversarial, round);
            && (turn.Continue? ==> turn.flags == next.0 && turn.failureType == next.1)
            && (turn.Poisoned? ==> IsPoisoned(signature, next.0, next.1))
  {
    hide IsPoisoned, GatesPassed, BlockingOpenFindings, Adjudicate, BugfixFlags, GateFlags, Ids, BugfixAccepted;
  }

  /** A loop ends as poisoned only on hidden flags: of the failure it starts with, or of a round. */
  lemma {:induction false} PoisonedNeedsHidden(b: Budget, flags: seq<string>, failureType: Option<string>,
                                               answers: nat -> Round,
                                               attempts: nat, adversarial: bool)
    requires !Hidden(flags, failureType) && forall n: nat :: !HiddenRound(adversarial, answers(n))
    ensures !Loop(b, flags, failureType, answers, attempts, adversarial).end.PoisonedLoop?
    decreases 4 * attempts - b.total
  {
    hide FailureSignature, HasNonRecoverableRuntimeBlocker, IsRuntimeOwnedRecoverySignature, IsPoisoned, TurnOf,
      BlockingRecoveryFlags,
         Hidden, TurnFlags;
    if b.total < 4 * attempts && !IsRuntimeOwnedRecoverySignature(FailureSignature(flags, failureType)) {
      PoisonedExactly(FailureSignature(flags, failureType), flags, failureType);
      var decision := Decide(b, flags, failureType, attempts);
      if decision.Go? {
        var round, signature := answers(b.total), decision.budget.signature;
        var next := TurnFlags(adversarial, round);
        assert !HiddenRound(adversarial, round);
        TurnGoesOn(adversarial, round, signature);
        PoisonedExactly(signature, next.0, next.1);
        if TurnOf(adversarial, round, signature).Continue? {
          PoisonedNeedsHidden(decision.budget, next.0, next.1, answers, attempts, adversarial);
        }
      }
    }
  }

  /** Every flag that reaches a turn is pipe-free. */
  predicate PipeFreeRound(round: Round) {
    && PipeFree(BugfixFlags(round)) && PipeFree(GateFlags(round.gates))
      && PipeFree(Ids(BlockingOpenFindings(round.state)))
    && PipeFree(round.validationContract.flags + round.validation.flags
                + [round.validation.failureType.Or("VALIDATOR_REJECTED_AFTER_BUGFIX")])
    && '|' !in round.validation.failureType.Or(UNKNOWN)
  }

  lemma PipeFreeRoundIsNotHidden(adversarial: bool, round: Round)
    requires PipeFreeRound(round)
    ensures !HiddenRound(adversarial, round)
  {
    hide Hidden, GatesPassed, BlockingOpenFindings, BugfixFlags, GateFlags, Ids, BugfixAccepted;
    NoPipes();
    var next := TurnFlags(adversarial, round);
    assert PipeFree(next.0) && '|' !in next.1.Or(UNKNOWN);
    PipeFreeIsNotHidden(next.0, next.1);
  }

  /** For flags without pipe characters the poisoned-loop exits are unreachable, for all answers. */
  lemma PoisonedIsUnreachable(b: Budget, flags: seq<string>, failureType: Option<string>, answers: nat -> Round,
                              attempts: nat,
                              adversarial: bool)
    requires PipeFree(flags + [failureType.Or(UNKNOWN)]) && forall n: nat :: PipeFreeRound(answers(n))
    ensures !Loop(b, flags, failureType, answers, attempts, adversarial).end.PoisonedLoop?
  {
    hide Loop, Hidden, HiddenRound, PipeFree, PipeFreeRound;
    PipeFreeIsNotHidden(flags, failureType);
    forall n: nat ensures !HiddenRound(adversarial, answers(n)) {
      PipeFreeRoundIsNotHidden(adversarial, answers(n));
    }
    PoisonedNeedsHidden(b, flags, failureType, answers, attempts, adversarial);
  }

  /** When an accepted bugfix leaves the gates failing as before, without an adjudication, gate recovery ends as
      poisoned after this one dispatch exactly when the flags are hidden. */
  lemma RepeatPoisonsExactly(flags: seq<string>, maxBugfixAttempts: Option<int>, answers: nat -> Round)
    requires !RequiresHumanSecurityApproval(flags) && !HasNonRecoverableRuntimeBlocker(flags)
    requires BugfixAccepted(answers(0)) && !GatesPassed(answers(0).gates) && GateFlags(answers(0).gates) == flags
    requires answers(0).existing.None? && answers(0).written.None?
    ensures var run := GateRecovery(flags, maxBugfixAttempts, answers);
            run.end.PoisonedLoop? && |run.dispatches| == 1 <==> Hidden(flags, Some(GATES_REJECTED))
  {
    hide FailureSignature, IsRuntimeOwnedRecoverySignature, RequiresHumanSecurityApproval,
      HasNonRecoverableRuntimeBlocker, Loop, IsPoisoned,
         GateTurn, Hidden;
    DispatchedThenPoisoned(flags, Some(GATES_REJECTED));
    RepeatedTurn(flags, answers(0));
    RepeatedLoop(flags, answers, Attempts(maxBugfixAttempts));
  }

  lemma RepeatedTurn(flags: seq<string>, round: Round)
    requires BugfixAccepted(round) && !GatesPassed(round.gates) && GateFlags(round.gates) == flags
    requires round.existing.None? && round.written.None?
    ensures var signature := FailureSignature(flags, Some(GATES_REJECTED));
            GateTurn(round, signature) ==
            if IsPoisoned(signature, flags, Some(GATES_REJECTED)) then Poisoned
              else Continue(flags, Some(GATES_REJECTED))
  {
    hide BugfixAccepted, GatesPassed, GateFlags, IsPoisoned, FailureSignature, AdjudicationAllowed,
      BlockingOpenFindings;
  }

  lemma RepeatedLoop(flags: seq<string>, answers: nat -> Round, attempts: nat)
    requires attempts >= 1
    requires var signature := FailureSignature(flags, Some(GATES_REJECTED));
             GateTurn(answers(0), signature) ==
             if IsPoisoned(signature, flags, Some(GATES_REJECTED)) then Poisoned
               else Continue(flags, Some(GATES_REJECTED))
    ensures var signature := FailureSignature(flags, Some(GATES_REJECTED));
            var run := Loop(Fresh(flags, Some(GATES_REJECTED)), flags, Some(GATES_REJECTED), answers, attempts, false);
            run.end.PoisonedLoop? && |run.dispatches| == 1 <==>
            !IsRuntimeOwnedRecoverySignature(signature) && IsPoisoned(signature, flags, Some(GATES_REJECTED))
  {
    hide FailureSignature, IsRuntimeOwnedRecoverySignature, GateTurn, BlockingRecoveryFlags,
      HasNonRecoverableRuntimeBlocker, IsPoisoned;
    var signature := FailureSignature(flags, Some(GATES_REJECTED));
    if !IsRuntimeOwnedRecoverySignature(signature) && !IsPoisoned(signature, flags, Some(GATES_REJECTED)) {
      var next := Decide(Fresh(flags, Some(GATES_REJECTED)), flags, Some(GATES_REJECTED), attempts).budget;
      NotPoisonedYet(next, flags, answers, attempts);
    }
  }

  /** A failure that does not look poisoned at the head of an iteration ends it otherwise, or is dispatched again. */
  lemma NotPoisonedYet(b: Budget, flags: seq<string>, answers: nat -> Round, attempts: nat)
    requires !IsPoisoned(FailureSignature(flags, Some(GATES_REJECTED)), flags, Some(GATES_REJECTED))
    ensures var run := Loop(b, flags, Some(GATES_REJECTED), answers, attempts, false);
            run.end.PoisonedLoop? ==> |run.dispatches| >= 1
  {
    hide FailureSignature, IsRuntimeOwnedRecoverySignature, GateTurn, BlockingRecoveryFlags,
      HasNonRecoverableRuntimeBlocker, IsPoisoned;
  }
}
