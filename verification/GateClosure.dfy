/** What recorded gates do to a finding of the product, told on the gates' own fields
    (tools/klevar-yolo-runtime/src/runtime-batch-state.ts:116-154). */
module GateClosure {
  import opened Wrappers
  import opened Sequences
  import opened Text
  import opened FlagClassification
  import opened OrdinaryFlags
  import opened FindingEvidence
  import opened FindingState
  import opened FindingProperties
  import opened GateProperties
  import opened FixEvidence
  import opened RuntimeTypes

  // ---- Gates ----

  predicate IsHard(flag: string, gate: string) {
    !IsWarningFlag(flag, gate) && !IsPositiveFlag(flag) && !StartsWith(flag, "RECOVERED_")
  }

  /** A failed gate with nothing but warnings does not count. */
  predicate Counts(gate: GateResult) {
    gate.passed || exists k | 0 <= k < |gate.flags| :: !IsWarningFlag(gate.flags[k], gate.name)
  }

  /** The gate passed without a hard flag, and not on warnings alone. */
  predicate IsClean(gate: GateResult) {
    && gate.passed
    && (forall k | 0 <= k < |gate.flags| :: !IsHard(gate.flags[k], gate.name))
    && (gate.flags == [] || exists k | 0 <= k < |gate.flags| :: !IsWarningFlag(gate.flags[k], gate.name))
  }

  /** The gate listed the finding when it was last recorded, or the finding comes from it. */
  predicate Answers(state: BatchState, gate: string, id: string) {
    || (gate in state.gates && id in state.gates[gate].flags)
    || (Get(state.findings, id).Some? && Get(state.findings, id).value.source == "gate:" + gate)
  }

  lemma CleanMeans(gate: GateResult)
    ensures PassesCleanly(gate) <==> IsClean(gate)
    ensures Contributes(gate) <==> Counts(gate)
  {
    hide IsWarningFlag, IsPositiveFlag, StartsWith;
    var keep := (flag: string) => IsHardFlag(flag, gate.name);
    var hard := HardFlags(gate);
    if hard != [] {
      FilterKeeps(keep, gate.flags, hard[0]);
      var k :| 0 <= k < |gate.flags| && gate.flags[k] == hard[0];
      assert IsHard(gate.flags[k], gate.name);
    }
    if k :| 0 <= k < |gate.flags| && IsHard(gate.flags[k], gate.name) {
      FilterKeeps(keep, gate.flags, gate.flags[k]);
    }
  }

  lemma AnswersMeans(state: BatchState, gate: string, id: string)
    requires UniqueIds(state.findings)
    ensures Cleared(state, gate, id) <==> Answers(state, gate, id)
  {
    if i :| 0 <= i < |state.findings| && state.findings[i].id == id && state.findings[i].source == "gate:" + gate {
      GetAt(state.findings, i);
    }
    if Get(state.findings, id).Some? {
      var k := Find(state.findings, id);
      assert state.findings[k].id == id;
    }
  }

  // ---- Open findings of the product ----

  /** An open product-owned finding is closed exactly by a gate that counts and reports a fix of it, by a clean gate
      that answers for it, or by a fix the current result reports; then it is fixed. */
  lemma GatesCloseExactly(state: BatchState, gates: seq<GateResult>, id: string)
    requires Canonical(state) && IsProductOwnedFinding(id)
    requires Get(state.findings, id).Some? && Get(state.findings, id).value.status.Open?
    ensures var after := Get(RecordGateState(state, gates).findings, id);
            && after.Some?
            && after.value.status ==
               if (exists i | 0 <= i < |gates| :: Counts(gates[i]) && HasFixEvidenceFromFlags(gates[i].flags, id))
                 || (exists i | 0 <= i < |gates| :: IsClean(gates[i]) && Answers(state, gates[i].name, id))
                 || HasFixEvidenceFromFlags(state.currentResult.flags, id)
               then Fixed else Open
  {
    hide RecordGateState, HasFixEvidenceFromFlags, IsProductOwnedFinding, NeverOpen, Contributes, PassesCleanly, Counts,
      IsClean, Cleared, Answers, AfterGates, GateDecided, Get, HasOpenWiring, ClosedByRebuild, Passed;
    forall i | 0 <= i < |gates|
      ensures PassesCleanly(gates[i]) <==> IsClean(gates[i])
      ensures Contributes(gates[i]) <==> Counts(gates[i])
      ensures Cleared(state, gates[i].name, id) <==> Answers(state, gates[i].name, id)
    {
      CleanMeans(gates[i]);
      AnswersMeans(state, gates[i].name, id);
    }
    ProductOwnedAfterGates(state, gates, id);
    ClosedIsFixed(state, gates, id);
  }

  lemma ClosedIsFixed(state: BatchState, gates: seq<GateResult>, id: string)
    requires Canonical(state) && IsProductOwnedFinding(id)
    requires Get(state.findings, id).Some? && Get(state.findings, id).value.status.Open?
    ensures var after := Get(RecordGateState(state, gates).findings, id);
            after.Some? && (after.value.status.Open? || after.value.status.Fixed?)
  {
    hide RecordGateState, HasFixEvidenceFromFlags, IsProductOwnedFinding, NeverOpen, PassedFlag, FixedBySomeGate,
      ListedBySomeGate, AfterGates, Get, HasOpenWiring, Passed, IsBlockingFlag, IsTrustedSuccessfulRecoveryEvidence;
    GatesDecide(state, gates, id);
    var f := Get(AfterGates(state.findings, gates), id).value;
    assert f.id == id;
    NotTooling(f);
  }

  lemma NotTooling(f: Finding)
    requires IsProductOwnedFinding(f.id)
    ensures !IsRuntimeSupportOrToolingFinding(f)
  {
  }

  // ---- New findings ----

  lemma {:induction false} NewIsOpen(findings: seq<Finding>, gate: GateResult, flags: seq<string>, id: string)
    requires id in flags
    ensures var was, added := Get(findings, id), Get(AddHardFlags(findings, gate, flags), id);
            && added.Some? && added.value.source == "gate:" + gate.name
            && added.value.status == if was.Some? then was.value.status else Open
  {
    hide Get, Unique, Upsert;
    var n := |flags| - 1;
    var byId := AddHardFlags(findings, gate, flags[..n]);
    InFrontOrLast(flags, id);
    UpsertGet(byId, GateFinding(flags[n], gate, Get(byId, flags[n])), id);
    if id in flags[..n] { NewIsOpen(findings, gate, flags[..n], id); }
    HardFlagsAdd(findings, gate, flags[..n], id);
  }

  lemma SourceIsKept(state: BatchState, gates: seq<GateResult>, id: string)
    requires UniqueIds(state.findings) && Get(AfterGates(state.findings, gates), id).Some?
    ensures var after := Get(RecordGateState(state, gates).findings, id);
            after.Some? && after.value.source == Get(AfterGates(state.findings, gates), id).value.source
  {
    hide RecordGateState, AfterGates, Get, PassedFlag, HasFixEvidenceFromFlags, HasOpenWiring, ClosedByRebuild, Passed,
      NeverOpen, IsTrustedSuccessfulRecoveryEvidence, IsBlockingFlag, IsRuntimeSupportOrToolingFinding, Unique,
      TransitionedFindings;
    RecordedAt(state, gates, id);
  }

  /** A gate that counts and lists a hard flag without reporting a fix of it opens a finding for it; a finding that is
      there keeps its status. */
  lemma HardFlagOpens(state: BatchState, gate: GateResult, flag: string)
    requires Canonical(state) && IsProductOwnedFinding(flag) && flag != ""
    requires Counts(gate) && flag in gate.flags && IsHard(flag, gate.name)
    requires AllUnrelated(gate.flags, flag) && AllUnrelated(state.currentResult.flags, flag)
    ensures var was, after := Get(state.findings, flag), Get(RecordGateState(state, [gate]).findings, flag);
            && after.Some? && after.value.source == "gate:" + gate.name
            && after.value.status == if was.Some? then was.value.status else Open
  {
    hide RecordGateState, HasFixEvidenceFromFlags, IsProductOwnedFinding, AllUnrelated, Get, HasOpenWiring, Passed,
      IsBlockingFlag, IsTrustedSuccessfulRecoveryEvidence, IsWarningFlag, IsPositiveFlag, AddHardFlags, StartsWith,
      HasFixFlags, Counts, Contributes, Canonical, FixedByFlags, IsRuntimeSupportOrToolingFinding;
    assert UniqueIds(state.findings) by { UniqueOf(state); }
    GatesDecide(state, [gate], flag);
    UnrelatedIsNoEvidence(gate.flags, flag);
    UnrelatedIsNoEvidence(state.currentResult.flags, flag);
    CleanMeans(gate);
    FilterKeeps((f: string) => IsHardFlag(f, gate.name), gate.flags, flag);
    assert !PassesCleanly(gate);
    NewIsOpen(state.findings, gate, HardFlags(gate), flag);
    OnlyGate(state, gate, flag);
    SourceIsKept(state, [gate], flag);
    var f := Get(AfterGates(state.findings, [gate]), flag).value;
    NotTooling(f);
    AggregateIsNotProductOwned();
  }

  lemma UniqueOf(state: BatchState)
    requires Canonical(state)
    ensures UniqueIds(state.findings)
  {
  }

  lemma OnlyGate(state: BatchState, gate: GateResult, flag: string)
    requires UniqueIds(state.findings) && Contributes(gate) && !HasFixEvidenceFromFlags(gate.flags, flag)
    requires Get(AddHardFlags(state.findings, gate, HardFlags(gate)), flag).Some?
    ensures Get(AfterGates(state.findings, [gate]), flag)
            == Get(AddHardFlags(state.findings, gate, HardFlags(gate)), flag)
  {
    hide Get, AddHardFlags, HasFixEvidenceFromFlags, HasFixFlags, Contributes, HardFlags;
    assert [gate][..0] == [];
    assert AfterGates(state.findings, []) == state.findings;
    var added := AddHardFlags(state.findings, gate, HardFlags(gate));
    FixedFindings(added, gate.flags, flag);
  }

  // ---- A missing check ----

  /** A failing gate whose only flag is hard opens a finding that carries its name. */
  lemma FailingGateOpens(state: BatchState, gate: string, flag: string)
    requires Canonical(state) && state.currentResult.flags == [] && Get(state.findings, flag).None?
    requires IsProductOwnedFinding(flag) && flag != "" && Unrelated(flag, flag) && IsHard(flag, gate)
    ensures var failed := RecordGateState(state, [GateResult(gate, false, [flag])]);
            && Canonical(failed) && failed.gates == state.gates[gate := GateRecord(false, [flag])]
            && failed.currentResult == state.currentResult && Get(failed.findings, flag).Some?
            && Get(failed.findings, flag).value.status.Open?
            && Get(failed.findings, flag).value.source == "gate:" + gate
  {
    hide IsProductOwnedFinding, Get, Unrelated, IsWarningFlag, IsPositiveFlag, NeverOpen, Canonical, RecordGateState,
      StartsWith;
    var failed := GateResult(gate, false, [flag]);
    assert !IsWarningFlag(failed.flags[0], failed.name);
    HardFlagOpens(state, failed, flag);
    StepKeeps(state, 0, GatesEvent([failed]), flag);
    OneGateRecorded(state, failed);
  }

  lemma OneGateRecorded(state: BatchState, gate: GateResult)
    ensures var next := RecordGateState(state, [gate]);
            && next.gates == state.gates[gate.name := GateRecord(gate.passed, gate.flags)]
            && next.currentResult == state.currentResult
  {
    hide TransitionedFindings, ClosureTraces, GateEvidence;
    assert [gate][..0] == [] && GateTable(state.gates, []) == state.gates;
  }

  lemma AuthDoesNotRecover()
    ensures !StartsWith(AUTH, "RECOVERED_")
  {
    assert "RECOVERED_"[0] == 'R' && AUTH[0] == 'A';
  }

  /** A finding that one gate opened is fixed by that gate passing without flags, and by no other. */
  lemma OnlyItsGateCloses(state: BatchState, own: string, gate: string, flag: string)
    requires Canonical(state) && state.currentResult.flags == [] && IsProductOwnedFinding(flag)
    requires state.gates == map[own := GateRecord(false, [flag])] && Get(state.findings, flag).Some?
    requires var f := Get(state.findings, flag).value; f.status.Open? && f.source == "gate:" + own
    ensures var after := Get(RecordGateState(state, [GateResult(gate, true, [])]).findings, flag);
            after.Some? && after.value.status == if gate == own then Fixed else Open
  {
    hide RecordGateState, IsProductOwnedFinding, Get, NeverOpen, Canonical, HasFixEvidenceFromFlags;
    var passed := [GateResult(gate, true, [])];
    GatesCloseExactly(state, passed, flag);
    assert IsClean(passed[0]);
    NothingIsNoEvidence(flag);
    SourceEnds(gate, own);
    assert Answers(state, passed[0].name, flag) <==> gate == own;
  }

  /** A failing gate that lists `AUTH_CHECK_MISSING` opens the finding; the gate passing without flags fixes it, and
      another gate passing does not. */
  lemma MissingCheckFollowsItsGate(state: BatchState, own: string, gate: string)
    requires Canonical(state) && state.currentResult.flags == []
    requires state.gates == map[] && Get(state.findings, AUTH).None?
    ensures var failed := RecordGateState(state, [GateResult(own, false, [AUTH])]);
            var next := RecordGateState(failed, [GateResult(gate, true, [])]);
            && Get(failed.findings, AUTH).Some? && Get(failed.findings, AUTH).value.status.Open?
            && Get(next.findings, AUTH).Some?
            && Get(next.findings, AUTH).value.status == if gate == own then Fixed else Open
  {
    hide RecordGateState, IsProductOwnedFinding, Get, IsWarningFlag, IsPositiveFlag, NeverOpen, Canonical, Unrelated,
      StartsWith;
    AuthIsProductOwned();
    AuthIsHard(own);
    AuthIsNoEvidence();
    AuthDoesNotRecover();
    AuthIsOrdinary();
    FailingGateOpens(state, own, AUTH);
    OnlyItsGateCloses(RecordGateState(state, [GateResult(own, false, [AUTH])]), own, gate, AUTH);
  }

  lemma SourceEnds(gate: string, own: string)
    ensures "gate:" + gate == "gate:" + own <==> gate == own
  {
    assert ("gate:" + gate)[5..] == gate && ("gate:" + own)[5..] == own;
  }

  lemma NothingIsNoEvidence(id: string)
    ensures !HasFixEvidenceFromFlags([], id)
  {
    assert FixedPrefixes([]) == {};
  }
}
