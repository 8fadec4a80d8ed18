/** The loops of the findings code over a Map of findings
    (tools/klevar-yolo-runtime/src/runtime-batch-state.ts:125-182 and 262-278), each proved to compute its
    specification. */
module FindingLoops {
  import opened Sequences
  import opened FindingEvidence
  import opened FindingState
  import opened RuntimeTypes

  /** `for (const [id, finding] of byId.entries()) if (when) byId.set(id, to)` */
  method SetWhere(findings: seq<Finding>, when: Finding -> bool, to: Finding -> Finding) returns (byId: seq<Finding>)
    ensures byId == Map((f: Finding) => if when(f) then to(f) else f, findings)
  {
    byId := findings;
    for n := 0 to |byId|
      invariant |byId| == |findings| && byId[n..] == findings[n..]
      invariant forall i | 0 <= i < n :: byId[i] == if when(findings[i]) then to(findings[i]) else findings[i]
    {
      assert byId[n] == findings[n];
      if when(byId[n]) {
        byId := byId[n := to(byId[n])];
      }
    }
  }

  /** `reconcileFindings` */
  method ReconcileFindings(findings: seq<Finding>, result: BatchResult, source: string) returns (byId: seq<Finding>)
    ensures byId == Reconcile(findings, result, source)
  {
    hide IsRuntimeOnlyResult, HasPassingCommandEvidence, IsRuntimeOwnedFinding, CanResultCloseFindingsByFlag,
      HasFixEvidenceFromFlags, Unique,
         Get, Upsert, CloseNoting;
    byId := [];
    for n := 0 to |findings|
      invariant byId == Accumulate(findings[..n])
    {
      assert findings[..n + 1][..n] == findings[..n];
      var finding := findings[n];
      byId := Upsert(byId, finding.(evidence := Unique(EvidenceOf(Get(byId, finding.id)) + finding.evidence)));
    }
    assert findings[..|findings|] == findings;
    if Quarantines(result, source) {
      byId := SetWhere(byId, (f: Finding) => f.status.Open? && IsRuntimeOwnedFinding(f.id),
                       (f: Finding) =>
                         CloseNoting(f, Stale, "stale-runtime-owned-finding-quarantined-by-passing-recovery-command"));
    }
    if CanResultCloseFindingsByFlag(result, source) {
      byId := SetWhere(byId, (f: Finding) => HasFixEvidenceFromFlags(result.flags, f.id),
                       (f: Finding) => Close(f, Fixed));
    }
  }

  /** `closureTracesFromDiff` */
  method ClosureTracesFromDiff(before: seq<Finding>, after: seq<Finding>, cause: string, evidence: seq<string>)
    returns (traces: seq<ClosureTrace>)
    ensures traces == ClosureTraces(before, after, cause, evidence)
  {
    hide Get, ById, Unique;
    var prior := ById(before);
    traces := [];
    for n := 0 to |after|
      invariant traces == ClosureTraces(before, after[..n], cause, evidence)
    {
      assert after[..n + 1][..n] == after[..n];
      var finding := after[n];
      var previous := Get(prior, finding.id);
      if previous.None? || previous.value.status == finding.status || finding.status.Open? {
        continue;
      }
      traces := traces + [ClosureTrace(finding.id, previous.value.status, finding.status,
                                       if finding.id == AGGREGATE then "aggregate-wiring-closed" else cause,
                                       Unique(evidence + finding.evidence))];
    }
    assert after[..|after|] == after;
  }

  /** The findings a cleanly passing gate clears: those its last record lists and those it raised. */
  method ClearedByGate(state: BatchState, gate: string) returns (cleared: set<string>)
    ensures forall id :: id in cleared <==> Cleared(state, gate, id)
  {
    cleared := {};
    var prior := if gate in state.gates then state.gates[gate].flags else [];
    for n := 0 to |prior|
      invariant forall id :: id in cleared <==> id in prior[..n]
    {
      cleared := cleared + {prior[n]};
    }
    assert forall id :: id in cleared <==> gate in state.gates && id in state.gates[gate].flags by {
      assert prior[..|prior|] == prior;
    }
    for n := 0 to |state.findings|
      invariant forall id :: id in cleared <==>
        (gate in state.gates && id in state.gates[gate].flags) ||
        (exists i | 0 <= i < n :: state.findings[i].id == id && state.findings[i].source == "gate:" + gate)
    {
      if state.findings[n].source == "gate:" + gate {
        cleared := cleared + {state.findings[n].id};
      }
    }
  }

  /** The part of the gate loop that adds a gate's hard flags and fixes what its flags are evidence for. */
  method ApplyGate(findings: seq<Finding>, gate: GateResult) returns (byId: seq<Finding>)
    ensures byId == AfterGate(findings, gate)
  {
    hide Get, Upsert, AllWarnings, HasFixFlags, HasFixEvidenceFromFlags, HardFlags, GateFinding;
    byId := findings;
    if !gate.passed && AllWarnings(gate) {
      return;
    }
    var hardFlags := HardFlags(gate);
    for n := 0 to |hardFlags|
      invariant byId == AddHardFlags(findings, gate, hardFlags[..n])
    {
      assert hardFlags[..n + 1][..n] == hardFlags[..n];
      byId := Upsert(byId, GateFinding(hardFlags[n], gate, Get(byId, hardFlags[n])));
    }
    assert hardFlags[..|hardFlags|] == hardFlags;
    if HasFixFlags(gate.flags) {
      byId := SetWhere(byId, (f: Finding) => HasFixEvidenceFromFlags(gate.flags, f.id),
                       (f: Finding) => Close(f, Fixed));
    }
  }

  /** `transitionFindingsForGates` */
  method TransitionFindings(state: BatchState, gates: seq<GateResult>) returns (next: BatchState)
    ensures next == TransitionFindingsForGates(state, gates)
  {
    hide AfterGate, PassesCleanly, Cleared, ById, HasFixEvidenceFromFlags, CloseAggregateFindings,
      RebuildActiveFindings, ClosureTraces, GateEvidence;
    var byId := ById(state.findings);
    var passedFlags: set<string> := {};
    for n := 0 to |gates|
      invariant byId == AfterGates(ById(state.findings), gates[..n])
      invariant forall id :: id in passedFlags <==> PassedFlag(state, gates[..n], id)
    {
      assert gates[..n + 1] == gates[..n] + [gates[n]];
      if PassesCleanly(gates[n]) {
        var cleared := ClearedByGate(state, gates[n].name);
        passedFlags := passedFlags + cleared;
      }
      byId := ApplyGate(byId, gates[n]);
    }
    assert gates[..|gates|] == gates;
    ghost var recorded := byId;
    byId := SetWhere(byId, (f: Finding) => f.status.Open?
                     && (f.id in passedFlags || HasFixEvidenceFromFlags(state.currentResult.flags, f.id)),
                     (f: Finding) => Close(f, Fixed));
    assert byId == Map((f: Finding) => PassClosed(f, state, gates), recorded);
    var findings := RebuildActiveFindings(CloseAggregateFindings(byId), state.currentResult, "gate");
    var traces := ClosureTracesFromDiff(state.findings, findings, "gate-reconciliation", GateEvidence(gates));
    next := state.(findings := findings, traces := state.traces + traces);
  }
}
