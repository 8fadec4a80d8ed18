/** The canonical findings of a batch: imports of agent results and gate recordings
    (tools/klevar-yolo-runtime/src/runtime-batch-state.ts). */
module FindingState {
  import opened Wrappers
  import opened Sequences
  import opened Text
  import opened FlagClassification
  import opened FindingEvidence
  import opened RuntimeTypes

  datatype FindingStatus = Open | Fixed | Stale | Accepted | Human

  datatype Finding = Finding(id: string, source: string, status: FindingStatus, evidence: seq<string>)

  datatype ClosureTrace = ClosureTrace(findingId: string, from: FindingStatus, to: FindingStatus, cause: string,
                                       evidence: seq<string>)

  datatype GateRecord = GateRecord(passed: bool, flags: seq<string>)

  datatype BatchState = BatchState(currentResult: BatchResult, findings: seq<Finding>, gates: map<string, GateRecord>,
                                   traces: seq<ClosureTrace>)

  // ---- A JavaScript Map of findings, in insertion order ----

  function Id(finding: Finding): string { finding.id }

  /** The position of the finding `id`, or `|findings|`. */
  function Find(findings: seq<Finding>, id: string): (k: nat)
    ensures k <= |findings| && (k < |findings| ==> findings[k].id == id)
    ensures forall i | 0 <= i < k :: findings[i].id != id
  {
    Position(Id, findings, id)
  }

  function Get(findings: seq<Finding>, id: string): (r: Option<Finding>)
    ensures r.Some? ==> r.value.id == id && r.value in findings
  {
    var k := Find(findings, id);
    if k < |findings| then Some(findings[k]) else None
  }

  /** `byId.set(finding.id, finding)` */
  function Upsert(findings: seq<Finding>, finding: Finding): (r: seq<Finding>)
    ensures |findings| <= |r| <= |findings| + 1
    ensures forall i | 0 <= i < |findings| :: r[i].id == findings[i].id
  {
    Put(Id, findings, finding)
  }

  /** `new Map(findings.map(f => [f.id, f]))`: the last finding of an id wins. */
  function ById(findings: seq<Finding>): seq<Finding> {
    if findings == [] then []
    else Upsert(ById(findings[..|findings| - 1]), findings[|findings| - 1])
  }

  // ---- Canonical results ----

  predicate IsSettled(status: FindingStatus) { status.Fixed? || status.Stale? || status.Accepted? }

  predicate HasSettled(findings: seq<Finding>, id: string) {
    exists i | 0 <= i < |findings| :: findings[i].id == id && IsSettled(findings[i].status)
  }

  predicate IsStaleBlockingFlag(flag: string, fixed: set<string>) {
    && IsBlockingFlag(flag) && !StartsWith(flag, "RECOVERED_")
    && exists f | f in fixed :: FindingMatchesFixedPrefix(flag, f)
  }

  function CanonicalFlag(flag: string, findings: seq<Finding>, fixed: set<string>): string {
    if HasSettled(findings, flag) || flag in fixed then SOURCE_PREFIX + flag else flag
  }

  function CanonicalFlags(flags: seq<string>, findings: seq<Finding>): seq<string> {
    var fixed := FixedPrefixes(flags);
    var kept := Filter((flag: string) => !InvalidPlaceholder(flag), flags);
    var marked := Map((flag: string) => CanonicalFlag(flag, findings, fixed), kept);
    Filter((flag: string) => !IsStaleBlockingFlag(flag, fixed), marked)
  }

  /** `canonicalizeBatchResultForRuntime` */
  function Canonicalize(batch: nat, result: BatchResult, findings: seq<Finding>): BatchResult {
    result.(batch := if result.batch == 0 then batch else result.batch,
            filesChanged := Unique(Filter((file: string) => !InvalidPlaceholder(file), result.filesChanged)),
            artifacts := Filter((artifact: string) => !InvalidPlaceholder(artifact), result.artifacts),
            flags := CanonicalFlags(result.flags, findings))
  }

  // ---- Findings of a result ----

  function EvidenceForFinding(result: BatchResult, id: string): seq<string> {
    Filter((value: string) => value != "" && Includes(value, id),
           Truthy(result.failureType) + result.flags + Truthy(result.businessLogicTest))
  }

  function FindingIds(result: BatchResult): seq<string> {
    Unique(Truthy(result.failureType) + Filter(IsBlockingFlag, result.flags))
  }

  function FindingsFromResult(source: string, result: BatchResult): seq<Finding> {
    Map((id: string) => Finding(id, source, Open, EvidenceForFinding(result, id)), FindingIds(result))
  }

  // ---- The closure passes, finding by finding ----

  function Close(finding: Finding, status: FindingStatus): Finding {
    finding.(status := status)
  }

  function CloseNoting(finding: Finding, status: FindingStatus, note: string): Finding {
    finding.(status := status, evidence := Unique(finding.evidence + [note]))
  }

  predicate Quarantines(result: BatchResult, source: string) {
    source == "bugfix" && IsRuntimeOnlyResult(result) && HasPassingCommandEvidence(result)
  }

  function Quarantined(finding: Finding, result: BatchResult, source: string): Finding {
    if Quarantines(result, source) && finding.status.Open? && IsRuntimeOwnedFinding(finding.id)
    then CloseNoting(finding, Stale, "stale-runtime-owned-finding-quarantined-by-passing-recovery-command") else finding
  }

  predicate CanResultCloseFindingsByFlag(result: BatchResult, source: string) {
    if source == "validate" then true
    else if source != "bugfix" then true
    else if ChangesProductFiles(result) then true
    else HasPassingCommandEvidence(result) && exists i | 0 <= i < |result.flags| :: IsPositiveFlag(result.flags[i])
  }

  predicate ClosedByFlags(id: string, result: BatchResult, source: string) {
    CanResultCloseFindingsByFlag(result, source) && HasFixEvidenceFromFlags(result.flags, id)
  }

  /** Fix evidence settles a finding whatever its status. */
  function FlagClosed(finding: Finding, result: BatchResult, source: string): Finding {
    if ClosedByFlags(finding.id, result, source) then Close(finding, Fixed) else finding
  }

  predicate IsActive(id: string, result: BatchResult) {
    (id in Truthy(result.failureType) || id in result.flags) && IsBlockingFlag(id)
  }

  function ValidationClosed(finding: Finding, result: BatchResult, source: string): Finding {
    if source != "validate" || result.status != "SUCCESS" || !HasPassingCommandEvidence(result) then finding
    else if !finding.status.Open? || IsActive(finding.id, result) || IsProductOwnedFinding(finding.id) then finding
    else Close(finding, Fixed)
  }

  predicate HasOpenWiring(findings: seq<Finding>) {
    exists i | 0 <= i < |findings| :: findings[i].status.Open? && IsOpenWiringFindingExceptAggregate(findings[i].id)
  }

  function AggregateClosed(finding: Finding, findings: seq<Finding>): Finding {
    if finding.status.Open? && finding.id == AGGREGATE && !HasOpenWiring(findings) then Close(finding, Fixed)
      else finding
  }

  predicate IsTrustedSuccessfulRecoveryEvidence(result: BatchResult, source: string) {
    && result.status == "SUCCESS" && (source == "bugfix" || source == "gate")
    && (forall i | 0 <= i < |result.flags| :: !IsBlockingFlag(result.flags[i]))
    && (ChangesProductFiles(result) || HasPassingCommandEvidence(result))
  }

  predicate IsRuntimeSupportOrToolingFinding(finding: Finding) {
    && !IsProductOwnedFinding(finding.id)
    && IncludesAny(Upper(finding.id + "\n" + finding.source + "\n" + JoinLines(finding.evidence)),
                   ["RUNTIME", "TOOLING", "SUPPORT", "PROTECTED_PATH", "TEMPLATE_MANAGED", "WORKTREE_",
                    "CHANGED_FILE_MISSING_METADATA", "MODULARITY_RULE_FILE", "PLAN_REJECTED", "VALIDATOR_REJECTED",
                    "RUNTIME_GATES_REJECTED", "ARTIFACT_MISSING:.YOLO", "RUNTIME_ONLY_PATH", "LOCAL_ONLY_PATH",
                    "GENERATED_FILE_DRIFT", "COMMAND_EVIDENCE", "JOURNAL", "GATE_FILE"])
  }

  function Rebuilt(finding: Finding, result: BatchResult, source: string): Finding {
    if !IsTrustedSuccessfulRecoveryEvidence(result, source) then finding
    else if !finding.status.Open? || (finding.id in result.flags && IsBlockingFlag(finding.id)) ||
            !IsRuntimeSupportOrToolingFinding(finding) then finding
    else CloseNoting(finding, Stale, "quarantined-by-latest-trusted-recovery-evidence")
  }

  predicate NeverOpen(id: string) {
    IsPositiveFlag(id) || StartsWith(id, "RECOVERED_")
  }

  function Normalized(finding: Finding): Finding {
    if finding.status.Open? && NeverOpen(finding.id)
    then CloseNoting(finding, Fixed, "positive-or-recovered-flag-not-open-canonical-finding") else finding
  }

  // ---- The passes over the list ----

  function NormalizeCanonicalFindings(findings: seq<Finding>): seq<Finding> {
    Map(Normalized, findings)
  }

  function CloseAggregateFindings(findings: seq<Finding>): seq<Finding> {
    Map((f: Finding) => AggregateClosed(f, findings), findings)
  }

  function RebuildActiveFindings(findings: seq<Finding>, result: BatchResult, source: string): seq<Finding> {
    Map((f: Finding) => Rebuilt(f, result, source), findings)
  }

  function CloseFindingsOnSuccessfulValidation(findings: seq<Finding>, result: BatchResult,
                                               source: string): seq<Finding> {
    Map((f: Finding) => ValidationClosed(f, result, source), findings)
  }

  /** The merge loop of `reconcileFindings`: the last status of an id wins, its evidence accumulates. */
  function Accumulate(findings: seq<Finding>): seq<Finding> {
    if findings == [] then []
    else
      var byId, last := Accumulate(findings[..|findings| - 1]), findings[|findings| - 1];
      Upsert(byId, last.(evidence := Unique(EvidenceOf(Get(byId, last.id)) + last.evidence)))
  }

  function EvidenceOf(finding: Option<Finding>): seq<string> {
    if finding.Some? then finding.value.evidence else []
  }

  function Reconciled(finding: Finding, result: BatchResult, source: string): Finding {
    FlagClosed(Quarantined(finding, result, source), result, source)
  }

  /** `reconcileFindings` */
  function Reconcile(findings: seq<Finding>, result: BatchResult, source: string): seq<Finding> {
    Map((f: Finding) => Reconciled(f, result, source), Accumulate(findings))
  }

  /** `closureTracesFromDiff` */
  function ClosureTraces(before: seq<Finding>, after: seq<Finding>, cause: string,
                         evidence: seq<string>): seq<ClosureTrace> {
    if after == [] then []
    else
      var finding := after[|after| - 1];
      ClosureTraces(before, after[..|after| - 1], cause, evidence)
        + TraceOf(Get(ById(before), finding.id), finding, cause, evidence)
  }

  function TraceOf(previous: Option<Finding>, finding: Finding, cause: string,
                   evidence: seq<string>): seq<ClosureTrace> {
    if previous.None? || previous.value.status == finding.status || finding.status.Open? then []
    else [ClosureTrace(finding.id, previous.value.status, finding.status,
                       if finding.id == AGGREGATE then "aggregate-wiring-closed"
                         else cause, Unique(evidence + finding.evidence))]
  }

  function ResultClosureCause(result: BatchResult, source: string): string {
    if source == "bugfix" && !ChangesProductFiles(result) && HasPassingCommandEvidence(result) then
      "artifact-command-evidence"
    else if source == "bugfix" then "bugfix-semantic-evidence"
    else if source == "validate" then "validate-evidence"
    else source + "-evidence"
  }

  // ---- Importing a result ----

  function ImportedFindings(findings: seq<Finding>, result: BatchResult, source: string): seq<Finding> {
    var reconciled := Reconcile(findings + FindingsFromResult(source, result), result, source);
    var validated := CloseFindingsOnSuccessfulValidation(reconciled, result, source);
    NormalizeCanonicalFindings(RebuildActiveFindings(CloseAggregateFindings(validated), result, source))
  }

  /** `importAgentResultToState` */
  function Import(state: BatchState, batch: nat, source: string, raw: BatchResult): BatchState {
    var result := Canonicalize(batch, raw, state.findings);
    var findings := ImportedFindings(state.findings, result, source);
    state.(currentResult := result, findings := findings,
           traces := state.traces + ClosureTraces(state.findings, findings, ResultClosureCause(result, source),
                                                  result.flags))
  }

  // ---- Recording gates ----

  predicate IsHardFlag(flag: string, gate: string) {
    !IsWarningFlag(flag, gate) && !IsPositiveFlag(flag) && !StartsWith(flag, "RECOVERED_")
  }

  function HardFlags(gate: GateResult): seq<string> {
    Filter((flag: string) => IsHardFlag(flag, gate.name), gate.flags)
  }

  predicate AllWarnings(gate: GateResult) {
    forall i | 0 <= i < |gate.flags| :: IsWarningFlag(gate.flags[i], gate.name)
  }

  /** A gate whose flags count: one that failed on warnings alone does not. */
  predicate Contributes(gate: GateResult) {
    gate.passed || !AllWarnings(gate)
  }

  predicate PassesCleanly(gate: GateResult) {
    gate.passed && HardFlags(gate) == [] && !(gate.flags != [] && AllWarnings(gate))
  }

  /** Findings a cleanly passing gate last listed or owns. */
  predicate PassedFlag(state: BatchState, gates: seq<GateResult>, id: string) {
    exists i | 0 <= i < |gates| :: PassesCleanly(gates[i]) && Cleared(state, gates[i].name, id)
  }

  predicate Cleared(state: BatchState, gate: string, id: string) {
    || (gate in state.gates && id in state.gates[gate].flags)
    || (exists i | 0 <= i < |state.findings| ::
          state.findings[i].id == id && state.findings[i].source == "gate:" + gate)
  }

  function GateFinding(flag: string, gate: GateResult, existing: Option<Finding>): Finding {
    Finding(flag, "gate:" + gate.name, if existing.Some? then existing.value.status else Open,
            Unique(EvidenceOf(existing) + gate.flags))
  }

  function AddHardFlags(findings: seq<Finding>, gate: GateResult, flags: seq<string>): seq<Finding> {
    if flags == [] then findings
    else
      var byId := AddHardFlags(findings, gate, flags[..|flags| - 1]);
      Upsert(byId, GateFinding(flags[|flags| - 1], gate, Get(byId, flags[|flags| - 1])))
  }

  function FixedByFlags(finding: Finding, flags: seq<string>): Finding {
    if HasFixEvidenceFromFlags(flags, finding.id) then Close(finding, Fixed) else finding
  }

  function AfterGate(findings: seq<Finding>, gate: GateResult): seq<Finding> {
    if !Contributes(gate) then findings
    else
      var added := AddHardFlags(findings, gate, HardFlags(gate));
      if HasFixFlags(gate.flags) then Map((f: Finding) => FixedByFlags(f, gate.flags), added) else added
  }

  function AfterGates(findings: seq<Finding>, gates: seq<GateResult>): seq<Finding> {
    if gates == [] then findings
    else AfterGate(AfterGates(findings, gates[..|gates| - 1]), gates[|gates| - 1])
  }

  function PassClosed(finding: Finding, state: BatchState, gates: seq<GateResult>): Finding {
    if finding.status.Open? && (PassedFlag(state, gates, finding.id)
                                || HasFixEvidenceFromFlags(state.currentResult.flags, finding.id))
    then Close(finding, Fixed) else finding
  }

  function GateEvidence(gates: seq<GateResult>): seq<string> {
    if gates == [] then []
    else
      var gate := gates[|gates| - 1];
      GateEvidence(gates[..|gates| - 1]) + Map((flag: string) => gate.name + ":" + flag, gate.flags)
  }

  function TransitionedFindings(state: BatchState, gates: seq<GateResult>): seq<Finding> {
    var transitioned := Map((f: Finding) => PassClosed(f, state, gates), AfterGates(ById(state.findings), gates));
    RebuildActiveFindings(CloseAggregateFindings(transitioned), state.currentResult, "gate")
  }

  /** `transitionFindingsForGates` */
  function TransitionFindingsForGates(state: BatchState, gates: seq<GateResult>): BatchState {
    var findings := TransitionedFindings(state, gates);
    state.(findings := findings,
           traces := state.traces + ClosureTraces(state.findings, findings, "gate-reconciliation", GateEvidence(gates)))
  }

  function GateTable(gates: map<string, GateRecord>, results: seq<GateResult>): map<string, GateRecord> {
    if results == [] then gates
    else
      var last := results[|results| - 1];
      GateTable(gates, results[..|results| - 1])[last.name := GateRecord(last.passed, last.flags)]
  }

  /** `recordGateState` */
  function RecordGateState(state: BatchState, gates: seq<GateResult>): BatchState {
    var transitioned := TransitionFindingsForGates(state, gates);
    transitioned.(findings := NormalizeCanonicalFindings(transitioned.findings), gates := GateTable(state.gates, gates))
  }

  /** What `writeRuntimeBatchState` stores, and the next load reads. */
  function Saved(state: BatchState): BatchState {
    state.(findings := NormalizeCanonicalFindings(state.findings))
  }

  /** `emptyRuntimeBatchState` */
  function EmptyState(batch: nat, result: BatchResult): BatchState {
    BatchState(Canonicalize(batch, result, []), FindingsFromResult(result.agent, result), map[], [])
  }

  predicate BlockingOpen(finding: Finding) {
    finding.status.Open? && !IsWarningFlag(finding.id, "") && !IsPositiveFlag(finding.id)
  }

  function BlockingOpenFindings(state: BatchState): seq<Finding> {
    Filter(BlockingOpen, state.findings)
  }
}
