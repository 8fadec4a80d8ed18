/** What recording gates decides for every finding, and exactly which closures a state that no import has made canonical
    leaves without a trace. */
module GateProperties {
  import opened Wrappers
  import opened Sequences
  import opened FlagClassification
  import opened FindingEvidence
  import opened FindingState
  import opened FindingProperties
  import opened RuntimeTypes

  // ---- Which findings the gates' flags reach ----

  /** The gate's flags count, and the id is a hard one among them. */
  predicate ListedBy(gate: GateResult, id: string) {
    Contributes(gate) && id in HardFlags(gate)
  }

  predicate ListedBySomeGate(gates: seq<GateResult>, id: string) {
    exists i | 0 <= i < |gates| :: ListedBy(gates[i], id)
  }

  lemma {:induction false} HardFlagsAdd(findings: seq<Finding>, gate: GateResult, flags: seq<string>, id: string)
    ensures Get(AddHardFlags(findings, gate, flags), id).Some? <==> Get(findings, id).Some? || id in flags
    ensures id !in flags ==> Get(AddHardFlags(findings, gate, flags), id) == Get(findings, id)
  {
    if flags != [] {
      hide Upsert, Get, GateFinding;
      var front, flag := flags[..|flags| - 1], flags[|flags| - 1];
      var byId := AddHardFlags(findings, gate, front);
      assert AddHardFlags(findings, gate, flags) == Upsert(byId, GateFinding(flag, gate, Get(byId, flag)));
      hide AddHardFlags;
      HardFlagsAdd(findings, gate, front, id);
      OneHardFlag(byId, gate, flag, id);
      InFrontOrLast(flags, id);
    }
  }

  lemma InFrontOrLast(flags: seq<string>, id: string)
    requires flags != []
    ensures id in flags <==> id in flags[..|flags| - 1] || id == flags[|flags| - 1]
  {
    assert flags == flags[..|flags| - 1] + [flags[|flags| - 1]];
  }

  lemma OneHardFlag(findings: seq<Finding>, gate: GateResult, flag: string, id: string)
    ensures var added := Upsert(findings, GateFinding(flag, gate, Get(findings, flag)));
            (Get(added, id).Some? <==> Get(findings, id).Some? || id == flag) &&
            (id != flag ==> Get(added, id) == Get(findings, id))
  {
    hide Upsert, Get, EvidenceOf, Unique;
    UpsertGet(findings, GateFinding(flag, gate, Get(findings, flag)), id);
  }

  /** A gate adds the ids it lists, and leaves every other finding as it was, unless its flags fix it. */
  lemma GateReaches(findings: seq<Finding>, gate: GateResult, id: string)
    requires UniqueIds(findings)
    ensures var before, after := Get(findings, id), Get(AfterGate(findings, gate), id);
            && (after.Some? <==> before.Some? || ListedBy(gate, id))
            && (!ListedBy(gate, id) && before.Some? ==>
                  after.value == if FixedByGate(gate, id) then Close(before.value, Fixed) else before.value)
  {
    hide AddHardFlags, Contributes, HasFixEvidenceFromFlags, HasFixFlags, IsHardFlag, HardFlags, Get;
    HardFlagsAdd(findings, gate, HardFlags(gate), id);
    var added := AddHardFlags(findings, gate, HardFlags(gate));
    if Contributes(gate) && HasFixFlags(gate.flags) {
      FixedFindings(added, gate.flags, id);
    }
    if HasFixEvidenceFromFlags(gate.flags, id) { EvidenceNeedsFixFlags(gate.flags, id); }
  }

  lemma FixedFindings(findings: seq<Finding>, flags: seq<string>, id: string)
    ensures var before, after := Get(findings, id), Get(Map((f: Finding) => FixedByFlags(f, flags), findings), id);
            && (after.Some? <==> before.Some?)
            && (before.Some? ==> after.value == FixedByFlags(before.value, flags))
  {
    hide HasFixEvidenceFromFlags;
    var after := Map((f: Finding) => FixedByFlags(f, flags), findings);
    assert Pointwise(findings, after);
    PointwiseGet(findings, after, id);
  }

  lemma OneMoreListed(gates: seq<GateResult>, id: string)
    requires gates != []
    ensures ListedBySomeGate(gates, id) <==>
            ListedBySomeGate(gates[..|gates| - 1], id) || ListedBy(gates[|gates| - 1], id)
  {
    hide ListedBy;
    assert gates == gates[..|gates| - 1] + [gates[|gates| - 1]];
  }

  lemma {:induction false} GatesReach(findings: seq<Finding>, gates: seq<GateResult>, id: string)
    requires UniqueIds(findings)
    ensures var before, after := Get(findings, id), Get(AfterGates(findings, gates), id);
            && (after.Some? <==> before.Some? || ListedBySomeGate(gates, id))
            && (!ListedBySomeGate(gates, id) && before.Some? ==>
                  after.value == if FixedBySomeGate(gates, id) then Close(before.value, Fixed) else before.value)
  {
    if gates != [] {
      hide AfterGate, Get, ListedBy, FixedByGate;
      var n := |gates| - 1;
      GatesReach(findings, gates[..n], id);
      AfterGatesKeep(findings, gates[..n], id);
      GateReaches(AfterGates(findings, gates[..n]), gates[n], id);
      OneMoreGate(gates, id);
      OneMoreListed(gates, id);
    }
  }

  lemma NeverOpenIsNotListed(gates: seq<GateResult>, id: string)
    requires NeverOpen(id)
    ensures !ListedBySomeGate(gates, id)
  {
    hide IsPositiveFlag, IsWarningFlag, Contributes;
    forall i | 0 <= i < |gates| ensures !ListedBy(gates[i], id) {
      FilterKeeps((flag: string) => IsHardFlag(flag, gates[i].name), gates[i].flags, id);
    }
  }

  // ---- The passes of gate recording as one decision ----

  /** The findings after the gates' own flags and the passes of clean gates. */
  function Passed(state: BatchState, gates: seq<GateResult>): seq<Finding> {
    Map((f: Finding) => PassClosed(f, state, gates), AfterGates(state.findings, gates))
  }

  /** A cleanly passing gate, the current result, the aggregate rule or trusted evidence closes an open finding. */
  predicate ClosedByGates(f: Finding, state: BatchState, gates: seq<GateResult>) {
    || PassedFlag(state, gates, f.id) || HasFixEvidenceFromFlags(state.currentResult.flags, f.id)
    || (f.id == AGGREGATE && !HasOpenWiring(Passed(state, gates)))
    || ClosedByRebuild(f, state.currentResult, "gate")
  }

  /** The status recording gives a finding that the gates' own flags left as `f`: an open one falls to the first
      reason that applies, and any other keeps its status. */
  function GateDecided(f: Finding, state: BatchState, gates: seq<GateResult>): FindingStatus {
    if !f.status.Open? then f.status
    else if PassedFlag(state, gates, f.id) || HasFixEvidenceFromFlags(state.currentResult.flags, f.id) then Fixed
    else if f.id == AGGREGATE && !HasOpenWiring(Passed(state, gates)) then Fixed
    else if ClosedByRebuild(f, state.currentResult, "gate") then Stale
    else if NeverOpen(f.id) then Fixed
    else Open
  }

  lemma ConcludedIsDecided(f: Finding, state: BatchState, gates: seq<GateResult>)
    ensures var g := Concluded(f, state, gates, Passed(state, gates));
            && g.id == f.id && Normalized(g).status == GateDecided(f, state, gates)
            && (g.status.Open? <==> f.status.Open? && !ClosedByGates(f, state, gates))
  {
    hide PassedFlag, HasFixEvidenceFromFlags, HasOpenWiring, ClosedByRebuild, Rebuilt, Normalized, NeverOpen, Passed;
    var g := AggregateClosed(PassClosed(f, state, gates), Passed(state, gates));
    RebuiltIsDecided(g, state.currentResult, "gate");
    NormalizedIsDecided(Rebuilt(g, state.currentResult, "gate"));
  }

  lemma RecordedAt(state: BatchState, gates: seq<GateResult>, id: string)
    requires UniqueIds(state.findings)
    ensures var before := AfterGates(state.findings, gates);
            var transitioned, recorded := TransitionedFindings(state, gates), RecordGateState(state, gates).findings;
            && UniqueIds(transitioned) && UniqueIds(recorded)
            && (Get(before, id).Some? <==> Get(transitioned, id).Some?)
              && (Get(before, id).Some? <==> Get(recorded, id).Some?)
            && (Get(before, id).Some? ==>
                  && Get(transitioned, id).value == Concluded(Get(before, id).value, state, gates, Passed(state, gates))
                  && Get(recorded, id).value == Normalized(Get(transitioned, id).value))
  {
    hide AfterGates, TransitionedFindings, Concluded, Normalized, PassClosed, ClosureTraces;
    var before := AfterGates(state.findings, gates);
    var transitioned, recorded := TransitionedFindings(state, gates), RecordGateState(state, gates).findings;
    ByIdOfUnique(state.findings);
    TransitionedIsConcluded(state, gates);
    AfterGatesKeep(state.findings, gates, id);
    PointwiseGet(before, transitioned, id);
    forall i | 0 <= i < |transitioned| ensures Settles(transitioned[i], recorded[i]) {
      NormalizedSettles(transitioned[i]);
    }
    PointwiseGet(transitioned, recorded, id);
  }

  /** Recording gates: a finding is there afterwards exactly when it was or a contributing gate lists it; one that was
      has the decided status, where fix evidence of a contributing gate settles it whatever its status. */
  lemma GatesDecide(state: BatchState, gates: seq<GateResult>, id: string)
    requires UniqueIds(state.findings)
    ensures var was, before := Get(state.findings, id), Get(AfterGates(state.findings, gates), id);
            var after := Get(RecordGateState(state, gates).findings, id);
            && (after.Some? <==> was.Some? || ListedBySomeGate(gates, id))
            && (after.Some? ==> before.Some? && after.value.status == GateDecided(before.value, state, gates))
            && (was.Some? ==> before.value.status == if FixedBySomeGate(gates, id) then Fixed else was.value.status)
            && (was.Some? && !ListedBySomeGate(gates, id) && !FixedBySomeGate(gates, id) ==> before == was)
  {
    hide AfterGates, TransitionedFindings, Concluded, Normalized, RecordGateState, Get, ListedBySomeGate,
      FixedBySomeGate, GateDecided,
         ClosedByGates, Passed;
    RecordedAt(state, gates, id);
    GatesReach(state.findings, gates, id);
    AfterGatesKeep(state.findings, gates, id);
    if Get(AfterGates(state.findings, gates), id).Some? {
      ConcludedIsDecided(Get(AfterGates(state.findings, gates), id).value, state, gates);
    }
  }

  // ---- Closures without a trace ----

  predicate IsOpenIn(state: BatchState, id: string) {
    Get(state.findings, id).Some? && Get(state.findings, id).value.status.Open?
  }

  /** The step closes an open finding, with an id that may not be open, in its last pass, after the traces were taken:
      a save always does, a gate recording when nothing before that pass closes the finding, and an import never. */
  predicate LosesTrace(state: BatchState, event: FindingEvent, id: string) {
    && NeverOpen(id) && IsOpenIn(state, id)
    && match event
       case ImportEvent(_, _) => false
       case GatesEvent(gates) => !FixedBySomeGate(gates, id)
         && !ClosedByGates(Get(state.findings, id).value, state, gates)
       case SaveEvent => true
  }

  /** From any state with unique ids, a step traces a finding exactly, unless it loses the trace; then it closes the
      finding and appends no trace of it. */
  lemma StepTraces(state: BatchState, batch: nat, event: FindingEvent, id: string)
    requires UniqueIds(state.findings)
    ensures var next := Step(state, batch, event);
            && UniqueIds(next.findings) && state.traces <= next.traces
            && (TracedExactly(state.findings, next.findings, next.traces[|state.traces|..], id) <==>
                !LosesTrace(state, event, id))
            && (LosesTrace(state, event, id) ==>
                  Closed(state.findings, next.findings, id) && TracesOf(next.traces[|state.traces|..], id) == [])
  {
    match event
    case ImportEvent(source, raw) => ImportTraces(state, batch, source, raw, id);
    case GatesEvent(gates) => GatesTrace(state, gates, id);
    case SaveEvent => SaveTraces(state, id);
  }

  lemma ImportTraces(state: BatchState, batch: nat, source: string, raw: BatchResult, id: string)
    requires UniqueIds(state.findings)
    ensures var next := Import(state, batch, source, raw);
            && UniqueIds(next.findings) && state.traces <= next.traces
            && TracedExactly(state.findings, next.findings, next.traces[|state.traces|..], id)
  {
    hide Canonicalize, ImportedFindings, ClosureTraces, Grows, NothingNeverOpen, TracedExactly, ResultClosureCause;
    var result := Canonicalize(batch, raw, state.findings);
    var findings := ImportedFindings(state.findings, result, source);
    ImportMakesCanonical(state, batch, source, raw);
    DiffIsTracedExactly(state.findings, findings, ResultClosureCause(result, source), result.flags, id);
    var added := ClosureTraces(state.findings, findings, ResultClosureCause(result, source), result.flags);
    assert Import(state, batch, source, raw).traces[|state.traces|..] == added;
  }

  lemma GatesTrace(state: BatchState, gates: seq<GateResult>, id: string)
    requires UniqueIds(state.findings)
    ensures var next, loses := RecordGateState(state, gates), LosesTrace(state, GatesEvent(gates), id);
            && UniqueIds(next.findings) && state.traces <= next.traces
            && (TracedExactly(state.findings, next.findings, next.traces[|state.traces|..], id) <==> !loses)
            && (loses ==>
                  Closed(state.findings, next.findings, id) && TracesOf(next.traces[|state.traces|..], id) == [])
  {
    hide TransitionedFindings, ClosureTraces, GateEvidence, NormalizeCanonicalFindings, TracesOf, AfterGates, Get,
      NeverOpen, Concluded,
         FixedBySomeGate, ClosedByGates, Passed, Normalized, ListedBySomeGate;
    var findings, next := TransitionedFindings(state, gates), RecordGateState(state, gates);
    var added := ClosureTraces(state.findings, findings, "gate-reconciliation", GateEvidence(gates));
    RecordedAt(state, gates, id);
    DiffIsTracedExactly(state.findings, findings, "gate-reconciliation", GateEvidence(gates), id);
    assert next.traces[|state.traces|..] == added;
    AfterGatesKeep(state.findings, gates, id);
    GatesReach(state.findings, gates, id);
    var before := Get(AfterGates(state.findings, gates), id);
    if before.Some? {
      ConcludedIsDecided(before.value, state, gates);
      NormalizedIsDecided(Get(findings, id).value);
      if NeverOpen(id) { NeverOpenIsNotListed(gates, id); }
    }
  }

  lemma SaveTraces(state: BatchState, id: string)
    requires UniqueIds(state.findings)
    ensures var next, loses := Saved(state), LosesTrace(state, SaveEvent, id);
            && UniqueIds(next.findings) && state.traces == next.traces
            && (TracedExactly(state.findings, next.findings, next.traces[|state.traces|..], id) <==> !loses)
            && (loses ==>
                  Closed(state.findings, next.findings, id) && TracesOf(next.traces[|state.traces|..], id) == [])
  {
    hide Normalized, NeverOpen;
    var next := Saved(state).findings;
    forall i | 0 <= i < |next| ensures Settles(state.findings[i], next[i]) {
      NormalizedSettles(state.findings[i]);
    }
    PointwiseGet(state.findings, next, id);
    if Get(state.findings, id).Some? { NormalizedIsDecided(Get(state.findings, id).value); }
    assert state.traces[|state.traces|..] == [];
  }

  /** How often a run loses a trace of the finding `id`. */
  function Lost(state: BatchState, batch: nat, events: seq<FindingEvent>, id: string): nat {
    if events == [] then 0
    else
      var past, event := events[..|events| - 1], events[|events| - 1];
      Lost(state, batch, past, id) + if LosesTrace(Replay(state, batch, past), event, id) then 1 else 0
  }

  /** Over every run from any state with unique ids, a finding has one more trace for each time it was closed, less
      those that were lost. */
  lemma {:induction false} RunsTrace(state: BatchState, batch: nat, events: seq<FindingEvent>, id: string)
    requires UniqueIds(state.findings)
    ensures var end := Replay(state, batch, events);
            && UniqueIds(end.findings) && state.traces <= end.traces
            && |TracesOf(end.traces, id)| + Lost(state, batch, events, id)
               == |TracesOf(state.traces, id)| + Closures(state, batch, events, id)
  {
    hide Step, LosesTrace, UniqueIds;
    if events != [] {
      var past, event := events[..|events| - 1], events[|events| - 1];
      RunsTrace(state, batch, past, id);
      var before, end := Replay(state, batch, past), Replay(state, batch, events);
      StepTraces(before, batch, event, id);
      var added := end.traces[|before.traces|..];
      assert end.traces == before.traces + added;
      FilterAppend((t: ClosureTrace) => t.findingId == id, before.traces, added);
      if !LosesTrace(before, event, id) { CountOfExact(before.findings, end.findings, added, id); }
    }
  }

  lemma CountOfExact(before: seq<Finding>, after: seq<Finding>, added: seq<ClosureTrace>, id: string)
    requires TracedExactly(before, after, added, id)
    ensures |TracesOf(added, id)| == if Closed(before, after, id) then 1 else 0
  {
    hide TracesOf, Closed;
  }

  /** From the first import on none is lost. */
  lemma CanonicalLosesNothing(state: BatchState, event: FindingEvent, id: string)
    requires Canonical(state)
    ensures !LosesTrace(state, event, id)
  {
    hide NeverOpen, FixedBySomeGate, ClosedByGates;
  }

  // ---- A lost trace ----

  const RECOVERED_ID := "RECOVERED_X"

  /** It happens: in a batch state made from a first result whose failure type is a recovered flag, recording any gates
      closes the finding, and without a trace exactly when no flag of theirs is evidence of its fix. */
  lemma UnimportedStateLosesTrace(gates: seq<GateResult>)
    ensures var result := BatchResult("implement", 1, "FAILURE", [], [], None, None, None, [], Some(RECOVERED_ID), []);
            var state := EmptyState(1, result);
            var next := RecordGateState(state, gates);
            && UniqueIds(state.findings) && Closed(state.findings, next.findings, RECOVERED_ID)
            && (TracesOf(next.traces, RECOVERED_ID) == [] <==> !FixedBySomeGate(gates, RECOVERED_ID))
  {
    hide NeverOpen, IsBlockingFlag, EvidenceForFinding, RecordGateState, IsStaleBlockingFlag, CanonicalFlag, LosesTrace,
      FixedBySomeGate, TracesOf, AfterGates, GateDecided, ListedBySomeGate;
    var result := BatchResult("implement", 1, "FAILURE", [], [], None, None, None, [], Some(RECOVERED_ID), []);
    var state := EmptyState(1, result);
    assert FindingIds(result) == [RECOVERED_ID];
    var f := Finding(RECOVERED_ID, "implement", Open, EvidenceForFinding(result, RECOVERED_ID));
    assert state.findings == [f];
    GetAt([f], 0);
    RecoveredLoses(state, gates, f);
    StepTraces(state, 1, GatesEvent(gates), RECOVERED_ID);
    var next := RecordGateState(state, gates);
    assert next.traces[|state.traces|..] == next.traces;
    if FixedBySomeGate(gates, RECOVERED_ID) {
      GatesDecide(state, gates, RECOVERED_ID);
      FixedIsSettled(Get(AfterGates(state.findings, gates), RECOVERED_ID).value, state, gates);
      CountOfExact(state.findings, next.findings, next.traces, RECOVERED_ID);
    }
  }

  lemma FixedIsSettled(f: Finding, state: BatchState, gates: seq<GateResult>)
    requires f.status.Fixed?
    ensures GateDecided(f, state, gates).Fixed?
  {
  }

  lemma RecoveredLoses(state: BatchState, gates: seq<GateResult>, f: Finding)
    requires state.findings == [f] && f.id == RECOVERED_ID && f.status.Open? && f.source == "implement"
    requires state.currentResult.flags == [] && state.currentResult.status == "FAILURE" && state.gates == map[]
    ensures LosesTrace(state, GatesEvent(gates), RECOVERED_ID) <==> !FixedBySomeGate(gates, RECOVERED_ID)
  {
    hide IsPositiveFlag, IsBlockingFlag, IsRuntimeSupportOrToolingFinding, HasOpenWiring, Passed, FixedBySomeGate,
      PassesCleanly;
    assert "RECOVERED_" <= RECOVERED_ID;
    assert RECOVERED_ID[0] == 'R' && AGGREGATE[0] == 'U';
    assert !HasFixEvidenceFromFlags([], RECOVERED_ID);
    GetAt([f], 0);
    forall gate ensures !Cleared(state, gate, RECOVERED_ID) {
      assert f.source[0] == 'i' && ("gate:" + gate)[0] == 'g';
    }
  }
}
