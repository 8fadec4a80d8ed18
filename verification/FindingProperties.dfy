/** What imports and gate recordings keep of the canonical findings, over every sequence of them. */
module FindingProperties {
  import opened Wrappers
  import opened Sequences
  import opened Text
  import opened FlagClassification
  import opened FindingEvidence
  import opened FindingState
  import opened RuntimeTypes

  // ---- Lists of findings ----

  predicate UniqueIds(findings: seq<Finding>) {
    forall i, j | 0 <= i < j < |findings| :: findings[i].id != findings[j].id
  }

  predicate Holds(findings: seq<Finding>, id: string) {
    exists i | 0 <= i < |findings| :: findings[i].id == id
  }

  /** The last finding of an id. */
  function Last(findings: seq<Finding>, id: string): Option<Finding> {
    if findings == [] then None
    else if findings[|findings| - 1].id == id then Some(findings[|findings| - 1])
    else Last(findings[..|findings| - 1], id)
  }

  predicate IsSubset(a: seq<string>, b: seq<string>) {
    forall e | e in a :: e in b
  }

  lemma GetAt(findings: seq<Finding>, i: nat)
    requires UniqueIds(findings) && i < |findings|
    ensures Get(findings, findings[i].id) == Some(findings[i])
  {
    assert !(Find(findings, findings[i].id) < i) && !(Find(findings, findings[i].id) > i);
  }

  lemma UpsertGet(findings: seq<Finding>, f: Finding, id: string)
    ensures Get(Upsert(findings, f), id) == if id == f.id then Some(f) else Get(findings, id)
    ensures UniqueIds(findings) ==> UniqueIds(Upsert(findings, f))
  {
    var r := Upsert(findings, f);
    var k, m := Find(r, id), Find(findings, id);
    if id == f.id {
      assert r[m] == f;
      assert !(k < m) && !(k > m);
    } else {
      assert k < |r| ==> k < |findings| && findings[k].id == id;
      assert m < |findings| ==> r[m] == findings[m];
      assert !(k < m) && !(m < k && m < |findings|);
    }
  }

  lemma {:induction false} LastIsGet(findings: seq<Finding>, id: string)
    requires UniqueIds(findings)
    ensures Last(findings, id) == Get(findings, id)
  {
    if findings != [] {
      var n := |findings| - 1;
      if findings[n].id == id {
        GetAt(findings, n);
      } else {
        LastIsGet(findings[..n], id);
        var k, m := Find(findings, id), Find(findings[..n], id);
        assert m < n ==> findings[m].id == id;
        assert k < n ==> findings[..n][k].id == id;
        assert k <= n ==> !(k < m && k < n) && !(m < k && m < n);
      }
    }
  }

  lemma {:induction false} ByIdIsLast(findings: seq<Finding>, id: string)
    ensures Get(ById(findings), id) == Last(findings, id)
    ensures UniqueIds(ById(findings))
  {
    if findings != [] {
      hide Upsert, Get;
      var n := |findings| - 1;
      ByIdIsLast(findings[..n], id);
      UpsertGet(ById(findings[..n]), findings[n], id);
    }
  }

  lemma {:induction false} ByIdOfUnique(findings: seq<Finding>)
    requires UniqueIds(findings)
    ensures ById(findings) == findings
  {
    hide Upsert;
    if findings != [] {
      var front, last := findings[..|findings| - 1], findings[|findings| - 1];
      ByIdOfUnique(front);
      UpsertNew(front, last);
      assert findings == front + [last];
    }
  }

  lemma UpsertNew(findings: seq<Finding>, finding: Finding)
    requires forall i | 0 <= i < |findings| :: findings[i].id != finding.id
    ensures Upsert(findings, finding) == findings + [finding]
  {
  }

  // ---- Accumulating ----

  /** The accumulated finding has the last status of its id. */
  lemma {:induction false} Accumulated(findings: seq<Finding>, id: string)
    ensures UniqueIds(Accumulate(findings))
    ensures Get(Accumulate(findings), id).Some? == Last(findings, id).Some?
    ensures Last(findings, id).Some? ==> Get(Accumulate(findings), id).value.status == Last(findings, id).value.status
  {
    if findings != [] {
      hide Upsert, Get, UniqueIds, Unique;
      var front, last := findings[..|findings| - 1], findings[|findings| - 1];
      Accumulated(front, id);
      var byId := Accumulate(front);
      UpsertGet(byId, last.(evidence := Unique(EvidenceOf(Get(byId, last.id)) + last.evidence)), id);
    } else {
      assert UniqueIds([]);
    }
  }

  lemma MergedEvidence(a: seq<string>, b: seq<string>)
    ensures IsSubset(a, Unique(a + b)) && IsSubset(b, Unique(a + b))
  {
    assert forall e | e in a :: e in a + b;
    assert forall e | e in b :: e in a + b;
  }

  lemma SubsetTransitive(a: seq<string>, b: seq<string>, c: seq<string>)
    requires IsSubset(a, b) && IsSubset(b, c)
    ensures IsSubset(a, c)
  {
  }

  /** The accumulated finding has the evidence of every finding of its id. */
  lemma {:induction false} AccumulatedEvidence(findings: seq<Finding>, id: string, i: nat)
    requires i < |findings| && findings[i].id == id
    ensures IsSubset(findings[i].evidence, EvidenceOf(Get(Accumulate(findings), id)))
  {
    hide Upsert, Get, Unique, IsSubset;
    var front, last := findings[..|findings| - 1], findings[|findings| - 1];
    var byId := Accumulate(front);
    var prior := EvidenceOf(Get(byId, last.id));
    UpsertGet(byId, last.(evidence := Unique(prior + last.evidence)), id);
    MergedEvidence(prior, last.evidence);
    if i < |front| {
      AccumulatedEvidence(front, id, i);
      if last.id == id { SubsetTransitive(findings[i].evidence, prior, Unique(prior + last.evidence)); }
    }
  }

  lemma {:induction false} LastOfJoined(base: seq<Finding>, added: seq<Finding>, id: string)
    ensures Last(base + added, id) == if Last(added, id).Some? then Last(added, id) else Last(base, id)
  {
    if added == [] {
      assert base + added == base;
    } else {
      var n := |added| - 1;
      assert (base + added)[..|base| + n] == base + added[..n];
      LastOfJoined(base, added[..n], id);
    }
  }

  lemma {:induction false} LastHolds(findings: seq<Finding>, id: string)
    ensures Last(findings, id).Some? <==> Holds(findings, id)
    ensures Last(findings, id).Some? ==> Last(findings, id).value in findings && Last(findings, id).value.id == id
  {
    if findings != [] {
      LastHolds(findings[..|findings| - 1], id);
    }
  }

  // ---- Passes ----

  /** A pass keeps the id and the evidence of a finding, and changes its status only to fixed or stale. */
  predicate Settles(f: Finding, g: Finding) {
    g.id == f.id && IsSubset(f.evidence, g.evidence) && (g.status == f.status || g.status.Fixed? || g.status.Stale?)
  }

  ghost predicate Pointwise(a: seq<Finding>, b: seq<Finding>) {
    |a| == |b| && forall i | 0 <= i < |a| :: Settles(a[i], b[i])
  }

  lemma PointwiseGet(a: seq<Finding>, b: seq<Finding>, id: string)
    requires Pointwise(a, b)
    ensures Find(a, id) == Find(b, id)
    ensures Get(a, id).Some? == Get(b, id).Some?
    ensures Get(a, id).Some? ==> Settles(Get(a, id).value, Get(b, id).value)
    ensures UniqueIds(a) ==> UniqueIds(b)
  {
    var k, m := Find(a, id), Find(b, id);
    assert k < |a| ==> Settles(a[k], b[k]);
    assert m < |b| ==> Settles(a[m], b[m]);
    assert !(k < m) && !(m < k);
    forall i, j | 0 <= i < j < |b| && UniqueIds(a) ensures b[i].id != b[j].id {
      assert Settles(a[i], b[i]) && Settles(a[j], b[j]);
    }
  }

  /** What the passes of an import make of one accumulated finding. */
  function Processed(f: Finding, result: BatchResult, source: string, validated: seq<Finding>): Finding {
    Normalized(Rebuilt(AggregateClosed(ValidationClosed(Reconciled(f, result, source), result, source), validated),
                       result, source))
  }

  lemma ReconciledSettles(f: Finding, result: BatchResult, source: string)
    ensures Settles(f, Reconciled(f, result, source))
  {
    hide Quarantines, IsRuntimeOwnedFinding, ClosedByFlags, Unique;
  }

  lemma ValidationSettles(f: Finding, result: BatchResult, source: string)
    ensures Settles(f, ValidationClosed(f, result, source))
  {
    hide IsActive, IsProductOwnedFinding, HasPassingCommandEvidence;
  }

  lemma AggregateSettles(f: Finding, findings: seq<Finding>)
    ensures Settles(f, AggregateClosed(f, findings))
  {
    hide HasOpenWiring;
  }

  lemma RebuiltSettles(f: Finding, result: BatchResult, source: string)
    ensures Settles(f, Rebuilt(f, result, source))
  {
    hide IsTrustedSuccessfulRecoveryEvidence, IsBlockingFlag, IsRuntimeSupportOrToolingFinding, Unique;
  }

  lemma NormalizedSettles(f: Finding)
    ensures Settles(f, Normalized(f))
    ensures Normalized(f).status.Open? ==> !NeverOpen(f.id)
  {
    hide NeverOpen, Unique;
  }

  lemma ProcessedSettles(f: Finding, result: BatchResult, source: string, validated: seq<Finding>)
    ensures Settles(f, Processed(f, result, source, validated))
    ensures Processed(f, result, source, validated).status.Open? ==> !NeverOpen(f.id)
  {
    var g := Reconciled(f, result, source);
    var h := ValidationClosed(g, result, source);
    var k := AggregateClosed(h, validated);
    var m := Rebuilt(k, result, source);
    ReconciledSettles(f, result, source);
    ValidationSettles(g, result, source);
    AggregateSettles(h, validated);
    RebuiltSettles(k, result, source);
    NormalizedSettles(m);
    hide Reconciled, ValidationClosed, AggregateClosed, Rebuilt, Normalized, NeverOpen;
  }

  lemma ImportedIsProcessed(findings: seq<Finding>, result: BatchResult, source: string)
    ensures var joined := Accumulate(findings + FindingsFromResult(source, result));
            var validated := CloseFindingsOnSuccessfulValidation(Map((f: Finding) => Reconciled(f, result, source),
                                                                     joined), result, source);
            var imported := ImportedFindings(findings, result, source);
            && |imported| == |joined|
            && (forall i | 0 <= i < |joined| :: imported[i] == Processed(joined[i], result, source, validated))
            && Pointwise(joined, imported)
  {
    hide Reconciled, ValidationClosed, AggregateClosed, Rebuilt, Normalized, Accumulate;
    var joined := Accumulate(findings + FindingsFromResult(source, result));
    var validated := CloseFindingsOnSuccessfulValidation(Map((f: Finding) => Reconciled(f, result, source), joined),
                                                         result, source);
    forall i | 0 <= i < |joined| ensures Settles(joined[i], Processed(joined[i], result, source, validated)) {
      ProcessedSettles(joined[i], result, source, validated);
    }
  }

  // ---- Importing ----

  /** Ids survive, and their evidence only grows. */
  ghost predicate Grows(before: seq<Finding>, after: seq<Finding>) {
    forall i | 0 <= i < |before| ::
      Get(after, before[i].id).Some? && IsSubset(before[i].evidence, Get(after, before[i].id).value.evidence)
  }

  /** No open finding has an id that the last pass would close. */
  predicate NothingNeverOpen(findings: seq<Finding>) {
    forall i | 0 <= i < |findings| :: findings[i].status.Open? ==> !NeverOpen(findings[i].id)
  }

  /** The invariant of a batch state from its first import on. */
  predicate Canonical(state: BatchState) {
    UniqueIds(state.findings) && NothingNeverOpen(state.findings)
  }

  /** An import makes the state canonical whatever was loaded, loses no finding and no evidence, and only appends
      traces. */
  lemma ImportMakesCanonical(state: BatchState, batch: nat, source: string, raw: BatchResult)
    ensures var next := Import(state, batch, source, raw);
            Canonical(next) && Grows(state.findings, next.findings) && state.traces <= next.traces
  {
    hide Canonicalize, ImportedFindings, Accumulate, Processed, NeverOpen, FindingsFromResult, ResultClosureCause;
    var result := Canonicalize(batch, raw, state.findings);
    var base := state.findings;
    var joined := Accumulate(base + FindingsFromResult(source, result));
    var imported := ImportedFindings(base, result, source);
    ImportedIsProcessed(base, result, source);
    Accumulated(base + FindingsFromResult(source, result), "");
    PointwiseGet(joined, imported, "");
    var validated := CloseFindingsOnSuccessfulValidation(Map((f: Finding) => Reconciled(f, result, source), joined),
                                                         result, source);
    forall i | 0 <= i < |imported| ensures imported[i].status.Open? ==> !NeverOpen(imported[i].id) {
      ProcessedSettles(joined[i], result, source, validated);
    }
    forall i | 0 <= i < |base|
      ensures Get(imported, base[i].id).Some? && IsSubset(base[i].evidence, Get(imported, base[i].id).value.evidence)
    {
      JoinedKeeps(base, FindingsFromResult(source, result), i);
      PointwiseGet(joined, imported, base[i].id);
    }
  }

  lemma JoinedKeeps(base: seq<Finding>, added: seq<Finding>, i: nat)
    requires i < |base|
    ensures var joined := Accumulate(base + added);
            Get(joined, base[i].id).Some? && IsSubset(base[i].evidence, Get(joined, base[i].id).value.evidence)
  {
    hide Accumulate, Get;
    Accumulated(base + added, base[i].id);
    assert (base + added)[i] == base[i];
    AccumulatedEvidence(base + added, base[i].id, i);
    LastHolds(base + added, base[i].id);
  }

  /** The status of an accumulated finding: open when the result lists its id, as before otherwise. */
  lemma JoinedStatus(base: seq<Finding>, result: BatchResult, source: string, id: string)
    requires UniqueIds(base)
    ensures var joined := Accumulate(base + FindingsFromResult(source, result));
            && (Get(joined, id).Some? <==> id in FindingIds(result) || Get(base, id).Some?)
            && (Get(joined, id).Some? ==>
                Get(joined, id).value.status == if id in FindingIds(result) then Open else Get(base, id).value.status)
  {
    hide Accumulate, FindingIds, EvidenceForFinding, Get, Last;
    var added := FindingsFromResult(source, result);
    Accumulated(base + added, id);
    LastOfJoined(base, added, id);
    LastIsGet(base, id);
    LastHolds(added, id);
    if id in FindingIds(result) {
      var i :| 0 <= i < |FindingIds(result)| && FindingIds(result)[i] == id;
      assert added[i].id == id;
    }
  }

  // ---- The passes as one decision ----

  predicate ClosedByValidation(id: string, result: BatchResult, source: string) {
    && source == "validate" && result.status == "SUCCESS" && HasPassingCommandEvidence(result)
    && !IsActive(id, result) && !IsProductOwnedFinding(id)
  }

  predicate ClosedByRebuild(finding: Finding, result: BatchResult, source: string) {
    && IsTrustedSuccessfulRecoveryEvidence(result, source)
      && !(finding.id in result.flags && IsBlockingFlag(finding.id))
    && IsRuntimeSupportOrToolingFinding(finding)
  }

  /** The status five passes give a finding: fix evidence settles it; otherwise an open one falls to the first reason
      that applies, and any other keeps its status. */
  function Decided(f: Finding, result: BatchResult, source: string, validated: seq<Finding>): FindingStatus {
    if ClosedByFlags(f.id, result, source) then Fixed
    else if !f.status.Open? then f.status
    else if Quarantines(result, source) && IsRuntimeOwnedFinding(f.id) then Stale
    else if ClosedByValidation(f.id, result, source) then Fixed
    else if f.id == AGGREGATE && !HasOpenWiring(validated) then Fixed
    else if ClosedByRebuild(f, result, source) then Stale
    else if NeverOpen(f.id) then Fixed
    else Open
  }

  lemma ReconciledIsDecided(f: Finding, result: BatchResult, source: string)
    ensures var g := Reconciled(f, result, source);
            && g.id == f.id && g.source == f.source
            && g.status == (if ClosedByFlags(f.id, result, source) then Fixed
                            else if f.status.Open? && Quarantines(result, source) && IsRuntimeOwnedFinding(f.id) then
                              Stale
                            else f.status)
            && (g.status.Open? ==> g == f)
  {
    hide Quarantines, IsRuntimeOwnedFinding, ClosedByFlags, Unique;
  }

  lemma ValidatedIsDecided(g: Finding, result: BatchResult, source: string)
    ensures ValidationClosed(g, result, source) ==
            if g.status.Open? && ClosedByValidation(g.id, result, source) then Close(g, Fixed) else g
  {
    hide IsActive, IsProductOwnedFinding, HasPassingCommandEvidence;
  }

  lemma RebuiltIsDecided(g: Finding, result: BatchResult, source: string)
    ensures Rebuilt(g, result, source).status == if g.status.Open? && ClosedByRebuild(g, result, source) then Stale
            else g.status
    ensures Rebuilt(g, result, source).id == g.id
  {
    hide IsTrustedSuccessfulRecoveryEvidence, IsBlockingFlag, IsRuntimeSupportOrToolingFinding, Unique;
  }

  lemma NormalizedIsDecided(g: Finding)
    ensures Normalized(g).status == if g.status.Open? && NeverOpen(g.id) then Fixed else g.status
  {
    hide NeverOpen, Unique;
  }

  /** The composition of all passes is that one decision. */
  lemma PassesDecide(f: Finding, result: BatchResult, source: string, validated: seq<Finding>)
    ensures Processed(f, result, source, validated).status == Decided(f, result, source, validated)
  {
    hide Reconciled, ValidationClosed, Rebuilt, Normalized, NeverOpen, ClosedByFlags, Quarantines,
      IsRuntimeOwnedFinding, ClosedByValidation,
         HasOpenWiring, ClosedByRebuild;
    var g := Reconciled(f, result, source);
    var h := ValidationClosed(g, result, source);
    var k := AggregateClosed(h, validated);
    ReconciledIsDecided(f, result, source);
    ValidatedIsDecided(g, result, source);
    RebuiltIsDecided(k, result, source);
    NormalizedIsDecided(Rebuilt(k, result, source));
  }

  /** After an import every finding has the decided status of its accumulated form. */
  lemma ImportDecides(state: BatchState, batch: nat, source: string, raw: BatchResult, id: string)
    requires Get(Import(state, batch, source, raw).findings, id).Some?
    ensures var result := Canonicalize(batch, raw, state.findings);
            var joined := Accumulate(state.findings + FindingsFromResult(source, result));
            var validated := CloseFindingsOnSuccessfulValidation(Map((f: Finding) => Reconciled(f, result, source),
                                                                     joined), result, source);
            Get(joined, id).Some? &&
            Get(Import(state, batch, source, raw).findings, id).value.status ==
              Decided(Get(joined, id).value, result, source, validated)
  {
    hide Canonicalize, ImportedFindings, Accumulate, Processed, Decided, FindingsFromResult, ResultClosureCause;
    var result := Canonicalize(batch, raw, state.findings);
    var joined := Accumulate(state.findings + FindingsFromResult(source, result));
    var validated := CloseFindingsOnSuccessfulValidation(Map((f: Finding) => Reconciled(f, result, source), joined),
                                                         result, source);
    ImportedIsProcessed(state.findings, result, source);
    PointwiseGet(joined, ImportedFindings(state.findings, result, source), id);
    PassesDecide(joined[Find(joined, id)], result, source, validated);
  }

  // ---- Product-owned findings have no blanket closure ----

  lemma AggregateIsNotProductOwned()
    ensures !IsProductOwnedFinding(AGGREGATE)
  {
    hide UpperCode, StartsWithAny;
    AggregateCode();
    UCodesAreNotProductOwned(UpperCode(AGGREGATE));
  }

  lemma AggregateCode()
    ensures UpperCode(AGGREGATE) != "" && UpperCode(AGGREGATE)[0] == 'U'
  {
    hide FlagCode, StripSource, StartsWith;
    AggregateShape();
    NotMarked(AGGREGATE);
    assert AGGREGATE + "" == AGGREGATE;
    UnmarkedCode(AGGREGATE, "");
  }

  lemma AggregateShape()
    ensures |AGGREGATE| > 1 && AGGREGATE[0] == 'U' && ':' !in AGGREGATE && !IsSpace(AGGREGATE[|AGGREGATE| - 1])
  {
  }

  lemma UCodesAreNotProductOwned(code: string)
    requires code != "" && code[0] == 'U'
    ensures !StartsWithAny(code, ["BUSINESS_LOGIC", "ENTRYPOINT", "AUTH", "AUTHORIZATION", "SECURITY", "TENANT",
                                  "PAYMENT", "PRICING", "API", "DB", "DATABASE", "SCHEMA", "E2E_SETUP_MISSING"])
  {
  }

  /** Of all the passes, only fix evidence touches an open product-owned finding. */
  lemma ProductOwnedIsProcessed(f: Finding, result: BatchResult, source: string, validated: seq<Finding>)
    requires IsProductOwnedFinding(f.id) && !NeverOpen(f.id)
    ensures Processed(f, result, source, validated) == if ClosedByFlags(f.id, result, source) then Close(f, Fixed)
            else f
  {
    hide Quarantines, IsRuntimeOwnedFinding, ClosedByFlags, IsActive, IsProductOwnedFinding, HasOpenWiring,
      IsTrustedSuccessfulRecoveryEvidence,
         IsBlockingFlag, NeverOpen, HasPassingCommandEvidence, Unique, CloseNoting;
    ProductFindingsAreNotRuntimeOwned(f.id);
    AggregateIsNotProductOwned();
  }

  /** After an import a product-owned finding is open exactly when it was open or the result lists it, and the
      canonical flags carry no usable fix evidence for it. */
  lemma ProductOwnedAfterImport(state: BatchState, batch: nat, source: string, raw: BatchResult, id: string)
    requires UniqueIds(state.findings) && IsProductOwnedFinding(id) && !NeverOpen(id)
    ensures var result := Canonicalize(batch, raw, state.findings);
            var before, after := Get(state.findings, id), Get(Import(state, batch, source, raw).findings, id);
            && (after.Some? <==> before.Some? || id in FindingIds(result))
            && (after.Some? && after.value.status.Open? <==>
                (id in FindingIds(result) || (before.Some? && before.value.status.Open?))
                  && !ClosedByFlags(id, result, source))
  {
    hide Canonicalize, ImportedFindings, Accumulate, Processed, NeverOpen, FindingIds, IsProductOwnedFinding,
      ClosedByFlags, FindingsFromResult,
         ResultClosureCause;
    var result := Canonicalize(batch, raw, state.findings);
    var joined := Accumulate(state.findings + FindingsFromResult(source, result));
    var imported := ImportedFindings(state.findings, result, source);
    var validated := CloseFindingsOnSuccessfulValidation(Map((f: Finding) => Reconciled(f, result, source), joined),
                                                         result, source);
    ImportedIsProcessed(state.findings, result, source);
    JoinedStatus(state.findings, result, source, id);
    PointwiseGet(joined, imported, id);
    if Get(joined, id).Some? {
      ProductOwnedIsProcessed(joined[Find(joined, id)], result, source, validated);
    }
  }

  // ---- Reopening ----

  /** A canonical blocking flag never names a settled finding. */
  lemma CanonicalFlagsSpareSettled(flags: seq<string>, findings: seq<Finding>, flag: string)
    requires flag in CanonicalFlags(flags, findings) && IsBlockingFlag(flag)
    ensures !HasSettled(findings, flag) && flag in flags
  {
    hide InvalidPlaceholder, IsStaleBlockingFlag, FixedPrefixes, IsBlockingFlag;
    var fixed := FixedPrefixes(flags);
    var kept := Filter((f: string) => !InvalidPlaceholder(f), flags);
    var marked := Map((f: string) => CanonicalFlag(f, findings, fixed), kept);
    FilterKeeps((f: string) => !IsStaleBlockingFlag(f, fixed), marked, flag);
    var i :| 0 <= i < |marked| && marked[i] == flag;
    MarkedFlagKeepsMeaning(kept[i]);
    FilterKeeps((f: string) => !InvalidPlaceholder(f), flags, kept[i]);
  }

  /** A fixed, stale or accepted finding reopens only when a new result's `failureType` is exactly its id. */
  lemma ReopenedOnlyByFailureType(state: BatchState, batch: nat, source: string, raw: BatchResult, id: string)
    requires UniqueIds(state.findings) && Get(state.findings, id).Some?
             && Get(state.findings, id).value.status in [Fixed, Stale, Accepted]
    requires Get(Import(state, batch, source, raw).findings, id).Some?
    requires Get(Import(state, batch, source, raw).findings, id).value.status.Open?
    ensures raw.failureType == Some(id) && id != ""
  {
    hide ImportedFindings, Accumulate, Processed, NeverOpen, FindingsFromResult, CanonicalFlags, ResultClosureCause,
      IsBlockingFlag, Unique;
    var result := Canonicalize(batch, raw, state.findings);
    var joined := Accumulate(state.findings + FindingsFromResult(source, result));
    ImportedIsProcessed(state.findings, result, source);
    JoinedStatus(state.findings, result, source, id);
    PointwiseGet(joined, ImportedFindings(state.findings, result, source), id);
    assert id in FindingIds(result);
    assert HasSettled(state.findings, id);
    if id !in Truthy(result.failureType) {
      FilterKeeps(IsBlockingFlag, result.flags, id);
      CanonicalFlagsSpareSettled(raw.flags, state.findings, id);
      assert false;
    }
  }

  // ---- Recording gates ----

  lemma {:induction false} HardFlagsKeep(findings: seq<Finding>, gate: GateResult, flags: seq<string>, id: string)
    requires UniqueIds(findings)
    ensures var added := AddHardFlags(findings, gate, flags);
            && UniqueIds(added)
            && (Get(findings, id).Some? ==>
                Get(added, id).Some? && Get(added, id).value.status == Get(findings, id).value.status
                                            && IsSubset(Get(findings, id).value.evidence,
                                                        Get(added, id).value.evidence))
            && (Get(findings, id).None? && Get(added, id).Some? ==> id in flags)
  {
    if flags != [] {
      hide Upsert, Get;
      var front, flag := flags[..|flags| - 1], flags[|flags| - 1];
      HardFlagsKeep(findings, gate, front, id);
      var byId := AddHardFlags(findings, gate, front);
      UpsertGet(byId, GateFinding(flag, gate, Get(byId, flag)), id);
    }
  }

  /** A gate never reopens a finding, and fixes exactly those its flags are evidence for. */
  lemma AfterGateKeeps(findings: seq<Finding>, gate: GateResult, id: string)
    requires UniqueIds(findings)
    ensures var after := AfterGate(findings, gate);
            && UniqueIds(after)
            && (Get(findings, id).Some? ==>
                && Get(after, id).Some?
                && IsSubset(Get(findings, id).value.evidence, Get(after, id).value.evidence)
                && Get(after, id).value.status ==
                   if Contributes(gate) && HasFixEvidenceFromFlags(gate.flags, id) then Fixed
                     else Get(findings, id).value.status)
            && (Get(findings, id).None? && Get(after, id).Some? && !Get(after, id).value.status.Fixed? ==>
                IsHardFlag(id, gate.name))
  {
    hide AddHardFlags, Contributes, HasFixEvidenceFromFlags, HasFixFlags, IsHardFlag;
    HardFlagsKeep(findings, gate, HardFlags(gate), id);
    var added := AddHardFlags(findings, gate, HardFlags(gate));
    FilterKeeps((flag: string) => IsHardFlag(flag, gate.name), gate.flags, id);
    if Contributes(gate) && HasFixFlags(gate.flags) {
      assert Pointwise(added, AfterGate(findings, gate));
      PointwiseGet(added, AfterGate(findings, gate), id);
    }
    if HasFixEvidenceFromFlags(gate.flags, id) { EvidenceNeedsFixFlags(gate.flags, id); }
  }

  predicate FixedByGate(gate: GateResult, id: string) {
    Contributes(gate) && HasFixEvidenceFromFlags(gate.flags, id)
  }

  predicate FixedBySomeGate(gates: seq<GateResult>, id: string) {
    exists i | 0 <= i < |gates| :: FixedByGate(gates[i], id)
  }

  /** The finding survives with its evidence, fixed or with the status it had. */
  predicate KeptThroughGates(before: Option<Finding>, after: Option<Finding>, fixed: bool) {
    before.Some? ==>
      && after.Some? && IsSubset(before.value.evidence, after.value.evidence)
      && after.value.status == if fixed then Fixed else before.value.status
  }

  /** An open finding that may not be open was open before. */
  predicate NotOpenedThroughGates(before: Option<Finding>, after: Option<Finding>, id: string) {
    after.Some? && after.value.status.Open? && NeverOpen(id) ==> before.Some? && before.value.status.Open?
  }

  lemma OneGate(findings: seq<Finding>, gate: GateResult, id: string)
    requires UniqueIds(findings)
    ensures var after := AfterGate(findings, gate);
            && UniqueIds(after)
            && KeptThroughGates(Get(findings, id), Get(after, id), FixedByGate(gate, id))
            && NotOpenedThroughGates(Get(findings, id), Get(after, id), id)
  {
    hide AfterGate, Get, Contributes, HasFixEvidenceFromFlags, IsPositiveFlag, IsWarningFlag;
    AfterGateKeeps(findings, gate, id);
  }

  lemma OneMoreGate(gates: seq<GateResult>, id: string)
    requires gates != []
    ensures FixedBySomeGate(gates, id) <==>
            FixedBySomeGate(gates[..|gates| - 1], id) || FixedByGate(gates[|gates| - 1], id)
  {
    hide FixedByGate;
    var front := gates[..|gates| - 1];
    if FixedBySomeGate(front, id) {
      var i :| 0 <= i < |front| && FixedByGate(front[i], id);
      assert FixedByGate(gates[i], id);
    }
    if FixedBySomeGate(gates, id) {
      var i :| 0 <= i < |gates| && FixedByGate(gates[i], id);
      assert i < |front| ==> front[i] == gates[i];
    }
  }

  lemma {:induction false} AfterGatesKeep(findings: seq<Finding>, gates: seq<GateResult>, id: string)
    requires UniqueIds(findings)
    ensures var after := AfterGates(findings, gates);
            && UniqueIds(after)
            && KeptThroughGates(Get(findings, id), Get(after, id), FixedBySomeGate(gates, id))
            && NotOpenedThroughGates(Get(findings, id), Get(after, id), id)
  {
    hide AfterGate, Get, FixedByGate, NeverOpen;
    if gates != [] {
      var n := |gates| - 1;
      AfterGatesKeep(findings, gates[..n], id);
      OneGate(AfterGates(findings, gates[..n]), gates[n], id);
      OneMoreGate(gates, id);
    }
  }

  /** What follows the gates' own flags when gates are recorded. */
  function Concluded(f: Finding, state: BatchState, gates: seq<GateResult>, transitioned: seq<Finding>): Finding {
    Rebuilt(AggregateClosed(PassClosed(f, state, gates), transitioned), state.currentResult, "gate")
  }

  lemma ConcludedSettles(f: Finding, state: BatchState, gates: seq<GateResult>, transitioned: seq<Finding>)
    ensures Settles(f, Concluded(f, state, gates, transitioned))
  {
    hide PassedFlag, HasFixEvidenceFromFlags, AggregateClosed, Rebuilt;
    var g := PassClosed(f, state, gates);
    AggregateSettles(g, transitioned);
    RebuiltSettles(AggregateClosed(g, transitioned), state.currentResult, "gate");
  }

  lemma TransitionedIsConcluded(state: BatchState, gates: seq<GateResult>)
    ensures var before := AfterGates(ById(state.findings), gates);
            var transitioned := Map((f: Finding) => PassClosed(f, state, gates), before);
            var after := TransitionedFindings(state, gates);
            && |after| == |before|
            && (forall i | 0 <= i < |before| :: after[i] == Concluded(before[i], state, gates, transitioned))
            && Pointwise(before, after)
  {
    hide PassClosed, AggregateClosed, Rebuilt, AfterGates, ById;
    var before := AfterGates(ById(state.findings), gates);
    var transitioned := Map((f: Finding) => PassClosed(f, state, gates), before);
    forall i | 0 <= i < |before| ensures Settles(before[i], Concluded(before[i], state, gates, transitioned)) {
      ConcludedSettles(before[i], state, gates, transitioned);
    }
  }

  /** Recording gates keeps ids unique, every finding and its evidence, and reopens none; and the closing normalisation
      has nothing left to do, so no closure escapes the traces. */
  lemma TransitionedKeeps(state: BatchState, gates: seq<GateResult>, id: string)
    requires Canonical(state)
    ensures var after := TransitionedFindings(state, gates);
            && UniqueIds(after)
            && (Get(state.findings, id).Some? ==>
                Get(after, id).Some? && Settles(Get(state.findings, id).value, Get(after, id).value))
            && (Get(after, id).Some? && Get(after, id).value.status.Open? ==> !NeverOpen(id))
  {
    hide TransitionedFindings, Get, NeverOpen, AfterGates, Find;
    ByIdOfUnique(state.findings);
    TransitionedIsConcluded(state, gates);
    var before := AfterGates(state.findings, gates);
    AfterGatesKeep(state.findings, gates, id);
    PointwiseGet(before, TransitionedFindings(state, gates), id);
  }

  lemma NothingToNormalize(findings: seq<Finding>)
    requires NothingNeverOpen(findings)
    ensures NormalizeCanonicalFindings(findings) == findings
  {
    hide NeverOpen;
  }

  lemma TransitionedIsCanonical(state: BatchState, gates: seq<GateResult>)
    requires Canonical(state)
    ensures UniqueIds(TransitionedFindings(state, gates)) && NothingNeverOpen(TransitionedFindings(state, gates))
    ensures Grows(state.findings, TransitionedFindings(state, gates))
  {
    hide TransitionedFindings, NeverOpen, Get;
    var after := TransitionedFindings(state, gates);
    TransitionedKeeps(state, gates, "");
    forall i | 0 <= i < |after| ensures after[i].status.Open? ==> !NeverOpen(after[i].id) {
      TransitionedKeeps(state, gates, after[i].id);
      GetAt(after, i);
    }
    forall i | 0 <= i < |state.findings|
      ensures Get(after, state.findings[i].id).Some?
              && IsSubset(state.findings[i].evidence, Get(after, state.findings[i].id).value.evidence)
    {
      TransitionedKeeps(state, gates, state.findings[i].id);
      GetAt(state.findings, i);
    }
  }

  lemma RecordedIsTransitioned(state: BatchState, gates: seq<GateResult>)
    requires Canonical(state)
    ensures RecordGateState(state, gates).findings == TransitionedFindings(state, gates)
    ensures RecordGateState(state, gates).traces == TransitionFindingsForGates(state, gates).traces
  {
    hide TransitionedFindings, NormalizeCanonicalFindings, ClosureTraces;
    TransitionedIsCanonical(state, gates);
    NothingToNormalize(TransitionedFindings(state, gates));
  }

  /** In gate recording an open product-owned finding stays open unless a contributing gate or the current result
      carries fix evidence for it, or a cleanly passing gate owns it or last listed it. */
  lemma ProductOwnedAfterGates(state: BatchState, gates: seq<GateResult>, id: string)
    requires Canonical(state) && IsProductOwnedFinding(id)
    requires Get(state.findings, id).Some? && Get(state.findings, id).value.status.Open?
    ensures var after := Get(RecordGateState(state, gates).findings, id);
            && after.Some?
            && (after.value.status.Open? <==>
                !FixedBySomeGate(gates, id) && !PassedFlag(state, gates, id)
                  && !HasFixEvidenceFromFlags(state.currentResult.flags, id))
  {
    hide TransitionedFindings, AfterGates, FixedBySomeGate, PassedFlag, HasFixEvidenceFromFlags, IsProductOwnedFinding,
      NeverOpen, RecordGateState;
    RecordedIsTransitioned(state, gates);
    ByIdOfUnique(state.findings);
    TransitionedIsConcluded(state, gates);
    AfterGatesKeep(state.findings, gates, id);
    var before := AfterGates(state.findings, gates);
    var transitioned := Map((f: Finding) => PassClosed(f, state, gates), before);
    PointwiseGet(before, TransitionedFindings(state, gates), id);
    ProductOwnedIsConcluded(before[Find(before, id)], state, gates, transitioned);
  }

  lemma ProductOwnedIsConcluded(f: Finding, state: BatchState, gates: seq<GateResult>, transitioned: seq<Finding>)
    requires IsProductOwnedFinding(f.id)
    ensures Concluded(f, state, gates, transitioned) == PassClosed(f, state, gates)
  {
    AggregateIsNotProductOwned();
    hide PassedFlag, HasFixEvidenceFromFlags, IsProductOwnedFinding, HasOpenWiring, IsTrustedSuccessfulRecoveryEvidence,
      IsBlockingFlag, CloseNoting;
  }

  // ---- Closure traces ----

  function TracesOf(traces: seq<ClosureTrace>, id: string): seq<ClosureTrace> {
    Filter((t: ClosureTrace) => t.findingId == id, traces)
  }

  /** The finding existed and has changed to a status other than open. */
  predicate Closed(before: seq<Finding>, after: seq<Finding>, id: string) {
    && Get(before, id).Some? && Get(after, id).Some?
    && Get(after, id).value.status != Get(before, id).value.status && !Get(after, id).value.status.Open?
  }

  lemma {:induction false} TracesAreExact(before: seq<Finding>, after: seq<Finding>, cause: string,
                                          evidence: seq<string>, id: string)
    requires UniqueIds(after)
    ensures TracesOf(ClosureTraces(before, after, cause, evidence), id) ==
            if Last(after, id).Some? then TraceOf(Last(before, id), Last(after, id).value, cause, evidence) else []
  {
    if after != [] {
      hide TraceOf, ById, Get;
      var front, finding := after[..|after| - 1], after[|after| - 1];
      TracesAreExact(before, front, cause, evidence, id);
      var added := TraceOf(Get(ById(before), finding.id), finding, cause, evidence);
      FilterAppend((t: ClosureTrace) => t.findingId == id, ClosureTraces(before, front, cause, evidence), added);
      ByIdIsLast(before, finding.id);
      TraceIsOf(Get(ById(before), finding.id), finding, cause, evidence, id);
      LastHolds(front, id);
    }
  }

  lemma TraceIsOf(previous: Option<Finding>, finding: Finding, cause: string, evidence: seq<string>, id: string)
    ensures TracesOf(TraceOf(previous, finding, cause, evidence), id) ==
            if finding.id == id then TraceOf(previous, finding, cause, evidence) else []
  {
    hide Unique;
  }

  /** Exactly one trace, with the right ends, for each finding that was closed; none for the others. */
  predicate TracedExactly(before: seq<Finding>, after: seq<Finding>, added: seq<ClosureTrace>, id: string) {
    var traces := TracesOf(added, id);
    if Closed(before, after, id) then
      |traces| == 1 && traces[0].from == Get(before, id).value.status && traces[0].to == Get(after, id).value.status
    else traces == []
  }

  lemma DiffIsTracedExactly(before: seq<Finding>, after: seq<Finding>, cause: string, evidence: seq<string>, id: string)
    requires UniqueIds(before) && UniqueIds(after)
    ensures TracedExactly(before, after, ClosureTraces(before, after, cause, evidence), id)
  {
    hide Get, Unique;
    TracesAreExact(before, after, cause, evidence, id);
    LastIsGet(before, id);
    LastIsGet(after, id);
  }

  // ---- Runs ----

  /** An import, a gate recording, or writing the state and loading it again. */
  datatype FindingEvent = ImportEvent(source: string, raw: BatchResult) | GatesEvent(gates: seq<GateResult>) | SaveEvent

  function Step(state: BatchState, batch: nat, event: FindingEvent): BatchState {
    match event
    case ImportEvent(source, raw) => Import(state, batch, source, raw)
    case GatesEvent(gates) => RecordGateState(state, gates)
    case SaveEvent => Saved(state)
  }

  function Replay(state: BatchState, batch: nat, events: seq<FindingEvent>): BatchState {
    if events == [] then state
    else Step(Replay(state, batch, events[..|events| - 1]), batch, events[|events| - 1])
  }

  /** Every step keeps the invariant, every finding and its evidence, and appends exactly the traces of what it
      closed. */
  lemma StepKeeps(state: BatchState, batch: nat, event: FindingEvent, id: string)
    requires Canonical(state)
    ensures var next := Step(state, batch, event);
            && Canonical(next) && Grows(state.findings, next.findings) && state.traces <= next.traces
            && TracedExactly(state.findings, next.findings, next.traces[|state.traces|..], id)
  {
    match event
    case ImportEvent(source, raw) => ImportKeeps(state, batch, source, raw, id);
    case GatesEvent(gates) => GatesKeep(state, gates, id);
    case SaveEvent => SaveKeeps(state, id);
  }

  lemma ImportKeeps(state: BatchState, batch: nat, source: string, raw: BatchResult, id: string)
    requires Canonical(state)
    ensures var next := Import(state, batch, source, raw);
            && Canonical(next) && Grows(state.findings, next.findings) && state.traces <= next.traces
            && TracedExactly(state.findings, next.findings, next.traces[|state.traces|..], id)
  {
    hide Canonicalize, ImportedFindings, ClosureTraces, Grows, NothingNeverOpen, TracedExactly, ResultClosureCause;
    var result := Canonicalize(batch, raw, state.findings);
    var findings := ImportedFindings(state.findings, result, source);
    ImportMakesCanonical(state, batch, source, raw);
    DiffIsTracedExactly(state.findings, findings, ResultClosureCause(result, source), result.flags, id);
    var added := ClosureTraces(state.findings, findings, ResultClosureCause(result, source), result.flags);
    assert Import(state, batch, source, raw).traces[|state.traces|..] == added;
  }

  lemma GatesKeep(state: BatchState, gates: seq<GateResult>, id: string)
    requires Canonical(state)
    ensures var next := RecordGateState(state, gates);
            && Canonical(next) && Grows(state.findings, next.findings) && state.traces <= next.traces
            && TracedExactly(state.findings, next.findings, next.traces[|state.traces|..], id)
  {
    hide TransitionedFindings, ClosureTraces, Grows, NothingNeverOpen, TracedExactly, GateEvidence, RecordGateState;
    var findings := TransitionedFindings(state, gates);
    RecordedIsTransitioned(state, gates);
    TransitionedIsCanonical(state, gates);
    DiffIsTracedExactly(state.findings, findings, "gate-reconciliation", GateEvidence(gates), id);
    var added := ClosureTraces(state.findings, findings, "gate-reconciliation", GateEvidence(gates));
    assert RecordGateState(state, gates).traces[|state.traces|..] == added;
  }

  lemma SaveKeeps(state: BatchState, id: string)
    requires Canonical(state)
    ensures Saved(state) == state
    ensures Grows(state.findings, state.findings)
            && TracedExactly(state.findings, state.findings, state.traces[|state.traces|..], id)
  {
    hide NeverOpen, NormalizeCanonicalFindings;
    NothingToNormalize(state.findings);
    forall i | 0 <= i < |state.findings| ensures Get(state.findings, state.findings[i].id) == Some(state.findings[i]) {
      GetAt(state.findings, i);
    }
  }

  lemma GrowsTransitive(a: seq<Finding>, b: seq<Finding>, c: seq<Finding>)
    requires UniqueIds(b) && Grows(a, b) && Grows(b, c)
    ensures Grows(a, c)
  {
    hide Get, Find;
    forall i | 0 <= i < |a| ensures Get(c, a[i].id).Some? && IsSubset(a[i].evidence, Get(c, a[i].id).value.evidence) {
      var g := Get(b, a[i].id).value;
      var j :| 0 <= j < |b| && b[j] == g;
      assert b[j].id == a[i].id;
    }
  }

  /** How often a run closes the finding `id`. */
  function Closures(state: BatchState, batch: nat, events: seq<FindingEvent>, id: string): nat {
    if events == [] then 0
    else
      var before := Replay(state, batch, events[..|events| - 1]);
      Closures(state, batch, events[..|events| - 1], id) +
      if Closed(before.findings, Replay(state, batch, events).findings, id) then 1 else 0
  }

  /** Over every run from a canonical state: ids stay unique and none vanishes, evidence grows, the list of traces is
      append-only, and a finding has one more trace for each time it was closed. */
  lemma {:induction false} RunsKeepFindings(state: BatchState, batch: nat, events: seq<FindingEvent>, id: string)
    requires Canonical(state)
    ensures var end := Replay(state, batch, events);
            && Canonical(end) && Grows(state.findings, end.findings) && state.traces <= end.traces
            && |TracesOf(end.traces, id)| == |TracesOf(state.traces, id)| + Closures(state, batch, events, id)
  {
    hide Step, Canonical, Grows;
    if events == [] {
      SaveKeeps(state, id);
    } else {
      var past, event := events[..|events| - 1], events[|events| - 1];
      RunsKeepFindings(state, batch, past, id);
      var before, end := Replay(state, batch, past), Replay(state, batch, events);
      StepKeeps(before, batch, event, id);
      CanonicalIsUnique(before);
      GrowsTransitive(state.findings, before.findings, end.findings);
      var added := end.traces[|before.traces|..];
      assert end.traces == before.traces + added;
      FilterAppend((t: ClosureTrace) => t.findingId == id, before.traces, added);
    }
  }

  lemma CanonicalIsUnique(state: BatchState)
    requires Canonical(state)
    ensures UniqueIds(state.findings)
  {
  }

  predicate IsSettledIn(state: BatchState, id: string) {
    Get(state.findings, id).Some? && Get(state.findings, id).value.status in [Fixed, Stale, Accepted]
  }

  predicate Names(event: FindingEvent, id: string) {
    event.ImportEvent? && event.raw.failureType == Some(id) && id != ""
  }

  /** A settled finding stays settled through every run in which no imported result names it as its `failureType`. */
  lemma {:induction false} SettledUntilNamed(state: BatchState, batch: nat, events: seq<FindingEvent>, id: string)
    requires Canonical(state) && IsSettledIn(state, id)
    requires forall i | 0 <= i < |events| :: !Names(events[i], id)
    ensures IsSettledIn(Replay(state, batch, events), id)
  {
    if events != [] {
      hide Step, IsSettledIn, Canonical;
      var past := events[..|events| - 1];
      SettledUntilNamed(state, batch, past, id);
      RunsKeepFindings(state, batch, past, id);
      SettledThroughStep(Replay(state, batch, past), batch, events[|events| - 1], id);
    }
  }

  lemma SettledThroughStep(state: BatchState, batch: nat, event: FindingEvent, id: string)
    requires Canonical(state) && IsSettledIn(state, id) && !Names(event, id)
    ensures IsSettledIn(Step(state, batch, event), id)
  {
    match event
    case ImportEvent(source, raw) => SettledThroughImport(state, batch, source, raw, id);
    case GatesEvent(gates) =>
      hide TransitionedFindings, ClosureTraces, RecordGateState, Get;
      RecordedIsTransitioned(state, gates);
      TransitionedKeeps(state, gates, id);
    case SaveEvent => SaveKeeps(state, id);
  }

  lemma SettledThroughImport(state: BatchState, batch: nat, source: string, raw: BatchResult, id: string)
    requires Canonical(state) && IsSettledIn(state, id) && !Names(ImportEvent(source, raw), id)
    ensures IsSettledIn(Import(state, batch, source, raw), id)
  {
    hide ImportedFindings, Accumulate, Processed, NeverOpen, FindingsFromResult, Canonicalize, ResultClosureCause,
      FindingIds;
    var result := Canonicalize(batch, raw, state.findings);
    var joined := Accumulate(state.findings + FindingsFromResult(source, result));
    ImportedIsProcessed(state.findings, result, source);
    JoinedStatus(state.findings, result, source, id);
    PointwiseGet(joined, ImportedFindings(state.findings, result, source), id);
    if Get(Import(state, batch, source, raw).findings, id).value.status.Open? {
      ReopenedOnlyByFailureType(state, batch, source, raw, id);
      assert false;
    }
  }
}
