/** What holds of the rule-pack table in every reachable state. */
module RulePackProperties {
  import opened Wrappers
  import opened Sequences
  import opened RuleEvaluation
  import opened RulePacks
  import Text

  // ---- The raw document and the stored payload answer alike ----

  function Strip(rule: Rule): Rule { rule.(extra := "") }

  lemma {:induction false} StripFiltered(keep: Rule -> bool, rules: seq<Rule>)
    requires forall rule :: keep(Strip(rule)) == keep(rule)
    ensures Filter(keep, Map(Strip, rules)) == Map(Strip, Filter(keep, rules))
  {
    if rules != [] {
      assert Map(Strip, rules)[1..] == Map(Strip, rules[1..]);
      StripFiltered(keep, rules[1..]);
    }
  }

  lemma {:induction false} StripSorted(rules: seq<Rule>)
    ensures SortByConfidence(Map(Strip, rules)) == Map(Strip, SortByConfidence(rules))
  {
    if rules != [] {
      assert Map(Strip, rules)[1..] == Map(Strip, rules[1..]);
      StripSorted(rules[1..]);
      StripInserted(rules[0], SortByConfidence(rules[1..]));
    }
  }

  lemma StripKeepsConfidence(rule: Rule)
    ensures Confidence(Strip(rule)) == Confidence(rule)
  {
  }

  lemma {:induction false} StripInserted(rule: Rule, sorted: seq<Rule>)
    ensures Insert(Strip(rule), Map(Strip, sorted)) == Map(Strip, Insert(rule, sorted))
  {
    hide Confidence;
    assert Confidence(Strip(rule)) == Confidence(rule) by { StripKeepsConfidence(rule); }
    if sorted != [] {
      StripKeepsConfidence(sorted[0]);
      assert Map(Strip, sorted)[1..] == Map(Strip, sorted[1..]);
      if Confidence(rule) < Confidence(sorted[0]) {
        StripInserted(rule, sorted[1..]);
        MapHead(Strip, sorted[0], Insert(rule, sorted[1..]));
      } else {
        MapHead(Strip, rule, sorted);
      }
    }
  }

  lemma StripFinished(ranking: seq<Rule>, rejected: seq<RejectedCandidate>)
    ensures Finish(Map(Strip, ranking), rejected) ==
            Finish(ranking, rejected).(matchedRules := Map(Strip, Finish(ranking, rejected).matchedRules))
  {
    if ranking != [] {
      var tail := Map(Strip, ranking)[1..];
      assert Map((rule: Rule) => Reject(rule, RankReason(Strip(ranking[0]), rule)), tail) ==
             Map((rule: Rule) => Reject(rule, RankReason(ranking[0], rule)), ranking[1..]);
    }
  }

  /** Evaluating the stored payload in production gives the same answer as evaluating the raw document in
      validation, up to the JSON fields the runtime ignores. */
  lemma StoredPayloadAnswersAlike(source: Source, product: string)
    requires ParseRulePack(source).Some? && Evaluate(VALIDATION_RUNTIME, RawPack(source), product).Ok?
    ensures var raw := Evaluate(VALIDATION_RUNTIME, RawPack(source), product).value;
            Evaluate(PRODUCTION_RUNTIME, PayloadJson(ParseRulePack(source).value), product) ==
            Ok(raw.(matchedRules := Map(Strip, raw.matchedRules)))
  {
    assert source.Yaml?;
    hide Evaluate, ParseRulePack;
    OnlyRulesWithContainsAnswer(VALIDATION_RUNTIME, RawPack(source), product);
    PayloadIsStripped(source);
    StrippedAnswersAlike(source.rules.value, source.simulate, product);
  }

  lemma OnlyRulesWithContainsAnswer(runtime: Runtime, pack: Pack, product: string)
    requires Evaluate(runtime, pack, product).Ok?
    ensures pack.rules.Some?
  {
  }

  lemma StrippedAnswersAlike(rules: seq<Rule>, simulate: Option<string>, product: string)
    requires Evaluate(VALIDATION_RUNTIME, Pack(Some(rules), simulate), product).Ok?
    ensures var raw := Evaluate(VALIDATION_RUNTIME, Pack(Some(rules), simulate), product).value;
            Evaluate(PRODUCTION_RUNTIME, Pack(Some(Map(Strip, rules)), None), product) ==
            Ok(raw.(matchedRules := Map(Strip, raw.matchedRules)))
  {
    hide Classify;
    StripClassified(rules, Text.Lower(product));
  }

  lemma PayloadIsStripped(source: Source)
    requires ParseRulePack(source).Some? && source.rules.Some?
    ensures PayloadJson(ParseRulePack(source).value).rules == Some(Map(Strip, source.rules.value))
  {
    var rules := source.rules.value;
    var stored := Map(RuleJson, ParseRulePack(source).value.rules);
    forall i | 0 <= i < |rules| ensures stored[i] == Strip(rules[i]) {
      assert FullyTyped(rules[i]);
    }
    assert stored == Map(Strip, rules);
  }

  lemma StripClassified(rules: seq<Rule>, haystack: string)
    ensures Classify(Map(Strip, rules), haystack) ==
            Classify(rules, haystack).(matchedRules := Map(Strip, Classify(rules, haystack).matchedRules))
  {
    StripFiltered((rule: Rule) => Matches(rule, haystack), rules);
    StripFiltered((rule: Rule) => !Matches(rule, haystack), rules);
    StripSorted(Matched(rules, haystack));
    var missed := Missed(rules, haystack);
    assert Map((rule: Rule) => Reject(rule, ContainsNotMatched), Map(Strip, missed)) ==
           Map((rule: Rule) => Reject(rule, ContainsNotMatched), missed);
    StripFinished(SortByConfidence(Matched(rules, haystack)),
                  Map((rule: Rule) => Reject(rule, ContainsNotMatched), missed));
  }

  lemma {:induction false} NoGoldenErrors(goldenCases: seq<GoldenCase>, runtime: Runtime, raw: Pack, i: nat)
    requires GoldenCaseErrors(goldenCases, runtime, raw) == [] && i < |goldenCases|
    ensures GoldenCaseError(i, goldenCases[i], runtime, raw).None?
  {
    if i < |goldenCases| - 1 {
      NoGoldenErrors(goldenCases[..|goldenCases| - 1], runtime, raw, i);
    }
  }

  // ---- Runs of the table ----

  datatype Catalogue = Catalogue(packs: map<nat, PackRow>, nextId: nat, now: int)
  datatype PackEvent = UploadEvent(upload: Upload) | RevalidateEvent(tenant: nat, id: nat)
                     | ActivateEvent(tenant: nat, id: nat) | Tick(elapsed: nat)

  const EMPTY_CATALOGUE := Catalogue(map[], 0, 0)

  /** A failed request leaves the table as it was. */
  function Apply(c: Catalogue, event: PackEvent): Catalogue {
    match event
    case UploadEvent(upload) =>
      var r := UploadPack(c.packs, c.nextId, c.now, upload);
      if r.Ok? then c.(packs := r.value, nextId := c.nextId + 1) else c
    case RevalidateEvent(tenant, id) =>
      var r := RevalidatePack(c.packs, tenant, id);
      if r.Ok? then c.(packs := r.value) else c
    case ActivateEvent(tenant, id) =>
      var r := ActivatePack(c.packs, c.now, tenant, id);
      if r.Ok? then c.(packs := r.value) else c
    case Tick(elapsed) => c.(now := c.now + elapsed)
  }

  function Run(events: seq<PackEvent>): Catalogue {
    if events == [] then EMPTY_CATALOGUE
    else Apply(Run(events[..|events| - 1]), events[|events| - 1])
  }

  /** The row's stored columns are what its source gives. */
  predicate Consistent(row: PackRow) {
    && ParseRulePack(row.source) == Some(row.document)
    && row.report == ReportOf(row.source, row.document)
    && row.goldenCaseCount == AsI32(row.report.goldenCaseCount)
    && (row.activatedAt.Some? ==> ActivationReportValid(row.report, row.goldenCaseCount))
    && (row.status.Draft? <==> row.activatedAt.None?)
  }

  ghost predicate TableInv(packs: map<nat, PackRow>) {
    (forall id | id in packs :: Consistent(packs[id])) && IndexHolds(packs)
  }

  ghost predicate Inv(c: Catalogue) {
    TableInv(c.packs) && forall id | id in c.packs :: id < c.nextId
  }

  lemma UploadKeepsInv(packs: map<nat, PackRow>, id: nat, now: int, upload: Upload)
    requires TableInv(packs) && id !in packs && UploadPack(packs, id, now, upload).Ok?
    ensures var packs' := UploadPack(packs, id, now, upload).value;
            TableInv(packs') && packs'.Keys == packs.Keys + {id} && packs'[id].status.Draft? &&
            forall p | p in packs :: packs'[p] == packs[p]
  {
    hide Consistent, MetadataError, NormalizeJurisdiction, Conflicts, ParseRulePack, ReportOf, NewRow;
    NewRowIsConsistent(upload, ParseRulePack(upload.source).value, now);
  }

  lemma NewRowIsConsistent(upload: Upload, document: RulePackDocument, now: int)
    requires ParseRulePack(upload.source) == Some(document)
    ensures var row := NewRow(upload, document, ReportOf(upload.source, document), now);
            Consistent(row) && row.status.Draft?
  {
    hide ReportOf, NormalizeJurisdiction;
  }

  lemma RevalidateKeepsTable(packs: map<nat, PackRow>, tenant: nat, id: nat)
    requires TableInv(packs) && RevalidatePack(packs, tenant, id).Ok?
    ensures RevalidatePack(packs, tenant, id).value == packs
  {
    hide ReportOf, ParseRulePack;
    assert packs[id := packs[id]] == packs;
  }

  lemma ActivateKeepsInv(packs: map<nat, PackRow>, now: int, tenant: nat, id: nat)
    requires TableInv(packs) && ActivatePack(packs, now, tenant, id).Ok?
    ensures var packs' := ActivatePack(packs, now, tenant, id).value;
            TableInv(packs') && packs'.Keys == packs.Keys
  {
    hide ReportOf, ParseRulePack, ActivationReportValid;
    var packs' := ActivatePack(packs, now, tenant, id).value;
    forall p | p in packs' ensures Consistent(packs'[p]) {
      assert Consistent(packs[p]);
    }
  }

  /** An active row of the jurisdiction other than the one activated. */
  predicate IsReplaced(packs: map<nat, PackRow>, id: nat, p: nat)
    requires id in packs && p in packs
  {
    p != id && packs[p].status.Active? && packs[p].tenant == packs[id].tenant
      && packs[p].jurisdiction == packs[id].jurisdiction
  }

  lemma RowAfterReaching(packs: map<nat, PackRow>, now: int, id: nat, reached: set<nat>, p: nat)
    requires id in packs && p in packs
    ensures ActivateReaching(packs, now, id, reached).Keys == packs.Keys
    ensures ActivateReaching(packs, now, id, reached)[p] ==
            if p == id then Activated(packs[id], now)
            else if p in reached && IsReplaced(packs, id, p) then packs[p].(status := Retired) else packs[p]
  {
  }

  lemma SerialReachesAll(packs: map<nat, PackRow>, now: int, tenant: nat, id: nat)
    requires ActivatePack(packs, now, tenant, id).Ok?
    ensures id in packs && ActivatePack(packs, now, tenant, id).value == ActivateReaching(packs, now, id, packs.Keys)
  {
    hide ActivationReportValid;
    var serial, all := ActivatePack(packs, now, tenant, id).value, ActivateReaching(packs, now, id, packs.Keys);
    forall p | p in packs ensures serial[p] == all[p] {
      RowAfterReaching(packs, now, id, packs.Keys, p);
    }
    assert serial.Keys == all.Keys;
  }

  /** Concurrent activations are serial: one that commits, because the index still holds, has written exactly what it
      would have written alone, whatever rows its retiring update reached. */
  lemma CommittedActivationIsSerial(packs: map<nat, PackRow>, now: int, tenant: nat, id: nat, reached: set<nat>)
    requires TableInv(packs) && ActivatePack(packs, now, tenant, id).Ok?
    ensures IndexHolds(ActivateReaching(packs, now, id, reached)) <==>
            ActivateReaching(packs, now, id, reached) == ActivatePack(packs, now, tenant, id).value
  {
    hide ActivatePack, ActivateReaching, Consistent;
    ActivateKeepsInv(packs, now, tenant, id);
    SerialReachesAll(packs, now, tenant, id);
    var stale, serial := ActivateReaching(packs, now, id, reached), ActivateReaching(packs, now, id, packs.Keys);
    RowAfterReaching(packs, now, id, reached, id);
    RowAfterReaching(packs, now, id, packs.Keys, id);
    if IndexHolds(stale) {
      forall p | p in packs ensures stale[p] == serial[p] {
        RowAfterReaching(packs, now, id, reached, p);
        RowAfterReaching(packs, now, id, packs.Keys, p);
      }
      assert stale == serial;
    }
  }

  lemma ApplyKeepsInv(c: Catalogue, event: PackEvent)
    requires Inv(c)
    ensures Inv(Apply(c, event))
  {
    hide UploadPack, RevalidatePack, ActivatePack, Consistent;
    match event
    case UploadEvent(upload) =>
      if UploadPack(c.packs, c.nextId, c.now, upload).Ok? { UploadKeepsInv(c.packs, c.nextId, c.now, upload); }
    case RevalidateEvent(tenant, id) =>
      if RevalidatePack(c.packs, tenant, id).Ok? { RevalidateKeepsTable(c.packs, tenant, id); }
    case ActivateEvent(tenant, id) =>
      if ActivatePack(c.packs, c.now, tenant, id).Ok? { ActivateKeepsInv(c.packs, c.now, tenant, id); }
    case Tick(_) =>
  }

  lemma {:induction false} RunKeepsInv(events: seq<PackEvent>)
    ensures Inv(Run(events))
  {
    if events != [] {
      RunKeepsInv(events[..|events| - 1]);
      ApplyKeepsInv(Run(events[..|events| - 1]), events[|events| - 1]);
    }
  }

  /** At least ten golden cases, and production selects the expected code of every one. */
  ghost predicate PassesGoldenCases(row: PackRow) {
    && |row.document.goldenCases| >= MIN_GOLDEN_CASES_FOR_ACTIVATION
    && forall i | 0 <= i < |row.document.goldenCases| :: PassesGoldenCase(row, row.document.goldenCases[i])
  }

  predicate PassesGoldenCase(row: PackRow, golden: GoldenCase) {
    && golden.product.Some? && golden.expectedCode.Some?
    && var answer := Evaluate(PRODUCTION_RUNTIME, PayloadJson(row.document), golden.product.value);
       answer.Ok? && answer.value.selectedCode == golden.expectedCode
  }

  lemma ConsistentRowPasses(row: PackRow)
    requires Consistent(row) && row.activatedAt.Some?
    ensures PassesGoldenCases(row)
  {
    hide ErrorsOfRules, HasRequiredMatrixCoverage, WasmSafetyValid, Evaluate, FullyTyped, ParseRule;
    var document := row.document;
    assert GoldenCaseErrors(document.goldenCases, VALIDATION_RUNTIME, RawPack(row.source)) == [];
    forall i | 0 <= i < |document.goldenCases| ensures PassesGoldenCase(row, document.goldenCases[i]) {
      NoGoldenErrors(document.goldenCases, VALIDATION_RUNTIME, RawPack(row.source), i);
      StoredPayloadAnswersAlike(row.source, document.goldenCases[i].product.value);
    }
  }

  /** The activation gate lasts: after any sequence of uploads, re-validations and activations, every pack that was
      ever activated still passes its golden cases in production. */
  lemma ActivatedPacksPassGoldenCases(events: seq<PackEvent>, id: nat)
    requires id in Run(events).packs && Run(events).packs[id].activatedAt.Some?
    ensures PassesGoldenCases(Run(events).packs[id])
  {
    RunKeepsInv(events);
    ConsistentRowPasses(Run(events).packs[id]);
  }

  /** Validation is deterministic, so re-validating a stored pack never changes the table and never trips the trigger.
      */
  lemma RevalidationChangesNothing(events: seq<PackEvent>, tenant: nat, id: nat)
    requires id in Run(events).packs && Run(events).packs[id].tenant == tenant
    ensures RevalidatePack(Run(events).packs, tenant, id) == Ok(Run(events).packs)
  {
    RunKeepsInv(events);
    var packs := Run(events).packs;
    assert packs[id := packs[id]] == packs;
  }

  // ---- One active pack, and lookups find the last one activated ----

  predicate Activates(c: Catalogue, event: PackEvent, tenant: nat, jurisdiction: string) {
    event.ActivateEvent? && event.tenant == tenant && ActivatePack(c.packs, c.now, tenant, event.id).Ok? &&
    c.packs[event.id].jurisdiction == jurisdiction
  }

  /** The pack of the last successful activation for the tenant and jurisdiction. */
  function LastActivated(events: seq<PackEvent>, tenant: nat, jurisdiction: string): Option<nat> {
    if events == [] then None
    else
      var before, last := events[..|events| - 1], events[|events| - 1];
      if Activates(Run(before), last, tenant, jurisdiction) then Some(last.id)
        else LastActivated(before, tenant, jurisdiction)
  }

  function AsSet(id: Option<nat>): set<nat> { if id.Some? then {id.value} else {} }

  lemma ActivationReplacesActive(packs: map<nat, PackRow>, now: int, activator: nat, id: nat, tenant: nat,
                                 jurisdiction: string)
    requires TableInv(packs) && ActivatePack(packs, now, activator, id).Ok?
    ensures ActiveIds(ActivatePack(packs, now, activator, id).value, tenant, jurisdiction) ==
            if activator == tenant && packs[id].jurisdiction == jurisdiction then {id}
              else ActiveIds(packs, tenant, jurisdiction)
  {
    hide ActivationReportValid, Consistent;
  }

  lemma ActiveAfter(c: Catalogue, event: PackEvent, tenant: nat, jurisdiction: string)
    requires Inv(c)
    ensures ActiveIds(Apply(c, event).packs, tenant, jurisdiction) ==
            if Activates(c, event, tenant, jurisdiction) then {event.id} else ActiveIds(c.packs, tenant, jurisdiction)
  {
    hide UploadPack, RevalidatePack, ActivatePack, Consistent;
    match event
    case UploadEvent(upload) =>
      if UploadPack(c.packs, c.nextId, c.now, upload).Ok? { UploadKeepsInv(c.packs, c.nextId, c.now, upload); }
    case RevalidateEvent(owner, id) =>
      if RevalidatePack(c.packs, owner, id).Ok? { RevalidateKeepsTable(c.packs, owner, id); }
    case ActivateEvent(activator, id) =>
      if ActivatePack(c.packs, c.now, activator, id).Ok? {
        ActivationReplacesActive(c.packs, c.now, activator, id, tenant, jurisdiction);
      }
    case Tick(_) =>
  }

  lemma {:induction false} ActiveIsLastActivated(events: seq<PackEvent>, tenant: nat, jurisdiction: string)
    ensures ActiveIds(Run(events).packs, tenant, jurisdiction) == AsSet(LastActivated(events, tenant, jurisdiction))
  {
    if events != [] {
      hide Apply, Inv, Activates, ActiveIds;
      var before := events[..|events| - 1];
      ActiveIsLastActivated(before, tenant, jurisdiction);
      RunKeepsInv(before);
      ActiveAfter(Run(before), events[|events| - 1], tenant, jurisdiction);
    }
  }

  /** Although re-activation keeps the first `activated_at` and the lookup sorts by it, the lookup returns the pack
      activated last. */
  lemma LookupFindsLastActivated(events: seq<PackEvent>, tenant: nat, jurisdiction: string)
    ensures FetchActivePack(Run(events).packs, tenant, jurisdiction) == LastActivated(events, tenant, jurisdiction)
  {
    ActiveIsLastActivated(events, tenant, jurisdiction);
  }

  // ---- Stored packs are immutable ----

  /** What evaluation reads of a stored pack stays, and an activated pack stays activated. */
  predicate Keeps(before: PackRow, after: PackRow) {
    && after.tenant == before.tenant && after.version == before.version && after.jurisdiction == before.jurisdiction
    && after.source == before.source && after.document == before.document
    && (before.activatedAt.Some? ==> after.activatedAt == before.activatedAt)
  }

  ghost predicate PacksGrow(before: map<nat, PackRow>, after: map<nat, PackRow>) {
    forall id | id in before :: id in after && Keeps(before[id], after[id])
  }

  lemma PacksAreImmutable(c: Catalogue, event: PackEvent)
    requires Inv(c)
    ensures PacksGrow(c.packs, Apply(c, event).packs)
  {
    hide UploadPack, RevalidatePack, Consistent, ActivationReportValid;
    match event
    case UploadEvent(upload) =>
      if UploadPack(c.packs, c.nextId, c.now, upload).Ok? { UploadKeepsInv(c.packs, c.nextId, c.now, upload); }
    case RevalidateEvent(owner, id) =>
      if RevalidatePack(c.packs, owner, id).Ok? { RevalidateKeepsTable(c.packs, owner, id); }
    case ActivateEvent(activator, id) =>
    case Tick(_) =>
  }
}
