/** Validation of an uploaded rule pack and its life cycle up to activation
    (src/rules/compiler.rs, src/rules/validator.rs, src/app/rule_packs.rs, src/app/rule_packs/activation.rs). */
module RulePacks {
  import opened Wrappers
  import opened Sequences
  import opened RuleEvaluation
  import Text

  const MIN_GOLDEN_CASES_FOR_ACTIVATION := 10
  const VALIDATION_PROBE := "{\"description\":\"rule pack validation probe\"}"

  /** A golden case as JSON; the product is given by its serialised text. */
  datatype GoldenCase = GoldenCase(product: Option<string>, expectedCode: Option<string>)

  /** A parsed source document. */
  datatype Source = NotYaml | Yaml(rules: Option<seq<Rule>>, goldenCases: seq<GoldenCase>, outputs: seq<string>,
                                   simulate: Option<string>)

  datatype RuleDefinition = RuleDefinition(id: string, code: string, contains: string, confidence: real,
                                           riskBand: string)
  datatype RulePackDocument = RulePackDocument(rules: seq<RuleDefinition>, goldenCases: seq<GoldenCase>,
                                               outputs: seq<string>)

  datatype ValidationError =
    | RequiresAtLeastOneRule | RuleIdRequired | RuleCodeRequired
    | RuleConfidenceOutOfRange(id: string) | RuleRiskBandInvalid(id: string) | WasmSafetyFailed
    | GoldenCaseMissingProduct(number: nat) | GoldenCaseMissingExpectedCode(number: nat)
    | GoldenCaseExpectedCodeMismatch(number: nat) | GoldenCaseRuntimeFailed(number: nat)

  datatype ValidationReport = ValidationReport(valid: bool, errors: seq<ValidationError>, ruleCount: nat,
                                               goldenCaseCount: nat,
                                               wasmSafetyValid: bool, matrixCoverageValid: bool)

  // ---- Parsing ----

  predicate FullyTyped(rule: Rule) {
    rule.id.Some? && rule.code.Some? && rule.contains.Some? && rule.confidence.Some? && rule.riskBand.Some?
  }

  function ParseRule(rule: Rule): RuleDefinition
    requires FullyTyped(rule)
  {
    RuleDefinition(rule.id.value, rule.code.value, rule.contains.value, rule.confidence.value, rule.riskBand.value)
  }

  /** `parse_rule_pack`: a rule that lacks a typed field is a parse error; missing `rules` default to none. */
  function ParseRulePack(source: Source): Option<RulePackDocument> {
    if source.NotYaml? then None
    else
      var rules := source.rules.Or([]);
      if forall i | 0 <= i < |rules| :: FullyTyped(rules[i]) then
        Some(RulePackDocument(seq(|rules|, i requires 0 <= i < |rules| => ParseRule(rules[i])), source.goldenCases,
                              source.outputs))
      else None
  }

  /** The raw document, as validation evaluates it. */
  function RawPack(source: Source): Pack
    requires source.Yaml?
  {
    Pack(source.rules, source.simulate)
  }

  function RuleJson(rule: RuleDefinition): Rule {
    Rule(Some(rule.id), Some(rule.code), Some(rule.contains), Some(rule.confidence), Some(rule.riskBand), "")
  }

  /** The typed document, as it is stored and as production evaluates it. */
  function PayloadJson(document: RulePackDocument): Pack {
    Pack(Some(Map(RuleJson, document.rules)), None)
  }

  // ---- Validation ----

  function ErrorsOfRule(rule: RuleDefinition): seq<ValidationError> {
    (if Text.Trim(rule.id) == "" then [RuleIdRequired] else [])
    + (if Text.Trim(rule.code) == "" then [RuleCodeRequired] else [])
    + (if 0.0 <= rule.confidence <= 1.0 then [] else [RuleConfidenceOutOfRange(rule.id)])
    + (if rule.riskBand == "low" || rule.riskBand == "medium" || rule.riskBand == "high" then []
       else [RuleRiskBandInvalid(rule.id)])
  }

  function ErrorsOfRules(rules: seq<RuleDefinition>): seq<ValidationError> {
    if rules == [] then [] else ErrorsOfRules(rules[..|rules| - 1]) + ErrorsOfRule(rules[|rules| - 1])
  }

  /** `rule_errors` */
  method RuleErrors(rules: seq<RuleDefinition>) returns (errors: seq<ValidationError>)
    ensures errors == (if rules == [] then [RequiresAtLeastOneRule] else []) + ErrorsOfRules(rules)
  {
    hide ErrorsOfRule;
    errors := [];
    if rules == [] {
      errors := errors + [RequiresAtLeastOneRule];
    }
    ghost var before := errors;
    for i := 0 to |rules|
      invariant errors == before + ErrorsOfRules(rules[..i])
    {
      assert rules[..i + 1][..i] == rules[..i];
      errors := errors + ErrorsOfRule(rules[i]);
    }
    assert rules[..|rules|] == rules;
  }

  predicate WasmSafetyValid(runtime: Runtime, raw: Pack) {
    Evaluate(runtime, raw, VALIDATION_PROBE).Ok?
  }

  function GoldenCaseError(index: nat, golden: GoldenCase, runtime: Runtime, raw: Pack): Option<ValidationError> {
    if golden.product.None? then Some(GoldenCaseMissingProduct(index + 1))
    else if golden.expectedCode.None? || Text.Trim(golden.expectedCode.value) == "" then
      Some(GoldenCaseMissingExpectedCode(index + 1))
    else
      match Evaluate(runtime, raw, golden.product.value)
      case Ok(outcome) =>
        if outcome.selectedCode == golden.expectedCode then None else Some(GoldenCaseExpectedCodeMismatch(index + 1))
      case Err(_) => Some(GoldenCaseRuntimeFailed(index + 1))
  }

  function GoldenCaseErrors(goldenCases: seq<GoldenCase>, runtime: Runtime, raw: Pack): seq<ValidationError> {
    if goldenCases == [] then []
    else
      var last := |goldenCases| - 1;
      var error := GoldenCaseError(last, goldenCases[last], runtime, raw);
      GoldenCaseErrors(goldenCases[..last], runtime, raw) + (if error.Some? then [error.value] else [])
  }

  predicate CoversOutput(outputs: seq<string>, required: string) {
    exists i | 0 <= i < |outputs| :: Text.Lower(Text.Trim(outputs[i])) == required
  }

  predicate HasRequiredMatrixCoverage(outputs: seq<string>) {
    && CoversOutput(outputs, "hs_hts_recommendation")
    && CoversOutput(outputs, "duty_estimate")
    && CoversOutput(outputs, "risk_band")
    && CoversOutput(outputs, "audit_pack")
    && CoversOutput(outputs, "denied_goods_flag")
  }

  function ReportOf(source: Source, document: RulePackDocument): ValidationReport
    requires source.Yaml?
  {
    var raw := RawPack(source);
    var safe := WasmSafetyValid(VALIDATION_RUNTIME, raw);
    var errors := (if document.rules == [] then [RequiresAtLeastOneRule] else []) + ErrorsOfRules(document.rules)
                  + (if safe then [] else [WasmSafetyFailed])
                  + GoldenCaseErrors(document.goldenCases, VALIDATION_RUNTIME, raw);
    ValidationReport(errors == [], errors, |document.rules|, |document.goldenCases|, safe,
                     HasRequiredMatrixCoverage(document.outputs))
  }

  /** `validate_source` */
  method ValidateSource(source: Source) returns (r: Option<(RulePackDocument, ValidationReport)>)
    ensures r == var parsed := ParseRulePack(source);
                 if parsed.Some? then Some((parsed.value, ReportOf(source, parsed.value))) else None
  {
    hide ErrorsOfRule, ErrorsOfRules, GoldenCaseErrors, WasmSafetyValid, HasRequiredMatrixCoverage, ParseRule;
    var parsed := ParseRulePack(source);
    if parsed.None? {
      return None;
    }
    var document := parsed.value;
    var raw := RawPack(source);
    var errors := RuleErrors(document.rules);
    var safe := WasmSafetyValid(VALIDATION_RUNTIME, raw);
    if !safe {
      errors := errors + [WasmSafetyFailed];
    }
    ghost var ruleErrors := (if document.rules == [] then [RequiresAtLeastOneRule] else [])
      + ErrorsOfRules(document.rules);
    assert errors == ruleErrors + (if safe then [] else [WasmSafetyFailed]);
    errors := errors + GoldenCaseErrors(document.goldenCases, VALIDATION_RUNTIME, raw);
    r := Some((document, ValidationReport(errors == [], errors, |document.rules|, |document.goldenCases|,
                                          safe, HasRequiredMatrixCoverage(document.outputs))));
  }

  // ---- The table of rule packs ----

  datatype PackStatus = Draft | Active | Retired

  datatype PackRow = PackRow(tenant: nat, name: string, version: string, jurisdiction: string, source: Source,
                             document: RulePackDocument, report: ValidationReport, goldenCaseCount: int,
                             status: PackStatus, activatedAt: Option<int>, createdAt: int)

  datatype Upload = Upload(tenant: nat, name: string, version: string, jurisdiction: string, source: Source)

  datatype ApiError = MissingMetadata | InvalidJurisdiction | InvalidSource | ValidationFailed | Conflict | NotFound
                    | ActivationBlocked | ActivePackImmutable

  /** `as i32` */
  function AsI32(n: nat): int {
    var low := n % 0x1_0000_0000;
    if low < 0x8000_0000 then low else low - 0x1_0000_0000
  }

  function NormalizeJurisdiction(jurisdiction: string): string {
    Text.Upper(Text.Trim(jurisdiction))
  }

  function MetadataError(upload: Upload): Option<ApiError> {
    if Text.Trim(upload.name) == "" || Text.Trim(upload.version) == "" || Text.Trim(upload.jurisdiction) == "" then
      Some(MissingMetadata)
    else if NormalizeJurisdiction(upload.jurisdiction) in {"EU", "UK", "US", "NG"} then None
    else Some(InvalidJurisdiction)
  }

  /** The row an upload would insert. */
  function NewRow(upload: Upload, document: RulePackDocument, report: ValidationReport, now: int): PackRow {
    PackRow(upload.tenant, Text.Trim(upload.name), Text.Trim(upload.version),
            NormalizeJurisdiction(upload.jurisdiction),
            upload.source, document, report, AsI32(report.goldenCaseCount), Draft, None, now)
  }

  /** The unique indexes on (tenant, name, version) and (tenant, jurisdiction, version). */
  predicate Conflicts(packs: map<nat, PackRow>, row: PackRow) {
    exists id | id in packs ::
      packs[id].tenant == row.tenant && packs[id].version == row.version &&
      (packs[id].name == row.name || packs[id].jurisdiction == row.jurisdiction)
  }

  function UploadPack(packs: map<nat, PackRow>, id: nat, now: int,
                      upload: Upload): Result<map<nat, PackRow>, ApiError> {
    var metadata := MetadataError(upload);
    if metadata.Some? then Err(metadata.value)
    else
      var document := ParseRulePack(upload.source);
      if document.None? then Err(InvalidSource)
      else
        var report := ReportOf(upload.source, document.value);
        if !report.valid then Err(ValidationFailed)
        else
          var row := NewRow(upload, document.value, report, now);
          if Conflicts(packs, row) then Err(Conflict) else Ok(packs[id := row])
  }

  /** The trigger `prevent_active_rule_pack_mutation`, for the two columns re-validation writes. */
  predicate TriggerRejects(row: PackRow, report: ValidationReport, count: int) {
    row.status.Active? && (report != row.report || count != row.goldenCaseCount)
  }

  function RevalidatePack(packs: map<nat, PackRow>, tenant: nat, id: nat): Result<map<nat, PackRow>, ApiError> {
    if id !in packs || packs[id].tenant != tenant then Err(NotFound)
    else
      var row := packs[id];
      var document := ParseRulePack(row.source);
      if document.None? then Err(InvalidSource)
      else
        var report := ReportOf(row.source, document.value);
        var count := AsI32(report.goldenCaseCount);
        if TriggerRejects(row, report, count) then Err(ActivePackImmutable)
        else Ok(packs[id := row.(report := report, goldenCaseCount := count)])
  }

  predicate ActivationReportValid(report: ValidationReport, goldenCaseCount: int) {
    report.valid && goldenCaseCount >= MIN_GOLDEN_CASES_FOR_ACTIVATION && report.wasmSafetyValid
      && report.matrixCoverageValid
  }

  function RetireActivePacks(packs: map<nat, PackRow>, tenant: nat, id: nat, jurisdiction: string): map<nat, PackRow> {
    map p | p in packs ::
      if packs[p].tenant == tenant && packs[p].jurisdiction == jurisdiction && packs[p].status.Active? && p != id
      then packs[p].(status := Retired) else packs[p]
  }

  function ActivatePack(packs: map<nat, PackRow>, now: int, tenant: nat, id: nat): Result<map<nat, PackRow>, ApiError> {
    if id !in packs || packs[id].tenant != tenant then Err(NotFound)
    else if !ActivationReportValid(packs[id].report, packs[id].goldenCaseCount) then Err(ActivationBlocked)
    else
      var retired := RetireActivePacks(packs, tenant, id, packs[id].jurisdiction);
      Ok(retired[id := Activated(retired[id], now)])
  }

  function Activated(row: PackRow, now: int): PackRow {
    row.(status := Active, activatedAt := Some(row.activatedAt.Or(now)))
  }

  /** What an activation writes when its retiring update reached only the rows `reached`: other activations have
      committed since it ran. */
  function ActivateReaching(packs: map<nat, PackRow>, now: int, id: nat, reached: set<nat>): map<nat, PackRow>
    requires id in packs
  {
    var all := RetireActivePacks(packs, packs[id].tenant, id, packs[id].jurisdiction);
    var retired := map p | p in packs :: if p in reached then all[p] else packs[p];
    retired[id := Activated(retired[id], now)]
  }

  /** The unique index `rule_packs_one_active_per_jurisdiction`. */
  predicate IndexHolds(packs: map<nat, PackRow>) {
    forall p, q | p in packs && q in packs && packs[p].status.Active? && packs[q].status.Active? &&
                  packs[p].tenant == packs[q].tenant && packs[p].jurisdiction == packs[q].jurisdiction :: p == q
  }

  // ---- Looking up the active pack ----

  function ActiveIds(packs: map<nat, PackRow>, tenant: nat, jurisdiction: string): set<nat> {
    set id | id in packs && packs[id].tenant == tenant && packs[id].jurisdiction == jurisdiction
      && packs[id].status.Active?
  }

  /** `ORDER BY activated_at DESC NULLS LAST, created_at DESC, id DESC`: row `p` comes no later than row `q`. */
  predicate ComesFirst(packs: map<nat, PackRow>, p: nat, q: nat)
    requires p in packs && q in packs
  {
    var a, b := packs[p], packs[q];
    if a.activatedAt != b.activatedAt then
      b.activatedAt.None? || (a.activatedAt.Some? && a.activatedAt.value > b.activatedAt.value)
    else a.createdAt > b.createdAt || (a.createdAt == b.createdAt && p >= q)
  }

  predicate IsFirst(packs: map<nat, PackRow>, ids: set<nat>, p: nat)
    requires ids <= packs.Keys
  {
    p in ids && forall q | q in ids :: ComesFirst(packs, p, q)
  }

  lemma {:induction false} FirstExists(packs: map<nat, PackRow>, ids: set<nat>) returns (p: nat)
    requires ids <= packs.Keys && ids != {}
    ensures IsFirst(packs, ids, p)
    decreases |ids|
  {
    var q :| q in ids;
    if ids == {q} {
      p := q;
    } else {
      var best := FirstExists(packs, ids - {q});
      p := if ComesFirst(packs, best, q) then best else q;
      forall r | r in ids ensures ComesFirst(packs, p, r) {
        assert r == q || r in ids - {q};
      }
    }
  }

  /** `fetch_active_pack` */
  function FetchActivePack(packs: map<nat, PackRow>, tenant: nat, jurisdiction: string): (r: Option<nat>)
    ensures r.None? <==> ActiveIds(packs, tenant, jurisdiction) == {}
    ensures r.Some? ==> IsFirst(packs, ActiveIds(packs, tenant, jurisdiction), r.value)
  {
    var ids := ActiveIds(packs, tenant, jurisdiction);
    if ids == {} then None
    else
      assert exists p :: IsFirst(packs, ids, p) by { var p := FirstExists(packs, ids); }
      var p :| p in ids && IsFirst(packs, ids, p);
      Some(p)
  }
}
