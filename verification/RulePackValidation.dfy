/** What a validation report, an upload and an activation accept, told on the fields of the document and the characters
    of its texts (src/rules/validator.rs, src/app/rule_packs.rs, src/app/rule_packs/activation.rs). */
module RulePackValidation {
  import opened Wrappers
  import opened RuleEvaluation
  import opened RuleProperties
  import opened RulePacks
  import RulePackProperties
  import Text

  // ---- Texts ----

  lemma LowerIsSame(a: string, b: string)
    requires Text.Lower(b) == b
    ensures Text.Lower(a) == b <==> Text.SameLetters(a, b)
  {
    hide Text.LowerChar, Text.SameLetter;
    if |a| == |b| {
      forall i | 0 <= i < |a| ensures Text.Lower(a)[i] == b[i] <==> Text.SameLetter(a[i], b[i]) {
        LowerSame(a[i], b[i]);
        assert b[i] == Text.Lower(b)[i];
      }
    }
  }

  // ---- Rules ----

  /** A rule without an error. */
  predicate IsGoodRule(rule: RuleDefinition) {
    && !Text.AllBlank(rule.id) && !Text.AllBlank(rule.code) && 0.0 <= rule.confidence <= 1.0
    && rule.riskBand in {"low", "medium", "high"}
  }

  /** A rule has no error exactly when it is good. */
  lemma ErrorsOfRuleMean(rule: RuleDefinition)
    ensures ErrorsOfRule(rule) == [] <==> IsGoodRule(rule)
  {
    hide Text.Trim, Text.AllBlank;
    Text.BlankTrims(rule.id);
    Text.BlankTrims(rule.code);
  }

  /** Each error of a rule is listed exactly when it has the fault. */
  lemma EachErrorMeans(rule: RuleDefinition)
    ensures RuleIdRequired in ErrorsOfRule(rule) <==> Text.AllBlank(rule.id)
    ensures RuleCodeRequired in ErrorsOfRule(rule) <==> Text.AllBlank(rule.code)
  {
    hide Text.Trim, Text.AllBlank;
    Text.BlankTrims(rule.id);
    Text.BlankTrims(rule.code);
  }

  /** So are those of its numbers and bands. */
  lemma RangeErrorsMean(rule: RuleDefinition)
    ensures RuleConfidenceOutOfRange(rule.id) in ErrorsOfRule(rule) <==> rule.confidence < 0.0 || rule.confidence > 1.0
    ensures RuleRiskBandInvalid(rule.id) in ErrorsOfRule(rule) <==> rule.riskBand !in {"low", "medium", "high"}
  {
    hide Text.Trim, Text.AllBlank;
    Text.BlankTrims(rule.id);
    Text.BlankTrims(rule.code);
  }

  lemma {:induction false} NoErrorsOfRules(rules: seq<RuleDefinition>)
    ensures ErrorsOfRules(rules) == [] <==> forall i | 0 <= i < |rules| :: IsGoodRule(rules[i])
  {
    hide ErrorsOfRule, IsGoodRule;
    if rules != [] {
      var n := |rules| - 1;
      NoErrorsOfRules(rules[..n]);
      ErrorsOfRuleMean(rules[n]);
      assert forall i | 0 <= i < n :: rules[..n][i] == rules[i];
    }
  }

  // ---- Golden cases ----

  /** The case has a product and a code, and the rules select that code on that product. */
  predicate IsGoodCase(golden: GoldenCase, raw: Pack) {
    && golden.product.Some? && golden.expectedCode.Some? && !Text.AllBlank(golden.expectedCode.value)
    && var answer := Evaluate(VALIDATION_RUNTIME, raw, golden.product.value);
       answer.Ok? && answer.value.selectedCode == golden.expectedCode
  }

  lemma CaseErrorMeans(index: nat, golden: GoldenCase, raw: Pack)
    ensures GoldenCaseError(index, golden, VALIDATION_RUNTIME, raw).None? <==> IsGoodCase(golden, raw)
  {
    hide Text.Trim, Text.AllBlank, Evaluate;
    if golden.expectedCode.Some? { Text.BlankTrims(golden.expectedCode.value); }
  }

  lemma {:induction false} NoCaseErrors(goldenCases: seq<GoldenCase>, raw: Pack)
    ensures GoldenCaseErrors(goldenCases, VALIDATION_RUNTIME, raw) == [] <==>
            forall i | 0 <= i < |goldenCases| :: IsGoodCase(goldenCases[i], raw)
  {
    hide GoldenCaseError, IsGoodCase;
    if goldenCases != [] {
      var n := |goldenCases| - 1;
      NoCaseErrors(goldenCases[..n], raw);
      CaseErrorMeans(n, goldenCases[n], raw);
      assert forall i | 0 <= i < n :: goldenCases[..n][i] == goldenCases[i];
    }
  }

  // ---- The report ----

  /** The runtime answers on the document: it lists rules and does not simulate a fault. */
  predicate Answers(source: Source) {
    && source.Yaml? && source.rules.Some?
    && source.simulate != Some("fuel_exhausted") && source.simulate != Some("timeout")
  }

  lemma ProbeMeans(source: Source)
    requires ParseRulePack(source).Some?
    ensures WasmSafetyValid(VALIDATION_RUNTIME, RawPack(source)) <==> Answers(source)
  {
    hide Classify;
    if source.rules.Some? {
      assert forall i | 0 <= i < |source.rules.value| :: FullyTyped(source.rules.value[i]);
    }
  }

  /** A report is valid exactly when there is a rule, every rule is good, the runtime answers, and every golden case is
      good. */
  lemma ReportMeans(source: Source)
    requires ParseRulePack(source).Some?
    ensures var document := ParseRulePack(source).value;
            && (ReportOf(source, document).valid <==>
                && document.rules != [] && (forall i | 0 <= i < |document.rules| :: IsGoodRule(document.rules[i]))
                && Answers(source)
                && forall i | 0 <= i < |document.goldenCases| :: IsGoodCase(document.goldenCases[i], RawPack(source)))
            && ReportOf(source, document).goldenCaseCount == |source.goldenCases|
  {
    hide IsGoodRule, IsGoodCase, WasmSafetyValid, Answers, ErrorsOfRules, GoldenCaseErrors, HasRequiredMatrixCoverage;
    var document := ParseRulePack(source).value;
    NoErrorsOfRules(document.rules);
    NoCaseErrors(document.goldenCases, RawPack(source));
    ProbeMeans(source);
  }

  /** The output is listed, in letters of either case and between any white space. */
  predicate IsListed(outputs: seq<string>, required: string) {
    exists i | 0 <= i < |outputs| :: Text.SameLetters(Text.Trim(outputs[i]), required)
  }

  lemma CoverageMeans(outputs: seq<string>)
    ensures HasRequiredMatrixCoverage(outputs) <==>
            && IsListed(outputs, "hs_hts_recommendation") && IsListed(outputs, "duty_estimate")
            && IsListed(outputs, "risk_band") && IsListed(outputs, "audit_pack")
            && IsListed(outputs, "denied_goods_flag")
  {
    hide Text.SameLetters, Text.Lower, Text.Trim, CoversOutput, IsListed;
    RequiredAreLower();
    OneCovered(outputs, "hs_hts_recommendation");
    OneCovered(outputs, "duty_estimate");
    OneCovered(outputs, "risk_band");
    OneCovered(outputs, "audit_pack");
    OneCovered(outputs, "denied_goods_flag");
  }

  lemma RequiredAreLower()
    ensures Text.Lower("hs_hts_recommendation") == "hs_hts_recommendation"
            && Text.Lower("duty_estimate") == "duty_estimate" && Text.Lower("risk_band") == "risk_band"
    ensures Text.Lower("audit_pack") == "audit_pack" && Text.Lower("denied_goods_flag") == "denied_goods_flag"
  {
  }

  lemma OneCovered(outputs: seq<string>, required: string)
    requires Text.Lower(required) == required
    ensures CoversOutput(outputs, required) <==> IsListed(outputs, required)
  {
    hide Text.SameLetters, Text.Lower, Text.Trim;
    forall i | 0 <= i < |outputs|
      ensures Text.Lower(Text.Trim(outputs[i])) == required <==> Text.SameLetters(Text.Trim(outputs[i]), required)
    {
      LowerIsSame(Text.Trim(outputs[i]), required);
    }
  }

  // ---- Uploading and activating ----

  /** Every rule has its five fields, of the right types. */
  predicate IsTyped(source: Source) {
    source.Yaml? && forall i | 0 <= i < |source.rules.Or([])| ::
      var rule := source.rules.Or([])[i];
      rule.id.Some? && rule.code.Some? && rule.contains.Some? && rule.confidence.Some? && rule.riskBand.Some?
  }

  /** Exactly then a document parses, rule by rule and field by field. */
  lemma ParsedMeans(source: Source)
    ensures ParseRulePack(source).Some? <==> IsTyped(source)
    ensures IsTyped(source) ==>
              var document, rules := ParseRulePack(source).value, source.rules.Or([]);
              && document.goldenCases == source.goldenCases && document.outputs == source.outputs
              && |document.rules| == |rules|
              && forall i | 0 <= i < |rules| ::
                   var rule, parsed := rules[i], document.rules[i];
                   && rule.id == Some(parsed.id) && rule.code == Some(parsed.code)
                   && rule.contains == Some(parsed.contains) && rule.confidence == Some(parsed.confidence)
                   && rule.riskBand == Some(parsed.riskBand)
  {
  }

  /** The names are there, and the jurisdiction is one of four in letters of either case. */
  predicate HasMetadata(upload: Upload) {
    && !Text.AllBlank(upload.name) && !Text.AllBlank(upload.version) && !Text.AllBlank(upload.jurisdiction)
    && Text.Upper(Text.Trim(upload.jurisdiction)) in {"EU", "UK", "US", "NG"}
  }

  /** A row of the tenant has the upload's version under the same name or jurisdiction. */
  predicate IsTaken(packs: map<nat, PackRow>, upload: Upload) {
    exists p | p in packs ::
      packs[p].tenant == upload.tenant && packs[p].version == Text.Trim(upload.version) &&
      (packs[p].name == Text.Trim(upload.name) || packs[p].jurisdiction == Text.Upper(Text.Trim(upload.jurisdiction)))
  }

  /** An upload is accepted exactly when its metadata are there, every rule is typed, the report on its document is
      valid, and its version is not taken; then one draft row is added, which has never been active. */
  lemma UploadAccepts(packs: map<nat, PackRow>, id: nat, now: int, upload: Upload)
    ensures UploadPack(packs, id, now, upload).Ok? <==>
            && HasMetadata(upload) && IsTyped(upload.source) && !IsTaken(packs, upload)
            && ReportOf(upload.source, ParseRulePack(upload.source).value).valid
    ensures var r := UploadPack(packs, id, now, upload);
            r.Ok? ==> && r.value.Keys == packs.Keys + {id}
                      && (forall p | p in packs && p != id :: r.value[p] == packs[p])
                      && r.value[id].tenant == upload.tenant && r.value[id].source == upload.source
                      && r.value[id].status.Draft? && r.value[id].activatedAt.None?
  {
    hide Text.AllBlank, Text.Trim, Text.Upper, ParseRulePack, ReportOf, IsTyped;
    ParsedMeans(upload.source);
    Text.BlankTrims(upload.name);
    Text.BlankTrims(upload.version);
    Text.BlankTrims(upload.jurisdiction);
  }

  /** A stored pack can be activated by its tenant exactly when its report is valid, it has ten golden cases or more by
      the stored count, and it lists all required outputs. */
  lemma ActivationAccepts(packs: map<nat, PackRow>, now: int, tenant: nat, id: nat)
    requires RulePackProperties.TableInv(packs)
    ensures ActivatePack(packs, now, tenant, id).Ok? <==>
            && id in packs && packs[id].tenant == tenant && packs[id].report.valid
            && AsI32(|packs[id].source.goldenCases|) >= 10
            && HasRequiredMatrixCoverage(packs[id].document.outputs)
  {
    hide ParseRulePack, Answers, IsGoodRule, IsGoodCase, HasRequiredMatrixCoverage, IndexHolds, RetireActivePacks;
    if id in packs {
      assert RulePackProperties.Consistent(packs[id]);
      ReportMeans(packs[id].source);
      ReportParts(packs[id].source);
    }
  }

  lemma ReportParts(source: Source)
    requires ParseRulePack(source).Some?
    ensures var document := ParseRulePack(source).value;
            var report := ReportOf(source, document);
            && (report.wasmSafetyValid <==> Answers(source))
            && (report.matrixCoverageValid <==> HasRequiredMatrixCoverage(document.outputs))
  {
    hide Answers, HasRequiredMatrixCoverage, WasmSafetyValid, ErrorsOfRules, GoldenCaseErrors;
    ProbeMeans(source);
  }
}
