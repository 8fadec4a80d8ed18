/** How the runtime reads the flags of results and gates (tools/klevar-yolo-runtime/src/flag-classification.ts). A
    regular expression with the `i` flag is a test on the upper-cased text. */
module FlagClassification {
  import opened Text

  const SOURCE_PREFIX := "RECOVERED_SOURCE_FLAG:"

  /** `/^(?:RECOVERED_SOURCE_FLAG:)+/i` removed */
  function StripSource(flag: string): string
    decreases |flag|
  {
    if |flag| >= |SOURCE_PREFIX| && Upper(flag[..|SOURCE_PREFIX|]) == SOURCE_PREFIX then
      StripSource(flag[|SOURCE_PREFIX|..]) else flag
  }

  function FlagCode(flag: string): string {
    Trim(Before(StripSource(flag), ':'))
  }

  predicate IsRecoveryMetaCode(code: string) {
    code in ["BUGFIX_RECOVERY_APPLIED", "RUNTIME_GATES_REJECTED_RECOVERED", "RECOVERED_FROM",
             "RECOVERED_BUGFIX_HISTORY"]
  }

  predicate IsRuntimeRecoveryMetaFlag(flag: string) {
    IsRecoveryMetaCode(Upper(FlagCode(flag)))
  }

  predicate IsTemplateManagedMetadataDetail(flag: string) {
    var detail := Trim(AfterFirst(ReplaceChar(flag, '\\', '/'), ':'));
    || StartsWithAny(detail, [".agent/rules/", ".agent/guides/", ".agent/workflows/", ".agent/agents/"])
    || detail in ["AGENTS.md", "CLAUDE.md", "docs/progress.md"]
  }

  /** `/^(?:..)(?:_.*)?_NON_BLOCKING$/i` */
  predicate IsDangerousNonBlocking(code: string) {
    var owners := ["VALIDATOR", "JOURNAL", "RUNTIME_GATES", "BUGFIX", "AUDIT", "ADVERSARIAL_VALIDATION",
                   "RESULT_STATUS", "CONTRACT", "GATE", "SECURITY", "SECRET", "AUTH", "TENANT", "EXTERNAL_OPS",
                   "COMMAND", "ARTIFACT"];
    exists i | 0 <= i < |owners| :: IsOwnerThen(Upper(code), owners[i], "_NON_BLOCKING")
  }

  predicate IsOwnerThen(code: string, owner: string, suffix: string) {
    && |code| >= |owner| + |suffix| && StartsWith(code, owner) && EndsWith(code, suffix)
    && var middle := code[|owner|..|code| - |suffix|];
       middle == "" || (middle[0] == '_' && OneLine(middle))
  }

  predicate IsNegativeRejection(code: string) {
    StartsWithAny(Upper(code) + "_",
                  ["VALIDATOR_REJECTED_", "JOURNAL_REJECTED_", "RUNTIME_GATES_REJECTED_", "BUGFIX_REJECTED_",
                   "AUDIT_REJECTED_", "ADVERSARIAL_VALIDATION_REJECTED_", "RESULT_STATUS_REJECTED_",
                   "CONTRACT_REJECTED_", "GATE_REJECTED_", "SECURITY_REJECTED_", "SECRET_REJECTED_", "AUTH_REJECTED_",
                   "TENANT_REJECTED_", "EXTERNAL_OPS_REJECTED_"])
  }

  /** `/^(?:..)_.*_REJECTED$/i` */
  predicate IsBusinessRuleRejected(code: string) {
    var owners := ["CROSS_ORDER_", "BUSINESS_RULE_", "DOMAIN_RULE_", "INPUT_RULE_", "PAYMENT_RULE_", "MATCHING_RULE_",
                   "VALIDATION_CASE_"];
    exists i | 0 <= i < |owners| :: IsRejectedCase(Upper(code), owners[i])
  }

  predicate IsRejectedCase(code: string, owner: string) {
    && |code| >= |owner| + |"_REJECTED"| && StartsWith(code, owner) && EndsWith(code, "_REJECTED")
    && OneLine(code[|owner|..|code| - |"_REJECTED"|])
  }

  predicate IsWarningCode(code: string) {
    || code == "QUALITY_WARNING" || code == "NO_ACTIVE_PROJECT_LOCAL_CHECKS"
      || code == "IMPECCABLE_DETECTOR_UNAVAILABLE"
    || code == "WORKFLOW_INFERRED_VALIDATE_PRD" + "_RUNTIME_PLACEHOLDER_UNAVAILABLE"
    || code == "PHASE_SCOPE_LIMITED" + "_TO_PHASE_1_CLOSEOUT"
    || code == "FUTURE_PHASE_SUCCESS_CRITERIA" + "_RECORDED_AS_MANUAL_NOT_FINDINGS"
    || code == "TENANT_NEUTRALITY_SWEEP_NO_LEAKS"
  }

  /** `/(?:^|_)NON_BLOCKING(?:_|$)/i` */
  predicate SaysNonBlocking(code: string) {
    Includes("_" + Upper(code) + "_", "_NON_BLOCKING_")
  }

  /** `gate` is "" where no gate is given. */
  predicate IsWarningFlag(flag: string, gate: string) {
    var code := FlagCode(flag);
    || IsWarningCode(code)
    || (code == "MODULARITY_RULE_FILE_LIMIT_VIOLATION" && IsTemplateManagedMetadataDetail(flag))
    || (SaysNonBlocking(code) && !IsDangerousNonBlocking(code))
    || (gate == "business-logic" && code == "BUSINESS_LOGIC_UNTOUCHED_DOCS")
    || StartsWith(flag, "QUALITY_WARNING:") || EndsWith(code, "_LOW_FINDING") || EndsWith(code, "_MEDIUM_FINDING")
  }

  predicate IsPositiveCode(code: string) {
    || Upper(code) == "NO_FINDINGS" || Upper(code) == "NO_BLOCKING_FINDINGS"
      || code == "PROTECTED_PATH_METADATA_REMOVED"
    || code == "MODULARITY_RULE_FILE_WARNING" + "_ROUTED_NON_BLOCKING" || code == "NO_PRODUCTION_SOURCE_REFACTOR"
  }

  predicate HasPositiveSuffix(code: string) {
    EndsWithAny(Upper(code), ["_PASS", "_PASSED", "_FIXED", "_RECOVERED", "_RESOLVED", "_WIRED", "_PROPAGATED",
                              "_SATISFIED", "_COVERED", "_ENFORCED", "_VERIFIED", "_ALLOWLISTED", "_NORMALIZED",
                              "_RECORDED", "_EVIDENCE_RECORDED", "_REVERTED", "_PRESERVED", "_NOT_APPLICABLE",
                              "_NO_LEAKS", "_UNTOUCHED", "_NO_FINDINGS", "_NO_BLOCKING_FINDINGS",
                              "_RECORDED_AS_MANUAL_NOT_FINDINGS"])
  }

  predicate IsEntrypointEvidence(code: string) {
    StartsWith(Upper(code), "ENTRYPOINT_VERIFIED_") || StartsWith(Upper(code), "ENTRYPOINT_WIRED_")
  }

  predicate IsPositiveFlag(flag: string) {
    var code := FlagCode(flag);
    if IsPositiveCode(code) then true
    else if code == "CHANGED_FILE_MISSING_METADATA_REMOVED" && IsTemplateManagedMetadataDetail(flag) then true
    else if IsNegativeRejection(code) then false
    else if EndsWith(Upper(code), "_NOT_WIRED") then false
    else if EndsWith(code, "_REJECTED") then IsBusinessRuleRejected(code)
    else if IsEntrypointEvidence(code) then true
    else HasPositiveSuffix(code)
  }

  predicate HasBlockingWord(code: string) {
    IncludesAny(Upper(code), ["FAILURE", "FAILED", "REJECTED", "MISSING", "GAP", "INVALID", "BLOCKING", "DRIFT",
                              "LEAKAGE", "FINDINGS", "UNWIRED", "UNVERIFIED", "NOT_WIRED", "MISMATCH", "UNVALIDATED"])
  }

  predicate IsBlockingFlag(flag: string) {
    && FlagCode(flag) != "" && !StartsWith(flag, "RECOVERED_")
    && !IsRuntimeRecoveryMetaFlag(flag) && !IsWarningFlag(flag, "") && !IsPositiveFlag(flag)
    && HasBlockingWord(FlagCode(flag))
  }

  /** The finding a flag reports as fixed; "" for null and for an empty prefix, which every caller drops. */
  function FixedFindingPrefix(flag: string): string {
    var clean := Trim(StripSource(flag));
    var code := FlagCode(flag);
    var detail := if ':' in clean then clean[|Before(clean, ':')|..] else "";
    if EndsWith(Upper(code), "_VERIFIED") then DropEnd(code, |"_VERIFIED"|) + "_UNVERIFIED" + detail
    else if EndsWith(Upper(code), "_WIRED") then DropEnd(code, |"_WIRED"|) + "_UNWIRED" + detail
    else FixedCode(code, ["_FIXED", "_RECOVERED", "_RESOLVED", "_PASS", "_PASSED", "_ALLOWLISTED", "_SATISFIED",
                          "_ENFORCED", "_COVERED", "_PROPAGATED", "_REVERTED", "_PRESERVED"])
  }

  /** `code` without the one suffix it ends with, or "". */
  function FixedCode(code: string, suffixes: seq<string>): string {
    if suffixes == [] then ""
    else if EndsWith(Upper(code), suffixes[0]) then DropEnd(code, |suffixes[0]|)
    else FixedCode(code, suffixes[1..])
  }

  /** Marking a flag as recovered keeps its code and what it reports as fixed, but it no longer blocks. */
  lemma MarkedFlagKeepsMeaning(flag: string)
    ensures FlagCode(SOURCE_PREFIX + flag) == FlagCode(flag)
    ensures FixedFindingPrefix(SOURCE_PREFIX + flag) == FixedFindingPrefix(flag)
    ensures !IsBlockingFlag(SOURCE_PREFIX + flag)
  {
    hide IsBlockingFlag, FixedCode, StripSource, Before, Trim;
    StripMarked(flag);
    MarkedDoesNotBlock(flag);
  }

  lemma MarkedDoesNotBlock(flag: string)
    ensures !IsBlockingFlag(SOURCE_PREFIX + flag)
  {
    hide FlagCode, IsRuntimeRecoveryMetaFlag, IsWarningFlag, IsPositiveFlag, HasBlockingWord;
    assert SOURCE_PREFIX == "RECOVERED_" + "SOURCE_FLAG:";
    assert SOURCE_PREFIX + flag == "RECOVERED_" + ("SOURCE_FLAG:" + flag);
  }

  /** A flag that starts otherwise than RE is not marked. */
  lemma NotMarked(flag: string)
    requires |flag| > 1 && !(UpperChar(flag[0]) == 'R' && UpperChar(flag[1]) == 'E')
    ensures StripSource(flag) == flag && !StartsWith(flag, SOURCE_PREFIX)
  {
    assert SOURCE_PREFIX[0] == 'R' && SOURCE_PREFIX[1] == 'E';
    if |flag| >= |SOURCE_PREFIX| {
      var head := flag[..|SOURCE_PREFIX|];
      assert head[0] == flag[0] && head[1] == flag[1];
      assert Upper(head)[0] == UpperChar(flag[0]) && Upper(head)[1] == UpperChar(flag[1]);
    }
  }

  /** The code of an unmarked flag is what comes before its first colon. */
  lemma UnmarkedCode(code: string, detail: string)
    requires StripSource(code + detail) == code + detail && ':' !in code && (detail == "" || detail[0] == ':')
    requires code != "" && !IsSpace(code[0]) && !IsSpace(code[|code| - 1])
    ensures FlagCode(code + detail) == code
  {
    hide StripSource, Trim, Before;
    BeforeOfJoined(code, detail, ':');
    NothingBefore(detail);
    assert code + "" == code;
    TrimPlain(code);
  }

  lemma NothingBefore(detail: string)
    requires detail == "" || detail[0] == ':'
    ensures Before(detail, ':') == ""
  {
  }

  lemma StripMarked(flag: string)
    ensures StripSource(SOURCE_PREFIX + flag) == StripSource(flag)
  {
    var marked := SOURCE_PREFIX + flag;
    assert marked[..|SOURCE_PREFIX|] == SOURCE_PREFIX && marked[|SOURCE_PREFIX|..] == flag;
    assert Upper(SOURCE_PREFIX) == SOURCE_PREFIX;
  }
}
