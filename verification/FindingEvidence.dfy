/** Which findings the runtime owns, and what flags are evidence that a finding is fixed
    (tools/klevar-yolo-runtime/src/runtime-batch-state.ts:336-368 and 391-465). */
module FindingEvidence {
  import opened Wrappers
  import opened Text
  import opened FlagClassification
  import opened RuntimeTypes
  import PathPolicy

  const AGGREGATE := "UNWIRED_WORKER_ENTRYPOINTS"

  // ---- Ownership ----

  function UpperCode(flag: string): string { Upper(FlagCode(flag)) }

  predicate IsProductOwnedFinding(id: string) {
    StartsWithAny(UpperCode(id), ["BUSINESS_LOGIC", "ENTRYPOINT", "AUTH", "AUTHORIZATION", "SECURITY", "TENANT",
                                  "PAYMENT", "PRICING", "API", "DB", "DATABASE", "SCHEMA", "E2E_SETUP_MISSING"])
  }

  predicate IsOpenWiringFindingExceptAggregate(id: string) {
    var code := UpperCode(id);
    code != AGGREGATE && (StartsWithAny(code, ["ENTRYPOINT_UNWIRED_", "ENTRYPOINT_UNVERIFIED_"])
                          || EndsWith(code, "_NOT_WIRED") ||
                          Includes(code, "UNWIRED"))
  }

  predicate IsRuntimeOnlyArtifactPath(file: string) {
    StartsWithAny(Upper(PathPolicy.WithoutDot(ReplaceChar(file, '\\', '/'))),
                  [".YOLO/BATCH-RESULTS/", ".YOLO/GATES/", ".YOLO/RUNTIME/", ".YOLO/LOGS/", ".YOLO/EVENTS/"])
  }

  predicate IsRuntimeCode(code: string) {
    || code == "RUNTIME_GATES_REJECTED" || code == "RUNTIME_GATES_REJECTED" + "_AFTER_VALIDATION_BUGFIX"
      || code == "RUNTIME_ONLY_PATH"
    || code == "RUNTIME_ONLY_PATH_LEAKAGE" || code == "BUGFIX_RESULT_INVALID" || code == "CONTRACT_SCHEMA_MISMATCH"
    || code == "CONTRACT_FAILURE"
  }

  predicate IsMissingFileCode(code: string) {
    || code == "WORKTREE_CHANGED_FILES_UNDECLARED" || code == "ARTIFACT_MISSING" || code == "CHANGED_FILE_MISSING"
    || code == "CHANGED_FILE_MISSING_METADATA" || code == "LOCAL_ONLY_FILE_MISSING"
      || code == "WIRING_VERIFIER_FILE_MISSING"
  }

  predicate IsSupportCode(code: string) {
    code == "TEMPLATE_MANAGED_PROTECTED_PATH" || code == "PROTECTED_PATH" || code == "SUPPORT_LOOP_STALE"
  }

  predicate IsRuntimeOwnedFinding(id: string) {
    var normalized := ReplaceChar(id, '\\', '/');
    var code := UpperCode(id);
    if IsRuntimeCode(code) then true
    else if IsMissingFileCode(code) then IsRuntimeOnlyArtifactPath(Trim(AfterFirst(normalized, ':')))
    else
      || IsSupportCode(code)
      || (code == "PLAN_REJECTED" && IncludesAny(Upper(normalized),
                                                 [".YOLO/BATCH-RESULTS/", ".YOLO/GATES/", ".YOLO/RUNTIME/",
                                                  ".YOLO/LOGS/", ".YOLO/EVENTS/"]))
  }

  /** No finding belongs to both the product and the runtime. */
  lemma ProductFindingsAreNotRuntimeOwned(id: string)
    requires IsProductOwnedFinding(id)
    ensures !IsRuntimeOwnedFinding(id)
  {
    ProductCodesStartSo(UpperCode(id));
    RuntimeCodesDoNot(UpperCode(id));
    FileCodesDoNot(UpperCode(id));
    SupportCodesDoNot(UpperCode(id));
    hide FlagCode, IsRuntimeOnlyArtifactPath, IncludesAny, StartsWithAny, IsRuntimeCode, IsMissingFileCode,
      IsSupportCode, StartsLikeProduct;
  }

  lemma RuntimeCodesDoNot(code: string)
    requires StartsLikeProduct(code)
    ensures !IsRuntimeCode(code)
  {
  }

  lemma FileCodesDoNot(code: string)
    requires StartsLikeProduct(code)
    ensures !IsMissingFileCode(code)
  {
  }

  lemma SupportCodesDoNot(code: string)
    requires StartsLikeProduct(code)
    ensures !IsSupportCode(code) && code != "PLAN_REJECTED"
  {
  }

  /** Enough of the first letters of a product-owned code to tell it from the runtime's. */
  predicate StartsLikeProduct(code: string) {
    && |code| >= 2
    && (|| (code[0] == 'E' || code[0] == 'D') || (code[0] == 'S' && code[1] != 'U')
        || (code[0] == 'A' && code[1] != 'R')
        || (code[0] == 'P' && code[1] == 'A')
        || (|code| >= 3 && ((code[0] == 'B' && code[2] == 'S') || (code[0] == 'T' && code[2] == 'N')
                            || (code[0] == 'P' && code[2] == 'I'))))
  }

  lemma ProductCodesStartSo(code: string)
    requires StartsWithAny(code, ["BUSINESS_LOGIC", "ENTRYPOINT", "AUTH", "AUTHORIZATION", "SECURITY", "TENANT",
                                  "PAYMENT", "PRICING", "API", "DB", "DATABASE", "SCHEMA", "E2E_SETUP_MISSING"])
    ensures StartsLikeProduct(code)
  {
    var prefixes := ["BUSINESS_LOGIC", "ENTRYPOINT", "AUTH", "AUTHORIZATION", "SECURITY", "TENANT", "PAYMENT",
                     "PRICING", "API", "DB", "DATABASE", "SCHEMA", "E2E_SETUP_MISSING"];
    var i :| 0 <= i < |prefixes| && StartsWith(code, prefixes[i]);
    assert StartsLikeProduct(prefixes[i]);
    assert code[0] == prefixes[i][0] && code[1] == prefixes[i][1];
    assert |prefixes[i]| > 2 ==> code[2] == prefixes[i][2];
  }

  // ---- Evidence ----

  predicate InvalidPlaceholder(value: string) {
    Upper(Trim(value)) in ["UNKNOWN", "N/A", "NA", "NOT APPLICABLE", "NONE", "MANUAL", "TBD", "TODO", "-"]
  }

  predicate ChangesProductFiles(result: BatchResult) {
    exists i | 0 <= i < |result.filesChanged| :: !IsRuntimeOnlyArtifactPath(result.filesChanged[i])
  }

  predicate IsRuntimeOnlyResult(result: BatchResult) {
    result.filesChanged != [] && !ChangesProductFiles(result)
  }

  function FixedPrefixes(flags: seq<string>): set<string> {
    set i | 0 <= i < |flags| && FixedFindingPrefix(flags[i]) != "" :: FixedFindingPrefix(flags[i])
  }

  predicate FindingMatchesFixedPrefix(id: string, fixed: string) {
    if |fixed| < 8 then false
    else if id == fixed || StartsWith(id, fixed + ":") || StartsWith(fixed, id + ":") then true
    else
      StartsWith(id, fixed + "_") &&
      StartsWithAny(Upper(id[|fixed| + 1..]) + "_",
                    ["GAP_", "MISSING_", "DRIFT_", "UNVERIFIED_", "UNVALIDATED_", "UNWIRED_", "NOT_WIRED_",
                     "FINDING_", "FINDINGS_", "FAIL_", "FAILED_", "FAILURE_", "INVALID_", "MISMATCH_"])
  }

  predicate HasFixEvidenceFromFlags(flags: seq<string>, id: string) {
    var fixed := FixedPrefixes(flags);
    || id in fixed
    || (exists f | f in fixed :: FindingMatchesFixedPrefix(id, f))
    || (exists i | 0 <= i < |flags| :: PositiveFlagClosesFinding(flags[i], id))
  }

  /** `gate.flags.some(flag => fixedFindingPrefix(flag) || isPositiveFlag(flag))` */
  predicate HasFixFlags(flags: seq<string>) {
    exists i | 0 <= i < |flags| :: FixedFindingPrefix(flags[i]) != "" || IsPositiveFlag(flags[i])
  }

  /** Without a fix flag there is no evidence, so the guard of the closing loop only saves work. */
  lemma EvidenceNeedsFixFlags(flags: seq<string>, id: string)
    requires HasFixEvidenceFromFlags(flags, id)
    ensures HasFixFlags(flags)
  {
    hide FixedFindingPrefix, IsPositiveFlag, FindingMatchesFixedPrefix, FlagCode;
    if FixedPrefixes(flags) == {} {
      var i :| 0 <= i < |flags| && PositiveFlagClosesFinding(flags[i], id);
      assert IsPositiveFlag(flags[i]);
    } else {
      var f :| f in FixedPrefixes(flags);
    }
  }

  // ---- Positive flags ----

  predicate PositiveFlagClosesFinding(flag: string, id: string) {
    if !IsPositiveFlag(flag) then false
    else
      var code, finding := UpperCode(flag), UpperCode(id);
      var target := EntrypointTarget(code, flag);
      if target.Some? && (target.value == "" || IsEntrypointFinding(finding)) then
        target.value != "" && EntrypointSubjectMatches(target.value, EntrypointSubject(finding, id))
      else if code == "BUSINESS_LOGIC_DRIFT_SWEEP_PASS" && StartsWith(finding, "BUSINESS_LOGIC_DRIFT_") then true
      else if code == "TENANT_FAIRNESS_RATE_LIMIT_RETRY_PASS"
        && StartsWith(finding, "BUSINESS_LOGIC_DRIFT_TENANT_FAIRNESS_") then true
      else if code == "GENERATED_FILE_DRIFT_REVERTED" && StartsWith(finding, "GENERATED_FILE_DRIFT_") then true
      else if code == "PROTECTED_PATH_METADATA_REMOVED" && finding == "CHANGED_FILE_MISSING_METADATA_REMOVED" then true
      else if code == "MODULARITY_RULE_FILE_WARNING" + "_ROUTED_NON_BLOCKING"
        && finding == "MODULARITY_RULE_FILE_LIMIT_VIOLATION" then true
      else
        var business := BusinessTarget(code);
        var subject := WithoutPrefix(finding,
                                     ["BUSINESS_LOGIC_DRIFT_", "BUSINESS_LOGIC_GAP_", "BUSINESS_LOGIC_MISSING_",
                                      "BUSINESS_LOGIC_UNVERIFIED_", "BUSINESS_LOGIC_UNVALIDATED_"]);
        business.Some? && subject.Some?
          && BusinessSubjectMatches(NormalizeToken(business.value), NormalizeToken(subject.value))
  }

  /** The normalised target when `code` matches `/^ENTRYPOINT_(?:VERIFIED|WIRED)(?:_(.+))?$/`. */
  function EntrypointTarget(code: string, flag: string): Option<string> {
    if code == "ENTRYPOINT_VERIFIED" || code == "ENTRYPOINT_WIRED" then Some(NormalizeToken(FlagDetail(flag)))
    else
      match WithoutPrefix(code, ["ENTRYPOINT_VERIFIED_", "ENTRYPOINT_WIRED_"])
      case Some(rest) => if rest != "" && OneLine(rest) then Some(NormalizeToken(rest)) else None
      case None => None
  }

  predicate IsEntrypointFinding(finding: string) {
    || finding == "ENTRYPOINT_UNVERIFIED" || finding == "ENTRYPOINT_UNWIRED"
    || StartsWithAny(finding, ["ENTRYPOINT_UNVERIFIED_", "ENTRYPOINT_UNWIRED_"]) || EndsWith(finding, "_NOT_WIRED")
  }

  function EntrypointSubject(finding: string, id: string): string {
    if finding == "ENTRYPOINT_UNVERIFIED" || finding == "ENTRYPOINT_UNWIRED" then NormalizeToken(FlagDetail(id))
    else
      match WithoutPrefix(finding, ["ENTRYPOINT_UNVERIFIED_", "ENTRYPOINT_UNWIRED_"])
      case Some(rest) => NormalizeToken(rest)
      case None => NormalizeToken(DropEnd(finding, |"_NOT_WIRED"|))
  }

  predicate EntrypointSubjectMatches(target: string, subject: string) {
    && target != "" && subject != ""
    && (target == subject || EndsWith(target, "_" + subject) ||
        Singularize(WithoutNoun(target)) == Singularize(subject))
  }

  function WithoutNoun(target: string): string {
    if EndsWith(target, "_WIRING") then DropEnd(target, |"_WIRING"|)
    else if EndsWith(target, "_ENTRYPOINT") then DropEnd(target, |"_ENTRYPOINT"|)
    else if EndsWith(target, "_WORKER") then DropEnd(target, |"_WORKER"|)
    else target
  }

  /** Drops the final S of every part of more than three letters. */
  function Singularize(value: string): string
    decreases |value|
  {
    var part := Before(value, '_');
    var single := if |part| > 3 && part[|part| - 1] == 'S' then DropEnd(part, 1) else part;
    if |part| == |value| then single else single + "_" + Singularize(value[|part| + 1..])
  }

  /** The capture of `/^BUSINESS_LOGIC(?:_EVIDENCE)?_(.+)_(?:PASS|PASSED|VERIFIED|FIXED)$/` */
  function BusinessTarget(code: string): Option<string> {
    var passes := ["_PASS", "_PASSED", "_VERIFIED", "_FIXED"];
    var evidence := Between(code, "BUSINESS_LOGIC_EVIDENCE_", passes);
    if evidence.Some? then evidence else Between(code, "BUSINESS_LOGIC_", passes)
  }

  function Between(code: string, prefix: string, suffixes: seq<string>): Option<string> {
    if suffixes == [] then None
    else if |code| > |prefix| + |suffixes[0]| && StartsWith(code, prefix) && EndsWith(code, suffixes[0]) &&
            OneLine(code[|prefix|..|code| - |suffixes[0]|]) then Some(code[|prefix|..|code| - |suffixes[0]|])
    else Between(code, prefix, suffixes[1..])
  }

  predicate BusinessSubjectMatches(target: string, subject: string) {
    || target == subject || EndsWith(target, "_" + subject) || StartsWith(subject, target + "_")
    || (StartsWith(target, "TENANT_FAIRNESS_") && StartsWith(subject, "TENANT_FAIRNESS_"))
  }

  function WithoutPrefix(code: string, prefixes: seq<string>): Option<string> {
    if prefixes == [] then None
    else if StartsWith(code, prefixes[0]) then Some(code[|prefixes[0]|..])
    else WithoutPrefix(code, prefixes[1..])
  }

  function FlagDetail(flag: string): string {
    var clean := Trim(if |flag| >= |SOURCE_PREFIX| && Upper(flag[..|SOURCE_PREFIX|]) == SOURCE_PREFIX then
                      flag[|SOURCE_PREFIX|..] else flag);
    AfterFirst(clean, ':')
  }

  /** Every run of other characters becomes one underscore; a leading article and outer underscores go. */
  function NormalizeToken(value: string): string {
    var words := Upper(Underscored(value));
    var plain := if StartsWith(words, "THE_") then words[4..] else if StartsWith(words, "A_") then words[2..]
                 else if StartsWith(words, "AN_") then words[3..] else words;
    var headed := if StartsWith(plain, "_") then plain[1..] else plain;
    if EndsWith(headed, "_") then DropEnd(headed, 1) else headed
  }

  predicate IsAlphanumeric(c: char) {
    'A' <= c <= 'Z' || 'a' <= c <= 'z' || '0' <= c <= '9'
  }

  function Underscored(value: string): string
    decreases |value|
  {
    if value == "" then ""
    else if IsAlphanumeric(value[0]) then [value[0]] + Underscored(value[1..])
    else "_" + Underscored(DropOthers(value))
  }

  function DropOthers(value: string): (r: string)
    ensures |r| <= |value| && (value != "" && !IsAlphanumeric(value[0]) ==> |r| < |value|)
  {
    if value == "" || IsAlphanumeric(value[0]) then value else DropOthers(value[1..])
  }
}
