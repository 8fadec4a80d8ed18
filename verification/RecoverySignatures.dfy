/** The blocker signature that recovery budgets are counted by (tools/klevar-yolo-runtime/src/runtime.ts:966-1041,
    tools/klevar-yolo-runtime/src/gate-findings.ts:71-100). */
module RecoverySignatures {
  import opened Wrappers
  import opened Sequences
  import opened Text
  import opened FlagClassification
  import PathPolicy

  const UNKNOWN := "UNKNOWN_FAILURE"
  const GATES_REJECTED := "RUNTIME_GATES_REJECTED"

  function NormalizeRecoveryFlag(flag: string): Option<string> {
    var value := Trim(if StartsWith(flag, SOURCE_PREFIX) then flag[|SOURCE_PREFIX|..] else flag);
    if value == "" || IsRuntimeRecoveryMetaFlag(value) || IsPositiveFlag(value) || IsWarningFlag(value, "") ||
       EndsWithAny(Upper(value), ["_LOW_FINDING", "_MEDIUM_FINDING"]) then None
    else Some(value)
  }

  function NormalizeAll(flags: seq<string>): seq<string> {
    if flags == [] then []
    else
      var front, last := NormalizeAll(flags[..|flags| - 1]), NormalizeRecoveryFlag(flags[|flags| - 1]);
      if last.Some? then front + [last.value] else front
  }

  /** Distinct, in order of first occurrence. A missing failure type counts as an unknown failure. */
  function BlockingRecoveryFlags(flags: seq<string>, failureType: Option<string>): seq<string> {
    Unique(NormalizeAll([failureType.Or(UNKNOWN)] + flags))
  }

  predicate Less(a: string, b: string) {
    if b == "" then false
    else if a == "" then true
    else a[0] < b[0] || (a[0] == b[0] && Less(a[1..], b[1..]))
  }

  function Insert(flag: string, sorted: seq<string>): seq<string> {
    if sorted == [] || !Less(sorted[0], flag) then [flag] + sorted
    else [sorted[0]] + Insert(flag, sorted[1..])
  }

  function Sort(flags: seq<string>): seq<string> {
    if flags == [] then [] else Insert(flags[0], Sort(flags[1..]))
  }

  function Join(parts: seq<string>): string {
    if parts == [] then ""
    else if |parts| == 1 then parts[0]
    else parts[0] + "|" + Join(parts[1..])
  }

  function FailureSignature(flags: seq<string>, failureType: Option<string>): string {
    var joined := Join(Sort(BlockingRecoveryFlags(flags, failureType)));
    if joined == "" then UNKNOWN else joined
  }

  // ---- Runtime-owned blockers ----

  function FlagPath(flag: string): string {
    ReplaceChar(Trim(AfterFirst(flag, ':')), '\\', '/')
  }

  predicate IsNonRecoverableRuntimeCode(code: string) {
    || code == "PROTECTED_PATH" || code == "TEMPLATE_MANAGED_PROTECTED_PATH" || code == "BLOCKED_PATH"
      || code == "UNSAFE_PATH"
    || code == "PROTECTED_COORDINATION_FILE" + "_MODULARITY_FINDING" || code == "TOOLING_HUMAN_REQUIRED_SYNC_CONTEXT"
  }

  predicate IsMissingPathEvidenceCode(code: string) {
    || code == "CHANGED_FILE_MISSING" || code == "ARTIFACT_MISSING" || code == "LOCAL_ONLY_FILE_MISSING"
    || code == "WIRING_VERIFIER_FILE_MISSING"
  }

  predicate IsUntouchablePath(path: string) {
    PathPolicy.IsSyncExcludedPath(path) ||
    PathPolicy.MatchesAnyPolicyPattern(PathPolicy.NormalizeRuntimePath(path),
                                       PathPolicy.PROTECTED_PATHS + PathPolicy.BLOCKED_PATHS)
  }

  predicate IsNonRecoverableRuntimeFlag(flag: string) {
    || IsNonRecoverableRuntimeCode(FlagCode(flag))
    || (IsMissingPathEvidenceCode(FlagCode(flag)) && FlagPath(flag) != "" && IsUntouchablePath(FlagPath(flag)))
  }

  predicate HasRuntimePrefix(code: string) {
    StartsWithAny(code + "_", ["VALIDATOR_REJECTED_", "PLAN_REJECTED_", "RUNTIME_", "BUGFIX_", "CONTRACT_",
                               "RESULT_STATUS_", "GATE_", "JOURNAL_", "AGENT_", "WORKTREE_", "COMMAND_RERUN_",
                               "ADJUDICATION_"])
  }

  /** `/^(?:MISSING_|INVALID_).*?(?:ARTIFACT|..)/i` */
  predicate IsBadArtifactCode(code: string) {
    (StartsWith(code, "MISSING_") || StartsWith(code, "INVALID_")) &&
    exists n | 8 <= n <= |code| :: OneLine(code[8..n])
      && StartsWithAny(code[n..], ["ARTIFACT", "MANIFEST", "RESULT", "GATE", "JOURNAL", "REPORT", "SHAPE"])
  }

  /** `/^(?:ARTIFACT|CHANGED_FILE|LOCAL_ONLY_FILE|WIRING_VERIFIER_FILE)_(?:MISSING|MISSING_METADATA)$/i` */
  predicate IsMissingFileCode(code: string) {
    IsMissingPathEvidenceCode(if EndsWith(code, "_METADATA") then DropEnd(code, |"_METADATA"|) else code)
  }

  predicate IsRuntimeNoteCode(code: string) {
    || code == "TEMPLATE_MANAGED_PROTECTED_PATH" || code == "PROTECTED_PATH" || code == "RUNTIME_ONLY_PATH"
      || code == "SUPPORT_LOOP_STALE"
    || code == "MODULARITY_RULE_FILE_LIMIT_VIOLATION"
    || code == "FUTURE_PHASE_SUCCESS_CRITERIA" + "_RECORDED_AS_MANUAL_NOT_FINDINGS"
    || code == "WORKFLOW_INFERRED_VALIDATE_PRD" + "_RUNTIME_PLACEHOLDER_UNAVAILABLE"
  }

  predicate IsRuntimeFile(path: string) {
    StartsWithAny(path, [".yolo/", ".pi/", ".agent/"]) || path in ["AGENTS.md", "CLAUDE.md", "docs/progress.md"]
  }

  predicate IsRuntimeOwnedRecoveryFlag(flag: string) {
    var code := Upper(FlagCode(flag));
    if IsNonRecoverableRuntimeFlag(flag) then true
    else if HasRuntimePrefix(code) then true
    else if IsBadArtifactCode(code) then true
    else if IsMissingFileCode(code) then IsRuntimeFile(ReplaceChar(AfterFirst(flag, ':'), '\\', '/'))
    else IsRuntimeNoteCode(code)
  }

  predicate AllRuntimeOwned(flags: seq<string>) {
    forall i | 0 <= i < |flags| :: IsRuntimeOwnedRecoveryFlag(flags[i])
  }

  /** The non-empty trimmed parts of a split signature. */
  function SignatureFlags(signature: string): seq<string> {
    Filter((flag: string) => flag != "", Map(Trim, Split(signature, '|')))
  }

  predicate IsRuntimeOwnedRecoverySignature(signature: string) {
    SignatureFlags(signature) != [] && AllRuntimeOwned(SignatureFlags(signature))
  }

  /** `runtimePoisonedRecoveryLoop` finds the loop poisoned. */
  predicate IsPoisoned(previous: string, flags: seq<string>, failureType: Option<string>) {
    && FailureSignature(flags, failureType) == previous
    && BlockingRecoveryFlags(flags, failureType) != [] && AllRuntimeOwned(BlockingRecoveryFlags(flags, failureType))
  }

  // ---- Order ----

  lemma {:induction false} LessTotal(a: string, b: string)
    ensures Less(a, b) || Less(b, a) || a == b
    ensures !(Less(a, b) && Less(b, a)) && (a == b ==> !Less(a, b))
  {
    if a != "" && b != "" && a[0] == b[0] {
      LessTotal(a[1..], b[1..]);
      assert a == [a[0]] + a[1..] && b == [b[0]] + b[1..];
    }
  }

  lemma {:induction false} LessTransitive(a: string, b: string, c: string)
    requires Less(a, b) && Less(b, c)
    ensures Less(a, c)
  {
    if a != "" && a[0] == b[0] && b[0] == c[0] {
      LessTransitive(a[1..], b[1..], c[1..]);
    }
  }

  predicate Ascending(flags: seq<string>) {
    forall i, j | 0 <= i < j < |flags| :: Less(flags[i], flags[j])
  }

  lemma {:induction false} InsertSorts(flag: string, sorted: seq<string>)
    requires Ascending(sorted) && flag !in sorted
    ensures Ascending(Insert(flag, sorted))
    ensures forall f :: f in Insert(flag, sorted) <==> f == flag || f in sorted
  {
    if sorted != [] && Less(sorted[0], flag) {
      InsertSorts(flag, sorted[1..]);
      var rest := Insert(flag, sorted[1..]);
      forall j | 0 <= j < |rest| ensures Less(sorted[0], rest[j]) {
        assert rest[j] == flag || rest[j] in sorted[1..];
      }
    } else if sorted != [] {
      LessTotal(flag, sorted[0]);
      forall j | 0 <= j < |sorted| ensures Less(flag, sorted[j]) {
        if j > 0 { LessTransitive(flag, sorted[0], sorted[j]); }
      }
    }
  }

  lemma {:induction false} SortSorts(flags: seq<string>)
    requires Distinct(flags)
    ensures Ascending(Sort(flags))
    ensures forall f :: f in Sort(flags) <==> f in flags
  {
    if flags != [] {
      SortSorts(flags[1..]);
      InsertSorts(flags[0], Sort(flags[1..]));
    }
  }

  lemma {:induction false} AscendingIsUnique(a: seq<string>, b: seq<string>)
    requires Ascending(a) && Ascending(b)
    requires forall f :: f in a <==> f in b
    ensures a == b
  {
    if a == [] {
      if b != [] { Nonempty(b); }
    } else {
      assert a[0] in b && b != [];
      assert b[0] in a;
      SameLeast(a, b);
      AscendingTails(a, b);
      AscendingIsUnique(a[1..], b[1..]);
      assert a == [a[0]] + a[1..] && b == [b[0]] + b[1..];
    }
  }

  lemma SameLeast(a: seq<string>, b: seq<string>)
    requires Ascending(a) && Ascending(b) && a != [] && b != [] && a[0] in b && b[0] in a
    ensures a[0] == b[0]
  {
    LessTotal(a[0], b[0]);
  }

  lemma AscendingTails(a: seq<string>, b: seq<string>)
    requires Ascending(a) && Ascending(b) && a != [] && b != [] && a[0] == b[0]
    requires forall f :: f in a <==> f in b
    ensures forall f :: f in a[1..] <==> f in b[1..]
  {
    forall f ensures f in a[1..] <==> f in b[1..] {
      LessTotal(a[0], a[0]);
      assert f in a[1..] <==> f in a && f != a[0];
      assert f in b[1..] <==> f in b && f != b[0];
    }
  }

  // ---- Splitting inverts joining ----

  predicate PipeFree(parts: seq<string>) {
    forall i | 0 <= i < |parts| :: '|' !in parts[i]
  }

  lemma FirstPart(part: string, rest: string)
    requires '|' !in part
    ensures Before(part, '|') == part
    ensures Before(part + "|" + rest, '|') == part
  {
    BeforeOfJoined(part, "", '|');
    BeforeOfJoined(part, "|" + rest, '|');
    assert part + "" == part && part + "|" + rest == part + ("|" + rest);
  }

  lemma {:induction false} SplitJoin(parts: seq<string>)
    requires PipeFree(parts) && parts != []
    ensures Split(Join(parts), '|') == parts
  {
    var rest := Join(parts[1..]);
    FirstPart(parts[0], rest);
    if |parts| > 1 {
      SplitJoin(parts[1..]);
      assert (parts[0] + "|" + rest)[|parts[0]| + 1..] == rest;
    }
  }
}
