/** Merging a bugfix result into the result it repairs (tools/klevar-yolo-runtime/src/recovery-merge.ts). */
module RecoveryMerge {
  import opened Wrappers
  import opened Sequences
  import opened Text
  import opened RuntimeTypes
  import PathPolicy

  // ---- Paths ----

  /** The last `.yolo/` on the first line of `s`, or `|s|`. */
  function LastYolo(s: string, n: nat): (i: nat)
    requires n <= |s|
    ensures i <= |s| && (i < |s| ==> OccursAt(s, ".yolo/", i))
    decreases n
  {
    if OccursAt(s, ".yolo/", n) && OneLine(s[..n]) then n
    else if n == 0 then |s|
    else LastYolo(s, n - 1)
  }

  function NormalizeRel(file: string): string {
    var normalized := PathPolicy.WithoutDot(ReplaceChar(file, '\\', '/'));
    if StartsWith(normalized, ".yolo/") then normalized
      else normalized[(if LastYolo(normalized, |normalized|) < |normalized| then LastYolo(normalized, |normalized|)
                       else 0)..]
  }

  predicate IsRuntimeOwned(file: string) {
    PathPolicy.IsRuntimeOwnedPath(NormalizeRel(file))
  }

  predicate IsRuntimeOnlyArtifactPath(file: string) {
    || StartsWithAny(Lower(file),
                     [".yolo/batch-results/", ".yolo/gates/", ".yolo/runtime/", ".yolo/logs/", ".yolo/events/"])
    || PathPolicy.IsRuntimeOwnedPath(file)
  }

  function LastSegment(file: string): string {
    if '/' in file then LastSegment(AfterFirst(file, '/')) else file
  }

  predicate IsTestLikePath(file: string) {
    var name := Lower(LastSegment(file));
    || IncludesAny("/" + Lower(file) + "/", ["/test/", "/tests/", "/spec/", "/__tests__/", "/cypress/", "/playwright/"])
    || exists i | 0 < i < |name| :: (OccursAt(name, ".test.", i) || OccursAt(name, ".spec.", i)) && i + 6 < |name|
  }

  function Digits(n: nat): string {
    if n < 10 then [n as char + '0'] else Digits(n / 10) + [(n % 10) as char + '0']
  }

  function PadStart(s: string, length: nat): string
    decreases length - |s|
  {
    if |s| >= length then s else PadStart("0" + s, length)
  }

  function SourceManifest(batch: nat, agent: string): string {
    ".yolo/batch-results/batch-" + PadStart(Digits(batch), 3) + "-" +
    (if agent == "audit" then "audit" else if agent == "validate" then "validate" else "implement") + ".json"
  }

  /** `correctedSourceManifestPath` is not null. */
  predicate CorrectsManifest(batch: nat, agent: string, bugfix: BatchResult) {
    exists i | 0 <= i < |bugfix.filesChanged| :: NormalizeRel(bugfix.filesChanged[i]) == SourceManifest(batch, agent)
  }

  // ---- Stale paths ----

  /** The run of characters other than white space and commas. */
  function Token(s: string): (t: string)
    ensures t <= s
  {
    if s == "" || IsSpace(s[0]) || s[0] == ',' then "" else [s[0]] + Token(s[1..])
  }

  /** The token of `CODE:token fixed` at position `i`, or "". */
  function FixedTokenAt(flag: string, i: nat): string
    requires i <= |flag|
  {
    var rest := flag[i..];
    var code := if StartsWith(rest, "CHANGED_FILE_MISSING:") then |"CHANGED_FILE_MISSING:"|
                else if StartsWith(rest, "ARTIFACT_MISSING:") then |"ARTIFACT_MISSING:"| else |rest|;
    var token := Token(rest[code..]);
    var after := rest[code + |token|..];
    if StartsWith(after, " fixed") && (|after| == 6 || !IsWordChar(after[6])) then token else ""
  }

  /** The first such token from position `i` on, or "". */
  function FixedToken(flag: string, i: nat): string
    requires i <= |flag|
    decreases |flag| - i
  {
    if FixedTokenAt(flag, i) != "" || i == |flag| then FixedTokenAt(flag, i) else FixedToken(flag, i + 1)
  }

  function MissingToken(flag: string): string {
    if StartsWith(flag, "CHANGED_FILE_MISSING:") then Token(flag[|"CHANGED_FILE_MISSING:"|..]) else ""
  }

  function StalePaths(flags: seq<string>): set<string> {
    (set i | 0 <= i < |flags| && FixedToken(flags[i], 0) != "" :: ReplaceChar(FixedToken(flags[i], 0), '\\', '/')) +
    (set i | 0 <= i < |flags| && MissingToken(flags[i]) != "" :: ReplaceChar(MissingToken(flags[i]), '\\', '/'))
  }

  predicate StaysListed(file: string, stale: set<string>, bugfix: BatchResult) {
    NormalizeRel(file) !in stale || exists i | 0 <= i < |bugfix.filesChanged| ::
      NormalizeRel(bugfix.filesChanged[i]) == NormalizeRel(file)
  }

  function MergeFilesChanged(implementation: BatchResult, bugfix: BatchResult): seq<string> {
    var stale := StalePaths(implementation.flags) + StalePaths(bugfix.flags);
    var corrects := CorrectsManifest(implementation.batch, implementation.agent, bugfix);
    var source := if corrects then bugfix.filesChanged else implementation.filesChanged + bugfix.filesChanged;
    Filter((file: string) => StaysListed(file, stale, bugfix),
           Filter((file: string) => !IsRuntimeOwned(file), Unique(source)))
  }

  function MergeArtifacts(implementation: BatchResult, bugfix: BatchResult): seq<string> {
    var stale := StalePaths(implementation.flags) + StalePaths(bugfix.flags);
    Filter((artifact: string) => ReplaceChar(artifact, '\\', '/') !in stale,
           implementation.artifacts + bugfix.artifacts)
  }

  // ---- Tests ----

  predicate IsRunnable(evidence: TestEvidence) {
    var command := Upper(Trim(evidence.command));
    command != "" && command !in ["N/A", "NA", "NOT APPLICABLE", "NOT RUN", "SKIPPED", "NONE", "MANUAL"]
  }

  predicate RunnablePass(evidence: Option<TestEvidence>) {
    evidence.Some? && IsRunnable(evidence.value) && evidence.value.exitCode == 0
  }

  /** `strongerTestEvidence` and `strongerE2eEvidence` */
  function Stronger(existing: Option<TestEvidence>, candidate: Option<TestEvidence>): Option<TestEvidence> {
    if candidate.None? then existing
    else if existing.None? then candidate
    else if RunnablePass(existing) && !RunnablePass(candidate) then existing
    else candidate
  }

  function MergeTests(implementation: Option<Tests>, bugfix: Option<Tests>, allowRed: bool): Option<Tests> {
    match bugfix
    case None => implementation
    case Some(fix) =>
      var tests := implementation.Or(NO_TESTS);
      Some(Tests(if allowRed && fix.red.Some? then fix.red else tests.red, Stronger(tests.green, fix.green),
                 Stronger(tests.regression, fix.regression), Stronger(tests.e2e, fix.e2e)))
  }

  predicate CanReplaceRedEvidence(bugfix: BatchResult) {
    exists i | 0 <= i < |bugfix.filesChanged| ::
      IsTestLikePath(NormalizeRel(bugfix.filesChanged[i]))
        && !IsRuntimeOnlyArtifactPath(NormalizeRel(bugfix.filesChanged[i]))
  }

  predicate HasSemanticChange(bugfix: BatchResult) {
    exists i | 0 <= i < |bugfix.filesChanged| :: !IsRuntimeOnlyArtifactPath(NormalizeRel(bugfix.filesChanged[i]))
  }

  // ---- Wiring ----

  function PathOf(entry: Entrypoint): string { entry.path }

  function Filled(value: string, fallback: string): string { if value != "" then value else fallback }

  function MergedEntry(entry: Entrypoint, prior: Option<Entrypoint>): Entrypoint {
    match prior
    case Some(p) => Entrypoint(Filled(entry.kind, Filled(p.kind, "entrypoint")), entry.path,
                               Filled(entry.verifiedBy, p.verifiedBy))
    case None => Entrypoint(Filled(entry.kind, "entrypoint"), entry.path, entry.verifiedBy)
  }

  /** `normalizeWiringEntry`: a malformed entry gives none. */
  function NormalizeEntry(entry: WiringEntry): Option<Entrypoint> {
    match entry
    case PathAlone(path) => Some(Entrypoint("", path, ""))
    case Record(kind, at, verifiedBy) =>
      if at.Some? then Some(Entrypoint(kind.Or("entrypoint"), at.value, verifiedBy.Or(""))) else None
    case OtherJson => None
  }

  function NormalizeEntries(entries: seq<WiringEntry>): seq<Entrypoint> {
    if entries == [] then []
    else
      var front, last := NormalizeEntries(entries[..|entries| - 1]), NormalizeEntry(entries[|entries| - 1]);
      if last.Some? then front + [last.value] else front
  }

  function AsRecord(entry: Entrypoint): WiringEntry {
    Record(Some(entry.kind), Some(entry.path), Some(entry.verifiedBy))
  }

  function ByPath(entries: seq<Entrypoint>): seq<Entrypoint> {
    if entries == [] then []
    else Put(PathOf, ByPath(entries[..|entries| - 1]), entries[|entries| - 1])
  }

  function MergeEntries(byPath: seq<Entrypoint>, entries: seq<Entrypoint>): seq<Entrypoint> {
    if entries == [] then byPath
    else
      var merged, last := MergeEntries(byPath, entries[..|entries| - 1]), entries[|entries| - 1];
      Put(PathOf, merged, MergedEntry(last, Lookup(PathOf, merged, last.path)))
  }

  function MergeWiring(implementation: Option<Wiring>, bugfix: Option<Wiring>, allowed: bool): Option<Wiring> {
    if bugfix.None? || !allowed then implementation
    else
      var fixes := NormalizeEntries(bugfix.value.entrypoints);
      if implementation.None? || implementation.value.entrypoints == [] then
        Some(bugfix.value.(entrypoints := Map(AsRecord, fixes)))
      else
        var merged := MergeEntries(ByPath(NormalizeEntries(implementation.value.entrypoints)), fixes);
        Some(Wiring(implementation.value.required || bugfix.value.required || merged != [], Map(AsRecord, merged)))
  }

  /** `mergeRecoveredWiring` with its two loops. */
  method MergeRecoveredWiring(implementation: Option<Wiring>, bugfix: Option<Wiring>, allowed: bool)
    returns (wiring: Option<Wiring>)
    ensures wiring == MergeWiring(implementation, bugfix, allowed)
  {
    hide Put, Lookup, MergedEntry, NormalizeEntry, AsRecord;
    if bugfix.None? || !allowed {
      return implementation;
    }
    if implementation.None? || implementation.value.entrypoints == [] {
      return Some(bugfix.value.(entrypoints := Map(AsRecord, NormalizeEntries(bugfix.value.entrypoints))));
    }
    var source, fixes := implementation.value.entrypoints, bugfix.value.entrypoints;
    var byPath: seq<Entrypoint> := [];
    for n := 0 to |source|
      invariant byPath == ByPath(NormalizeEntries(source[..n]))
    {
      assert source[..n + 1][..n] == source[..n];
      var entry := NormalizeEntry(source[n]);
      if entry.Some? {
        assert NormalizeEntries(source[..n + 1])[..|NormalizeEntries(source[..n])|] == NormalizeEntries(source[..n]);
        byPath := Put(PathOf, byPath, entry.value);
      }
    }
    assert source[..|source|] == source;
    for n := 0 to |fixes|
      invariant byPath == MergeEntries(ByPath(NormalizeEntries(source)), NormalizeEntries(fixes[..n]))
    {
      assert fixes[..n + 1][..n] == fixes[..n];
      var entry := NormalizeEntry(fixes[n]);
      if entry.None? {
        continue;
      }
      assert NormalizeEntries(fixes[..n + 1])[..|NormalizeEntries(fixes[..n])|] == NormalizeEntries(fixes[..n]);
      var prior := Lookup(PathOf, byPath, entry.value.path);
      byPath := Put(PathOf, byPath, MergedEntry(entry.value, prior));
    }
    assert fixes[..|fixes|] == fixes;
    wiring := Some(Wiring(implementation.value.required || bugfix.value.required || byPath != [],
                          Map(AsRecord, byPath)));
  }

  // ---- Business logic and flags ----

  function RicherText(candidate: string, fallback: string): string {
    if candidate == "" then fallback
    else if fallback == "" then candidate
    else if |candidate| >= |fallback|
      || IncludesAny(Lower(candidate), ["fixed", "verified", "regression", "e2e", "passed"]) then candidate
    else fallback
  }

  function MergeBusinessLogicTest(implementation: Option<string>, bugfix: Option<string>,
                                  allowed: bool): Option<string> {
    if bugfix.None? || !allowed then implementation
    else if implementation.None? then bugfix
    else Some(RicherText(bugfix.value, implementation.value))
  }

  /** `/(^|_)word(_|$|:)/` at position `i`. */
  predicate WordAt(flag: string, word: string, i: nat) {
    && OccursAt(flag, word, i) && (i == 0 || flag[i - 1] == '_')
    && (i + |word| == |flag| || flag[i + |word|] == '_' || flag[i + |word|] == ':')
  }

  predicate HasWord(flag: string, words: seq<string>) {
    exists w, i | 0 <= w < |words| && 0 <= i <= |flag| :: WordAt(flag, words[w], i)
  }

  predicate IsActiveFailureFlag(flag: string, failureType: Option<string>) {
    && flag != ""
    && (flag in Truthy(failureType) || StartsWith(flag, "RESULT_STATUS_FAILURE:") ||
        flag in ["BUG_FOUND", "INVALID_RESULT", "FAILURE_WITHOUT_FAILURE_TYPE", "COMMIT_CLAIMED_BY_AGENT"] ||
        StartsWithAny(flag, ["BLOCKED_PATH:", "PROTECTED_PATH:", "SECRET_PATTERN:", "ARTIFACT_MISSING:",
                             "CHANGED_FILE_MISSING:", "LOCAL_ONLY_FILE_MISSING:", "WIRING_VERIFIER_FILE_MISSING:"]) ||
        (HasWord(flag, ["FAILURE", "FAILED", "REJECTED", "MISSING", "GAP", "INVALID", "BLOCKING", "FINDINGS"]) &&
         !HasWord(flag, ["FIXED", "PASS", "PASSED", "NORMALIZED", "RECORDED", "NOT_APPLICABLE"])))
  }

  function DemoteSourceFlag(flag: string, failureType: Option<string>): string {
    if IsActiveFailureFlag(flag, failureType) then "RECOVERED_SOURCE_FLAG:" + flag else flag
  }

  predicate IsSemanticFixFlag(flag: string) {
    EndsWithAny(Upper(flag), ["_FIXED", "_PASS", "_PASSED", "_ALLOWLISTED", "_SATISFIED", "_ENFORCED", "_REJECTED",
                              "_COVERED"])
  }

  /** `/^BUSINESS_LOGIC_EVIDENCE_.+_(?:PASS|PASSED|VERIFIED)$/i` or one of three codes. */
  predicate IsRuntimeRecoveryEvidenceFlag(flag: string) {
    var upper := Upper(flag);
    || upper in ["BUSINESS_LOGIC_DRIFT_SWEEP_PASS", "TENANT_FAIRNESS_RATE_LIMIT_RETRY_PASS",
                 "GENERATED_FILE_DRIFT_REVERTED"]
    || IsEvidenceOf(upper, "_PASS") || IsEvidenceOf(upper, "_PASSED") || IsEvidenceOf(upper, "_VERIFIED")
  }

  predicate IsEvidenceOf(upper: string, suffix: string) {
    && |upper| > |"BUSINESS_LOGIC_EVIDENCE_"| + |suffix| && StartsWith(upper, "BUSINESS_LOGIC_EVIDENCE_")
      && EndsWith(upper, suffix)
    && OneLine(upper[|"BUSINESS_LOGIC_EVIDENCE_"|..|upper| - |suffix|])
  }

  /** The flag as it is kept, or "" when it is dropped. */
  function BugfixFlag(flag: string, semantic: bool, evidence: bool): string {
    if StartsWith(flag, "RESULT_STATUS_FAILURE:") then "RECOVERED_BUGFIX_HISTORY:" + flag
    else if !semantic && IsSemanticFixFlag(flag) && !(evidence && IsRuntimeRecoveryEvidenceFlag(flag)) then ""
    else flag
  }

  function RecoveredFlags(implementation: BatchResult, bugfix: BatchResult): seq<string> {
    var semantic := HasSemanticChange(bugfix);
    var evidence := !semantic && HasPassingCommandEvidence(bugfix);
    var source := Truthy(implementation.failureType);
    Unique(Filter((flag: string) => flag != "",
                  Map((failure: string) => "RECOVERED_FROM:" + failure, source) +
                  Map((flag: string) => DemoteSourceFlag(flag, implementation.failureType), implementation.flags) +
                  ["BUGFIX_RECOVERY_APPLIED"] +
                  Map((flag: string) => BugfixFlag(flag, semantic, evidence), bugfix.flags)))
  }

  // ---- The merge and its fold ----

  /** `mergeRecoveredResult` */
  function Merge(implementation: BatchResult, bugfix: BatchResult): BatchResult {
    var semantic := HasSemanticChange(bugfix);
    implementation.(status := "SUCCESS", failureType := None,
                    itemsCompleted := Unique(implementation.itemsCompleted + bugfix.itemsCompleted),
                    filesChanged := MergeFilesChanged(implementation, bugfix),
                    tests := MergeTests(implementation.tests, bugfix.tests, CanReplaceRedEvidence(bugfix)),
                    wiring := MergeWiring(implementation.wiring, bugfix.wiring, semantic),
                    businessLogicTest := MergeBusinessLogicTest(implementation.businessLogicTest,
                                                                bugfix.businessLogicTest, semantic),
                    artifacts := MergeArtifacts(implementation, bugfix),
                    flags := RecoveredFlags(implementation, bugfix))
  }

  function Fold(implementation: BatchResult, bugfixes: seq<BatchResult>): BatchResult {
    if bugfixes == [] then implementation
    else Merge(Fold(implementation, bugfixes[..|bugfixes| - 1]), bugfixes[|bugfixes| - 1])
  }

  predicate IsInvalid(result: BatchResult) {
    result.status == "INVALID_RESULT" || (result.status != "SUCCESS" && result.failureType == Some("INVALID_RESULT"))
  }

  /** The bugfix without the manifest it rewrote, if it did. */
  function WithoutManifest(batch: nat, agent: string, bugfix: BatchResult): BatchResult {
    if !CorrectsManifest(batch, agent, bugfix) then bugfix
    else bugfix.(filesChanged := Filter((file: string) => NormalizeRel(file) != SourceManifest(batch, agent),
                                        bugfix.filesChanged))
  }

  /** `mergeRecoveredResultFromDisk`, where `corrected` is what the source manifest of the batch on disk holds. */
  function MergeFromDisk(batch: nat, implementation: BatchResult, bugfix: BatchResult,
                         corrected: BatchResult): BatchResult {
    var rest := WithoutManifest(batch, implementation.agent, bugfix);
    if !CorrectsManifest(batch, implementation.agent, bugfix) then Merge(implementation, bugfix)
    else if IsInvalid(corrected) then Merge(implementation, rest) else Merge(corrected, rest)
  }

  /** A bugfix result and the source manifest as it is on disk when the bugfix is merged. */
  datatype Repair = Repair(bugfix: BatchResult, corrected: BatchResult)

  /** `mergeExistingBugfixResults` */
  function FoldFromDisk(batch: nat, implementation: BatchResult, repairs: seq<Repair>): BatchResult {
    if repairs == [] then implementation
    else
      var last := repairs[|repairs| - 1];
      MergeFromDisk(batch, FoldFromDisk(batch, implementation, repairs[..|repairs| - 1]), last.bugfix, last.corrected)
  }

  /** The loop over the bugfix files. */
  method MergeExistingBugfixResults(batch: nat, implementation: BatchResult, repairs: seq<Repair>)
    returns (recovered: BatchResult)
    ensures recovered == FoldFromDisk(batch, implementation, repairs)
  {
    hide MergeFromDisk;
    recovered := implementation;
    for n := 0 to |repairs|
      invariant recovered == FoldFromDisk(batch, implementation, repairs[..n])
    {
      assert repairs[..n + 1][..n] == repairs[..n];
      recovered := MergeFromDisk(batch, recovered, repairs[n].bugfix, repairs[n].corrected);
    }
    assert repairs[..|repairs|] == repairs;
  }

  // ---- Proof of work is kept ----

  function Evidence(tests: Option<Tests>, slot: TestSlot): Option<TestEvidence> {
    match slot
    case Green => tests.Or(NO_TESTS).green
    case Regression => tests.Or(NO_TESTS).regression
    case E2e => tests.Or(NO_TESTS).e2e
  }

  datatype TestSlot = Green | Regression | E2e

  /** A merge has a runnable pass exactly when one of the two results has it. */
  lemma MergePasses(implementation: BatchResult, bugfix: BatchResult, slot: TestSlot)
    ensures RunnablePass(Evidence(Merge(implementation, bugfix).tests, slot)) <==>
            RunnablePass(Evidence(implementation.tests, slot)) || RunnablePass(Evidence(bugfix.tests, slot))
  {
    hide IsRunnable, MergeFilesChanged, MergeWiring, RecoveredFlags, MergeArtifacts, HasSemanticChange,
      CanReplaceRedEvidence;
  }

  /** Folding any bugfix results keeps every runnable pass, and adds exactly those they bring. */
  lemma {:induction false} FoldPasses(implementation: BatchResult, bugfixes: seq<BatchResult>, slot: TestSlot)
    ensures RunnablePass(Evidence(Fold(implementation, bugfixes).tests, slot)) <==>
            RunnablePass(Evidence(implementation.tests, slot)) ||
            exists i | 0 <= i < |bugfixes| :: RunnablePass(Evidence(bugfixes[i].tests, slot))
  {
    hide RunnablePass, Merge, Evidence;
    if bugfixes != [] {
      var n := |bugfixes| - 1;
      FoldPasses(implementation, bugfixes[..n], slot);
      MergePasses(Fold(implementation, bugfixes[..n]), bugfixes[n], slot);
      assert bugfixes == bugfixes[..n] + [bugfixes[n]];
    }
  }

  /** A result's wiring as it is listed. */
  function Listed(result: BatchResult): seq<WiringEntry> {
    if result.wiring.Some? then result.wiring.value.entrypoints else []
  }

  function Entries(result: BatchResult): seq<Entrypoint> {
    NormalizeEntries(Listed(result))
  }

  predicate Wired(entries: seq<Entrypoint>, path: string) {
    exists i | 0 <= i < |entries| :: entries[i].path == path
  }

  predicate Verified(entries: seq<Entrypoint>, path: string) {
    exists i | 0 <= i < |entries| :: entries[i].path == path && entries[i].verifiedBy != ""
  }

  /** The last of the path's entries is verified. */
  predicate LastVerified(entries: seq<Entrypoint>, path: string) {
    exists i: nat | i < |entries| :: LastVerifiedAt(entries, path, i)
  }

  /** A bugfix's wiring counts when the bugfix changed product files. */
  predicate Contributes(bugfix: BatchResult) {
    HasSemanticChange(bugfix) && bugfix.wiring.Some?
  }

  predicate DistinctPaths(entries: seq<Entrypoint>) {
    forall i, j | 0 <= i < j < |entries| :: entries[i].path != entries[j].path
  }

  lemma PutDistinct(entries: seq<Entrypoint>, entry: Entrypoint)
    requires DistinctPaths(entries)
    ensures DistinctPaths(Put(PathOf, entries, entry))
  {
  }

  lemma {:induction false} RecordsAreRead(entries: seq<Entrypoint>)
    ensures NormalizeEntries(Map(AsRecord, entries)) == entries
  {
    if entries != [] {
      var front := entries[..|entries| - 1];
      RecordsAreRead(front);
      assert Map(AsRecord, entries)[..|entries| - 1] == Map(AsRecord, front);
      assert entries == front + [entries[|entries| - 1]];
    }
  }

  predicate WiredIn(byPath: seq<Entrypoint>, path: string) {
    Lookup(PathOf, byPath, path).Some?
  }

  predicate VerifiedIn(byPath: seq<Entrypoint>, path: string) {
    WiredIn(byPath, path) && Lookup(PathOf, byPath, path).value.verifiedBy != ""
  }

  /** In a list without repeated paths, what a lookup finds is all there is. */
  lemma LookupOfDistinct(byPath: seq<Entrypoint>, path: string)
    requires DistinctPaths(byPath)
    ensures WiredIn(byPath, path) <==> Wired(byPath, path)
    ensures VerifiedIn(byPath, path) <==> Verified(byPath, path)
    ensures Verified(byPath, path) <==> LastVerified(byPath, path)
  {
    var n := Position(PathOf, byPath, path);
    if Wired(byPath, path) {
      var i :| 0 <= i < |byPath| && byPath[i].path == path;
      assert PathOf(byPath[i]) == path;
      assert n == i;
      assert byPath[i].verifiedBy != "" ==> LastVerifiedAt(byPath, path, i);
    }
  }

  lemma OneMoreEntry(entries: seq<Entrypoint>, path: string)
    requires entries != []
    ensures var front, last := entries[..|entries| - 1], entries[|entries| - 1];
            && (Wired(entries, path) <==> Wired(front, path) || last.path == path)
            && (Verified(entries, path) <==> Verified(front, path) || (last.path == path && last.verifiedBy != ""))
  {
    assert entries == entries[..|entries| - 1] + [entries[|entries| - 1]];
  }

  predicate LastVerifiedAt(entries: seq<Entrypoint>, path: string, i: nat)
    requires i < |entries|
  {
    entries[i].path == path && entries[i].verifiedBy != "" && forall j | i < j < |entries| :: entries[j].path != path
  }

  lemma LastOfMore(front: seq<Entrypoint>, last: Entrypoint, path: string)
    ensures LastVerified(front + [last], path) <==>
            if last.path == path then last.verifiedBy != "" else LastVerified(front, path)
  {
    var entries := front + [last];
    assert entries[|front|] == last;
    forall i: nat | i < |front|
      ensures LastVerifiedAt(entries, path, i) <==> LastVerifiedAt(front, path, i) && last.path != path
    {
      assert forall j | i < j < |front| :: front[j] == entries[j];
    }
    assert LastVerifiedAt(entries, path, |front|) <==> last.path == path && last.verifiedBy != "";
    if LastVerified(entries, path) {
      var i: nat :| i < |entries| && LastVerifiedAt(entries, path, i);
      assert i < |front| ==> LastVerifiedAt(front, path, i);
    }
    if last.path != path && LastVerified(front, path) {
      var i: nat :| i < |front| && LastVerifiedAt(front, path, i);
      assert LastVerifiedAt(entries, path, i);
    }
  }

  /** A Map made of entries keeps the last one of each path. */
  lemma {:induction false} ByPathKeepsLast(entries: seq<Entrypoint>, path: string)
    ensures DistinctPaths(ByPath(entries))
    ensures WiredIn(ByPath(entries), path) <==> Wired(entries, path)
    ensures VerifiedIn(ByPath(entries), path) <==> LastVerified(entries, path)
  {
    hide Put, Lookup, DistinctPaths;
    if entries == [] {
      NothingWired(path);
    } else {
      hide Wired, LastVerified;
      var front, last := entries[..|entries| - 1], entries[|entries| - 1];
      ByPathKeepsLast(front, path);
      PutDistinct(ByPath(front), last);
      LookupPut(PathOf, ByPath(front), last, path);
      OneMoreEntry(entries, path);
      assert entries == front + [last];
      LastOfMore(front, last, path);
    }
  }

  lemma NothingWired(path: string)
    ensures Lookup(PathOf, [], path).None? && DistinctPaths([])
  {
  }

  /** Merged entries add to a Map every path they wire, and every path one of them verifies. */
  lemma {:induction false} MergedEntries(byPath: seq<Entrypoint>, entries: seq<Entrypoint>, path: string)
    requires DistinctPaths(byPath)
    ensures DistinctPaths(MergeEntries(byPath, entries))
    ensures WiredIn(MergeEntries(byPath, entries), path) <==> WiredIn(byPath, path) || Wired(entries, path)
    ensures VerifiedIn(MergeEntries(byPath, entries), path) <==> VerifiedIn(byPath, path) || Verified(entries, path)
  {
    if entries != [] {
      hide Put, Lookup, DistinctPaths, Wired, Verified, LastVerified;
      var front, last := entries[..|entries| - 1], entries[|entries| - 1];
      MergedEntries(byPath, front, path);
      var merged := MergeEntries(byPath, front);
      var entry := MergedEntry(last, Lookup(PathOf, merged, last.path));
      PutDistinct(merged, entry);
      LookupPut(PathOf, merged, entry, path);
      OneMoreEntry(entries, path);
    }
  }

  /** What a merge does to the entries: it copies those of a contributing bugfix when the implementation lists none. */
  lemma EntriesOfMerge(implementation: BatchResult, bugfix: BatchResult)
    ensures var merged := Merge(implementation, bugfix);
            if !Contributes(bugfix) then merged.wiring == implementation.wiring
            else
              && (Listed(merged) == [] <==> Entries(merged) == [])
              && Entries(merged) == (if Listed(implementation) == [] then Entries(bugfix)
                                     else MergeEntries(ByPath(Entries(implementation)), Entries(bugfix)))
  {
    hide MergeFilesChanged, MergeTests, RecoveredFlags, MergeArtifacts, HasSemanticChange, CanReplaceRedEvidence,
      MergeEntries, ByPath,
         MergeBusinessLogicTest, NormalizeEntries;
    RecordsAreRead(Entries(bugfix));
    RecordsAreRead(MergeEntries(ByPath(Entries(implementation)), Entries(bugfix)));
  }

  /** For any two results, repeated paths and malformed entries included: a merge wires exactly the paths of the
      implementation and of a contributing bugfix. It verifies those that such a bugfix verifies and those whose last
      entry in the implementation is verified; a bugfix that does not contribute changes nothing. */
  lemma MergeWires(implementation: BatchResult, bugfix: BatchResult, path: string)
    ensures var before, fixes, merged := Entries(implementation), Entries(bugfix),
            Entries(Merge(implementation, bugfix));
            && (Wired(merged, path) <==> Wired(before, path) || (Contributes(bugfix) && Wired(fixes, path)))
            && (Verified(merged, path) <==>
                if Contributes(bugfix) then LastVerified(before, path) || Verified(fixes, path)
                                            else Verified(before, path))
            && (Contributes(bugfix) && Listed(implementation) != [] ==> DistinctPaths(merged))
  {
    hide Merge, Contributes, MergeEntries, ByPath, WiredIn, VerifiedIn, DistinctPaths;
    EntriesOfMerge(implementation, bugfix);
    if Contributes(bugfix) && Listed(implementation) != [] {
      ByPathKeepsLast(Entries(implementation), path);
      MergedEntries(ByPath(Entries(implementation)), Entries(bugfix), path);
      LookupOfDistinct(Entries(Merge(implementation, bugfix)), path);
    }
  }

  predicate SomeContributes(bugfixes: seq<BatchResult>) {
    exists i | 0 <= i < |bugfixes| :: Contributes(bugfixes[i])
  }

  predicate SomeWires(bugfixes: seq<BatchResult>, path: string) {
    exists i | 0 <= i < |bugfixes| :: Contributes(bugfixes[i]) && Wired(Entries(bugfixes[i]), path)
  }

  predicate SomeVerifies(bugfixes: seq<BatchResult>, path: string) {
    exists i | 0 <= i < |bugfixes| :: Contributes(bugfixes[i]) && Verified(Entries(bugfixes[i]), path)
  }

  lemma OneMoreBugfix(bugfixes: seq<BatchResult>, path: string)
    requires bugfixes != []
    ensures var front, last := bugfixes[..|bugfixes| - 1], bugfixes[|bugfixes| - 1];
            && (SomeContributes(bugfixes) <==> SomeContributes(front) || Contributes(last))
            && (SomeWires(bugfixes, path) <==>
                SomeWires(front, path) || (Contributes(last) && Wired(Entries(last), path)))
            && (SomeVerifies(bugfixes, path) <==>
                SomeVerifies(front, path) || (Contributes(last) && Verified(Entries(last), path)))
  {
    hide Contributes, Wired, Verified, Entries;
    assert bugfixes == bugfixes[..|bugfixes| - 1] + [bugfixes[|bugfixes| - 1]];
  }

  /** Over any fold no wired path is lost, and exactly those of the contributing bugfixes are added. */
  lemma {:induction false} FoldWires(implementation: BatchResult, bugfixes: seq<BatchResult>, path: string)
    ensures Wired(Entries(Fold(implementation, bugfixes)), path) <==>
            Wired(Entries(implementation), path) || SomeWires(bugfixes, path)
  {
    if bugfixes != [] {
      hide Merge, Wired, SomeWires, Contributes, Entries;
      var n := |bugfixes| - 1;
      FoldWires(implementation, bugfixes[..n], path);
      MergeWires(Fold(implementation, bugfixes[..n]), bugfixes[n], path);
      OneMoreBugfix(bugfixes, path);
    }
  }

  /** Over any fold onto a result with entries, a path is verified in the end exactly when a contributing bugfix
      verifies it or the implementation does: with its last entry for the path, once any bugfix contributes. */
  lemma {:induction false} FoldVerifies(implementation: BatchResult, bugfixes: seq<BatchResult>, path: string)
    requires Entries(implementation) != []
    ensures var merged := Entries(Fold(implementation, bugfixes));
            && merged != [] && (SomeContributes(bugfixes) ==> DistinctPaths(merged))
            && (Verified(merged, path) <==>
                  SomeVerifies(bugfixes, path) ||
                  if SomeContributes(bugfixes) then LastVerified(Entries(implementation), path)
                    else Verified(Entries(implementation), path))
  {
    if bugfixes != [] {
      hide Merge, Wired, Verified, SomeContributes, SomeVerifies, SomeWires, Contributes, Entries, LastVerified,
        DistinctPaths;
      var n := |bugfixes| - 1;
      var before := Fold(implementation, bugfixes[..n]);
      FoldVerifies(implementation, bugfixes[..n], path);
      MergeWires(before, bugfixes[n], path);
      OneMoreBugfix(bugfixes, path);
      EntriesStay(before, bugfixes[n]);
      if SomeContributes(bugfixes[..n]) {
        LookupOfDistinct(Entries(before), path);
      } else {
        NoneContributes(implementation, bugfixes[..n]);
      }
    }
  }

  lemma EntriesStay(implementation: BatchResult, bugfix: BatchResult)
    requires Entries(implementation) != []
    ensures Listed(implementation) != [] && Entries(Merge(implementation, bugfix)) != []
    ensures !Contributes(bugfix) ==> Entries(Merge(implementation, bugfix)) == Entries(implementation)
  {
    hide Merge, Contributes;
    var path := Entries(implementation)[0].path;
    MergeWires(implementation, bugfix, path);
    EntriesOfMerge(implementation, bugfix);
    assert Wired(Entries(implementation), path);
  }

  lemma {:induction false} NoneContributes(implementation: BatchResult, bugfixes: seq<BatchResult>)
    requires !SomeContributes(bugfixes)
    ensures Fold(implementation, bugfixes).wiring == implementation.wiring
  {
    if bugfixes != [] {
      hide Merge, Contributes;
      OneMoreBugfix(bugfixes, "");
      NoneContributes(implementation, bugfixes[..|bugfixes| - 1]);
      EntriesOfMerge(Fold(implementation, bugfixes[..|bugfixes| - 1]), bugfixes[|bugfixes| - 1]);
    }
  }

  /** Over any fold a verified path is lost exactly when some bugfix contributes, none that does verifies the path,
      and the implementation lists the path again after its last verified entry. */
  lemma FoldLosesVerification(implementation: BatchResult, bugfixes: seq<BatchResult>, path: string)
    requires Verified(Entries(implementation), path)
    ensures !Verified(Entries(Fold(implementation, bugfixes)), path) <==>
            SomeContributes(bugfixes) && !SomeVerifies(bugfixes, path) && !LastVerified(Entries(implementation), path)
  {
    hide Fold, SomeContributes, SomeVerifies, LastVerified;
    FoldVerifies(implementation, bugfixes, path);
  }

  /** It happens: a result that lists a path verified and then bare loses it to a bugfix that says nothing about it. */
  lemma DuplicatePathLosesVerification(implementation: BatchResult, bugfix: BatchResult, kind: string, path: string,
                                       verifiedBy: string)
    requires verifiedBy != "" && Contributes(bugfix) && Entries(bugfix) == []
    requires Entries(implementation) == [Entrypoint(kind, path, verifiedBy), Entrypoint(kind, path, "")]
    ensures Verified(Entries(implementation), path) && !Verified(Entries(Merge(implementation, bugfix)), path)
  {
    hide Merge, Contributes, NormalizeEntries;
    var entries := Entries(implementation);
    assert entries[0].path == path && entries[0].verifiedBy != "";
    assert entries == [entries[0]] + [entries[1]];
    LastOfMore([entries[0]], entries[1], path);
    MergeWires(implementation, bugfix, path);
  }

  /** Onto a result without entries, the first contributing bugfix with entries takes the place of the implementation,
      and its own repeated paths count only from the next contribution on. */
  lemma FoldOntoNothing(implementation: BatchResult, bugfixes: seq<BatchResult>, k: nat, path: string)
    requires Entries(implementation) == [] && k < |bugfixes| && Contributes(bugfixes[k]) && Entries(bugfixes[k]) != []
    requires forall i | 0 <= i < k && Contributes(bugfixes[i]) :: Entries(bugfixes[i]) == []
    ensures var fixes, copied := Entries(bugfixes[k]), Listed(implementation) == [] || SomeContributes(bugfixes[..k]);
            Verified(Entries(Fold(implementation, bugfixes)), path) <==>
              SomeVerifies(bugfixes[k + 1..], path) ||
              if copied && SomeContributes(bugfixes[k + 1..]) then LastVerified(fixes, path) else Verified(fixes, path)
  {
    hide Merge, Wired, Verified, SomeContributes, SomeVerifies, SomeWires, Contributes, Entries, LastVerified,
      DistinctPaths, Listed;
    var before := Fold(implementation, bugfixes[..k]);
    StillNothing(implementation, bugfixes[..k]);
    assert bugfixes[..k + 1][..k] == bugfixes[..k];
    var first := Fold(implementation, bugfixes[..k + 1]);
    assert first == Merge(before, bugfixes[k]);
    assert bugfixes == bugfixes[..k + 1] + bugfixes[k + 1..];
    FoldAppend(implementation, bugfixes[..k + 1], bugfixes[k + 1..]);
    OntoNothing(before, bugfixes[k], path);
    FoldVerifies(first, bugfixes[k + 1..], path);
    if Listed(before) != [] {
      LookupOfDistinct(Entries(first), path);
    }
  }

  lemma OntoNothing(implementation: BatchResult, bugfix: BatchResult, path: string)
    requires Entries(implementation) == [] && Contributes(bugfix) && Entries(bugfix) != []
    ensures var merged := Entries(Merge(implementation, bugfix));
            && merged != [] && (Verified(merged, path) <==> Verified(Entries(bugfix), path))
            && if Listed(implementation) == [] then merged == Entries(bugfix) else DistinctPaths(merged)
  {
    hide Merge, Contributes, Entries;
    var first := Entries(bugfix)[0].path;
    assert Wired(Entries(bugfix), first);
    MergeWires(implementation, bugfix, first);
    MergeWires(implementation, bugfix, path);
    EntriesOfMerge(implementation, bugfix);
    assert !LastVerified([], path);
  }

  /** Bugfixes without entries add none, and a contributing one leaves an empty list behind. */
  lemma {:induction false} StillNothing(implementation: BatchResult, bugfixes: seq<BatchResult>)
    requires Entries(implementation) == []
    requires forall i | 0 <= i < |bugfixes| && Contributes(bugfixes[i]) :: Entries(bugfixes[i]) == []
    ensures var merged := Fold(implementation, bugfixes);
            Entries(merged) == [] && (Listed(merged) == [] <==>
                                      Listed(implementation) == [] || SomeContributes(bugfixes))
  {
    hide Merge, Fold, Contributes, SomeContributes, Listed, Entries;
    if bugfixes != [] {
      var n := |bugfixes| - 1;
      StillNothing(implementation, bugfixes[..n]);
      OneMoreBugfix(bugfixes, "");
      assert bugfixes == bugfixes[..n] + [bugfixes[n]];
      FoldOne(implementation, bugfixes[..n], bugfixes[n]);
      MergedNothing(Fold(implementation, bugfixes[..n]), bugfixes[n]);
    } else {
      FoldNothing(implementation);
      NoContribution();
    }
  }

  lemma MergedNothing(implementation: BatchResult, bugfix: BatchResult)
    requires Entries(implementation) == [] && (Contributes(bugfix) ==> Entries(bugfix) == [])
    ensures var merged := Merge(implementation, bugfix);
            Entries(merged) == [] && (Listed(merged) == [] <==> Listed(implementation) == [] || Contributes(bugfix))
  {
    hide Merge, Contributes, NormalizeEntries;
    EntriesOfMerge(implementation, bugfix);
    assert ByPath([]) == [] && MergeEntries([], []) == [];
  }

  lemma NoContribution()
    ensures !SomeContributes([])
  {
  }

  lemma {:induction false} FoldAppend(implementation: BatchResult, a: seq<BatchResult>, b: seq<BatchResult>)
    ensures Fold(implementation, a + b) == Fold(Fold(implementation, a), b)
  {
    hide Merge, Fold;
    if b == [] {
      assert a + b == a;
      FoldNothing(Fold(implementation, a));
    } else {
      var front, last := b[..|b| - 1], b[|b| - 1];
      assert b == front + [last] && a + b == (a + front) + [last];
      FoldAppend(implementation, a, front);
      FoldOne(implementation, a + front, last);
      FoldOne(Fold(implementation, a), front, last);
    }
  }

  lemma FoldNothing(implementation: BatchResult)
    ensures Fold(implementation, []) == implementation
  {
  }

  lemma FoldOne(implementation: BatchResult, bugfixes: seq<BatchResult>, last: BatchResult)
    ensures Fold(implementation, bugfixes + [last]) == Merge(Fold(implementation, bugfixes), last)
  {
    hide Merge;
    assert (bugfixes + [last])[..|bugfixes|] == bugfixes;
  }

  // ---- Files ----

  /** Neither side's flags report the path as gone, or the bugfix lists it, in whatever spelling. */
  predicate IsNotStale(implementation: BatchResult, bugfix: BatchResult, file: string) {
    || (NormalizeRel(file) !in StalePaths(implementation.flags) && NormalizeRel(file) !in StalePaths(bugfix.flags))
    || (exists i | 0 <= i < |bugfix.filesChanged| :: NormalizeRel(bugfix.filesChanged[i]) == NormalizeRel(file))
  }

  /** A file of the implementation outlives the merge with this bugfix. */
  predicate Survives(implementation: BatchResult, bugfix: BatchResult, file: string) {
    && !CorrectsManifest(implementation.batch, implementation.agent, bugfix)
    && IsNotStale(implementation, bugfix, file)
  }

  /** Exactly the files of a merge, each once: those of the bugfix, and those of the implementation that survive, except
      for runtime-owned paths. */
  lemma MergedFiles(implementation: BatchResult, bugfix: BatchResult, file: string)
    ensures Distinct(Merge(implementation, bugfix).filesChanged)
    ensures file in Merge(implementation, bugfix).filesChanged <==>
            && !IsRuntimeOwned(file)
            && (file in bugfix.filesChanged ||
                (file in implementation.filesChanged && Survives(implementation, bugfix, file)))
  {
    hide IsRuntimeOwned, StalePaths, CorrectsManifest, MergeTests, MergeWiring, RecoveredFlags, MergeArtifacts,
      HasSemanticChange, CanReplaceRedEvidence, MergeBusinessLogicTest, NormalizeRel;
    var stale := StalePaths(implementation.flags) + StalePaths(bugfix.flags);
    var corrects := CorrectsManifest(implementation.batch, implementation.agent, bugfix);
    var source := if corrects then bugfix.filesChanged else implementation.filesChanged + bugfix.filesChanged;
    var owned := (file: string) => !IsRuntimeOwned(file);
    UniqueIsDistinct(source);
    FilterDistinct(owned, Unique(source));
    FilterDistinct((file: string) => StaysListed(file, stale, bugfix), Filter(owned, Unique(source)));
    FilterKeeps(owned, Unique(source), file);
    FilterKeeps((file: string) => StaysListed(file, stale, bugfix), Filter(owned, Unique(source)), file);
    BugfixFileStays(file, stale, bugfix);
  }

  lemma BugfixFileStays(file: string, stale: set<string>, bugfix: BatchResult)
    ensures file in bugfix.filesChanged ==> StaysListed(file, stale, bugfix)
  {
    hide NormalizeRel;
  }

  lemma {:induction false} FilterDistinct(keep: string -> bool, s: seq<string>)
    requires Distinct(s)
    ensures Distinct(Filter(keep, s))
  {
    if s != [] {
      FilterDistinct(keep, s[1..]);
      FilterKeeps(keep, s[1..], s[0]);
    }
  }

  /** The files listed by the implementation, or by the bugfix before position `k`. */
  function ListedAt(implementation: BatchResult, bugfixes: seq<BatchResult>, k: nat): seq<string>
    requires k <= |bugfixes|
  {
    if k == 0 then implementation.filesChanged else bugfixes[k - 1].filesChanged
  }

  /** The file is listed at `k` and outlives every later merge. */
  predicate OutlivesFrom(implementation: BatchResult, bugfixes: seq<BatchResult>, k: nat, file: string)
    requires k <= |bugfixes|
  {
    && file in ListedAt(implementation, bugfixes, k)
    && forall i | k <= i < |bugfixes| :: Survives(Fold(implementation, bugfixes[..i]), bugfixes[i], file)
  }

  /** Exactly the files of a fold of at least one bugfix, each once: those that the implementation or some bugfix lists
      and that outlive every later merge, except for runtime-owned paths. */
  lemma {:induction false} FoldedFiles(implementation: BatchResult, bugfixes: seq<BatchResult>, file: string)
    requires bugfixes != []
    ensures Distinct(Fold(implementation, bugfixes).filesChanged)
    ensures file in Fold(implementation, bugfixes).filesChanged <==>
            !IsRuntimeOwned(file) && exists k | 0 <= k <= |bugfixes| :: OutlivesFrom(implementation, bugfixes, k, file)
  {
    hide Merge, IsRuntimeOwned, Survives, OutlivesFrom, Distinct;
    var n := |bugfixes| - 1;
    var front := Fold(implementation, bugfixes[..n]);
    MergedFiles(front, bugfixes[n], file);
    OutlivesLast(implementation, bugfixes, file);
    if n == 0 {
      assert bugfixes[..0] == [];
      OutlivesNothing(implementation, file);
    } else {
      FoldedFiles(implementation, bugfixes[..n], file);
    }
    forall k: nat | k <= n
      ensures OutlivesFrom(implementation, bugfixes, k, file) <==>
              OutlivesFrom(implementation, bugfixes[..n], k, file) && Survives(front, bugfixes[n], file)
    {
      OutlivesOneMore(implementation, bugfixes, k, file);
    }
  }

  lemma OutlivesLast(implementation: BatchResult, bugfixes: seq<BatchResult>, file: string)
    requires bugfixes != []
    ensures OutlivesFrom(implementation, bugfixes, |bugfixes|, file) <==>
            file in bugfixes[|bugfixes| - 1].filesChanged
  {
  }

  lemma OutlivesNothing(implementation: BatchResult, file: string)
    ensures OutlivesFrom(implementation, [], 0, file) <==> file in implementation.filesChanged
  {
  }

  lemma OutlivesOneMore(implementation: BatchResult, bugfixes: seq<BatchResult>, k: nat, file: string)
    requires k < |bugfixes|
    ensures var n := |bugfixes| - 1;
            OutlivesFrom(implementation, bugfixes, k, file) <==>
            && OutlivesFrom(implementation, bugfixes[..n], k, file)
            && Survives(Fold(implementation, bugfixes[..n]), bugfixes[n], file)
  {
    hide Survives, Fold;
    var n := |bugfixes| - 1;
    assert forall i | 0 <= i <= n :: bugfixes[..n][..i] == bugfixes[..i];
  }

  /** A path that starts with a letter and names no `.y..` file or directory. */
  predicate IsPlainPath(file: string) {
    && file != "" && 'a' <= file[0] <= 'z' && 'a' <= file[|file| - 1] <= 'z' && '\\' !in file
    && forall i | 0 <= i < |file| - 1 && file[i] == '.' :: file[i + 1] != 'y'
  }

  lemma PlainPathIsProduct(file: string)
    requires IsPlainPath(file)
    ensures NormalizeRel(file) == file && !IsRuntimeOwned(file)
  {
    hide PathPolicy.NormalizeRuntimePath, Lower, StartsWithAny;
    assert ReplaceChar(file, '\\', '/') == file;
    NoYolo(file, |file|);
    assert PathPolicy.IsTidy(file);
    PathPolicy.TidyIsNormal(file);
    assert Lower(file) != "" && Lower(file)[0] == file[0] by { FirstLowered(file); }
    PathPolicy.LetterIsNotOwned(file);
  }

  lemma FirstLowered(file: string)
    requires file != "" && 'a' <= file[0] <= 'z'
    ensures Lower(file) != "" && Lower(file)[0] == file[0]
  {
  }

  lemma {:induction false} NoYolo(file: string, n: nat)
    requires IsPlainPath(file) && n <= |file|
    ensures LastYolo(file, n) == |file|
    decreases n
  {
    OccursStart(file, ".yolo/", n);
    if n > 0 { NoYolo(file, n - 1); }
  }

  /** The files of an implementation and of a bugfix that reports nothing stale are both listed. */
  lemma BothAreListed(implementation: BatchResult, bugfix: BatchResult)
    requires implementation.filesChanged == ["src/a.ts"] && bugfix.filesChanged == ["src/b.ts"]
    requires implementation.flags == [] && bugfix.flags == []
    ensures var files := Merge(implementation, bugfix).filesChanged; "src/a.ts" in files && "src/b.ts" in files
  {
    hide Merge, NormalizeRel, IsRuntimeOwned, SourceManifest, StalePaths;
    PlainPathIsProduct("src/a.ts");
    PlainPathIsProduct("src/b.ts");
    MergedFiles(implementation, bugfix, "src/a.ts");
    MergedFiles(implementation, bugfix, "src/b.ts");
    ManifestStart(implementation.batch, implementation.agent);
    assert StalePaths([]) == {} by { NothingStale(); }
  }

  /** A file that a flag of the bugfix reports as missing is no longer listed, unless the bugfix lists it again. */
  lemma MissingFileIsDropped(implementation: BatchResult, bugfix: BatchResult, file: string)
    requires IsPlainPath(file) && forall i | 0 <= i < |file| :: !IsSpace(file[i]) && file[i] != ','
    requires "CHANGED_FILE_MISSING:" + file in bugfix.flags
    requires forall i | 0 <= i < |bugfix.filesChanged| :: NormalizeRel(bugfix.filesChanged[i]) != file
    ensures file !in Merge(implementation, bugfix).filesChanged
  {
    hide Merge, NormalizeRel, IsRuntimeOwned, FixedToken;
    MergedFiles(implementation, bugfix, file);
    PlainPathIsProduct(file);
    var flag := "CHANGED_FILE_MISSING:" + file;
    assert flag[|"CHANGED_FILE_MISSING:"|..] == file;
    WholeToken(file);
    assert MissingToken(flag) == file;
    assert ReplaceChar(file, '\\', '/') == file;
    var i :| 0 <= i < |bugfix.flags| && bugfix.flags[i] == flag;
    assert file in StalePaths(bugfix.flags);
  }

  lemma {:induction false} WholeToken(s: string)
    requires forall i | 0 <= i < |s| :: !IsSpace(s[i]) && s[i] != ','
    ensures Token(s) == s
  {
    if s != "" {
      WholeToken(s[1..]);
      assert s == [s[0]] + s[1..];
    }
  }

  lemma NothingStale()
    ensures StalePaths([]) == {}
  {
  }

  lemma ManifestStart(batch: nat, agent: string)
    ensures SourceManifest(batch, agent) != "" && SourceManifest(batch, agent)[0] == '.'
  {
  }

  // ---- The manifest rewritten on disk ----

  predicate Replaces(batch: nat, source: BatchResult, repair: Repair) {
    CorrectsManifest(batch, source.agent, repair.bugfix) && !IsInvalid(repair.corrected)
  }

  /** The result that the last valid rewrite of the source manifest put in place. */
  function Base(batch: nat, implementation: BatchResult, repairs: seq<Repair>): BatchResult {
    if repairs == [] then implementation
    else
      var base, last := Base(batch, implementation, repairs[..|repairs| - 1]), repairs[|repairs| - 1];
      if Replaces(batch, base, last) then last.corrected else base
  }

  /** The bugfixes merged since then, without the manifests they rewrote. */
  function Since(batch: nat, implementation: BatchResult, repairs: seq<Repair>): seq<BatchResult> {
    if repairs == [] then []
    else
      var front, last := repairs[..|repairs| - 1], repairs[|repairs| - 1];
      var base := Base(batch, implementation, front);
      (if Replaces(batch, base, last) then [] else Since(batch, implementation, front))
        + [WithoutManifest(batch, base.agent, last.bugfix)]
  }

  lemma {:induction false} FoldKeepsAgent(implementation: BatchResult, bugfixes: seq<BatchResult>)
    ensures Fold(implementation, bugfixes).agent == implementation.agent
  {
    if bugfixes != [] {
      FoldKeepsAgent(implementation, bugfixes[..|bugfixes| - 1]);
    }
  }

  /** Merging from disk is the plain fold of the bugfixes since the last valid rewrite onto what that rewrite left:
      nothing merged before it survives, and everything proved of folds holds from it on. */
  lemma {:induction false} FromDiskIsFold(batch: nat, implementation: BatchResult, repairs: seq<Repair>)
    ensures FoldFromDisk(batch, implementation, repairs)
            == Fold(Base(batch, implementation, repairs), Since(batch, implementation, repairs))
  {
    if repairs != [] {
      hide Merge, NormalizeRel, IsInvalid, CorrectsManifest, WithoutManifest;
      var front, last := repairs[..|repairs| - 1], repairs[|repairs| - 1];
      var base, since := Base(batch, implementation, front), Since(batch, implementation, front);
      FromDiskIsFold(batch, implementation, front);
      FoldKeepsAgent(base, since);
      var fix := WithoutManifest(batch, base.agent, last.bugfix);
      OneMoreFold(base, since, fix);
      OneMoreFold(last.corrected, [], fix);
      FromDiskStep(batch, Fold(base, since), last);
    }
  }

  lemma OneMoreFold(base: BatchResult, since: seq<BatchResult>, fix: BatchResult)
    ensures Fold(base, since + [fix]) == Merge(Fold(base, since), fix)
  {
    hide Merge;
    assert (since + [fix])[..|since|] == since;
  }

  lemma FromDiskStep(batch: nat, result: BatchResult, repair: Repair)
    ensures MergeFromDisk(batch, result, repair.bugfix, repair.corrected)
            == Merge(if Replaces(batch, result, repair) then repair.corrected
                     else result, WithoutManifest(batch, result.agent, repair.bugfix))
  {
    hide Merge, NormalizeRel, IsInvalid;
  }

  /** The files of a merge from disk are those of the rewrite or a bugfix since that outlive every later merge. */
  lemma FromDiskFiles(batch: nat, implementation: BatchResult, repairs: seq<Repair>, file: string)
    requires repairs != []
    ensures var base, since := Base(batch, implementation, repairs), Since(batch, implementation, repairs);
            && since != [] && Distinct(FoldFromDisk(batch, implementation, repairs).filesChanged)
            && (file in FoldFromDisk(batch, implementation, repairs).filesChanged <==>
                !IsRuntimeOwned(file) && exists k | 0 <= k <= |since| :: OutlivesFrom(base, since, k, file))
  {
    hide FoldFromDisk, Fold, Base, IsRuntimeOwned, OutlivesFrom, WithoutManifest, Replaces;
    FromDiskIsFold(batch, implementation, repairs);
    FoldedFiles(Base(batch, implementation, repairs), Since(batch, implementation, repairs), file);
  }

  /** Over any fold from disk, the result has a runnable pass exactly when the last valid rewrite left it, or one of the
      bugfixes from that rewrite on brings it. */
  lemma FromDiskPasses(batch: nat, implementation: BatchResult, repairs: seq<Repair>, slot: TestSlot)
    ensures var since := Since(batch, implementation, repairs);
            && |since| <= |repairs|
            && (RunnablePass(Evidence(FoldFromDisk(batch, implementation, repairs).tests, slot)) <==>
                  RunnablePass(Evidence(Base(batch, implementation, repairs).tests, slot)) ||
                  exists i | |repairs| - |since| <= i < |repairs| ::
                    RunnablePass(Evidence(repairs[i].bugfix.tests, slot)))
  {
    hide Fold, FoldFromDisk, Base, Since, RunnablePass, Evidence;
    var since := Since(batch, implementation, repairs);
    FromDiskIsFold(batch, implementation, repairs);
    FoldPasses(Base(batch, implementation, repairs), since, slot);
    SinceAreLast(batch, implementation, repairs);
    var d := |repairs| - |since|;
    if exists i | 0 <= i < |since| :: RunnablePass(Evidence(since[i].tests, slot)) {
      var i :| 0 <= i < |since| && RunnablePass(Evidence(since[i].tests, slot));
      assert repairs[d + i].bugfix.tests == since[i].tests;
    }
    if exists i | d <= i < |repairs| :: RunnablePass(Evidence(repairs[i].bugfix.tests, slot)) {
      var i :| d <= i < |repairs| && RunnablePass(Evidence(repairs[i].bugfix.tests, slot));
      assert since[i - d].tests == repairs[i].bugfix.tests;
    }
  }

  lemma {:induction false} SinceAreLast(batch: nat, implementation: BatchResult, repairs: seq<Repair>)
    ensures var since := Since(batch, implementation, repairs);
            && |since| <= |repairs|
            && forall i | 0 <= i < |since| :: since[i].tests == repairs[|repairs| - |since| + i].bugfix.tests
  {
    hide Base, Replaces, WithoutManifest;
    if repairs != [] {
      var front, last := repairs[..|repairs| - 1], repairs[|repairs| - 1];
      var base, before := Base(batch, implementation, front), Since(batch, implementation, front);
      SinceAreLast(batch, implementation, front);
      ManifestKeepsTests(batch, base.agent, last.bugfix);
      LastTests(if Replaces(batch, base, last) then [] else before, WithoutManifest(batch, base.agent, last.bugfix),
                repairs);
    }
  }

  lemma ManifestKeepsTests(batch: nat, agent: string, bugfix: BatchResult)
    ensures WithoutManifest(batch, agent, bugfix).tests == bugfix.tests
  {
  }

  /** When some results have the tests of the last repairs but one, one more result extends them to the last. */
  lemma LastTests(before: seq<BatchResult>, fix: BatchResult, repairs: seq<Repair>)
    requires |before| < |repairs| && fix.tests == repairs[|repairs| - 1].bugfix.tests
    requires forall i | 0 <= i < |before| :: before[i].tests == repairs[|repairs| - 1 - |before| + i].bugfix.tests
    ensures var since := before + [fix];
            forall i | 0 <= i < |since| :: since[i].tests == repairs[|repairs| - |since| + i].bugfix.tests
  {
  }

  /** From disk, a runnable pass is lost exactly when a valid rewritten manifest and the bugfix both lack it. */
  lemma FromDiskLosesPass(batch: nat, implementation: BatchResult, repair: Repair, slot: TestSlot)
    requires RunnablePass(Evidence(implementation.tests, slot))
    ensures !RunnablePass(Evidence(MergeFromDisk(batch, implementation, repair.bugfix, repair.corrected).tests,
                                   slot)) <==>
            Replaces(batch, implementation, repair) &&
            !RunnablePass(Evidence(repair.corrected.tests, slot)) && !RunnablePass(Evidence(repair.bugfix.tests, slot))
  {
    hide Merge, IsInvalid, RunnablePass, Evidence, CorrectsManifest;
    var rest := WithoutManifest(batch, implementation.agent, repair.bugfix);
    FromDiskStep(batch, implementation, repair);
    MergePasses(if Replaces(batch, implementation, repair) then repair.corrected else implementation, rest, slot);
  }
}
