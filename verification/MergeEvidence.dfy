/** What a merge takes from a bugfix, told on the characters of commands, paths and flags
    (tools/klevar-yolo-runtime/src/recovery-merge.ts). */
module MergeEvidence {
  import opened Wrappers
  import opened Sequences
  import opened Text
  import opened OrdinaryFlags
  import opened FixEvidence
  import opened ImportClosure
  import opened RecoveryMerge
  import opened RuntimeTypes
  import PathPolicy

  // ---- Tests ----

  const NOT_RUN: seq<string> := ["N/A", "NA", "NOT APPLICABLE", "NOT RUN", "SKIPPED", "NONE", "MANUAL"]

  /** A command that ran and exited with 0: not blank, and none of the notes for a test that was not run. */
  predicate HasRun(evidence: Option<TestEvidence>) {
    && evidence.Some? && evidence.value.exitCode == 0 && !AllBlank(evidence.value.command)
    && forall w | 0 <= w < |NOT_RUN| :: !IsAround(evidence.value.command, NOT_RUN[w])
  }

  lemma NotesAreUpper()
    ensures forall w | 0 <= w < |NOT_RUN| ::
              AllUpper(NOT_RUN[w]) && NOT_RUN[w] != "" && !IsSpace(NOT_RUN[w][0])
              && !IsSpace(NOT_RUN[w][|NOT_RUN[w]| - 1])
  {
  }

  lemma RunnableMeans(evidence: Option<TestEvidence>)
    ensures RunnablePass(evidence) <==> HasRun(evidence)
  {
    hide Trim, Upper, AllBlank, IsAround, AllUpper, IsSpace;
    if evidence.Some? {
      var command := evidence.value.command;
      NotesAreUpper();
      BlankTrims(command);
      assert |Upper(Trim(command))| == |Trim(command)| by { UpperLength(Trim(command)); }
      forall w | 0 <= w < |NOT_RUN| ensures Upper(Trim(command)) == NOT_RUN[w] <==> IsAround(command, NOT_RUN[w]) {
        AroundMeans(command, NOT_RUN[w]);
      }
    }
  }

  lemma UpperLength(s: string)
    ensures |Upper(s)| == |s|
  {
  }

  /** Evidence is never lost, and the bugfix's goes first unless it would lose a test that ran and passed. */
  lemma EvidenceIsKept(implementation: BatchResult, bugfix: BatchResult, slot: TestSlot)
    ensures var a, b := Evidence(implementation.tests, slot), Evidence(bugfix.tests, slot);
            Evidence(Merge(implementation, bugfix).tests, slot) ==
            if b.None? || (a.Some? && HasRun(a) && !HasRun(b)) then a else b
  {
    hide IsRunnable, MergeFilesChanged, MergeWiring, RecoveredFlags, MergeArtifacts, HasSemanticChange, HasRun,
      CanReplaceRedEvidence, RunnablePass;
    RunnableMeans(Evidence(implementation.tests, slot));
    RunnableMeans(Evidence(bugfix.tests, slot));
  }

  function RedOf(result: BatchResult): Option<TestEvidence> {
    result.tests.Or(NO_TESTS).red
  }

  const TEST_FILE := "src/cart.test.ts"

  const TEST_NAME := "cart.test.ts"

  lemma TestFileIsPlain()
    ensures IsPlainPath(TEST_FILE)
  {
  }

  lemma SegmentOfJoined(directory: string, name: string)
    requires '/' !in directory && '/' !in name
    ensures LastSegment(directory + "/" + name) == name
  {
    var file := directory + ("/" + name);
    assert file == directory + "/" + name;
    BeforeOfJoined(directory, "/" + name, '/');
    assert file[|directory|] == '/';
    assert AfterFirst(file, '/') == name;
  }

  lemma TestName()
    ensures '/' !in TEST_NAME && Lower(TEST_NAME) == TEST_NAME && |TEST_NAME| == 12 && OccursAt(TEST_NAME, ".test.", 4)
  {
    LowerAlready(TEST_NAME);
    assert TEST_NAME[4..10] == ".test.";
  }

  lemma TestFileIsTest()
    ensures IsTestLikePath(TEST_FILE)
  {
    hide Lower, LastSegment, IncludesAny, OccursAt;
    assert '/' !in "src";
    TestName();
    SegmentOfJoined("src", TEST_NAME);
    assert TEST_FILE == "src" + "/" + TEST_NAME;
  }

  /** A bugfix with red evidence of its own replaces the implementation's when it changed the test
      `src/cart.test.ts`. */
  lemma TestChangeReplacesRed(implementation: BatchResult, bugfix: BatchResult)
    requires TEST_FILE in bugfix.filesChanged && RedOf(bugfix).Some?
    ensures RedOf(Merge(implementation, bugfix)) == RedOf(bugfix)
  {
    hide MergeFilesChanged, MergeWiring, RecoveredFlags, MergeArtifacts, HasSemanticChange, NormalizeRel,
      IsTestLikePath, RecoveryMerge.IsRuntimeOnlyArtifactPath, Stronger, MergeBusinessLogicTest;
    TestFileIsTest();
    TestFileIsPlain();
    PlainPathIsProduct(TEST_FILE);
    PlainIsNoArtifact(TEST_FILE);
    var i :| 0 <= i < |bugfix.filesChanged| && bugfix.filesChanged[i] == TEST_FILE;
  }

  /** Without a changed file, or with files of the runtime only, it does not. */
  lemma RedStays(implementation: BatchResult, bugfix: BatchResult)
    requires forall i | 0 <= i < |bugfix.filesChanged| :: IsReportFile(bugfix.filesChanged[i])
    ensures RedOf(Merge(implementation, bugfix)) == RedOf(implementation)
  {
    hide MergeFilesChanged, MergeWiring, RecoveredFlags, MergeArtifacts, HasSemanticChange, NormalizeRel,
      IsTestLikePath, RecoveryMerge.IsRuntimeOnlyArtifactPath, Stronger, MergeBusinessLogicTest, IsReportFile;
    forall i | 0 <= i < |bugfix.filesChanged|
      ensures RecoveryMerge.IsRuntimeOnlyArtifactPath(NormalizeRel(bugfix.filesChanged[i]))
    {
      ReportIsArtifact(bugfix.filesChanged[i]);
    }
  }

  // ---- Files ----

  /** A path inside one of the runtime's directories, as the runtime writes it. */
  predicate IsReportFile(file: string) {
    && '\\' !in file
    && exists d | 0 <= d < |RUNTIME_DIRECTORIES| :: StartsWith(file, RUNTIME_DIRECTORIES[d])
  }

  lemma ReportIsArtifact(file: string)
    requires IsReportFile(file)
    ensures NormalizeRel(file) == file && RecoveryMerge.IsRuntimeOnlyArtifactPath(file)
  {
    hide Lower, PathPolicy.IsRuntimeOwnedPath, LastYolo;
    var d :| 0 <= d < |RUNTIME_DIRECTORIES| && StartsWith(file, RUNTIME_DIRECTORIES[d]);
    var directory := RUNTIME_DIRECTORIES[d];
    assert ReplaceChar(file, '\\', '/') == file;
    DirectoryShape(d);
    assert file[..6] == directory[..6];
    assert file[1] == directory[1] == 'y';
    assert StartsWith(file, ".yolo/");
    assert Lower(file)[..|directory|] == directory by { LowerPrefix(file, directory); }
    assert StartsWith(Lower(file), directory);
    var directories := [".yolo/batch-results/", ".yolo/gates/", ".yolo/runtime/", ".yolo/logs/", ".yolo/events/"];
    assert directories[d] == directory;
  }

  lemma DirectoryShape(d: nat)
    requires d < |RUNTIME_DIRECTORIES|
    ensures var directory := RUNTIME_DIRECTORIES[d];
            |directory| > 6 && directory[..6] == ".yolo/" && directory[1] == 'y' && Lower(directory) == directory
  {
    LowerAlready(RUNTIME_DIRECTORIES[d]);
  }

  lemma LowerPrefix(file: string, part: string)
    requires part <= file && Lower(part) == part
    ensures |Lower(file)| >= |part| && Lower(file)[..|part|] == part
  {
    forall k | 0 <= k < |part| ensures Lower(file)[k] == part[k] {
      assert file[k] == part[k] && Lower(part)[k] == part[k];
    }
  }

  lemma PlainIsNoArtifact(file: string)
    requires IsPlainPath(file)
    ensures !RecoveryMerge.IsRuntimeOnlyArtifactPath(file)
  {
    hide PathPolicy.IsRuntimeOwnedPath, Lower;
    PlainPathIsProduct(file);
    FirstLowered(file);
  }

  /** A bugfix that changed nothing but reports of the runtime does not count as a change of the product; one that
      changed a plain path does. */
  lemma ChangeMeans(bugfix: BatchResult)
    ensures (forall i | 0 <= i < |bugfix.filesChanged| :: IsReportFile(bugfix.filesChanged[i])) ==>
              !HasSemanticChange(bugfix)
    ensures (exists i | 0 <= i < |bugfix.filesChanged| :: IsPlainPath(bugfix.filesChanged[i])) ==>
              HasSemanticChange(bugfix)
  {
    hide NormalizeRel, RecoveryMerge.IsRuntimeOnlyArtifactPath, IsReportFile, IsPlainPath;
    forall i | 0 <= i < |bugfix.filesChanged|
      ensures IsReportFile(bugfix.filesChanged[i]) ==>
                RecoveryMerge.IsRuntimeOnlyArtifactPath(NormalizeRel(bugfix.filesChanged[i]))
      ensures IsPlainPath(bugfix.filesChanged[i]) ==>
                !RecoveryMerge.IsRuntimeOnlyArtifactPath(NormalizeRel(bugfix.filesChanged[i]))
    {
      var file := bugfix.filesChanged[i];
      if IsReportFile(file) { ReportIsArtifact(file); }
      if IsPlainPath(file) {
        PlainPathIsProduct(file);
        PlainIsNoArtifact(file);
      }
    }
  }

  /** No `.y..` in the text, so no further `.yolo/`. */
  predicate NamesNoYolo(s: string) {
    forall i | 0 <= i < |s| - 1 && s[i] == '.' :: s[i + 1] != 'y'
  }

  /** What comes before the last `.yolo/` of a path does not count. */
  lemma YoloIsFound(prefix: string, rest: string)
    requires '\\' !in prefix + rest && OneLine(prefix) && NamesNoYolo(rest) && prefix != "" && prefix[0] != '.'
    ensures NormalizeRel(prefix + ".yolo/" + rest) == ".yolo/" + rest
  {
    var file := prefix + ".yolo/" + rest;
    assert ReplaceChar(file, '\\', '/') == file;
    assert file[0] == prefix[0];
    assert PathPolicy.WithoutDot(file) == file;
    assert !StartsWith(file, ".yolo/");
    assert file[|prefix|..|prefix| + 6] == ".yolo/";
    assert file[..|prefix|] == prefix;
    LastIsFound(file, |prefix|, |file|);
    assert file[|prefix|..] == ".yolo/" + rest;
  }

  lemma {:induction false} LastIsFound(file: string, at: nat, n: nat)
    requires OccursAt(file, ".yolo/", at) && OneLine(file[..at]) && NamesNoYolo(file[at + 6..]) && at <= n <= |file|
    ensures LastYolo(file, n) == at
    decreases n
  {
    hide OneLine;
    if n > at {
      if OccursAt(file, ".yolo/", n) { NoneAfter(file, at, n); }
      LastIsFound(file, at, n - 1);
    }
  }

  lemma NoneAfter(file: string, at: nat, n: nat)
    requires OccursAt(file, ".yolo/", at) && OccursAt(file, ".yolo/", n) && at < n
    ensures !NamesNoYolo(file[at + 6..])
  {
    OccursChars(file, ".yolo/", at);
    OccursChars(file, ".yolo/", n);
    OneDot();
    var rest := file[at + 6..];
    assert file[n] == ".yolo/"[0] == '.';
    assert n >= at + 6;
    assert rest[n - at - 6] == file[n] == '.' && rest[n - at - 5] == file[n + 1] == 'y';
  }

  lemma OneDot()
    ensures forall k | 0 < k < 6 :: ".yolo/"[k] != '.'
  {
  }

  /** A file of the runtime is never in a merged list, in whatever directory the path says it is. */
  lemma RuntimeFilesAreDropped(implementation: BatchResult, bugfix: BatchResult, prefix: string, name: string)
    requires '\\' !in prefix + name && OneLine(prefix) && NamesNoYolo("runtime/" + name)
    requires prefix != "" && prefix[0] != '.' && name != "" && 'a' <= name[|name| - 1] <= 'z'
    ensures prefix + ".yolo/runtime/" + name !in Merge(implementation, bugfix).filesChanged
  {
    hide Merge, NormalizeRel, Lower, StalePaths, Trim;
    var file, own := prefix + ".yolo/runtime/" + name, ".yolo/runtime/" + name;
    assert file == prefix + ".yolo/" + ("runtime/" + name);
    YoloIsFound(prefix, "runtime/" + name);
    assert NormalizeRel(file) == own;
    RuntimeIsOwned(name);
    MergedFiles(implementation, bugfix, file);
  }

  lemma RuntimeIsOwned(name: string)
    requires '\\' !in name && name != "" && 'a' <= name[|name| - 1] <= 'z'
    ensures PathPolicy.IsRuntimeOwnedPath(".yolo/runtime/" + name)
  {
    hide Lower, Trim;
    var file := ".yolo/runtime/" + name;
    TrimPlain(file);
    assert PathPolicy.Unquote(file) == file && ReplaceChar(file, '\\', '/') == file;
    assert file[1] == 'y';
    assert PathPolicy.NormalizeRuntimePath(file) == file;
    LowerAlready(".yolo/runtime/");
    LowerPrefix(file, ".yolo/runtime/");
    assert StartsWith(Lower(file) + "/", ".yolo/runtime/");
    var owned := [".yolo/runtime/", ".yolo/events/", ".yolo/logs/", ".yolo/worktrees/", ".yolo/pi-sessions/",
                  ".yolo/subagent-prompts/", ".yolo/subagent-runs/", ".yolo/incidents/"];
    assert owned[0] == ".yolo/runtime/";
  }

  // ---- The source manifest ----

  /** The number a text of decimal digits reads as. */
  function Number(s: string): nat {
    if s == "" then 0
    else Number(s[..|s| - 1]) * 10 + if '0' <= s[|s| - 1] <= '9' then (s[|s| - 1] - '0') as int else 0
  }

  lemma {:induction false} DigitsRead(n: nat)
    ensures var s := Digits(n); s != "" && Number(s) == n && (n > 0 ==> s[0] != '0')
  {
    if n >= 10 {
      var s := Digits(n);
      DigitsRead(n / 10);
      assert s[..|s| - 1] == Digits(n / 10) && s[|s| - 1] == (n % 10) as char + '0';
      assert s[0] == Digits(n / 10)[0];
    } else {
      assert Digits(n)[..0] == "";
      assert Number("") == 0;
    }
  }

  lemma {:induction false} ZeroReads(s: string)
    ensures Number("0" + s) == Number(s)
  {
    var padded := "0" + s;
    if s == "" {
      assert padded[..0] == "" && padded[0] == '0';
    } else {
      assert padded[..|padded| - 1] == "0" + s[..|s| - 1];
      assert padded[|padded| - 1] == s[|s| - 1];
      ZeroReads(s[..|s| - 1]);
    }
  }

  lemma {:induction false} PadReads(s: string, length: nat)
    ensures Number(PadStart(s, length)) == Number(s)
    ensures |PadStart(s, length)| == if |s| >= length then |s| else length
    decreases length - |s|
  {
    if |s| < length {
      ZeroReads(s);
      PadReads("0" + s, length);
    }
  }

  /** The manifest of a batch names it by its number, in three digits or as many as it takes, and by the part the result
      plays: audit, validation or implementation. */
  lemma ManifestNames(batch: nat, agent: string) returns (number: string)
    ensures SourceManifest(batch, agent) ==
            ".yolo/batch-results/batch-" + number + "-"
            + (if agent in ["audit", "validate"] then agent else "implement") + ".json"
    ensures Number(number) == batch && |number| >= 3 && (|number| > 3 ==> number == Digits(batch) && number[0] != '0')
  {
    hide Number, Digits, PadStart;
    number := PadStart(Digits(batch), 3);
    DigitsRead(batch);
    PadReads(Digits(batch), 3);
    if |number| > 3 {
      LongDigits(Digits(batch));
      SmallNumber(batch);
    }
  }

  lemma LongDigits(s: string)
    requires |s| > 3
    ensures PadStart(s, 3) == s
  {
  }

  lemma SmallNumber(n: nat)
    ensures n == 0 ==> |Digits(n)| == 1
  {
  }

  /** A bugfix that is merged without the manifest it rewrote lists everything else. */
  lemma ManifestIsLeftOut(batch: nat, agent: string, bugfix: BatchResult, file: string)
    ensures file in WithoutManifest(batch, agent, bugfix).filesChanged <==>
            file in bugfix.filesChanged && NormalizeRel(file) != SourceManifest(batch, agent)
  {
    hide NormalizeRel, SourceManifest;
    FilterKeeps((f: string) => NormalizeRel(f) != SourceManifest(batch, agent), bugfix.filesChanged, file);
  }

  /** A rewritten manifest takes the place of the implementation exactly when it can be read as a result. */
  lemma ReplacesMeans(batch: nat, source: BatchResult, repair: Repair)
    ensures Replaces(batch, source, repair) <==>
            && (exists i | 0 <= i < |repair.bugfix.filesChanged| ::
                  NormalizeRel(repair.bugfix.filesChanged[i]) == SourceManifest(batch, source.agent))
            && repair.corrected.status != "INVALID_RESULT"
            && (repair.corrected.status == "SUCCESS" || repair.corrected.failureType != Some("INVALID_RESULT"))
  {
    hide NormalizeRel, SourceManifest;
  }

  // ---- Flags ----

  /** What a merge makes of a flag of the bugfix, and of one of the implementation. */
  predicate ComesFrom(flag: string, implementation: BatchResult, bugfix: BatchResult) {
    var semantic := HasSemanticChange(bugfix);
    var evidence := !semantic && SomeTestPassed(bugfix);
    || (implementation.failureType.Some? && implementation.failureType.value != ""
        && flag == "RECOVERED_FROM:" + implementation.failureType.value)
    || (exists i | 0 <= i < |implementation.flags| ::
          flag == DemoteSourceFlag(implementation.flags[i], implementation.failureType))
    || flag == "BUGFIX_RECOVERY_APPLIED"
    || (exists i | 0 <= i < |bugfix.flags| :: flag == BugfixFlag(bugfix.flags[i], semantic, evidence))
  }

  /** Exactly these flags are merged. */
  lemma MergedFlags(implementation: BatchResult, bugfix: BatchResult, flag: string)
    ensures flag in Merge(implementation, bugfix).flags <==> flag != "" && ComesFrom(flag, implementation, bugfix)
  {
    hide MergeFilesChanged, MergeTests, MergeWiring, MergeArtifacts, HasSemanticChange, CanReplaceRedEvidence,
      MergeBusinessLogicTest, DemoteSourceFlag, BugfixFlag, SomeTestPassed, HasPassingCommandEvidence;
    PassingMeans(bugfix);
    var semantic := HasSemanticChange(bugfix);
    var evidence := !semantic && SomeTestPassed(bugfix);
    var source := Truthy(implementation.failureType);
    var from := Map((failure: string) => "RECOVERED_FROM:" + failure, source);
    var demoted := Map((f: string) => DemoteSourceFlag(f, implementation.failureType), implementation.flags);
    var kept := Map((f: string) => BugfixFlag(f, semantic, evidence), bugfix.flags);
    var all := from + demoted + ["BUGFIX_RECOVERY_APPLIED"] + kept;
    var keep := (f: string) => f != "";
    UniqueHolds(Filter(keep, all), flag);
    FilterKeeps(keep, all, flag);
    assert flag in demoted <==> exists i | 0 <= i < |implementation.flags| ::
        flag == DemoteSourceFlag(implementation.flags[i], implementation.failureType);
    assert flag in kept <==> exists i | 0 <= i < |bugfix.flags| ::
        flag == BugfixFlag(bugfix.flags[i], semantic, evidence);
  }

  const CLAIMS: seq<string> := ["_FIXED", "_PASS", "_PASSED", "_ALLOWLISTED", "_SATISFIED", "_ENFORCED", "_REJECTED",
                                "_COVERED"]

  /** The flag claims a fix, by its end. */
  predicate IsClaim(flag: string) {
    exists c | 0 <= c < |CLAIMS| :: EndsLike(flag, CLAIMS[c])
  }

  lemma ClaimsAreUpper()
    ensures forall c | 0 <= c < |CLAIMS| :: AllUpper(CLAIMS[c])
  {
  }

  lemma ClaimMeans(flag: string)
    ensures IsSemanticFixFlag(flag) <==> IsClaim(flag)
  {
    hide Upper, EndsLike, AllUpper, EndsWith;
    ClaimsAreUpper();
    var suffixes := ["_FIXED", "_PASS", "_PASSED", "_ALLOWLISTED", "_SATISFIED", "_ENFORCED", "_REJECTED", "_COVERED"];
    forall c | 0 <= c < |CLAIMS| ensures EndsWith(Upper(flag), suffixes[c]) <==> EndsLike(flag, CLAIMS[c]) {
      UpperEnd(flag, CLAIMS[c]);
    }
  }

  const HISTORY := "RESULT_STATUS_FAILURE:"

  /** A bugfix that changed no product file and passed no test brings no claim: a flag of it is kept exactly when it
      claims nothing, or the product was changed; a failed status is kept as history. */
  lemma UnbackedClaimIsDropped(implementation: BatchResult, bugfix: BatchResult, flag: string)
    requires implementation.flags == [] && implementation.failureType == None && !SomeTestPassed(bugfix)
    requires flag in bugfix.flags && flag != "" && flag != "BUGFIX_RECOVERY_APPLIED" && !StartsWith(flag, "RECOVERED_")
    ensures flag in Merge(implementation, bugfix).flags <==>
            !StartsWith(flag, HISTORY) && (HasSemanticChange(bugfix) || !IsClaim(flag))
    ensures StartsWith(flag, HISTORY) ==> "RECOVERED_BUGFIX_HISTORY:" + flag in Merge(implementation, bugfix).flags
  {
    hide Merge, HasSemanticChange, SomeTestPassed, IsSemanticFixFlag, IsClaim, IsRuntimeRecoveryEvidenceFlag,
      DemoteSourceFlag;
    MergedFlags(implementation, bugfix, flag);
    MergedFlags(implementation, bugfix, "RECOVERED_BUGFIX_HISTORY:" + flag);
    ClaimMeans(flag);
    forall i | 0 <= i < |bugfix.flags| && StartsWith(bugfix.flags[i], HISTORY)
      ensures flag != "RECOVERED_BUGFIX_HISTORY:" + bugfix.flags[i]
    {
      if flag == "RECOVERED_BUGFIX_HISTORY:" + bugfix.flags[i] { HistoryRecovers(bugfix.flags[i]); }
    }
  }

  lemma HistoryRecovers(rest: string)
    ensures StartsWith("RECOVERED_BUGFIX_HISTORY:" + rest, "RECOVERED_")
  {
    assert "RECOVERED_BUGFIX_HISTORY:" + rest == "RECOVERED_" + ("BUGFIX_HISTORY:" + rest);
  }

  /** The missing check of an implementation is marked as recovered by any bugfix that does not report it itself. */
  lemma RepairedCheckIsMarked(implementation: BatchResult, bugfix: BatchResult)
    requires implementation.flags == [AUTH] && implementation.failureType == None && bugfix.flags == []
    ensures AUTH !in Merge(implementation, bugfix).flags
    ensures "RECOVERED_SOURCE_FLAG:" + AUTH in Merge(implementation, bugfix).flags
  {
    hide Merge, HasSemanticChange, SomeTestPassed, IsActiveFailureFlag;
    MergedFlags(implementation, bugfix, AUTH);
    MergedFlags(implementation, bugfix, "RECOVERED_SOURCE_FLAG:" + AUTH);
    AuthIsActive();
    assert DemoteSourceFlag(implementation.flags[0], implementation.failureType) == "RECOVERED_SOURCE_FLAG:" + AUTH;
    assert AUTH[0] != "BUGFIX_RECOVERY_APPLIED"[0];
  }

  /** A flag in small letters is no failure, unless it is the failure type: the repair leaves it as it is. */
  lemma SmallFlagStays(flag: string, failureType: Option<string>)
    requires forall i | 0 <= i < |flag| :: 'a' <= flag[i] <= 'z' || flag[i] in "_ "
    ensures DemoteSourceFlag(flag, failureType) ==
            if flag != "" && failureType == Some(flag) then "RECOVERED_SOURCE_FLAG:" + flag else flag
  {
    hide OccursAt, StartsWith, HasWord;
    if flag != "" {
      assert flag[0] in "_ " || 'a' <= flag[0] <= 'z';
      NoCapitalStart(flag);
      NoFailureWord(flag);
    }
  }

  lemma NoCapitalStart(flag: string)
    requires flag != "" && !('A' <= flag[0] <= 'Z')
    ensures !StartsWith(flag, "RESULT_STATUS_FAILURE:")
    ensures flag !in ["BUG_FOUND", "INVALID_RESULT", "FAILURE_WITHOUT_FAILURE_TYPE", "COMMIT_CLAIMED_BY_AGENT"]
    ensures !StartsWithAny(flag, ["BLOCKED_PATH:", "PROTECTED_PATH:", "SECRET_PATTERN:", "ARTIFACT_MISSING:",
                                  "CHANGED_FILE_MISSING:", "LOCAL_ONLY_FILE_MISSING:", "WIRING_VERIFIER_FILE_MISSING:"])
  {
    assert "RESULT_STATUS_FAILURE:"[0] == 'R';
  }

  lemma NoFailureWord(flag: string)
    requires forall i | 0 <= i < |flag| :: !('A' <= flag[i] <= 'Z')
    ensures !HasWord(flag, ["FAILURE", "FAILED", "REJECTED", "MISSING", "GAP", "INVALID", "BLOCKING", "FINDINGS"])
  {
    hide OccursAt;
    var failures := ["FAILURE", "FAILED", "REJECTED", "MISSING", "GAP", "INVALID", "BLOCKING", "FINDINGS"];
    assert forall w | 0 <= w < 8 :: |failures[w]| > 0 && 'A' <= failures[w][0] <= 'Z';
    forall w, i: nat | 0 <= w < 8 && i <= |flag| ensures !WordAt(flag, failures[w], i) {
      StrangeAt(flag, failures[w], 0, i);
    }
  }

  lemma AuthIsActive()
    ensures IsActiveFailureFlag(AUTH, None)
  {
    hide WordAt, HasWord, StartsWith;
    var failures := ["FAILURE", "FAILED", "REJECTED", "MISSING", "GAP", "INVALID", "BLOCKING", "FINDINGS"];
    assert WordAt(AUTH, failures[3], 11) by { MissingStands(); }
    assert HasWord(AUTH, failures) by { OneWord(AUTH, failures, 3, 11); }
    NoFixInAuth();
  }

  lemma MissingStands()
    ensures WordAt(AUTH, "MISSING", 11) && |AUTH| == 18
  {
    assert AUTH[11..18] == "MISSING";
  }

  lemma OneWord(flag: string, words: seq<string>, w: nat, i: nat)
    requires w < |words| && i <= |flag| && WordAt(flag, words[w], i)
    ensures HasWord(flag, words)
  {
  }

  lemma NoFixInAuth()
    ensures !HasWord(AUTH, ["FIXED", "PASS", "PASSED", "NORMALIZED", "RECORDED", "NOT_APPLICABLE"])
  {
    var fixes := ["FIXED", "PASS", "PASSED", "NORMALIZED", "RECORDED", "NOT_APPLICABLE"];
    var strange := [0, 0, 0, 1, 0, 1];
    assert forall w | 0 <= w < 6 :: strange[w] < |fixes[w]| && fixes[w][strange[w]] in ['F', 'P', 'O', 'R'];
    AuthLetters();
    forall w, i: nat | 0 <= w < |fixes| && i <= |AUTH| ensures !WordAt(AUTH, fixes[w], i) {
      StrangeAt(AUTH, fixes[w], strange[w], i);
    }
  }

  lemma AuthLetters()
    ensures forall k | 0 <= k < |AUTH| :: AUTH[k] !in ['F', 'P', 'O', 'R']
  {
  }

  // ---- The business-logic test ----

  function TextOf(result: BatchResult): string { result.businessLogicTest.Or("") }

  /** The text is one of the two, never lost, and the bugfix's own when it is at least as long and the product was
      changed; without a change of the product it stays. */
  lemma TestTextIsKept(implementation: BatchResult, bugfix: BatchResult)
    ensures var a, b, m := TextOf(implementation), TextOf(bugfix), TextOf(Merge(implementation, bugfix));
            && (!HasSemanticChange(bugfix) ==> m == a)
            && (HasSemanticChange(bugfix) ==> (m == a || m == b) && (m == "" <==> a == "" && b == "")
                                              && (b != "" && |b| >= |a| ==> m == b))
  {
    hide MergeFilesChanged, MergeTests, MergeWiring, MergeArtifacts, HasSemanticChange, CanReplaceRedEvidence,
      RecoveredFlags, IncludesAny, Lower;
  }
}
