/** Why an import closes a finding that no flag reports as fixed: told on the characters of file paths and commands
    (tools/klevar-yolo-runtime/src/runtime-batch-state.ts:249-368). */
module ImportClosure {
  import opened Wrappers
  import opened Sequences
  import opened Text
  import opened FlagClassification
  import opened OrdinaryFlags
  import opened FindingEvidence
  import opened FindingState
  import opened FindingProperties
  import opened FixEvidence
  import opened RuntimeTypes
  import opened PathPolicy

  // ---- Files of the runtime ----

  const RUNTIME_DIRECTORIES: seq<string> := [".yolo/batch-results/", ".yolo/gates/", ".yolo/runtime/", ".yolo/logs/",
                                             ".yolo/events/"]

  /** The same letter in either case; a backslash separates like a slash. */
  predicate SamePathChar(a: char, b: char) {
    SameLetter(a, b) || (a == '\\' && b == '/')
  }

  /** The directory stands at position `i` of the path. */
  predicate DirectoryAt(file: string, directory: string, i: nat) {
    && i + |directory| <= |file|
    && forall k | 0 <= k < |directory| :: SamePathChar(file[i + k], directory[k])
  }

  /** Where a path starts after a leading `./`. */
  function PathStart(file: string): (i: nat)
    ensures i <= |file|
  {
    if |file| >= 2 && file[0] == '.' && (file[1] == '/' || file[1] == '\\') then 2 else 0
  }

  /** The path is inside one of the runtime's directories. */
  predicate IsRuntimeFile(file: string) {
    exists d | 0 <= d < |RUNTIME_DIRECTORIES| :: DirectoryAt(file, RUNTIME_DIRECTORIES[d], PathStart(file))
  }

  /** Every path of the list is. */
  predicate OnlyRuntimeFiles(files: seq<string>) {
    forall i | 0 <= i < |files| :: IsRuntimeFile(files[i])
  }

  lemma PlainPath(file: string)
    ensures var normalized := WithoutDot(ReplaceChar(file, '\\', '/'));
            && |normalized| == |file| - PathStart(file)
            && forall k | 0 <= k < |normalized| ::
                 var c := file[PathStart(file) + k]; normalized[k] == if c == '\\' then '/' else c
  {
    var slashed := ReplaceChar(file, '\\', '/');
    if |file| >= 2 && PathStart(file) == 2 {
      assert slashed[..2] == "./";
    }
    if "./" <= slashed {
      assert slashed[0] == '.' && slashed[1] == '/';
    }
  }

  lemma UpperPathChar(c: char, d: char)
    requires d != '\\'
    ensures UpperChar(if c == '\\' then '/' else c) == UpperChar(d) <==> SamePathChar(c, d)
  {
  }

  lemma DirectoryStarts(file: string, directory: string, upper: string)
    requires upper == Upper(directory) && '\\' !in directory
    ensures StartsWith(Upper(WithoutDot(ReplaceChar(file, '\\', '/'))), upper)
            <==> DirectoryAt(file, directory, PathStart(file))
  {
    hide UpperChar, SamePathChar;
    PlainPath(file);
    var normalized, i := WithoutDot(ReplaceChar(file, '\\', '/')), PathStart(file);
    hide WithoutDot, ReplaceChar;
    var text := Upper(normalized);
    forall k | 0 <= k < |directory| && k < |normalized|
      ensures text[k] == upper[k] <==> SamePathChar(file[i + k], directory[k])
    {
      UpperPathChar(file[i + k], directory[k]);
    }
    if upper <= text {
      assert forall k | 0 <= k < |upper| :: text[k] == upper[k];
    }
    if DirectoryAt(file, directory, i) {
      assert text[..|upper|] == upper;
    }
  }

  /** Exactly these paths are the runtime's own. */
  lemma RuntimePathMeans(file: string)
    ensures IsRuntimeOnlyArtifactPath(file) <==> IsRuntimeFile(file)
  {
    hide Upper, WithoutDot, ReplaceChar, StartsWith, DirectoryAt, PathStart;
    var uppers := [".YOLO/BATCH-RESULTS/", ".YOLO/GATES/", ".YOLO/RUNTIME/", ".YOLO/LOGS/", ".YOLO/EVENTS/"];
    var text := Upper(WithoutDot(ReplaceChar(file, '\\', '/')));
    UpperDirectories(uppers);
    forall d | 0 <= d < |uppers|
      ensures StartsWith(text, uppers[d]) <==> DirectoryAt(file, RUNTIME_DIRECTORIES[d], PathStart(file))
    {
      DirectoryStarts(file, RUNTIME_DIRECTORIES[d], uppers[d]);
    }
  }

  lemma UpperDirectories(uppers: seq<string>)
    requires uppers == [".YOLO/BATCH-RESULTS/", ".YOLO/GATES/", ".YOLO/RUNTIME/", ".YOLO/LOGS/", ".YOLO/EVENTS/"]
    ensures |uppers| == |RUNTIME_DIRECTORIES|
    ensures forall d | 0 <= d < |uppers| ::
              uppers[d] == Upper(RUNTIME_DIRECTORIES[d]) && '\\' !in RUNTIME_DIRECTORIES[d]
  {
    hide UpperChar;
    assert forall d | 0 <= d < |uppers| :: |uppers[d]| == |RUNTIME_DIRECTORIES[d]|;
    forall d | 0 <= d < |uppers| ensures uppers[d] == Upper(RUNTIME_DIRECTORIES[d]) {
      forall k | 0 <= k < |uppers[d]| ensures uppers[d][k] == UpperChar(RUNTIME_DIRECTORIES[d][k]) {
        DirectoryChar(uppers, d, k);
      }
      SameChars(uppers[d], Upper(RUNTIME_DIRECTORIES[d]));
    }
  }

  lemma DirectoryChar(uppers: seq<string>, d: nat, k: nat)
    requires uppers == [".YOLO/BATCH-RESULTS/", ".YOLO/GATES/", ".YOLO/RUNTIME/", ".YOLO/LOGS/", ".YOLO/EVENTS/"]
    requires d < |uppers| && k < |uppers[d]|
    ensures k < |RUNTIME_DIRECTORIES[d]| && uppers[d][k] == UpperChar(RUNTIME_DIRECTORIES[d][k])
  {
  }

  // ---- Passing commands ----

  predicate HasPassed(evidence: Option<TestEvidence>) {
    && evidence.Some? && evidence.value.exitCode == 0
    && exists k | 0 <= k < |evidence.value.command| :: !IsSpace(evidence.value.command[k])
  }

  /** Some phase of the tests ran a command, not blank, that exited with 0. */
  predicate SomeTestPassed(result: BatchResult) {
    && result.tests.Some?
    && (|| HasPassed(result.tests.value.red) || HasPassed(result.tests.value.green)
        || HasPassed(result.tests.value.regression) || HasPassed(result.tests.value.e2e))
  }

  lemma PassingMeans(result: BatchResult)
    ensures HasPassingCommandEvidence(result) <==> SomeTestPassed(result)
  {
    hide Trim;
    var values := TestValues(result);
    forall i | 0 <= i < |values|
      ensures values[i].exitCode == 0 && Trim(values[i].command) != "" <==> HasPassed(Some(values[i]))
    {
      BlankTrims(values[i].command);
    }
    PhasesListed(result);
  }

  lemma PhasesListed(result: BatchResult)
    ensures (exists i | 0 <= i < |TestValues(result)| :: HasPassed(Some(TestValues(result)[i])))
            <==> SomeTestPassed(result)
  {
    hide HasPassed;
    var tests := result.tests.Or(NO_TESTS);
    var values := TestValues(result);
    forall e: Option<TestEvidence> ensures HasPassed(e) ==> e.Some? { NoneHasNotPassed(e); }
    InPresent(tests);
  }

  lemma NoneHasNotPassed(e: Option<TestEvidence>)
    ensures HasPassed(e) ==> e.Some?
  {
  }

  lemma InPresent(tests: Tests)
    ensures var values := Present(tests.red) + Present(tests.green) + Present(tests.regression) + Present(tests.e2e);
            forall v :: v in values <==> Some(v) in [tests.red, tests.green, tests.regression, tests.e2e]
  {
  }

  // ---- Imports that report no related fix ----

  /** The result, as it is read, reports the finding itself. */
  predicate Reports(result: BatchResult, id: string) {
    IsBlockingFlag(id) && ((result.failureType == Some(id) && id != "") || id in result.flags)
  }

  /** A bugfix that changed nothing but files of the runtime, some, and whose test passed. */
  predicate IsRuntimeRepair(result: BatchResult, source: string) {
    && source == "bugfix" && result.filesChanged != [] && OnlyRuntimeFiles(result.filesChanged)
    && SomeTestPassed(result)
  }

  /** A successful bugfix without a blocking flag, which changed a file of the product or whose test passed. */
  predicate IsTrustedRepair(result: BatchResult, source: string) {
    && (source == "bugfix" || source == "gate") && result.status == "SUCCESS"
    && (forall i | 0 <= i < |result.flags| :: !IsBlockingFlag(result.flags[i]))
    && (!OnlyRuntimeFiles(result.filesChanged) || SomeTestPassed(result))
  }

  /** A successful validation whose test passed. */
  predicate IsPassedValidation(result: BatchResult, source: string) {
    source == "validate" && result.status == "SUCCESS" && SomeTestPassed(result)
  }

  /** What becomes of an open finding, apart from the aggregate, when no flag reports a fix that is related to it: a
      runtime repair makes the runtime's own findings stale, a passed validation fixes the findings it does not report
      that are not the product's, a trusted repair makes findings on tooling stale, and nothing else closes it. */
  lemma UnflaggedImportDecides(state: BatchState, batch: nat, source: string, raw: BatchResult, id: string)
    requires UniqueIds(state.findings) && id != "" && id != AGGREGATE && !NeverOpen(id)
    requires Get(state.findings, id).Some? && Get(state.findings, id).value.status.Open?
    requires AllUnrelated(raw.flags, id)
    ensures var result := Canonicalize(batch, raw, state.findings);
            var after := Get(Import(state, batch, source, raw).findings, id);
            var joined := Get(Accumulate(state.findings + FindingsFromResult(source, result)), id);
            && after.Some? && joined.Some?
            && after.value.status ==
               if IsRuntimeRepair(result, source) && IsRuntimeOwnedFinding(id) then Stale
               else if IsPassedValidation(result, source) && !Reports(result, id) && !IsProductOwnedFinding(id) then
                 Fixed
               else if IsTrustedRepair(result, source) && !(id in result.flags && IsBlockingFlag(id))
                 && IsRuntimeSupportOrToolingFinding(joined.value) then Stale
               else Open
  {
    hide NeverOpen, AllUnrelated, CanonicalFlags, HasFixEvidenceFromFlags, IsRuntimeOwnedFinding, IsBlockingFlag,
      IsProductOwnedFinding, IsRuntimeSupportOrToolingFinding, HasPassingCommandEvidence, SomeTestPassed,
      OnlyRuntimeFiles, ChangesProductFiles, Import, Accumulate, FindingsFromResult, FindingIds, Get, HasOpenWiring,
      CloseFindingsOnSuccessfulValidation, Reconciled;
    var result := Canonicalize(batch, raw, state.findings);
    ImportStays(state, batch, source, raw, id);
    ImportDecides(state, batch, source, raw, id);
    JoinedStatus(state.findings, result, source, id);
    CanonicalIsUnrelated(raw.flags, state.findings, id);
    UnrelatedIsNoEvidence(result.flags, id);
    PassingMeans(result);
    ProductFilesMean(result);
  }

  lemma ImportStays(state: BatchState, batch: nat, source: string, raw: BatchResult, id: string)
    requires UniqueIds(state.findings) && Get(state.findings, id).Some?
    ensures Get(Import(state, batch, source, raw).findings, id).Some?
  {
    hide Canonicalize, ImportedFindings, Accumulate, Processed, FindingIds, FindingsFromResult, ResultClosureCause;
    var result := Canonicalize(batch, raw, state.findings);
    var joined := Accumulate(state.findings + FindingsFromResult(source, result));
    ImportedIsProcessed(state.findings, result, source);
    JoinedStatus(state.findings, result, source, id);
    PointwiseGet(joined, ImportedFindings(state.findings, result, source), id);
  }

  lemma ProductFilesMean(result: BatchResult)
    ensures ChangesProductFiles(result) <==> !OnlyRuntimeFiles(result.filesChanged)
  {
    hide IsRuntimeOnlyArtifactPath, IsRuntimeFile;
    forall i | 0 <= i < |result.filesChanged|
      ensures IsRuntimeOnlyArtifactPath(result.filesChanged[i]) <==> IsRuntimeFile(result.filesChanged[i])
    {
      RuntimePathMeans(result.filesChanged[i]);
    }
  }

  // ---- Placeholders ----

  const PLACEHOLDERS: seq<string> := ["UNKNOWN", "N/A", "NA", "NOT APPLICABLE", "NONE", "MANUAL", "TBD", "TODO", "-"]

  /** One of these words in letters of either case, with white space around it. */
  predicate IsPlaceholder(value: string) {
    exists w | 0 <= w < |PLACEHOLDERS| :: IsAround(value, PLACEHOLDERS[w])
  }

  lemma PlaceholderShape()
    ensures forall w | 0 <= w < |PLACEHOLDERS| ::
              var word := PLACEHOLDERS[w];
              AllUpper(word) && word != "" && !IsSpace(word[0]) && !IsSpace(word[|word| - 1])
  {
  }

  /** Exactly these values are no files, flags or artifacts. */
  lemma PlaceholderMeans(value: string)
    ensures InvalidPlaceholder(value) <==> IsPlaceholder(value)
  {
    hide Trim, Upper, IsAround, IsSpace, AllUpper;
    PlaceholderShape();
    forall w | 0 <= w < |PLACEHOLDERS|
      ensures Upper(Trim(value)) == PLACEHOLDERS[w] <==> IsAround(value, PLACEHOLDERS[w])
    {
      AroundMeans(value, PLACEHOLDERS[w]);
    }
  }

  /** A result is read without the placeholders among its files, and as one of the batch when it names none. */
  lemma CanonicalFiles(batch: nat, raw: BatchResult, findings: seq<Finding>, file: string)
    ensures Canonicalize(batch, raw, findings).batch == (if raw.batch != 0 then raw.batch else batch)
    ensures file in Canonicalize(batch, raw, findings).filesChanged <==>
            file in raw.filesChanged && !IsPlaceholder(file)
  {
    hide InvalidPlaceholder, IsPlaceholder, CanonicalFlags;
    var keep := (f: string) => !InvalidPlaceholder(f);
    UniqueHolds(Filter(keep, raw.filesChanged), file);
    FilterKeeps(keep, raw.filesChanged, file);
    PlaceholderMeans(file);
  }

  // ---- How flags are read ----

  /** The state holds the finding as fixed, stale or accepted. */
  predicate HoldsSettled(findings: seq<Finding>, id: string) {
    exists i | 0 <= i < |findings| ::
      findings[i].id == id && findings[i].status in [Fixed, Stale, Accepted]
  }

  /** Some flag reports as fixed what the text names. */
  predicate ReportsFixed(flags: seq<string>, text: string) {
    exists i | 0 <= i < |flags| :: FixedFindingPrefix(flags[i]) != "" && FixedFindingPrefix(flags[i]) == text
  }

  /** Some flag reports something as fixed that is related to the text. */
  predicate ReportsRelatedFix(flags: seq<string>, text: string) {
    exists i | 0 <= i < |flags| :: |FixedFindingPrefix(flags[i])| >= 8 && Related(text, FixedFindingPrefix(flags[i]))
  }

  /** A flag as it is read: marked as recovered when its finding is settled or reported as fixed by the same result. */
  function ReadFlag(flag: string, flags: seq<string>, findings: seq<Finding>): string {
    if HoldsSettled(findings, flag) || ReportsFixed(flags, flag) then "RECOVERED_SOURCE_FLAG:" + flag else flag
  }

  /** Exactly these flags of a result are read: no placeholders, and nothing that blocks although the same result
      reports a related fix. */
  lemma CanonicalFlagsMean(flags: seq<string>, findings: seq<Finding>, flag: string)
    ensures flag in CanonicalFlags(flags, findings) <==>
            && (exists i | 0 <= i < |flags| :: !IsPlaceholder(flags[i]) && flag == ReadFlag(flags[i], flags, findings))
            && !(IsBlockingFlag(flag) && ReportsRelatedFix(flags, flag))
  {
    hide IsPlaceholder, InvalidPlaceholder, IsBlockingFlag, FixedFindingPrefix, Related, FindingMatchesFixedPrefix,
      ReportsRelatedFix, IsStaleBlockingFlag, FixedPrefixes, CanonicalFlag, ReadFlag;
    var fixed := FixedPrefixes(flags);
    var keep, live := (f: string) => !InvalidPlaceholder(f), (f: string) => !IsStaleBlockingFlag(f, fixed);
    var kept := Filter(keep, flags);
    var marked := Map((f: string) => CanonicalFlag(f, findings, fixed), kept);
    FilterKeeps(live, marked, flag);
    StaleMeans(flag, flags);
    if flag in marked {
      var k :| 0 <= k < |marked| && marked[k] == flag;
      FilterKeeps(keep, flags, kept[k]);
      var i :| 0 <= i < |flags| && flags[i] == kept[k];
      PlaceholderMeans(flags[i]);
      ReadMeans(flags[i], flags, findings);
    }
    if i :| 0 <= i < |flags| && !IsPlaceholder(flags[i]) && flag == ReadFlag(flags[i], flags, findings) {
      PlaceholderMeans(flags[i]);
      ReadMeans(flags[i], flags, findings);
      FilterKeeps(keep, flags, flags[i]);
      var k :| 0 <= k < |kept| && kept[k] == flags[i];
      assert marked[k] == flag;
    }
  }

  lemma ReadMeans(flag: string, flags: seq<string>, findings: seq<Finding>)
    ensures CanonicalFlag(flag, findings, FixedPrefixes(flags)) == ReadFlag(flag, flags, findings)
  {
    hide FixedFindingPrefix;
  }

  lemma StaleMeans(flag: string, flags: seq<string>)
    ensures IsStaleBlockingFlag(flag, FixedPrefixes(flags)) <==> IsBlockingFlag(flag) && ReportsRelatedFix(flags, flag)
  {
    hide FixedFindingPrefix, Related, FindingMatchesFixedPrefix, FlagCode, IsRuntimeRecoveryMetaFlag, IsWarningFlag,
      IsPositiveFlag, HasBlockingWord;
    if f :| f in FixedPrefixes(flags) && FindingMatchesFixedPrefix(flag, f) {
      var i :| 0 <= i < |flags| && FixedFindingPrefix(flags[i]) == f;
      MatchMeans(flag, f);
      assert ReportsRelatedFix(flags, flag);
    }
    if ReportsRelatedFix(flags, flag) {
      var i :| 0 <= i < |flags| && |FixedFindingPrefix(flags[i])| >= 8 && Related(flag, FixedFindingPrefix(flags[i]));
      MatchMeans(flag, FixedFindingPrefix(flags[i]));
      assert FixedFindingPrefix(flags[i]) in FixedPrefixes(flags);
    }
  }

  // ---- What an import opens ----

  /** A finding read from a result keeps as evidence exactly what the result says that names it. */
  lemma EvidenceMeans(source: string, result: BatchResult, i: nat, value: string)
    requires i < |FindingsFromResult(source, result)|
    ensures var f := FindingsFromResult(source, result)[i];
            && f.status.Open? && f.source == source && f.id in FindingIds(result)
            && (value in f.evidence <==>
                value != "" && Includes(value, f.id)
                && (value in result.flags || Some(value) in [result.failureType, result.businessLogicTest]))
  {
    hide Includes, FindingIds;
    var id := FindingIds(result)[i];
    FilterKeeps((value: string) => value != "" && Includes(value, id),
                Truthy(result.failureType) + result.flags + Truthy(result.businessLogicTest), value);
  }

  // ---- Bugfixes that prove nothing ----

  /** A bugfix that changed no file of the product, and whose test did not pass or that brings no positive flag, closes
      no product-owned finding, whatever it reports as fixed. */
  lemma IdleBugfixClosesNothing(state: BatchState, batch: nat, raw: BatchResult, id: string)
    requires UniqueIds(state.findings) && IsProductOwnedFinding(id) && !NeverOpen(id)
    requires Get(state.findings, id).Some? && Get(state.findings, id).value.status.Open?
    requires var result := Canonicalize(batch, raw, state.findings);
             && OnlyRuntimeFiles(result.filesChanged)
             && (!SomeTestPassed(result) || forall i | 0 <= i < |result.flags| :: !IsPositiveFlag(result.flags[i]))
    ensures var after := Get(Import(state, batch, "bugfix", raw).findings, id);
            after.Some? && after.value.status.Open?
  {
    hide Canonicalize, Import, Get, IsProductOwnedFinding, NeverOpen, OnlyRuntimeFiles, SomeTestPassed, IsPositiveFlag,
      ChangesProductFiles, HasPassingCommandEvidence, HasFixEvidenceFromFlags, FindingIds;
    var result := Canonicalize(batch, raw, state.findings);
    ProductOwnedAfterImport(state, batch, "bugfix", raw, id);
    PassingMeans(result);
    ProductFilesMean(result);
  }

  /** The aggregate of unwired workers is closed by any import after which no other wiring finding is open, */
  lemma LastWiringClosesAggregate(state: BatchState, batch: nat, source: string, raw: BatchResult)
    requires UniqueIds(state.findings) && raw.flags == [] && raw.failureType == None
    requires Get(state.findings, AGGREGATE).Some? && Get(state.findings, AGGREGATE).value.status.Open?
    requires forall i | 0 <= i < |state.findings| && state.findings[i].status.Open? ::
               state.findings[i].id == AGGREGATE || !IsOpenWiringFindingExceptAggregate(state.findings[i].id)
    ensures var after := Get(Import(state, batch, source, raw).findings, AGGREGATE);
            after.Some? && !after.value.status.Open?
  {
    hide Import, Get, Accumulate, CloseFindingsOnSuccessfulValidation, Reconciled, IsOpenWiringFindingExceptAggregate,
      ClosedByFlags, Quarantines, IsRuntimeOwnedFinding, ClosedByValidation, ClosedByRebuild, NeverOpen, UniqueIds;
    var result := Canonicalize(batch, raw, state.findings);
    NothingRead(batch, raw, state.findings);
    ImportStays(state, batch, source, raw, AGGREGATE);
    ImportDecides(state, batch, source, raw, AGGREGATE);
    JoinedStatus(state.findings, result, source, AGGREGATE);
    var joined := Accumulate(state.findings + FindingsFromResult(source, result));
    var validated := CloseFindingsOnSuccessfulValidation(Map((f: Finding) => Reconciled(f, result, source), joined),
                                                         result, source);
    NoOpenWiring(state.findings, result, source, joined, validated);
  }

  /** and stays open through an implementation without flags while one is. */
  lemma OpenWiringKeepsAggregate(state: BatchState, batch: nat, raw: BatchResult, id: string)
    requires UniqueIds(state.findings) && raw.flags == [] && raw.failureType == None
    requires Get(state.findings, AGGREGATE).Some? && Get(state.findings, AGGREGATE).value.status.Open?
    requires Get(state.findings, id).Some? && Get(state.findings, id).value.status.Open?
    requires IsOpenWiringFindingExceptAggregate(id) && id != ""
    ensures var after := Get(Import(state, batch, "implement", raw).findings, AGGREGATE);
            after.Some? && after.value.status.Open?
  {
    hide Import, Get, Accumulate, CloseFindingsOnSuccessfulValidation, Reconciled, IsOpenWiringFindingExceptAggregate,
      IsRuntimeOwnedFinding, NeverOpen, UniqueIds, HasFixEvidenceFromFlags, HasOpenWiring, IsBlockingFlag,
      IsRuntimeSupportOrToolingFinding, FindingsFromResult, FindingIds, IsActive, IsProductOwnedFinding,
      HasPassingCommandEvidence, ChangesProductFiles;
    var result := Canonicalize(batch, raw, state.findings);
    assert result.flags == [] by { assert CanonicalFlags([], state.findings) == []; }
    NothingRead(batch, raw, state.findings);
    ImportStays(state, batch, "implement", raw, AGGREGATE);
    ImportDecides(state, batch, "implement", raw, AGGREGATE);
    JoinedStatus(state.findings, result, "implement", AGGREGATE);
    UnrelatedIsNoEvidence(result.flags, AGGREGATE);
    var joined := Accumulate(state.findings + FindingsFromResult("implement", result));
    var validated := CloseFindingsOnSuccessfulValidation(
      Map((f: Finding) => Reconciled(f, result, "implement"), joined), result, "implement");
    WiringIsLeft(state.findings, result, id, joined, validated);
    AggregateMayBeOpen();
  }

  lemma WiringIsLeft(findings: seq<Finding>, result: BatchResult, id: string, joined: seq<Finding>,
                     validated: seq<Finding>)
    requires UniqueIds(findings) && FindingIds(result) == [] && result.flags == [] && id != ""
    requires Get(findings, id).Some? && Get(findings, id).value.status.Open? && IsOpenWiringFindingExceptAggregate(id)
    requires joined == Accumulate(findings + FindingsFromResult("implement", result))
    requires validated == CloseFindingsOnSuccessfulValidation(
                            Map((f: Finding) => Reconciled(f, result, "implement"), joined), result, "implement")
    ensures HasOpenWiring(validated)
  {
    hide Get, Accumulate, Reconciled, IsOpenWiringFindingExceptAggregate, FindingIds, HasFixEvidenceFromFlags,
      IsRuntimeOwnedFinding;
    JoinedStatus(findings, result, "implement", id);
    GetIsFound(joined, id);
    var k := Find(joined, id);
    ReconciledIsDecided(joined[k], result, "implement");
    UnrelatedIsNoEvidence(result.flags, id);
    assert validated[k] == Reconciled(joined[k], result, "implement");
  }

  lemma AggregateMayBeOpen()
    ensures !NeverOpen(AGGREGATE) && AGGREGATE != ""
  {
    hide FlagCode, Upper, EndsWith, EndsWithAny, IsTemplateManagedMetadataDetail, IsNegativeRejection, IsPositiveCode,
      IsEntrypointEvidence, Plain, StartsWith;
    AggregatePlain();
    PlainCode(AGGREGATE);
    AggregateEnds();
    NoPositiveCode(AGGREGATE);
    assert !StartsWith(AGGREGATE, "RECOVERED_") by { NotRecovered(AGGREGATE); }
  }

  lemma AggregatePlain()
    ensures Plain(AGGREGATE) && Upper(AGGREGATE) == AGGREGATE
  {
    assert AllUpper(AGGREGATE);
    UpperAlready(AGGREGATE);
  }

  lemma NoPositiveCode(code: string)
    requires |code| == 26 && code[0] == 'U' && Upper(code) == code
    ensures !IsPositiveCode(code) && !IsEntrypointEvidence(code) && code != "CHANGED_FILE_MISSING_METADATA_REMOVED"
  {
    hide Upper;
    assert "ENTRYPOINT_VERIFIED_"[0] == 'E' && "ENTRYPOINT_WIRED_"[0] == 'E';
  }

  /** It ends otherwise than every positive suffix. */
  lemma AggregateEnds()
    ensures |AGGREGATE| == 26 && AGGREGATE[0] == 'U' && !EndsWith(AGGREGATE, "_REJECTED")
    ensures !EndsWithAny(AGGREGATE, ["_PASS", "_PASSED", "_FIXED", "_RECOVERED", "_RESOLVED", "_WIRED", "_PROPAGATED",
                                     "_SATISFIED", "_COVERED", "_ENFORCED", "_VERIFIED", "_ALLOWLISTED", "_NORMALIZED",
                                     "_RECORDED", "_EVIDENCE_RECORDED", "_REVERTED", "_PRESERVED", "_NOT_APPLICABLE",
                                     "_NO_LEAKS", "_UNTOUCHED", "_NO_FINDINGS", "_NO_BLOCKING_FINDINGS",
                                     "_RECORDED_AS_MANUAL_NOT_FINDINGS"])
  {
    hide EndsWith;
    var suffixes := ["_PASS", "_PASSED", "_FIXED", "_RECOVERED", "_RESOLVED", "_WIRED", "_PROPAGATED", "_SATISFIED",
                     "_COVERED", "_ENFORCED", "_VERIFIED", "_ALLOWLISTED", "_NORMALIZED", "_RECORDED",
                     "_EVIDENCE_RECORDED", "_REVERTED", "_PRESERVED", "_NOT_APPLICABLE", "_NO_LEAKS", "_UNTOUCHED",
                     "_NO_FINDINGS", "_NO_BLOCKING_FINDINGS", "_RECORDED_AS_MANUAL_NOT_FINDINGS"];
    assert AGGREGATE[24] == 'T' && AGGREGATE[25] == 'S';
    forall i | 0 <= i < |suffixes| ensures !EndsWith(AGGREGATE, suffixes[i]) {
      assert |suffixes[i]| >= 4 && (suffixes[i][|suffixes[i]| - 1] != 'S' || suffixes[i][|suffixes[i]| - 2] != 'T');
      if EndsWith(AGGREGATE, suffixes[i]) { LastFour(AGGREGATE, suffixes[i]); }
    }
    if EndsWith(AGGREGATE, "_REJECTED") { LastFour(AGGREGATE, "_REJECTED"); }
  }

  lemma NothingRead(batch: nat, raw: BatchResult, findings: seq<Finding>)
    requires raw.flags == [] && raw.failureType == None
    ensures FindingIds(Canonicalize(batch, raw, findings)) == []
  {
    assert CanonicalFlags([], findings) == [];
  }

  lemma NoOpenWiring(findings: seq<Finding>, result: BatchResult, source: string, joined: seq<Finding>,
                     validated: seq<Finding>)
    requires UniqueIds(findings) && FindingIds(result) == []
    requires forall i | 0 <= i < |findings| && findings[i].status.Open? ::
               findings[i].id == AGGREGATE || !IsOpenWiringFindingExceptAggregate(findings[i].id)
    requires joined == Accumulate(findings + FindingsFromResult(source, result))
    requires validated == CloseFindingsOnSuccessfulValidation(
                            Map((f: Finding) => Reconciled(f, result, source), joined), result, source)
    ensures !HasOpenWiring(validated)
  {
    hide Get, Accumulate, Reconciled, UpperCode, IsActive, IsProductOwnedFinding, HasPassingCommandEvidence, FindingIds;
    Accumulated(findings + FindingsFromResult(source, result), "");
    forall i | 0 <= i < |validated| && validated[i].status.Open?
      ensures !IsOpenWiringFindingExceptAggregate(validated[i].id)
    {
      var f := joined[i];
      ReconciledIsDecided(f, result, source);
      JoinedStatus(findings, result, source, f.id);
      GetAt(joined, i);
      assert f.status.Open?;
      var k := Find(findings, f.id);
      GetIsFound(findings, f.id);
      AggregateIsNoWiring();
    }
  }

  lemma GetIsFound(findings: seq<Finding>, id: string)
    requires Get(findings, id).Some?
    ensures Find(findings, id) < |findings| && findings[Find(findings, id)] == Get(findings, id).value
  {
  }

  lemma AggregateIsNoWiring()
    ensures !IsOpenWiringFindingExceptAggregate(AGGREGATE)
  {
    hide FlagCode, Upper;
    assert AllUpper(AGGREGATE);
    UpperAlready(AGGREGATE);
    assert Plain(AGGREGATE);
    PlainCode(AGGREGATE);
  }

  // ---- Findings of the runtime, of the tooling and of neither ----

  const CONTRACT := "CONTRACT_FAILURE"
  const GATES := "RUNTIME_GATES_FAILED"
  const TESTS := "UNIT_TESTS_FAILED"

  /** A plain code that no list of flags knows may be open, and is its own code. */
  lemma PlainIsOpenable(flag: string)
    requires Plain(flag) && Unlisted(flag) && flag[0] != 'Q' && !EndsWith(flag, "_REJECTED")
    ensures !NeverOpen(flag) && UpperCode(flag) == flag
  {
    hide FlagCode, Unlisted, IsPositiveFlag, Upper, Trim, IsWarningFlag, IsRuntimeRecoveryMetaFlag, StartsWith,
      EndsWith;
    PlainFlagCode(flag);
    UnlistedBlocks(flag, "");
    assert Upper(flag) == flag by { PlainUpper(flag); }
    assert !StartsWith(flag, "RECOVERED_") by { NotRecovered(flag); }
  }

  lemma NotRecovered(flag: string)
    requires Plain(flag)
    ensures !StartsWith(flag, "RECOVERED_")
  {
    hide Upper;
    assert "RECOVERED_"[0] == 'R' && "RECOVERED_"[1] == 'E';
  }

  lemma ContractIsPlain()
    ensures Plain(CONTRACT) && Unlisted(CONTRACT) && CONTRACT[0] == 'C' && !EndsWith(CONTRACT, "_REJECTED")
  {
    NoNonBlocking(CONTRACT);
    if EndsWith(CONTRACT, "_REJECTED") { LastFour(CONTRACT, "_REJECTED"); }
  }

  lemma GatesAreUpper()
    ensures Upper(GATES) == GATES
  {
    assert AllUpper(GATES);
    UpperAlready(GATES);
  }

  lemma TestsAreUpper()
    ensures Upper(TESTS) == TESTS
  {
    assert AllUpper(TESTS);
    UpperAlready(TESTS);
  }

  lemma LettersAreNoSpace()
    ensures forall c | 'A' <= c <= 'Z' :: !IsSpace(c)
  {
  }

  lemma GatesArePlain()
    ensures Plain(GATES) && Unlisted(GATES) && GATES[0] == 'R' && GATES[1] == 'U' && !EndsWith(GATES, "_REJECTED")
  {
    hide IsSpace;
    assert Upper(GATES) == GATES by { GatesAreUpper(); }
    NoNonBlocking(GATES);
    assert !IsSpace('R') && !IsSpace('D') by { LettersAreNoSpace(); }
    if EndsWith(GATES, "_REJECTED") { LastFour(GATES, "_REJECTED"); }
  }

  lemma TestsArePlainToo()
    ensures Plain(TESTS) && Unlisted(TESTS) && TESTS[0] == 'U' && |TESTS| == 17 && !EndsWith(TESTS, "_REJECTED")
  {
    TestsAreUpper();
    NoNonBlocking(TESTS);
    if EndsWith(TESTS, "_REJECTED") { LastFour(TESTS, "_REJECTED"); }
  }

  /** Neither starts as a product-owned code does. */
  lemma NotOfProduct(id: string)
    requires |UpperCode(id)| >= 3 && (UpperCode(id)[0] == 'C' || UpperCode(id)[0] == 'R' || UpperCode(id)[0] == 'U')
    ensures !IsProductOwnedFinding(id)
  {
    hide UpperCode;
    if IsProductOwnedFinding(id) { ProductCodesStartSo(UpperCode(id)); }
  }

  lemma ContractIsOwned()
    ensures IsRuntimeOwnedFinding(CONTRACT) && !NeverOpen(CONTRACT) && CONTRACT != "" && CONTRACT != AGGREGATE
  {
    hide UpperCode, Plain, Unlisted, NeverOpen;
    ContractIsPlain();
    PlainIsOpenable(CONTRACT);
    assert AGGREGATE[0] == 'U';
  }

  lemma TestsAreNotOwned()
    ensures !IsRuntimeOwnedFinding(TESTS) && !NeverOpen(TESTS) && !IsProductOwnedFinding(TESTS)
    ensures TESTS != "" && TESTS != AGGREGATE
  {
    hide UpperCode, Plain, Unlisted, NeverOpen, IsProductOwnedFinding, IncludesAny;
    TestsArePlainToo();
    PlainIsOpenable(TESTS);
    NotOfProduct(TESTS);
    NoRuntimeCode(TESTS);
    assert TESTS[1] == 'N' && TESTS[2] == 'I' && AGGREGATE[2] == 'W';
  }

  lemma NoRuntimeCode(code: string)
    requires |code| == 17 && code[0] == 'U'
    ensures !IsRuntimeCode(code) && !IsMissingFileCode(code) && !IsSupportCode(code) && code != "PLAN_REJECTED"
  {
  }

  /** A missing artifact is the runtime's own exactly when its path is. */
  lemma MissingArtifactIsOwned(path: string)
    requires path != "" && !IsSpace(path[0]) && !IsSpace(path[|path| - 1]) && '\\' !in path
    ensures IsRuntimeOwnedFinding("ARTIFACT_MISSING:" + path) <==> IsRuntimeFile(path)
  {
    hide Trim, Upper, StripSource, FlagCode, IsRuntimeFile, IsRuntimeOnlyArtifactPath, Before, Plain, IncludesAny;
    var code, id := "ARTIFACT_MISSING", "ARTIFACT_MISSING:" + path;
    ArtifactShape();
    assert id == code + (":" + path);
    NotMarked(id);
    UnmarkedCode(code, ":" + path);
    assert ReplaceChar(id, '\\', '/') == id;
    BeforeOfJoined(code, ":" + path, ':');
    assert Before(":" + path, ':') == "" by { NothingBefore(":" + path); }
    assert id[|code| + 1..] == path;
    TrimPlain(path);
    RuntimePathMeans(path);
  }

  lemma ArtifactShape()
    ensures var code := "ARTIFACT_MISSING";
            && |code| == 16 && code[0] == 'A' && code[15] == 'G' && ':' !in code && '\\' !in code && Upper(code) == code
            && !IsSpace('A') && !IsSpace('G')
    ensures !IsRuntimeCode("ARTIFACT_MISSING")
  {
    assert AllUpper("ARTIFACT_MISSING");
    UpperAlready("ARTIFACT_MISSING");
  }

  /** A finding on a protected path is the runtime's own. */
  lemma ProtectedPathIsOwned()
    ensures IsRuntimeOwnedFinding("PROTECTED_PATH")
  {
    hide FlagCode, Upper, IncludesAny, IsRuntimeOnlyArtifactPath;
    assert AllUpper("PROTECTED_PATH");
    UpperAlready("PROTECTED_PATH");
    assert Plain("PROTECTED_PATH");
    PlainCode("PROTECTED_PATH");
    assert |"PROTECTED_PATH"| == 14;
    NoFileCode("PROTECTED_PATH");
  }

  lemma NoFileCode(code: string)
    requires |code| == 14 && code[0] == 'P'
    ensures !IsMissingFileCode(code)
  {
  }

  /** Flags, and files of the runtime only or of the product, of an otherwise empty result with a passing test. */
  predicate OneFile(raw: BatchResult, file: string) {
    && raw.flags == [] && raw.failureType == None && raw.filesChanged == [file]
    && raw.tests == Some(Tests(None, Some(TestEvidence("npm test", 0)), None, None))
  }

  lemma OneFilePasses(raw: BatchResult, file: string, batch: nat, findings: seq<Finding>)
    requires OneFile(raw, file) && !IsPlaceholder(file)
    ensures var result := Canonicalize(batch, raw, findings);
            && result.flags == [] && result.filesChanged == [file] && SomeTestPassed(result)
            && result.status == raw.status && result.failureType == None && FindingIds(result) == []
  {
    hide InvalidPlaceholder, IsPlaceholder, IsBlockingFlag, IsSpace;
    var keep := (f: string) => !InvalidPlaceholder(f);
    PlaceholderMeans(file);
    FilterAll(keep, [file]);
    assert Unique([file]) == [file] by { assert [file][..0] == []; }
    assert CanonicalFlags([], findings) == [];
    assert !IsSpace("npm test"[0]) by { NotBlank(); }
    assert HasPassed(raw.tests.value.green);
  }

  lemma NotBlank()
    ensures !IsSpace("npm test"[0])
  {
  }

  /** A placeholder without white space is short. */
  lemma PlaceholderIsShort(file: string)
    requires IsPlaceholder(file) && forall k | 0 <= k < |file| :: !IsSpace(file[k])
    ensures |file| <= 14
  {
    hide SameLetter, IsSpace;
    var w :| 0 <= w < |PLACEHOLDERS| && IsAround(file, PLACEHOLDERS[w]);
    var i, j :| 0 <= i <= j <= |file|
      && AllBlank(file[..i]) && AllBlank(file[j..]) && SameLetters(file[i..j], PLACEHOLDERS[w]);
    BlankHead(file[..i]);
    BlankHead(file[j..]);
    PlaceholdersAreShort(w);
  }

  lemma BlankHead(s: string)
    requires AllBlank(s)
    ensures s != "" ==> IsSpace(s[0])
  {
  }

  lemma PlaceholdersAreShort(w: nat)
    requires w < |PLACEHOLDERS|
    ensures |PLACEHOLDERS[w]| <= 14
  {
  }

  const GATE_FILE := ".yolo/gates/tests.json"
  const SOURCE_FILE := "src/checkout/cart.ts"

  lemma GateFileIsRuntime()
    ensures IsRuntimeFile(GATE_FILE) && !IsPlaceholder(GATE_FILE)
  {
    hide IsPlaceholder, SameLetter;
    assert forall k | 0 <= k < |GATE_FILE| :: !IsSpace(GATE_FILE[k]);
    if IsPlaceholder(GATE_FILE) { PlaceholderIsShort(GATE_FILE); }
    assert RUNTIME_DIRECTORIES[1] == ".yolo/gates/";
    forall k | 0 <= k < 12 ensures SamePathChar(GATE_FILE[0 + k], RUNTIME_DIRECTORIES[1][k]) {
      assert GATE_FILE[0 + k] == RUNTIME_DIRECTORIES[1][k];
      SameAsItself(GATE_FILE[0 + k]);
    }
    assert DirectoryAt(GATE_FILE, RUNTIME_DIRECTORIES[1], 0);
  }

  lemma SourceFileIsProduct()
    ensures !IsRuntimeFile(SOURCE_FILE) && !IsPlaceholder(SOURCE_FILE)
  {
    hide IsPlaceholder;
    assert forall k | 0 <= k < |SOURCE_FILE| :: !IsSpace(SOURCE_FILE[k]);
    if IsPlaceholder(SOURCE_FILE) { PlaceholderIsShort(SOURCE_FILE); }
    forall d | 0 <= d < |RUNTIME_DIRECTORIES| ensures !DirectoryAt(SOURCE_FILE, RUNTIME_DIRECTORIES[d], 0) {
      assert RUNTIME_DIRECTORIES[d][0] == '.';
      assert !SamePathChar(SOURCE_FILE[0 + 0], '.');
    }
  }

  predicate IsOpenIn(findings: seq<Finding>, id: string) {
    Get(findings, id).Some? && Get(findings, id).value.status.Open?
  }

  /** A bugfix that only touched a file of the runtime and passed its test makes the open finding `CONTRACT_FAILURE`
      stale; one that touched the product leaves it to the gates. */
  lemma ContractIsQuarantined(state: BatchState, batch: nat, raw: BatchResult, file: string)
    requires UniqueIds(state.findings) && IsOpenIn(state.findings, CONTRACT) && raw.status == "FAILURE"
    requires OneFile(raw, file) && file in [GATE_FILE, SOURCE_FILE]
    ensures var after := Get(Import(state, batch, "bugfix", raw).findings, CONTRACT);
            after.Some? && after.value.status == if file == GATE_FILE then Stale else Open
  {
    hide Import, Get, Canonicalize, IsRuntimeOwnedFinding, NeverOpen, IsRuntimeFile, IsPlaceholder, SomeTestPassed,
      IsRuntimeSupportOrToolingFinding, Accumulate, OneFile, IsBlockingFlag, IsProductOwnedFinding, FindingIds;
    ContractIsOwned();
    GateFileIsRuntime();
    SourceFileIsProduct();
    OneFilePasses(raw, file, batch, state.findings);
    assert AllUnrelated(raw.flags, CONTRACT) by { NoFlags(raw, file); }
    UnflaggedImportDecides(state, batch, "bugfix", raw, CONTRACT);
    assert Canonicalize(batch, raw, state.findings).filesChanged[0] == file;
  }

  lemma NoFlags(raw: BatchResult, file: string)
    requires OneFile(raw, file)
    ensures raw.flags == []
  {
  }

  /** A successful validation with a passing test fixes the open finding `UNIT_TESTS_FAILED`, an implementation with the
      same report does not. */
  lemma ValidationFixesTests(state: BatchState, batch: nat, source: string, raw: BatchResult)
    requires UniqueIds(state.findings) && IsOpenIn(state.findings, TESTS) && raw.status == "SUCCESS"
    requires OneFile(raw, SOURCE_FILE) && source in ["validate", "implement"]
    ensures var after := Get(Import(state, batch, source, raw).findings, TESTS);
            after.Some? && after.value.status == if source == "validate" then Fixed else Open
  {
    hide Import, Get, Canonicalize, IsRuntimeOwnedFinding, NeverOpen, IsRuntimeFile, IsPlaceholder, SomeTestPassed,
      IsRuntimeSupportOrToolingFinding, Accumulate, OneFile, IsBlockingFlag, IsProductOwnedFinding, FindingIds;
    TestsAreNotOwned();
    SourceFileIsProduct();
    OneFilePasses(raw, SOURCE_FILE, batch, state.findings);
    assert AllUnrelated(raw.flags, TESTS) by { NoFlags(raw, SOURCE_FILE); }
    UnflaggedImportDecides(state, batch, source, raw, TESTS);
  }

  /** A successful bugfix that changed the product makes the open finding `RUNTIME_GATES_FAILED` stale. */
  lemma ToolingGoesStale(state: BatchState, batch: nat, raw: BatchResult)
    requires UniqueIds(state.findings) && IsOpenIn(state.findings, GATES) && raw.status == "SUCCESS"
    requires OneFile(raw, SOURCE_FILE)
    ensures var after := Get(Import(state, batch, "bugfix", raw).findings, GATES);
            after.Some? && after.value.status.Stale?
  {
    hide Import, Get, Canonicalize, IsRuntimeOwnedFinding, NeverOpen, IsRuntimeFile, IsPlaceholder, SomeTestPassed,
      IsRuntimeSupportOrToolingFinding, Accumulate, OneFile, IsBlockingFlag, IsProductOwnedFinding, FindingIds;
    GatesAreTooling();
    SourceFileIsProduct();
    OneFilePasses(raw, SOURCE_FILE, batch, state.findings);
    assert AllUnrelated(raw.flags, GATES) by { NoFlags(raw, SOURCE_FILE); }
    UnflaggedImportDecides(state, batch, "bugfix", raw, GATES);
    var result := Canonicalize(batch, raw, state.findings);
    assert result.filesChanged[0] == SOURCE_FILE;
    var joined := Get(Accumulate(state.findings + FindingsFromResult("bugfix", result)), GATES).value;
    NamesTheRuntime(joined);
  }

  lemma GatesAreTooling()
    ensures !NeverOpen(GATES) && !IsProductOwnedFinding(GATES) && GATES != "" && GATES != AGGREGATE
  {
    hide UpperCode, Plain, Unlisted, NeverOpen, IsProductOwnedFinding;
    GatesArePlain();
    PlainIsOpenable(GATES);
    NotOfProduct(GATES);
    assert AGGREGATE[0] == 'U';
  }

  lemma NamesTheRuntime(f: Finding)
    requires f.id == GATES && !IsProductOwnedFinding(GATES)
    ensures IsRuntimeSupportOrToolingFinding(f)
  {
    hide IsProductOwnedFinding, UpperChar;
    var text := f.id + "\n" + f.source + "\n" + JoinLines(f.evidence);
    RuntimeStarts();
    forall k | 0 <= k < 7 ensures Upper(text)[k] == "RUNTIME"[k] { assert text[k] == GATES[k]; }
    assert Upper(text)[0..7] == "RUNTIME";
    assert OccursAt(Upper(text), "RUNTIME", 0);
    FirstWord();
  }

  lemma RuntimeStarts()
    ensures |GATES| == 20 && |"RUNTIME"| == 7 && forall k | 0 <= k < 7 :: UpperChar(GATES[k]) == "RUNTIME"[k]
  {
  }

  lemma FirstWord()
    ensures ["RUNTIME", "TOOLING", "SUPPORT", "PROTECTED_PATH", "TEMPLATE_MANAGED", "WORKTREE_",
             "CHANGED_FILE_MISSING_METADATA", "MODULARITY_RULE_FILE", "PLAN_REJECTED", "VALIDATOR_REJECTED",
             "RUNTIME_GATES_REJECTED", "ARTIFACT_MISSING:.YOLO", "RUNTIME_ONLY_PATH", "LOCAL_ONLY_PATH",
             "GENERATED_FILE_DRIFT", "COMMAND_EVIDENCE", "JOURNAL", "GATE_FILE"][0] == "RUNTIME"
  {
  }

  /** Letters of which every word for tooling has one. */
  predicate IsToolingLetter(c: char) {
    c == 'R' || c == 'O' || c == 'G' || c == 'W' || c == 'C' || c == 'V' || c == 'J'
  }

  /** A failed unit test of an implementation names no tooling. */
  lemma TestsAreNoTooling(f: Finding)
    requires f.id == TESTS && f.source == "implement" && f.evidence == []
    ensures !IsRuntimeSupportOrToolingFinding(f)
  {
    hide IsProductOwnedFinding, Includes, UpperChar;
    var words := ["RUNTIME", "TOOLING", "SUPPORT", "PROTECTED_PATH", "TEMPLATE_MANAGED", "WORKTREE_",
                  "CHANGED_FILE_MISSING_METADATA", "MODULARITY_RULE_FILE", "PLAN_REJECTED", "VALIDATOR_REJECTED",
                  "RUNTIME_GATES_REJECTED", "ARTIFACT_MISSING:.YOLO", "RUNTIME_ONLY_PATH", "LOCAL_ONLY_PATH",
                  "GENERATED_FILE_DRIFT", "COMMAND_EVIDENCE", "JOURNAL", "GATE_FILE"];
    var telling := [0, 1, 4, 1, 13, 0, 0, 1, 5, 0, 0, 1, 0, 1, 0, 0, 0, 0];
    assert |telling| == |words|;
    var text := f.id + "\n" + f.source + "\n" + JoinLines(f.evidence);
    TestsText(text);
    forall w | 0 <= w < |words| ensures !Includes(Upper(text), words[w]) {
      assert telling[w] < |words[w]| && IsToolingLetter(words[w][telling[w]]);
      StrangeText(Upper(text), words[w], telling[w]);
    }
  }

  lemma TestsText(text: string)
    requires text == TESTS + "\n" + "implement" + "\n" + JoinLines([])
    ensures forall k | 0 <= k < |text| :: !IsToolingLetter(Upper(text)[k])
  {
    assert forall k | 0 <= k < |TESTS| :: !IsToolingLetter(UpperChar(TESTS[k]));
    assert forall k | 0 <= k < |"implement"| :: !IsToolingLetter(UpperChar("implement"[k]));
    assert !IsToolingLetter(UpperChar('\n'));
    hide UpperChar;
    var n := |TESTS|;
    forall k | 0 <= k < |text| ensures !IsToolingLetter(Upper(text)[k]) {
      if k < n { assert text[k] == TESTS[k]; }
      else if k == n || k == n + 10 { assert text[k] == '\n'; }
      else { assert text[k] == "implement"[k - n - 1]; }
    }
  }

  // ---- What a trace says ----

  /** The cause an import gives for its closures. */
  function CauseOf(result: BatchResult, source: string): string {
    if source != "bugfix" then source + "-evidence"
    else if OnlyRuntimeFiles(result.filesChanged) && SomeTestPassed(result) then "artifact-command-evidence"
    else "bugfix-semantic-evidence"
  }

  lemma {:induction false} TraceShape(before: seq<Finding>, after: seq<Finding>, cause: string, evidence: seq<string>,
                                      t: ClosureTrace)
    requires t in ClosureTraces(before, after, cause, evidence)
    ensures t.cause == if t.findingId == AGGREGATE then "aggregate-wiring-closed" else cause
    ensures exists i | 0 <= i < |after| ::
              && after[i].id == t.findingId && after[i].status == t.to && !t.to.Open? && t.from != t.to
              && forall e | e in evidence + after[i].evidence :: e in t.evidence
  {
    hide Get, Unique, ById;
    if after != [] {
      var n := |after| - 1;
      if t in ClosureTraces(before, after[..n], cause, evidence) {
        TraceShape(before, after[..n], cause, evidence, t);
        var i :| 0 <= i < n
          && after[..n][i].id == t.findingId && after[..n][i].status == t.to && !t.to.Open? && t.from != t.to
          && forall e | e in evidence + after[..n][i].evidence :: e in t.evidence;
        assert after[..n][i] == after[i];
      } else {
        forall e | e in evidence + after[n].evidence ensures e in t.evidence {
          UniqueHolds(evidence + after[n].evidence, e);
        }
      }
    }
  }

  /** A trace of an import names the cause and holds the flags of the result as it was read. */
  lemma ImportTracesSayWhy(state: BatchState, batch: nat, source: string, raw: BatchResult, t: ClosureTrace)
    requires var next := Import(state, batch, source, raw);
             |state.traces| <= |next.traces| && t in next.traces[|state.traces|..]
    ensures var result := Canonicalize(batch, raw, state.findings);
            && t.cause == (if t.findingId == AGGREGATE then "aggregate-wiring-closed" else CauseOf(result, source))
            && forall flag | flag in result.flags :: flag in t.evidence
  {
    hide Canonicalize, ImportedFindings, ClosureTraces, ChangesProductFiles, OnlyRuntimeFiles, SomeTestPassed,
      HasPassingCommandEvidence;
    var result := Canonicalize(batch, raw, state.findings);
    var next := Import(state, batch, source, raw);
    var traces := ClosureTraces(state.findings, next.findings, ResultClosureCause(result, source), result.flags);
    assert next.traces[|state.traces|..] == traces;
    TraceShape(state.findings, next.findings, ResultClosureCause(result, source), result.flags, t);
    PassingMeans(result);
    ProductFilesMean(result);
  }

  /** The evidence of gates is their flags, each with the name of its gate. */
  lemma {:induction false} GateEvidenceMeans(gates: seq<GateResult>, text: string)
    ensures text in GateEvidence(gates) <==>
            exists i, k | 0 <= i < |gates| && 0 <= k < |gates[i].flags| ::
              text == gates[i].name + ":" + gates[i].flags[k]
  {
    if gates != [] {
      var n := |gates| - 1;
      var gate := gates[n];
      GateEvidenceMeans(gates[..n], text);
      var last := Map((flag: string) => gate.name + ":" + flag, gate.flags);
      assert GateEvidence(gates) == GateEvidence(gates[..n]) + last;
      if text in last {
        var k :| 0 <= k < |last| && last[k] == text;
        assert text == gates[n].name + ":" + gates[n].flags[k];
      }
      if i, k :| 0 <= i < |gates| && 0 <= k < |gates[i].flags| && text == gates[i].name + ":" + gates[i].flags[k] {
        if i == n { assert last[k] == text; }
      }
      assert forall i | 0 <= i < n :: gates[..n][i] == gates[i];
    }
  }
}
