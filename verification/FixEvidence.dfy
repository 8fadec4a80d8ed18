/** What is evidence that a finding is fixed, told on the characters of flags and ids, and that nothing else closes a
    product-owned finding (tools/klevar-yolo-runtime/src/runtime-batch-state.ts:405-440,
    tools/klevar-yolo-runtime/src/flag-classification.ts). */
module FixEvidence {
  import opened Wrappers
  import opened Sequences
  import opened Text
  import opened FlagClassification
  import opened OrdinaryFlags
  import opened FindingEvidence
  import opened FindingState
  import opened FindingProperties
  import opened RuntimeTypes

  // ---- Letters ----

  /** The word, in letters of either case, stands at position `i`, and the text ends after it or goes on with `_`. */
  predicate WordAfter(s: string, i: nat, word: string) {
    && i + |word| <= |s| && (forall k | 0 <= k < |word| :: SameLetter(s[i + k], word[k]))
    && (i + |word| == |s| || s[i + |word|] == '_')
  }

  /** The text ends with the suffix, in letters of either case. */
  predicate EndsLike(s: string, suffix: string) {
    |suffix| <= |s| && forall k | 0 <= k < |suffix| :: SameLetter(s[|s| - |suffix| + k], suffix[k])
  }

  lemma UpperWord(rest: string, word: string)
    requires AllUpper(word)
    ensures StartsWith(Upper(rest) + "_", word + "_") <==> WordAfter(rest, 0, word)
  {
    hide UpperChar, SameLetter;
    var text, part := Upper(rest) + "_", word + "_";
    forall k | 0 <= k < |word| && k < |rest| ensures text[k] == word[k] <==> SameLetter(rest[k], word[k]) {
      UpperSame(rest[k], word[k]);
    }
    if |word| < |rest| {
      assert text[|word|] == UpperChar(rest[|word|]);
      UpperSame(rest[|word|], '_');
      assert SameLetter(rest[|word|], '_') <==> rest[|word|] == '_' by { Underscore(rest[|word|]); }
    }
    if WordAfter(rest, 0, word) {
      assert forall k | 0 <= k < |part| :: text[k] == part[k];
      assert text[..|part|] == part;
    }
    if part <= text {
      assert forall k | 0 <= k < |part| :: text[k] == part[k];
      assert |word| < |rest| ==> text[|word|] == part[|word|] == '_';
      assert forall k | 0 <= k < |word| :: rest[0 + k] == rest[k];
    }
  }

  lemma Underscore(c: char)
    ensures SameLetter(c, '_') <==> c == '_'
  {
  }

  lemma UpperEnd(code: string, suffix: string)
    requires AllUpper(suffix)
    ensures EndsWith(Upper(code), suffix) <==> EndsLike(code, suffix)
  {
    hide UpperChar, SameLetter;
    if |suffix| <= |code| {
      var d := |code| - |suffix|;
      var end := Upper(code)[d..];
      forall k | 0 <= k < |suffix| ensures end[k] == suffix[k] <==> SameLetter(code[d + k], suffix[k]) {
        UpperSame(code[d + k], suffix[k]);
      }
    }
  }

  // ---- Which fixed prefix matches a finding ----

  const GAP_WORDS: seq<string> := ["GAP", "MISSING", "DRIFT", "UNVERIFIED", "UNVALIDATED", "UNWIRED", "NOT_WIRED",
                                   "FINDING", "FINDINGS", "FAIL", "FAILED", "FAILURE", "INVALID", "MISMATCH"]

  /** The same text, or one and a detail of it after a colon, or the prefix and a word for what was wrong with it. */
  predicate Related(id: string, fixed: string) {
    || id == fixed
    || (|id| > |fixed| && id[..|fixed|] == fixed && id[|fixed|] == ':')
    || (|fixed| > |id| && fixed[..|id|] == id && fixed[|id|] == ':')
    || (|id| > |fixed| && id[..|fixed|] == fixed && id[|fixed|] == '_'
        && exists w | 0 <= w < |GAP_WORDS| :: WordAfter(id, |fixed| + 1, GAP_WORDS[w]))
  }

  lemma JoinedStart(s: string, part: string, c: char)
    ensures StartsWith(s, part + [c]) <==> |s| > |part| && s[..|part|] == part && s[|part|] == c
  {
    if |s| > |part| && s[..|part|] == part && s[|part|] == c {
      assert s[..|part| + 1] == part + [c];
    }
    if part + [c] <= s {
      assert s[|part|] == (part + [c])[|part|];
      assert s[..|part|] == (part + [c])[..|part|] == part;
    }
  }

  lemma GapWords()
    ensures forall w | 0 <= w < |GAP_WORDS| :: AllUpper(GAP_WORDS[w])
  {
  }

  /** The rest of an id that starts with the prefix and an underscore: a listed word and an end. */
  lemma GapIsWord(rest: string)
    ensures StartsWithAny(Upper(rest) + "_", ["GAP_", "MISSING_", "DRIFT_", "UNVERIFIED_", "UNVALIDATED_", "UNWIRED_",
                                              "NOT_WIRED_", "FINDING_", "FINDINGS_", "FAIL_", "FAILED_", "FAILURE_",
                                              "INVALID_", "MISMATCH_"])
            <==> exists w | 0 <= w < |GAP_WORDS| :: WordAfter(rest, 0, GAP_WORDS[w])
  {
    hide WordAfter, StartsWith, Upper, AllUpper;
    var words := ["GAP_", "MISSING_", "DRIFT_", "UNVERIFIED_", "UNVALIDATED_", "UNWIRED_", "NOT_WIRED_", "FINDING_",
                  "FINDINGS_", "FAIL_", "FAILED_", "FAILURE_", "INVALID_", "MISMATCH_"];
    GapWords();
    SameWords(words);
    forall w | 0 <= w < |words| ensures StartsWith(Upper(rest) + "_", words[w]) <==> WordAfter(rest, 0, GAP_WORDS[w]) {
      UpperWord(rest, GAP_WORDS[w]);
    }
  }

  lemma SameWords(words: seq<string>)
    requires words == ["GAP_", "MISSING_", "DRIFT_", "UNVERIFIED_", "UNVALIDATED_", "UNWIRED_", "NOT_WIRED_",
                       "FINDING_", "FINDINGS_", "FAIL_", "FAILED_", "FAILURE_", "INVALID_", "MISMATCH_"]
    ensures |words| == |GAP_WORDS| && forall w | 0 <= w < |words| :: words[w] == GAP_WORDS[w] + "_"
  {
  }

  lemma WordMoves(id: string, n: nat, word: string)
    requires n <= |id|
    ensures WordAfter(id[n..], 0, word) <==> WordAfter(id, n, word)
  {
    hide SameLetter;
    var rest := id[n..];
    if n + |word| <= |id| {
      forall k | 0 <= k < |word| ensures SameLetter(rest[0 + k], word[k]) <==> SameLetter(id[n + k], word[k]) {
        assert rest[0 + k] == id[n + k];
      }
      assert n + |word| < |id| ==> rest[0 + |word|] == id[n + |word|];
    }
  }

  /** A fixed prefix matches a finding exactly when it has eight characters or more and is related to it. */
  lemma MatchMeans(id: string, fixed: string)
    ensures FindingMatchesFixedPrefix(id, fixed) <==> |fixed| >= 8 && Related(id, fixed)
  {
    hide StartsWith, WordAfter, StartsWithAny, Upper;
    JoinedStart(id, fixed, ':');
    JoinedStart(fixed, id, ':');
    JoinedStart(id, fixed, '_');
    assert [':'] == ":" && ['_'] == "_";
    if |id| > |fixed| && id[|fixed|] == '_' {
      GapIsWord(id[|fixed| + 1..]);
      forall w | 0 <= w < |GAP_WORDS|
        ensures WordAfter(id[|fixed| + 1..], 0, GAP_WORDS[w]) <==> WordAfter(id, |fixed| + 1, GAP_WORDS[w])
      {
        WordMoves(id, |fixed| + 1, GAP_WORDS[w]);
      }
    }
  }

  /** Related texts start with the same character. */
  lemma RelatedStart(id: string, fixed: string)
    requires Related(id, fixed) && id != "" && fixed != ""
    ensures id[0] == fixed[0]
  {
    hide WordAfter;
    if |id| > |fixed| && id[..|fixed|] == fixed { assert id[..|fixed|][0] == id[0]; }
    if |fixed| > |id| && fixed[..|id|] == id { assert fixed[..|id|][0] == fixed[0]; }
  }

  // ---- What a flag reports as fixed ----

  const FIX_SUFFIXES: seq<string> := ["_FIXED", "_RECOVERED", "_RESOLVED", "_PASS", "_PASSED", "_ALLOWLISTED",
                                      "_SATISFIED", "_ENFORCED", "_COVERED", "_PROPAGATED", "_REVERTED", "_PRESERVED"]

  lemma {:induction false} FixedCodeMeans(code: string, suffixes: seq<string>)
    requires forall i | 0 <= i < |suffixes| :: AllUpper(suffixes[i])
    ensures var p := FixedCode(code, suffixes);
            p != "" ==> exists i | 0 <= i < |suffixes| ::
                          EndsLike(code, suffixes[i]) && p == code[..|code| - |suffixes[i]|]
  {
    hide AllUpper, EndsLike, EndsWith;
    if suffixes != [] {
      UpperEnd(code, suffixes[0]);
      if EndsLike(code, suffixes[0]) {
        assert |suffixes[0]| <= |code| by { LikeFits(code, suffixes[0]); }
      } else {
        FixedCodeMeans(code, suffixes[1..]);
        assert forall i | 0 <= i < |suffixes[1..]| :: suffixes[1..][i] == suffixes[i + 1];
      }
    }
  }

  lemma LikeFits(code: string, suffix: string)
    requires EndsLike(code, suffix)
    ensures |suffix| <= |code|
  {
  }

  /** The code of the flag without a suffix that says what was done, and with one that says what it undid. */
  predicate IsUndone(p: string, code: string, done: string, undone: string) {
    EndsLike(code, done) && |p| >= |code| - |done| + |undone|
    && p[..|code| - |done| + |undone|] == code[..|code| - |done|] + undone
  }

  lemma FixSuffixes()
    ensures AllUpper("_VERIFIED") && AllUpper("_WIRED")
    ensures forall i | 0 <= i < |FIX_SUFFIXES| :: AllUpper(FIX_SUFFIXES[i])
  {
  }

  /** What a flag reports as fixed: its code, which ends with a word for a fix, without that word; for `_VERIFIED` and
      `_WIRED` the gap they close. */
  lemma FixedPrefixMeans(flag: string)
    requires FixedFindingPrefix(flag) != ""
    ensures var p, code := FixedFindingPrefix(flag), FlagCode(flag);
            || IsUndone(p, code, "_VERIFIED", "_UNVERIFIED") || IsUndone(p, code, "_WIRED", "_UNWIRED")
            || exists i | 0 <= i < |FIX_SUFFIXES| ::
                 EndsLike(code, FIX_SUFFIXES[i]) && p == code[..|code| - |FIX_SUFFIXES[i]|]
  {
    hide FlagCode, StripSource, Trim, Before, EndsLike, EndsWith, AllUpper, FixedCode;
    var code := FlagCode(flag);
    FixSuffixes();
    UpperEnd(code, "_VERIFIED");
    UpperEnd(code, "_WIRED");
    if EndsLike(code, "_VERIFIED") { LikeFits(code, "_VERIFIED"); }
    else if EndsLike(code, "_WIRED") { LikeFits(code, "_WIRED"); }
    else { FixedCodeMeans(code, FIX_SUFFIXES); }
  }

  /** It starts as the code does. */
  lemma FixedPrefixStart(flag: string)
    requires FlagCode(flag) != "" && FlagCode(flag)[0] != '_' && FixedFindingPrefix(flag) != ""
    ensures FixedFindingPrefix(flag)[0] == FlagCode(flag)[0]
  {
    hide FlagCode, FixedFindingPrefix, SameLetter;
    var p, code := FixedFindingPrefix(flag), FlagCode(flag);
    FixedPrefixMeans(flag);
    if IsUndone(p, code, "_VERIFIED", "_UNVERIFIED") { UndoneStart(p, code, "_VERIFIED", "_UNVERIFIED"); }
    else if IsUndone(p, code, "_WIRED", "_UNWIRED") { UndoneStart(p, code, "_WIRED", "_UNWIRED"); }
    else {
      var i :| 0 <= i < |FIX_SUFFIXES| && EndsLike(code, FIX_SUFFIXES[i]) && p == code[..|code| - |FIX_SUFFIXES[i]|];
    }
  }

  lemma UndoneStart(p: string, code: string, done: string, undone: string)
    requires IsUndone(p, code, done, undone) && code != "" && code[0] != '_'
    requires done != "" && done[0] == '_' && undone != ""
    ensures p != "" && p[0] == code[0]
  {
    hide SameLetter;
    if |code| == |done| {
      assert SameLetter(code[|code| - |done| + 0], done[0]);
      Underscore(code[0]);
    }
    var joined := code[..|code| - |done|] + undone;
    assert p[0] == p[..|joined|][0] == joined[0] == code[0];
  }

  // ---- Positive flags that close findings ----

  /** The codes that say something about entrypoints or business logic, and four others. */
  predicate IsEvidenceCode(code: string) {
    || StartsWith(code, "ENTRYPOINT_") || StartsWith(code, "BUSINESS_LOGIC_")
    || code == "TENANT_FAIRNESS_RATE_LIMIT_RETRY_PASS" || code == "GENERATED_FILE_DRIFT_REVERTED"
    || code == "PROTECTED_PATH_METADATA_REMOVED" || code == "MODULARITY_RULE_FILE_WARNING" + "_ROUTED_NON_BLOCKING"
  }

  lemma {:induction false} PrefixOfSome(code: string, prefixes: seq<string>)
    ensures WithoutPrefix(code, prefixes).Some? ==> exists i | 0 <= i < |prefixes| :: StartsWith(code, prefixes[i])
  {
    if prefixes != [] {
      PrefixOfSome(code, prefixes[1..]);
      assert forall i | 0 <= i < |prefixes[1..]| :: prefixes[1..][i] == prefixes[i + 1];
    }
  }

  lemma EntrypointCodes(code: string, flag: string)
    requires EntrypointTarget(code, flag).Some?
    ensures StartsWith(code, "ENTRYPOINT_")
  {
    hide NormalizeToken, FlagDetail, OneLine, WithoutPrefix;
    PrefixOfSome(code, ["ENTRYPOINT_VERIFIED_", "ENTRYPOINT_WIRED_"]);
    assert "ENTRYPOINT_" <= "ENTRYPOINT_VERIFIED" && "ENTRYPOINT_" <= "ENTRYPOINT_WIRED";
    assert "ENTRYPOINT_" <= "ENTRYPOINT_VERIFIED_" && "ENTRYPOINT_" <= "ENTRYPOINT_WIRED_";
  }

  lemma {:induction false} BetweenStart(code: string, prefix: string, suffixes: seq<string>)
    ensures Between(code, prefix, suffixes).Some? ==> StartsWith(code, prefix)
  {
    hide EndsWith, OneLine;
    if suffixes != [] { BetweenStart(code, prefix, suffixes[1..]); }
  }

  lemma BusinessCodes(code: string)
    requires BusinessTarget(code).Some?
    ensures StartsWith(code, "BUSINESS_LOGIC_")
  {
    hide Between;
    var passes := ["_PASS", "_PASSED", "_VERIFIED", "_FIXED"];
    BetweenStart(code, "BUSINESS_LOGIC_EVIDENCE_", passes);
    BetweenStart(code, "BUSINESS_LOGIC_", passes);
    assert "BUSINESS_LOGIC_" <= "BUSINESS_LOGIC_EVIDENCE_";
  }

  /** A positive flag closes a finding only with such a code. */
  lemma PositiveNeedsCode(flag: string, id: string)
    requires PositiveFlagClosesFinding(flag, id)
    ensures IsEvidenceCode(UpperCode(flag))
  {
    hide IsPositiveFlag, EntrypointTarget, IsEntrypointFinding, EntrypointSubjectMatches, EntrypointSubject,
      BusinessTarget, WithoutPrefix, BusinessSubjectMatches, NormalizeToken, UpperCode;
    var code := UpperCode(flag);
    if EntrypointTarget(code, flag).Some? { EntrypointCodes(code, flag); }
    if BusinessTarget(code).Some? { BusinessCodes(code); }
    assert "BUSINESS_LOGIC_" <= "BUSINESS_LOGIC_DRIFT_SWEEP_PASS";
  }

  // ---- Flags that are no evidence ----

  /** The flag reports nothing fixed that is related to the finding, and its code is none of those. */
  predicate Unrelated(flag: string, id: string) {
    var p := FixedFindingPrefix(flag);
    p != id && (|p| >= 8 ==> !Related(id, p)) && !IsEvidenceCode(UpperCode(flag))
  }

  predicate AllUnrelated(flags: seq<string>, id: string) {
    forall i | 0 <= i < |flags| :: Unrelated(flags[i], id)
  }

  /** Fix evidence for a finding comes from a flag that reports a related fix, or from one of those codes. */
  lemma UnrelatedIsNoEvidence(flags: seq<string>, id: string)
    requires id != "" && AllUnrelated(flags, id)
    ensures !HasFixEvidenceFromFlags(flags, id)
  {
    hide FixedFindingPrefix, Related, IsEvidenceCode, UpperCode, FindingMatchesFixedPrefix, PositiveFlagClosesFinding;
    forall i | 0 <= i < |flags| ensures !PositiveFlagClosesFinding(flags[i], id) {
      assert Unrelated(flags[i], id);
      if PositiveFlagClosesFinding(flags[i], id) { PositiveNeedsCode(flags[i], id); }
    }
    forall f | f in FixedPrefixes(flags) ensures f != id && !FindingMatchesFixedPrefix(id, f) {
      var i :| 0 <= i < |flags| && FixedFindingPrefix(flags[i]) == f;
      assert Unrelated(flags[i], id);
      MatchMeans(id, f);
    }
  }

  lemma MarkedIsUnrelated(flag: string, id: string)
    requires Unrelated(flag, id)
    ensures Unrelated(SOURCE_PREFIX + flag, id)
  {
    hide FixedFindingPrefix, Related, IsEvidenceCode, FlagCode, Upper, IsBlockingFlag;
    MarkedFlagKeepsMeaning(flag);
  }

  lemma CanonicalIsUnrelated(flags: seq<string>, findings: seq<Finding>, id: string)
    requires AllUnrelated(flags, id)
    ensures AllUnrelated(CanonicalFlags(flags, findings), id)
  {
    hide Unrelated, InvalidPlaceholder, IsStaleBlockingFlag, FixedPrefixes, HasSettled;
    var canonical, fixed := CanonicalFlags(flags, findings), FixedPrefixes(flags);
    var kept := Filter((flag: string) => !InvalidPlaceholder(flag), flags);
    var marked := Map((flag: string) => CanonicalFlag(flag, findings, fixed), kept);
    forall i | 0 <= i < |canonical| ensures Unrelated(canonical[i], id) {
      FilterKeeps((flag: string) => !IsStaleBlockingFlag(flag, fixed), marked, canonical[i]);
      var k :| 0 <= k < |marked| && marked[k] == canonical[i];
      FilterKeeps((flag: string) => !InvalidPlaceholder(flag), flags, kept[k]);
      var j :| 0 <= j < |flags| && flags[j] == kept[k];
      assert Unrelated(flags[j], id);
      MarkedIsUnrelated(flags[j], id);
    }
  }

  /** No blanket closure: an import whose flags are unrelated to an open product-owned finding leaves it open, whatever
      else the result reports, from any source. */
  lemma UnrelatedImportLeavesOpen(state: BatchState, batch: nat, source: string, raw: BatchResult, id: string)
    requires UniqueIds(state.findings) && IsProductOwnedFinding(id) && !NeverOpen(id) && id != ""
    requires Get(state.findings, id).Some? && Get(state.findings, id).value.status.Open?
    requires AllUnrelated(raw.flags, id)
    ensures var after := Get(Import(state, batch, source, raw).findings, id); after.Some? && after.value.status.Open?
  {
    hide IsProductOwnedFinding, NeverOpen, AllUnrelated, Get, CanonicalFlags, Import, HasFixEvidenceFromFlags,
      FindingIds;
    ProductOwnedAfterImport(state, batch, source, raw, id);
    CanonicalIsUnrelated(raw.flags, state.findings, id);
    UnrelatedIsNoEvidence(Canonicalize(batch, raw, state.findings).flags, id);
  }

  /** The same for gates: one that lists related fixes, the current result, or a cleanly passing gate that owned the
      finding or listed it last is needed to close it. */
  lemma UnrelatedGatesLeaveOpen(state: BatchState, gates: seq<GateResult>, id: string)
    requires Canonical(state) && IsProductOwnedFinding(id) && id != ""
    requires Get(state.findings, id).Some? && Get(state.findings, id).value.status.Open?
    requires AllUnrelated(state.currentResult.flags, id)
    requires forall i | 0 <= i < |gates| ::
               AllUnrelated(gates[i].flags, id) &&
               (gates[i].passed ==> !(gates[i].name in state.gates && id in state.gates[gates[i].name].flags)
                                    && Get(state.findings, id).value.source != "gate:" + gates[i].name)
    ensures var after := Get(RecordGateState(state, gates).findings, id); after.Some? && after.value.status.Open?
  {
    hide IsProductOwnedFinding, AllUnrelated, RecordGateState, HasFixEvidenceFromFlags, Contributes, HardFlags,
      AllWarnings, Get;
    ProductOwnedAfterGates(state, gates, id);
    UnrelatedIsNoEvidence(state.currentResult.flags, id);
    forall i | 0 <= i < |gates| ensures !HasFixEvidenceFromFlags(gates[i].flags, id) {
      UnrelatedIsNoEvidence(gates[i].flags, id);
    }
    forall i | 0 <= i < |state.findings| && state.findings[i].id == id
      ensures Get(state.findings, id) == Some(state.findings[i])
    {
      GetAt(state.findings, i);
    }
  }

  // ---- A missing check ----

  lemma AuthIsProductOwned()
    ensures IsProductOwnedFinding(AUTH) && !NeverOpen(AUTH)
  {
    hide FlagCode, Plain, Unlisted, IsPositiveFlag;
    AuthIsOrdinary();
    AuthIsHard("");
    AuthStart();
    assert Upper(AUTH) == AUTH by { UpperAlready(AUTH); }
    var owners := ["BUSINESS_LOGIC", "ENTRYPOINT", "AUTH", "AUTHORIZATION", "SECURITY", "TENANT", "PAYMENT", "PRICING",
                   "API", "DB", "DATABASE", "SCHEMA", "E2E_SETUP_MISSING"];
    assert StartsWith(UpperCode(AUTH), owners[2]);
    assert !StartsWith(AUTH, "RECOVERED_") by { assert "RECOVERED_"[0] == 'R'; }
  }

  lemma AuthStart()
    ensures StartsWith(AUTH, "AUTH") && AllUpper(AUTH)
  {
    assert AUTH[..4] == "AUTH";
  }

  /** The code of a plain flag. */
  lemma PlainCode(flag: string)
    requires Plain(flag)
    ensures FlagCode(flag) == flag && UpperCode(flag) == flag && StripSource(flag) == flag && Trim(flag) == flag
  {
    hide FlagCode, StripSource, Trim;
    PlainFlagCode(flag);
    NotMarked(flag);
  }

  /** `UNIT_TESTS_FIXED` says nothing about it. */
  lemma TestsAreUnrelated()
    ensures Unrelated("UNIT_TESTS_FIXED", AUTH)
  {
    hide FlagCode, FixedFindingPrefix, Related, Upper, UpperCode;
    var flag := "UNIT_TESTS_FIXED";
    TestsArePlain();
    PlainCode(flag);
    AuthIsOrdinary();
    var p := FixedFindingPrefix(flag);
    if p != "" {
      FixedPrefixStart(flag);
      if Related(AUTH, p) { RelatedStart(AUTH, p); }
    }
    assert flag[0] == 'U' && "ENTRYPOINT_"[0] == 'E' && "BUSINESS_LOGIC_"[0] == 'B';
  }

  lemma TestsArePlain()
    ensures Plain("UNIT_TESTS_FIXED")
  {
    UpperAlready("UNIT_TESTS_FIXED");
  }

  /** An open missing check stays open through an import that fixed the unit tests, whatever else it reports. */
  lemma MissingCheckStaysOpen(state: BatchState, batch: nat, source: string, raw: BatchResult)
    requires UniqueIds(state.findings) && raw.flags == ["UNIT_TESTS_FIXED"]
    requires Get(state.findings, AUTH).Some? && Get(state.findings, AUTH).value.status.Open?
    ensures var after := Get(Import(state, batch, source, raw).findings, AUTH); after.Some? && after.value.status.Open?
  {
    hide IsProductOwnedFinding, NeverOpen, Import, Get, Unrelated;
    AuthIsProductOwned();
    AuthIsOrdinary();
    TestsAreUnrelated();
    UnrelatedImportLeavesOpen(state, batch, source, raw, AUTH);
  }

  lemma NotLike(s: string, suffix: string, k: nat)
    requires k < |suffix| && (|suffix| <= |s| ==> !SameLetter(s[|s| - |suffix| + k], suffix[k]))
    ensures !EndsLike(s, suffix)
  {
    hide SameLetter;
  }

  lemma FixedEnd(code: string)
    ensures var flag := code + "_FIXED";
            EndsLike(flag, "_FIXED") && !EndsLike(flag, "_VERIFIED") && !EndsLike(flag, "_WIRED")
  {
    hide SameLetter;
    var flag, n := code + "_FIXED", |code| + 6;
    assert flag[n - 3] == "_FIXED"[3] == 'X';
    XIsOther();
    NotLike(flag, "_VERIFIED", 6);
    NotLike(flag, "_WIRED", 3);
    forall k | 0 <= k < 6 ensures SameLetter(flag[n - 6 + k], "_FIXED"[k]) {
      assert flag[n - 6 + k] == "_FIXED"[k];
      SameAsItself("_FIXED"[k]);
    }
  }

  /** A flag `X_FIXED` reports X. */
  lemma FixedFlagReports(code: string)
    requires Plain(code + "_FIXED")
    ensures FixedFindingPrefix(code + "_FIXED") == code
  {
    hide FlagCode, StripSource, Trim, Plain, AllUpper, EndsLike, EndsWith, Upper, Before;
    var flag := code + "_FIXED";
    PlainCode(flag);
    FixSuffixes();
    assert FIX_SUFFIXES[0] == "_FIXED";
    UpperEnd(flag, "_VERIFIED");
    UpperEnd(flag, "_WIRED");
    UpperEnd(flag, "_FIXED");
    FixedEnd(code);
    assert DropEnd(flag, 6) == code;
  }

  lemma XIsOther()
    ensures !SameLetter('X', 'I') && !SameLetter('X', 'R')
  {
  }

  lemma SameAsItself(c: char)
    ensures SameLetter(c, c)
  {
  }

  const AUTH_FIXED := "AUTH_CHECK" + "_FIXED"

  lemma AuthFixedIsPlain()
    ensures Plain(AUTH_FIXED) && |AUTH_FIXED| == 16 && AUTH_FIXED[0] == 'A' && AUTH_FIXED[2] == 'T'
    ensures AUTH_FIXED[5] == 'C' && AUTH_FIXED[13] == 'X'
  {
    UpperAlready(AUTH_FIXED);
  }

  lemma NoRejection(code: string)
    requires |code| > 5 && code[0] == 'A' && code[2] == 'T' && code[5] == 'C'
    ensures !StartsWithAny(code + "_", ["VALIDATOR_REJECTED_", "JOURNAL_REJECTED_", "RUNTIME_GATES_REJECTED_",
                                        "BUGFIX_REJECTED_", "AUDIT_REJECTED_", "ADVERSARIAL_VALIDATION_REJECTED_",
                                        "RESULT_STATUS_REJECTED_", "CONTRACT_REJECTED_", "GATE_REJECTED_",
                                        "SECURITY_REJECTED_", "SECRET_REJECTED_", "AUTH_REJECTED_", "TENANT_REJECTED_",
                                        "EXTERNAL_OPS_REJECTED_"])
  {
    var rejections := ["VALIDATOR_REJECTED_", "JOURNAL_REJECTED_", "RUNTIME_GATES_REJECTED_", "BUGFIX_REJECTED_",
                       "AUDIT_REJECTED_", "ADVERSARIAL_VALIDATION_REJECTED_", "RESULT_STATUS_REJECTED_",
                       "CONTRACT_REJECTED_", "GATE_REJECTED_", "SECURITY_REJECTED_", "SECRET_REJECTED_",
                       "AUTH_REJECTED_", "TENANT_REJECTED_", "EXTERNAL_OPS_REJECTED_"];
    var text := code + "_";
    forall i | 0 <= i < |rejections| ensures !StartsWith(text, rejections[i]) {
      assert rejections[i][0] != 'A' || rejections[i][2] != 'T' || rejections[i][5] != 'C';
    }
  }

  lemma AuthFixedIsPositive()
    ensures IsPositiveFlag(AUTH_FIXED)
  {
    hide FlagCode, Plain, IsPositiveCode, IsEntrypointEvidence, StartsWithAny, IsBusinessRuleRejected,
      IsTemplateManagedMetadataDetail, Upper, SameLetter, AllUpper, StripSource, Trim;
    AuthFixedIsPlain();
    PlainCode(AUTH_FIXED);
    assert Upper(AUTH_FIXED) == AUTH_FIXED by { PlainUpper(AUTH_FIXED); }
    NoRejection(AUTH_FIXED);
    assert AUTH_FIXED[13] == 'X' && "_NOT_WIRED"[7] == 'R' && "_REJECTED"[6] == 'T';
    FixedIsPositiveSuffix("AUTH_CHECK");
  }

  lemma PlainUpper(flag: string)
    requires Plain(flag)
    ensures Upper(flag) == flag
  {
  }

  lemma FixedIsPositiveSuffix(code: string)
    requires Upper(code + "_FIXED") == code + "_FIXED"
    ensures HasPositiveSuffix(code + "_FIXED")
  {
    var suffixes := ["_PASS", "_PASSED", "_FIXED", "_RECOVERED", "_RESOLVED", "_WIRED", "_PROPAGATED", "_SATISFIED",
                     "_COVERED", "_ENFORCED", "_VERIFIED", "_ALLOWLISTED", "_NORMALIZED", "_RECORDED",
                     "_EVIDENCE_RECORDED", "_REVERTED", "_PRESERVED", "_NOT_APPLICABLE", "_NO_LEAKS", "_UNTOUCHED",
                     "_NO_FINDINGS", "_NO_BLOCKING_FINDINGS", "_RECORDED_AS_MANUAL_NOT_FINDINGS"];
    assert EndsWith(code + "_FIXED", suffixes[2]);
  }

  lemma AuthFixedIsKept(findings: seq<Finding>)
    ensures exists flag :: flag in CanonicalFlags([AUTH_FIXED], findings) && FixedFindingPrefix(flag) == "AUTH_CHECK"
  {
    hide FlagCode, Plain, IsPositiveFlag, HasSettled, FixedFindingPrefix, StartsWith, FixedPrefixes, Upper, Trim,
      FindingMatchesFixedPrefix, StripSource;
    AuthFixedIsPlain();
    PlainCode(AUTH_FIXED);
    FixedFlagReports("AUTH_CHECK");
    AuthFixedIsPositive();
    MarkedFlagKeepsMeaning(AUTH_FIXED);
    assert Upper(AUTH_FIXED) == AUTH_FIXED by { PlainUpper(AUTH_FIXED); }
    NoPlaceholder(AUTH_FIXED);
    var fixed := FixedPrefixes([AUTH_FIXED]);
    var kept := Filter((flag: string) => !InvalidPlaceholder(flag), [AUTH_FIXED]);
    assert kept == [AUTH_FIXED] by { FilterAll((flag: string) => !InvalidPlaceholder(flag), [AUTH_FIXED]); }
    var flag := CanonicalFlag(AUTH_FIXED, findings, fixed);
    var marked := Map((flag: string) => CanonicalFlag(flag, findings, fixed), kept);
    assert marked == [flag];
    assert !IsBlockingFlag(flag);
    FilterAll((f: string) => !IsStaleBlockingFlag(f, fixed), marked);
    assert flag in CanonicalFlags([AUTH_FIXED], findings);
  }

  lemma NoPlaceholder(flag: string)
    requires Trim(flag) == flag && Upper(flag) == flag && |flag| > 14
    ensures !InvalidPlaceholder(flag)
  {
    hide Trim, Upper;
  }

  lemma AuthFixMatches()
    ensures FindingMatchesFixedPrefix(AUTH, "AUTH_CHECK")
  {
    hide SameLetter;
    MatchMeans(AUTH, "AUTH_CHECK");
    assert AUTH == "AUTH_CHECK" + "_" + "MISSING" && GAP_WORDS[1] == "MISSING";
    forall k | 0 <= k < 7 ensures SameLetter(AUTH[11 + k], "MISSING"[k]) {
      assert AUTH[11 + k] == "MISSING"[k];
      SameAsItself("MISSING"[k]);
    }
    assert WordAfter(AUTH, 11, GAP_WORDS[1]);
  }

  /** The flag `AUTH_CHECK_FIXED` closes it: an import from any source but a bugfix fixes the open missing check. */
  lemma FixedCheckIsClosed(state: BatchState, batch: nat, source: string, raw: BatchResult)
    requires UniqueIds(state.findings) && raw.flags == [AUTH_FIXED] && source != "bugfix"
    requires Get(state.findings, AUTH).Some? && Get(state.findings, AUTH).value.status.Open?
    ensures var after := Get(Import(state, batch, source, raw).findings, AUTH);
            after.Some? && !after.value.status.Open?
  {
    hide IsProductOwnedFinding, NeverOpen, Import, Get, CanonicalFlags, FindingMatchesFixedPrefix, FixedFindingPrefix,
      PositiveFlagClosesFinding, FindingIds;
    AuthIsProductOwned();
    ProductOwnedAfterImport(state, batch, source, raw, AUTH);
    var flags := Canonicalize(batch, raw, state.findings).flags;
    AuthFixedIsKept(state.findings);
    AuthFixMatches();
    var flag :| flag in flags && FixedFindingPrefix(flag) == "AUTH_CHECK";
    assert "AUTH_CHECK" in FixedPrefixes(flags);
    assert HasFixEvidenceFromFlags(flags, AUTH);
  }

  // ---- A missing check is reported ----

  lemma AuthReportsNothingFixed()
    ensures FixedFindingPrefix(AUTH) == ""
  {
    hide FlagCode, FixedFindingPrefix, SameLetter, Plain, Unlisted, EndsLike;
    AuthIsOrdinary();
    AuthIsHard("");
    if FixedFindingPrefix(AUTH) != "" {
      FixedPrefixMeans(AUTH);
      AuthEnd();
    }
  }

  lemma AuthEnd()
    ensures !EndsLike(AUTH, "_VERIFIED") && !EndsLike(AUTH, "_WIRED")
    ensures forall i | 0 <= i < |FIX_SUFFIXES| :: !EndsLike(AUTH, FIX_SUFFIXES[i])
  {
    hide EndsLike;
    assert AUTH[|AUTH| - 1] == 'G';
    GIsOther();
    NotLike(AUTH, "_VERIFIED", 8);
    NotLike(AUTH, "_WIRED", 5);
    forall i | 0 <= i < |FIX_SUFFIXES| ensures !EndsLike(AUTH, FIX_SUFFIXES[i]) {
      SuffixEnd(i);
      NotLike(AUTH, FIX_SUFFIXES[i], |FIX_SUFFIXES[i]| - 1);
    }
  }

  lemma SuffixEnd(i: nat)
    requires i < |FIX_SUFFIXES|
    ensures var suffix := FIX_SUFFIXES[i]; suffix != "" && (suffix[|suffix| - 1] == 'D' || suffix[|suffix| - 1] == 'S')
  {
  }

  lemma GIsOther()
    ensures !SameLetter('G', 'D') && !SameLetter('G', 'S')
  {
  }

  lemma AuthBlocks()
    ensures IsBlockingFlag(AUTH)
  {
    hide FlagCode, Plain, Unlisted, IsPositiveFlag, IsWarningFlag, IsRuntimeRecoveryMetaFlag, IsNegativeRejection;
    AuthIsOrdinary();
    AuthIsHard("");
    NoRejected();
    UnlistedBlocks(AUTH, "");
    assert Upper(AUTH) == AUTH by { AuthStart(); UpperAlready(AUTH); }
    var words := ["FAILURE", "FAILED", "REJECTED", "MISSING", "GAP", "INVALID", "BLOCKING", "DRIFT", "LEAKAGE",
                  "FINDINGS", "UNWIRED", "UNVERIFIED", "NOT_WIRED", "MISMATCH", "UNVALIDATED"];
    assert AUTH[11..18] == "MISSING";
    assert OccursAt(AUTH, words[3], 11);
    assert !StartsWith(AUTH, "RECOVERED_") by { assert "RECOVERED_"[0] == 'R'; }
  }

  lemma NoRejected()
    ensures !EndsWith(AUTH, "_REJECTED")
  {
    if EndsWith(AUTH, "_REJECTED") { LastFour(AUTH, "_REJECTED"); }
  }

  lemma AuthIsCanonical(findings: seq<Finding>)
    requires Get(findings, AUTH).None?
    ensures CanonicalFlags([AUTH], findings) == [AUTH]
  {
    hide FlagCode, IsBlockingFlag, FixedFindingPrefix, Find, StartsWith, Upper, Trim;
    AuthReportsNothingFixed();
    assert FixedPrefixes([AUTH]) == {};
    NotSettled(findings);
    assert !InvalidPlaceholder(AUTH) by { AuthIsNoPlaceholder(); }
    FilterAll((flag: string) => !InvalidPlaceholder(flag), [AUTH]);
    var marked := Map((flag: string) => CanonicalFlag(flag, findings, {}), [AUTH]);
    assert marked == [AUTH];
    FilterAll((flag: string) => !IsStaleBlockingFlag(flag, {}), marked);
  }

  lemma AuthIsNoPlaceholder()
    ensures !InvalidPlaceholder(AUTH)
  {
    hide Trim, Plain, Unlisted, Upper, InvalidPlaceholder;
    AuthIsOrdinary();
    PlainCode(AUTH);
    assert Upper(AUTH) == AUTH by { PlainUpper(AUTH); }
    NoPlaceholder(AUTH);
  }

  lemma NotSettled(findings: seq<Finding>)
    requires Get(findings, AUTH).None?
    ensures !HasSettled(findings, AUTH)
  {
  }

  lemma AuthIsNoEvidence()
    ensures Unrelated(AUTH, AUTH)
  {
    hide FlagCode, FixedFindingPrefix, Plain, Unlisted, Related, Upper, IsEvidenceCode;
    AuthReportsNothingFixed();
    AuthIsOrdinary();
    AuthIsHard("");
    assert Upper(AUTH) == AUTH by { PlainUpper(AUTH); }
    NoEvidenceCode(AUTH);
  }

  lemma NoEvidenceCode(code: string)
    requires |code| == 18 && code[0] == 'A'
    ensures !IsEvidenceCode(code)
  {
    assert "ENTRYPOINT_"[0] == 'E' && "BUSINESS_LOGIC_"[0] == 'B';
  }

  /** A result that reports a missing check for the first time opens a finding for it. */
  lemma MissingCheckIsListed(state: BatchState, batch: nat, source: string, raw: BatchResult)
    requires UniqueIds(state.findings) && raw.flags == [AUTH] && Get(state.findings, AUTH).None?
    ensures var after := Get(Import(state, batch, source, raw).findings, AUTH); after.Some? && after.value.status.Open?
  {
    hide IsProductOwnedFinding, NeverOpen, Import, Get, CanonicalFlags, Unrelated, IsBlockingFlag,
      HasFixEvidenceFromFlags;
    AuthIsProductOwned();
    AuthBlocks();
    AuthIsCanonical(state.findings);
    AuthIsNoEvidence();
    AuthIsOrdinary();
    var result := Canonicalize(batch, raw, state.findings);
    FilterKeeps(IsBlockingFlag, result.flags, AUTH);
    assert AUTH in FindingIds(result);
    UnrelatedIsNoEvidence(result.flags, AUTH);
    ProductOwnedAfterImport(state, batch, source, raw, AUTH);
  }
}
