/** Flags that no list of the runtime recognises: neither positive, nor a warning, nor a note on recovery. */
module OrdinaryFlags {
  import opened Text
  import opened FlagClassification

  // ---- Codes that no list knows ----

  /** No list of codes has an entry that starts and ends as this code does. */
  predicate Unlisted(code: string) {
    && 4 <= |code| < 23 && Upper(code) == code && !SaysNonBlocking(code)
    && (code[0] == 'A' || code[0] == 'C' || code[0] == 'U' || (code[0] == 'R' && code[1] == 'U'))
    && EndsOtherwise(code)
  }

  /** The last four characters are CTED, LURE, ILED or SING. */
  predicate EndsOtherwise(code: string)
    requires |code| >= 4
  {
    var n := |code|;
    || (code[n - 4] == 'C' && code[n - 3] == 'T' && code[n - 2] == 'E' && code[n - 1] == 'D')
    || (code[n - 4] == 'L' && code[n - 3] == 'U' && code[n - 2] == 'R' && code[n - 1] == 'E')
    || (code[n - 4] == 'I' && code[n - 3] == 'L' && code[n - 2] == 'E' && code[n - 1] == 'D')
    || (code[n - 4] == 'S' && code[n - 3] == 'I' && code[n - 2] == 'N' && code[n - 1] == 'G')
  }

  lemma LastFour(s: string, suffix: string)
    requires |suffix| >= 4 && EndsWith(s, suffix)
    ensures var n, m := |s|, |suffix|;
            && n >= 4 && s[n - 4] == suffix[m - 4] && s[n - 3] == suffix[m - 3]
            && s[n - 2] == suffix[m - 2] && s[n - 1] == suffix[m - 1]
  {
    var end, m := s[|s| - |suffix|..], |suffix|;
    assert end[m - 4] == s[|s| - 4] && end[m - 3] == s[|s| - 3];
    assert end[m - 2] == s[|s| - 2] && end[m - 1] == s[|s| - 1];
  }

  lemma NotEnding(s: string, suffixes: seq<string>)
    requires |s| >= 4 && EndsOtherwise(s)
    requires forall i | 0 <= i < |suffixes| :: |suffixes[i]| >= 4 && !EndsOtherwise(suffixes[i])
    ensures !EndsWithAny(s, suffixes)
  {
    hide EndsWith;
    forall i | 0 <= i < |suffixes| ensures !EndsWith(s, suffixes[i]) {
      if EndsWith(s, suffixes[i]) { LastFour(s, suffixes[i]); }
    }
  }

  lemma NoPositiveSuffix(code: string)
    requires |code| >= 4 && EndsOtherwise(code) && Upper(code) == code
    ensures !HasPositiveSuffix(code)
  {
    hide EndsWithAny, Upper;
    NotEnding(code, ["_PASS", "_PASSED", "_FIXED", "_RECOVERED", "_RESOLVED", "_WIRED", "_PROPAGATED", "_SATISFIED",
                     "_COVERED", "_ENFORCED", "_VERIFIED", "_ALLOWLISTED", "_NORMALIZED", "_RECORDED",
                     "_EVIDENCE_RECORDED", "_REVERTED", "_PRESERVED", "_NOT_APPLICABLE", "_NO_LEAKS", "_UNTOUCHED",
                     "_NO_FINDINGS", "_NO_BLOCKING_FINDINGS", "_RECORDED_AS_MANUAL_NOT_FINDINGS"]);
  }

  lemma NoFinding(code: string)
    requires |code| >= 4 && EndsOtherwise(code)
    ensures !EndsWith(code, "_LOW_FINDING") && !EndsWith(code, "_MEDIUM_FINDING")
  {
    hide EndsWith;
    var suffixes := ["_LOW_FINDING", "_MEDIUM_FINDING"];
    NotEnding(code, suffixes);
    assert !EndsWith(code, suffixes[0]) && !EndsWith(code, suffixes[1]);
  }

  lemma NoPositive(code: string)
    requires Unlisted(code)
    ensures !IsPositiveCode(code) && !IsEntrypointEvidence(code)
  {
    hide SaysNonBlocking, Upper;
    assert code[0] != "ENTRYPOINT_VERIFIED_"[0];
  }

  lemma NoWarning(code: string)
    requires Unlisted(code)
    ensures !IsWarningCode(code)
    ensures code != "MODULARITY_RULE_FILE_LIMIT_VIOLATION" && code != "BUSINESS_LOGIC_UNTOUCHED_DOCS"
  {
    hide SaysNonBlocking, Upper;
  }

  lemma NoMeta(code: string)
    requires Unlisted(code)
    ensures !IsRecoveryMetaCode(code) && code != "CHANGED_FILE_MISSING_METADATA_REMOVED"
  {
    hide SaysNonBlocking, Upper;
  }

  /** A flag with such a code blocks, unless it is rejected by something but the runtime. */
  lemma UnlistedBlocks(flag: string, gate: string)
    requires flag != "" && flag[0] != 'Q' && Unlisted(FlagCode(flag))
    requires EndsWith(FlagCode(flag), "_REJECTED") ==> IsNegativeRejection(FlagCode(flag))
    ensures !IsPositiveFlag(flag) && !IsWarningFlag(flag, gate) && !IsRuntimeRecoveryMetaFlag(flag)
  {
    hide FlagCode, IsPositiveCode, IsWarningCode, IsRecoveryMetaCode, IsEntrypointEvidence, HasPositiveSuffix,
         SaysNonBlocking, EndsWith, Upper, IsNegativeRejection, IsTemplateManagedMetadataDetail, IsDangerousNonBlocking;
    var code := FlagCode(flag);
    NoPositive(code);
    NoWarning(code);
    NoMeta(code);
    NoPositiveSuffix(code);
    NoFinding(code);
    assert flag[0] != "QUALITY_WARNING:"[0];
  }

  lemma NotAFinding(s: string)
    requires s != "" && s[|s| - 1] != 'G'
    ensures !EndsWithAny(s, ["_LOW_FINDING", "_MEDIUM_FINDING"])
  {
    hide EndsWith;
    if EndsWith(s, "_LOW_FINDING") { LastFour(s, "_LOW_FINDING"); }
    if EndsWith(s, "_MEDIUM_FINDING") { LastFour(s, "_MEDIUM_FINDING"); }
  }

  predicate Plain(flag: string) {
    && |flag| > 1 && ':' !in flag && !IsSpace(flag[0]) && !IsSpace(flag[|flag| - 1])
    && !(UpperChar(flag[0]) == 'R' && UpperChar(flag[1]) == 'E') && Upper(flag) == flag
  }

  lemma PlainFlagCode(flag: string)
    requires Plain(flag)
    ensures FlagCode(flag) == flag && Trim(flag) == flag && !StartsWith(flag, SOURCE_PREFIX)
  {
    hide FlagCode, StripSource, StartsWith, Trim;
    NotMarked(flag);
    TrimPlain(flag);
    assert flag + "" == flag;
    UnmarkedCode(flag, "");
  }

  lemma NoNonBlocking(code: string)
    requires Upper(code) == code
    requires var text := "_" + code + "_";
             forall i | 0 <= i < |text| - 2 :: !(text[i] == '_' && text[i + 1] == 'N' && text[i + 2] == 'O')
    ensures !SaysNonBlocking(code)
  {
    hide OccursAt;
    var text, part := "_" + code + "_", "_NON_BLOCKING_";
    forall i: nat | i <= |text| - |part| ensures !OccursAt(text, part, i) {
      OccursStart(text, part, i);
    }
  }

  const AUTH := "AUTH_CHECK_MISSING"

  lemma AuthIsOrdinary()
    ensures Plain(AUTH) && Unlisted(AUTH) && AUTH[0] == 'A' && |AUTH| == 18
  {
    NoNonBlocking(AUTH);
  }

  /** A missing check is neither a warning nor positive. */
  lemma AuthIsHard(gate: string)
    ensures FlagCode(AUTH) == AUTH && !IsPositiveFlag(AUTH) && !IsWarningFlag(AUTH, gate)
  {
    hide FlagCode, Plain, Unlisted, Trim, StartsWith, IsNegativeRejection, IsPositiveFlag, IsWarningFlag,
      IsRuntimeRecoveryMetaFlag;
    AuthIsOrdinary();
    PlainFlagCode(AUTH);
    if EndsWith(AUTH, "_REJECTED") { LastFour(AUTH, "_REJECTED"); }
    UnlistedBlocks(AUTH, gate);
  }
}
