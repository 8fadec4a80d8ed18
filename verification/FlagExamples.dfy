/** One flag of each kind, and what the kinds rest on (tools/klevar-yolo-runtime/src/flag-classification.ts). */
module FlagExamples {
  import opened Text
  import opened FlagClassification
  import opened OrdinaryFlags
  import opened FindingEvidence
  import opened FixEvidence

  // ---- Codes as they stand ----

  /** Upper-case letters and underscores, starting with a letter other than R. */
  predicate IsBareCode(code: string) {
    && |code| > 1 && (forall k | 0 <= k < |code| :: 'A' <= code[k] <= 'Z' || code[k] == '_')
    && code[0] != '_' && code[0] != 'R'
  }

  lemma BareCode(code: string)
    requires IsBareCode(code)
    ensures FlagCode(code) == code && Upper(code) == code && UpperCode(code) == code && !StartsWith(code, "RECOVERED_")
  {
    hide FlagCode, Upper, Trim, StripSource;
    assert AllUpper(code);
    UpperAlready(code);
    assert Plain(code);
    PlainCode(code);
    assert "RECOVERED_"[0] == 'R';
  }

  // ---- Warnings ----

  lemma UnderscoresAround(code: string, part: string, i: nat)
    requires OccursAt("_" + code + "_", part, i) && Upper(code) == code
    ensures Includes("_" + Upper(code) + "_", part)
  {
  }

  /** What says that it does not block is a warning, unless the runtime or a guarded part says so. */
  lemma NonBlockingIsWarning()
    ensures IsWarningFlag("COPY_NON_BLOCKING", "") && !IsBlockingFlag("COPY_NON_BLOCKING")
  {
    hide FlagCode, IsWarningCode, Upper, IsDangerousNonBlocking, IsPositiveFlag, IsRuntimeRecoveryMetaFlag,
      HasBlockingWord;
    var code := "COPY_NON_BLOCKING";
    CopyIsBare();
    BareCode(code);
    assert ("_" + code + "_")[5..19] == "_NON_BLOCKING_" == ("_COPY_NON_BLOCKING_")[5..19] by { CopyMiddle(); }
    UnderscoresAround(code, "_NON_BLOCKING_", 5);
    NotGuarded(code);
  }

  lemma CopyIsBare()
    ensures IsBareCode("COPY_NON_BLOCKING") && |"COPY_NON_BLOCKING"| == 17
  {
  }

  lemma CopyMiddle()
    ensures "_COPY_NON_BLOCKING_"[5..19] == "_NON_BLOCKING_" && "_" + "COPY_NON_BLOCKING" + "_" == "_COPY_NON_BLOCKING_"
  {
  }

  /** No guarded part starts as such a code does. */
  lemma NotGuarded(code: string)
    requires |code| > 2 && code[0] == 'C' && code[1] == 'O' && code[2] == 'P' && Upper(code) == code
    ensures !IsDangerousNonBlocking(code)
  {
    hide Upper, EndsWith;
    var owners := ["VALIDATOR", "JOURNAL", "RUNTIME_GATES", "BUGFIX", "AUDIT", "ADVERSARIAL_VALIDATION",
                   "RESULT_STATUS", "CONTRACT", "GATE", "SECURITY", "SECRET", "AUTH", "TENANT", "EXTERNAL_OPS",
                   "COMMAND", "ARTIFACT"];
    assert forall i | 0 <= i < |owners| :: |owners[i]| > 2 && (owners[i][0] != 'C' || owners[i][2] != 'P');
  }

  /** The security part stays guarded, whatever it says about itself. */
  lemma SecurityIsGuarded(middle: string)
    requires middle == "" || (middle[0] == '_' && OneLine(middle))
    requires Upper("SECURITY" + middle + "_NON_BLOCKING") == "SECURITY" + middle + "_NON_BLOCKING"
    ensures IsDangerousNonBlocking("SECURITY" + middle + "_NON_BLOCKING")
  {
    hide Upper, OneLine;
    var code := "SECURITY" + middle + "_NON_BLOCKING";
    assert |"SECURITY"| == 8 && |"_NON_BLOCKING"| == 13;
    assert code[..8] == "SECURITY" && code[|code| - 13..] == "_NON_BLOCKING" && code[8..|code| - 13] == middle;
    assert IsOwnerThen(code, "SECURITY", "_NON_BLOCKING");
    SecurityIsOwner();
  }

  lemma SecurityIsOwner()
    ensures ["VALIDATOR", "JOURNAL", "RUNTIME_GATES", "BUGFIX", "AUDIT", "ADVERSARIAL_VALIDATION", "RESULT_STATUS",
             "CONTRACT", "GATE", "SECURITY", "SECRET", "AUTH", "TENANT", "EXTERNAL_OPS", "COMMAND",
             "ARTIFACT"][9] == "SECURITY"
  {
  }

  /** A longer word that only starts as the name of a guarded part is not guarded. */
  lemma LongerWordIsNotGuarded(code: string)
    requires |code| > 4 && code[0] == 'A' && code[1] == 'U' && code[2] == 'T' && code[3] == 'H' && code[4] != '_'
    requires Upper(code) == code && |code| > 17
    ensures !IsDangerousNonBlocking(code)
  {
    hide Upper, EndsWith;
    var owners := ["VALIDATOR", "JOURNAL", "RUNTIME_GATES", "BUGFIX", "AUDIT", "ADVERSARIAL_VALIDATION",
                   "RESULT_STATUS", "CONTRACT", "GATE", "SECURITY", "SECRET", "AUTH", "TENANT", "EXTERNAL_OPS",
                   "COMMAND", "ARTIFACT"];
    forall i | 0 <= i < |owners| ensures !IsOwnerThen(code, owners[i], "_NON_BLOCKING") {
      assert i != 11 ==> owners[i][0] != 'A' || owners[i][1] != 'U' || owners[i][2] != 'T';
      if i == 11 { assert |owners[i]| == 4 && |"_NON_BLOCKING"| == 13; }
    }
  }

  /** The bare code for a warning on quality is one, in any gate. */
  lemma QualityIsWarning(gate: string)
    ensures IsWarningFlag("QUALITY_WARNING", gate) && !IsBlockingFlag("QUALITY_WARNING")
  {
    hide FlagCode, IsPositiveFlag, IsRuntimeRecoveryMetaFlag, HasBlockingWord, SaysNonBlocking, IsDangerousNonBlocking;
    assert IsBareCode("QUALITY_WARNING");
    BareCode("QUALITY_WARNING");
  }

  // ---- Positive flags ----

  /** A report of no findings is positive, though it names findings. */
  lemma NoFindingsIsPositive()
    ensures IsPositiveFlag("NO_FINDINGS") && !IsBlockingFlag("NO_FINDINGS")
  {
    hide FlagCode, Upper, IsRuntimeRecoveryMetaFlag, HasBlockingWord, IsWarningFlag;
    assert IsBareCode("NO_FINDINGS");
    BareCode("NO_FINDINGS");
  }

  lemma StockIsBare()
    ensures var code := "BUSINESS_RULE_STOCK_REJECTED";
            IsBareCode(code) && |code| == 28 && code[0] == 'B' && code[2] == 'S'
  {
  }

  lemma StockIsRejected()
    ensures var code := "BUSINESS_RULE_STOCK_REJECTED";
            IsRejectedCase(code, "BUSINESS_RULE_") && EndsWith(code, "_REJECTED")
  {
    var code := "BUSINESS_RULE_STOCK_REJECTED";
    assert code[..14] == "BUSINESS_RULE_" && code[19..] == "_REJECTED" && code[14..19] == "STOCK";
  }

  lemma NotNegative(code: string)
    requires |code| > 2 && code[0] == 'B' && code[2] == 'S' && Upper(code) == code
    ensures !IsNegativeRejection(code)
  {
    hide Upper;
    var rejections := ["VALIDATOR_REJECTED_", "JOURNAL_REJECTED_", "RUNTIME_GATES_REJECTED_", "BUGFIX_REJECTED_",
                       "AUDIT_REJECTED_", "ADVERSARIAL_VALIDATION_REJECTED_", "RESULT_STATUS_REJECTED_",
                       "CONTRACT_REJECTED_", "GATE_REJECTED_", "SECURITY_REJECTED_", "SECRET_REJECTED_",
                       "AUTH_REJECTED_", "TENANT_REJECTED_", "EXTERNAL_OPS_REJECTED_"];
    var text := code + "_";
    assert forall i | 0 <= i < |rejections| :: rejections[i][0] != 'B' || rejections[i][2] != 'S';
    assert text[0] == 'B' && text[2] == 'S';
  }

  /** A case that a business rule rejects is positive: the rule holds. One that a validator rejects is not. */
  lemma RuleRejectionIsPositive()
    ensures IsPositiveFlag("BUSINESS_RULE_STOCK_REJECTED")
  {
    hide FlagCode, Upper, IsNegativeRejection, IsRejectedCase, EndsWith, IsPositiveCode,
      IsTemplateManagedMetadataDetail;
    var code := "BUSINESS_RULE_STOCK_REJECTED";
    StockIsBare();
    BareCode(code);
    StockIsRejected();
    NotNegative(code);
    assert !EndsWith(code, "_NOT_WIRED") by { EndsOtherwiseThan(code, "_NOT_WIRED"); }
    var owners := ["CROSS_ORDER_", "BUSINESS_RULE_", "DOMAIN_RULE_", "INPUT_RULE_", "PAYMENT_RULE_", "MATCHING_RULE_",
                   "VALIDATION_CASE_"];
    assert IsRejectedCase(Upper(code), owners[1]);
  }

  lemma EndsOtherwiseThan(s: string, suffix: string)
    requires |suffix| >= 4 && |s| >= 3 && s[|s| - 3] != suffix[|suffix| - 3]
    ensures !EndsWith(s, suffix)
  {
    if EndsWith(s, suffix) { LastFour(s, suffix); }
  }

  /** A rejection outside the business rules is not positive. */
  lemma StockAloneIsNotPositive()
    ensures !IsPositiveFlag("STOCK_REJECTED") && IsBareCode("STOCK_REJECTED")
  {
    hide FlagCode, Upper, EndsWith, IsTemplateManagedMetadataDetail, IsNegativeRejection, HasPositiveSuffix,
      IsEntrypointEvidence;
    var code := "STOCK_REJECTED";
    assert IsBareCode(code) && |code| == 14;
    BareCode(code);
    StockEnds();
    NoOwner(code);
  }

  lemma StockEnds()
    ensures EndsWith("STOCK_REJECTED", "_REJECTED")
  {
    assert "STOCK_REJECTED"[5..] == "_REJECTED";
  }

  lemma NoOwner(code: string)
    requires |code| > 1 && code[0] == 'S' && Upper(code) == code
    ensures !IsBusinessRuleRejected(code)
  {
    hide Upper, EndsWith;
    var owners := ["CROSS_ORDER_", "BUSINESS_RULE_", "DOMAIN_RULE_", "INPUT_RULE_", "PAYMENT_RULE_", "MATCHING_RULE_",
                   "VALIDATION_CASE_"];
    assert forall i | 0 <= i < |owners| :: owners[i][0] != 'S';
  }

  // ---- Flags of neither kind ----

  /** A recovery note does not block, though it names a rejection. */
  lemma RecoveryNoteDoesNotBlock()
    ensures IsRuntimeRecoveryMetaFlag("RUNTIME_GATES_REJECTED_RECOVERED")
    ensures !IsBlockingFlag("RUNTIME_GATES_REJECTED_RECOVERED")
  {
    hide FlagCode, Upper, IsPositiveFlag, HasBlockingWord, IsWarningFlag;
    var code := "RUNTIME_GATES_REJECTED_RECOVERED";
    assert AllUpper(code);
    UpperAlready(code);
    assert Plain(code) by { NoteIsPlain(); }
    PlainCode(code);
  }

  lemma NoteIsPlain()
    ensures Plain("RUNTIME_GATES_REJECTED_RECOVERED")
  {
    assert AllUpper("RUNTIME_GATES_REJECTED_RECOVERED");
    UpperAlready("RUNTIME_GATES_REJECTED_RECOVERED");
  }

  /** A flag that names nothing wrong does not block. */
  lemma NeutralDoesNotBlock()
    ensures !IsBlockingFlag("CACHE_WARMED")
  {
    hide FlagCode, Upper, IsPositiveFlag, IsWarningFlag, IsRuntimeRecoveryMetaFlag, OccursAt;
    var code := "CACHE_WARMED";
    assert IsBareCode(code) && forall k | 0 <= k < |code| :: !IsTelling(code[k]);
    BareCode(code);
    NoBlockingWord(code);
  }

  /** Letters of which every blocking word has one. */
  predicate IsTelling(c: char) {
    c == 'F' || c == 'J' || c == 'I' || c == 'G' || c == 'L' || c == 'U' || c == 'N'
  }

  lemma NoBlockingWord(code: string)
    requires Upper(code) == code && forall k | 0 <= k < |code| :: !IsTelling(code[k])
    ensures !HasBlockingWord(code)
  {
    hide Upper, Includes;
    var words := ["FAILURE", "FAILED", "REJECTED", "MISSING", "GAP", "INVALID", "BLOCKING", "DRIFT", "LEAKAGE",
                  "FINDINGS", "UNWIRED", "UNVERIFIED", "NOT_WIRED", "MISMATCH", "UNVALIDATED"];
    var strange := [0, 0, 2, 1, 0, 0, 1, 3, 0, 0, 0, 0, 0, 1, 0];
    assert |strange| == |words|;
    forall w | 0 <= w < |words| ensures !Includes(code, words[w]) {
      assert strange[w] < |words[w]| && IsTelling(words[w][strange[w]]);
      StrangeText(code, words[w], strange[w]);
    }
  }
}
