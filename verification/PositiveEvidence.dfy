/** What positive evidence closes: entrypoints and business logic by their subjects
    (tools/klevar-yolo-runtime/src/runtime-batch-state.ts:416-492). */
module PositiveEvidence {
  import opened Wrappers
  import opened Text
  import opened FlagClassification
  import opened OrdinaryFlags
  import opened FindingEvidence
  import opened FixEvidence
  import opened FlagExamples

  // ---- Subjects ----

  /** Words of capital letters and digits with single underscores between them, without a leading article. */
  predicate IsToken(s: string) {
    && s != "" && s[0] != '_' && s[|s| - 1] != '_'
    && (forall i | 0 <= i < |s| :: 'A' <= s[i] <= 'Z' || '0' <= s[i] <= '9' || s[i] == '_')
    && (forall i | 0 <= i < |s| - 1 && s[i] == '_' :: s[i + 1] != '_')
    && !StartsWith(s, "THE_") && !StartsWith(s, "A_") && !StartsWith(s, "AN_")
  }

  lemma {:induction false} UnderscoredWords(s: string)
    requires forall i | 0 <= i < |s| :: 'A' <= s[i] <= 'Z' || '0' <= s[i] <= '9' || s[i] == '_'
    requires forall i | 0 <= i < |s| - 1 && s[i] == '_' :: s[i + 1] != '_'
    ensures Underscored(s) == s
    decreases |s|
  {
    if s != "" {
      var rest := s[1..];
      assert forall i | 0 <= i < |rest| :: rest[i] == s[i + 1];
      UnderscoredWords(rest);
      assert s == [s[0]] + rest;
      if s[0] == '_' {
        OneDropped(s);
        assert "_" == [s[0]];
      }
    }
  }

  lemma OneDropped(s: string)
    requires s != "" && s[0] == '_' && (|s| > 1 ==> IsAlphanumeric(s[1]))
    ensures DropOthers(s) == s[1..]
  {
    assert |s| > 1 ==> s[1..][0] == s[1];
  }

  /** A subject in that form is its own normal form. */
  lemma TokenIsNormal(s: string)
    requires IsToken(s)
    ensures NormalizeToken(s) == s
  {
    hide Upper;
    UnderscoredWords(s);
    assert AllUpper(s);
    UpperAlready(s);
    StartsWithChar(s, '_');
    EndsWithChar(s, '_');
    assert ['_'] == "_";
  }

  lemma {:induction false} WordIsKept(word: string, rest: string)
    requires forall i | 0 <= i < |word| :: 'a' <= word[i] <= 'z'
    ensures Underscored(word + rest) == word + Underscored(rest)
  {
    if word == "" {
      assert word + rest == rest;
    } else {
      assert (word + rest)[1..] == word[1..] + rest && (word + rest)[0] == word[0];
      WordIsKept(word[1..], rest);
      assert word == [word[0]] + word[1..];
    }
  }

  /** White space before a word becomes one underscore. */
  lemma SpaceIsUnderscore(word: string, rest: string)
    requires word != "" && forall i | 0 <= i < |word| :: 'a' <= word[i] <= 'z'
    ensures Underscored(" " + word + rest) == "_" + (word + Underscored(rest))
  {
    var s := " " + word + rest;
    assert s[1..] == word + rest && s[1] == word[0];
    assert DropOthers(s) == word + rest;
    WordIsKept(word, rest);
  }

  /** A phrase is read as its words, without the article: `the order worker` as ORDER_WORKER. */
  lemma PhraseIsToken(word: string)
    requires word != "" && forall i | 0 <= i < |word| :: 'a' <= word[i] <= 'z'
    ensures NormalizeToken("the " + word + " worker") == Upper(word) + "_WORKER"
  {
    hide Upper, Underscored;
    var phrase := "the " + word + " worker";
    assert phrase == "the" + (" " + word + " worker") && " worker" == " " + "worker" + "";
    WordIsKept("the", " " + word + " worker");
    SpaceIsUnderscore(word, " worker");
    SpaceIsUnderscore("worker", "");
    assert Underscored("") == "" by { NothingUnderscored(); }
    assert Underscored(phrase) == "the_" + (word + "_worker");
    UpperPhrase(word);
    var words := "THE_" + (Upper(word) + "_WORKER");
    assert words[..4] == "THE_" && words[4..] == Upper(word) + "_WORKER";
    var plain := Upper(word) + "_WORKER";
    UpperFirst(word);
    StartsWithChar(plain, '_');
    EndsWithChar(plain, '_');
    assert ['_'] == "_" && plain[|plain| - 1] == 'R';
  }

  lemma NothingUnderscored()
    ensures Underscored("") == ""
  {
  }

  lemma UpperPhrase(word: string)
    ensures Upper("the_" + (word + "_worker")) == "THE_" + (Upper(word) + "_WORKER")
  {
    SameChars(Upper("the_" + (word + "_worker")), "THE_" + (Upper(word) + "_WORKER"));
  }

  lemma UpperFirst(word: string)
    requires word != "" && 'a' <= word[0] <= 'z'
    ensures Upper(word) != "" && Upper(word)[0] != '_'
  {
  }

  lemma TokenIsOneLine(s: string)
    requires IsToken(s)
    ensures OneLine(s)
  {
  }

  lemma TokenCode(front: string, s: string)
    requires IsBareStart(front) && IsToken(s)
    ensures FlagCode(front + s) == front + s && UpperCode(front + s) == front + s && Upper(front + s) == front + s
  {
    hide Upper, Trim, FlagCode, StripSource;
    var flag := front + s;
    assert AllUpper(flag);
    UpperAlready(flag);
    assert flag[0] == front[0] && flag[|flag| - 1] == s[|s| - 1];
    assert Plain(flag);
    PlainCode(flag);
  }

  /** Capital letters and underscores, starting with a letter other than R. */
  predicate IsBareStart(front: string) {
    |front| > 1 && front[0] != '_' && front[0] != 'R'
    && forall i | 0 <= i < |front| :: 'A' <= front[i] <= 'Z' || front[i] == '_'
  }

  // ---- Entrypoints ----

  const WIRED := "ENTRYPOINT_WIRED_"
  const UNWIRED := "ENTRYPOINT_UNWIRED_"

  lemma EntrypointStarts()
    ensures IsBareStart(WIRED) && IsBareStart(UNWIRED) && |WIRED| == 17 && |UNWIRED| == 19
    ensures WIRED[0] == 'E' && WIRED[1] == 'N' && WIRED[11] == 'W' && WIRED[12] == 'I'
    ensures UNWIRED[0] == 'E' && UNWIRED[11] == 'U' && UNWIRED[13] == 'W'
  {
  }

  lemma WiredIsPositive(s: string)
    requires IsToken(s) && !EndsWith(WIRED + s, "_NOT_WIRED") && !EndsWith(WIRED + s, "_REJECTED")
    ensures IsPositiveFlag(WIRED + s)
  {
    hide FlagCode, Upper, IsPositiveCode, IsTemplateManagedMetadataDetail, HasPositiveSuffix, EndsWith;
    var flag := WIRED + s;
    EntrypointStarts();
    TokenCode(WIRED, s);
    assert flag[..17] == WIRED;
    assert flag[0] == 'E' && flag[1] == 'N';
    EntrypointIsNotNegative(flag);
    assert StartsWith(flag, "ENTRYPOINT_WIRED_");
  }

  lemma EntrypointIsNotNegative(code: string)
    requires |code| > 2 && code[0] == 'E' && code[1] == 'N' && Upper(code) == code
    ensures !IsNegativeRejection(code)
  {
    hide Upper;
    var rejections := ["VALIDATOR_REJECTED_", "JOURNAL_REJECTED_", "RUNTIME_GATES_REJECTED_", "BUGFIX_REJECTED_",
                       "AUDIT_REJECTED_", "ADVERSARIAL_VALIDATION_REJECTED_", "RESULT_STATUS_REJECTED_",
                       "CONTRACT_REJECTED_", "GATE_REJECTED_", "SECURITY_REJECTED_", "SECRET_REJECTED_",
                       "AUTH_REJECTED_", "TENANT_REJECTED_", "EXTERNAL_OPS_REJECTED_"];
    var text := code + "_";
    assert forall i | 0 <= i < |rejections| :: rejections[i][0] != 'E' || rejections[i][1] != 'N';
    assert text[0] == 'E' && text[1] == 'N';
  }

  lemma WiredTarget(s: string)
    requires IsToken(s)
    ensures EntrypointTarget(WIRED + s, WIRED + s) == Some(s)
  {
    hide Upper, NormalizeToken, FlagDetail;
    EntrypointStarts();
    TokenIsNormal(s);
    TokenIsOneLine(s);
    var code := WIRED + s;
    assert code[11] == 'W' && "ENTRYPOINT_VERIFIED_"[11] == 'V';
    assert !StartsWith(code, "ENTRYPOINT_VERIFIED_");
    assert code[17..] == s && StartsWith(code, "ENTRYPOINT_WIRED_") by { assert code[..17] == WIRED; }
    TwoPrefixes(code, "ENTRYPOINT_VERIFIED_", "ENTRYPOINT_WIRED_");
    assert |"ENTRYPOINT_WIRED"| == 16 && code != "ENTRYPOINT_VERIFIED" by { assert "ENTRYPOINT_VERIFIED"[11] == 'V'; }
  }

  lemma TwoPrefixes(code: string, first: string, second: string)
    requires !StartsWith(code, first) && StartsWith(code, second)
    ensures WithoutPrefix(code, [first, second]) == Some(code[|second|..])
  {
    assert [first, second][1..] == [second];
  }

  lemma UnwiredSubject(s: string)
    requires IsToken(s)
    ensures IsEntrypointFinding(UNWIRED + s) && EntrypointSubject(UNWIRED + s, UNWIRED + s) == s
  {
    hide NormalizeToken, FlagDetail, EndsWith;
    EntrypointStarts();
    TokenIsNormal(s);
    var finding := UNWIRED + s;
    assert finding[..19] == UNWIRED && finding[19..] == s;
    assert finding[13] == 'W' && "ENTRYPOINT_UNVERIFIED_"[13] == 'V' && "ENTRYPOINT_UNVERIFIED"[13] == 'V';
    assert !StartsWith(finding, "ENTRYPOINT_UNVERIFIED_") && StartsWith(finding, "ENTRYPOINT_UNWIRED_");
    var prefixes := ["ENTRYPOINT_UNVERIFIED_", "ENTRYPOINT_UNWIRED_"];
    assert StartsWith(finding, prefixes[1]);
    TwoPrefixes(finding, prefixes[0], prefixes[1]);
    assert |"ENTRYPOINT_UNWIRED"| == 18;
  }

  /** Evidence that an entrypoint is wired closes the finding that one is not exactly when the subjects match: the same,
      the end of a longer one, or the same in the singular without the word for the kind of entrypoint. */
  lemma WiredCloses(s: string, subject: string)
    requires IsToken(s) && IsToken(subject)
    requires !EndsWith(WIRED + s, "_NOT_WIRED") && !EndsWith(WIRED + s, "_REJECTED")
    ensures PositiveFlagClosesFinding(WIRED + s, UNWIRED + subject) <==>
            s == subject || EndsWith(s, "_" + subject) || Singularize(WithoutNoun(s)) == Singularize(subject)
  {
    hide FlagCode, Upper, UpperCode, IsPositiveFlag, EntrypointTarget, IsEntrypointFinding, EntrypointSubject, EndsWith,
      Singularize, WithoutNoun;
    EntrypointStarts();
    WiredIsPositive(s);
    TokenCode(WIRED, s);
    TokenCode(UNWIRED, subject);
    WiredTarget(s);
    UnwiredSubject(subject);
  }

  /** It closes nothing but findings on entrypoints. */
  lemma WiredNeedsEntrypoint(s: string, id: string)
    requires IsToken(s) && PositiveFlagClosesFinding(WIRED + s, id)
    ensures var finding := UpperCode(id);
            || finding in ["ENTRYPOINT_UNVERIFIED", "ENTRYPOINT_UNWIRED"] || EndsWith(finding, "_NOT_WIRED")
            || StartsWith(finding, "ENTRYPOINT_UNVERIFIED_") || StartsWith(finding, "ENTRYPOINT_UNWIRED_")
  {
    hide FlagCode, Upper, UpperCode, IsPositiveFlag, EntrypointTarget, EntrypointSubjectMatches, EntrypointSubject,
      EndsWith, StartsWith, BusinessTarget, WithoutPrefix, NormalizeToken, BusinessSubjectMatches;
    EntrypointStarts();
    TokenCode(WIRED, s);
    WiredTarget(s);
    WiredIsNoOther(WIRED + s);
  }

  lemma WiredIsNoOther(code: string)
    requires code != "" && code[0] == 'E'
    ensures BusinessTarget(code).None? && code != "BUSINESS_LOGIC_DRIFT_SWEEP_PASS"
    ensures code != "TENANT_FAIRNESS_RATE_LIMIT_RETRY_PASS" && code != "GENERATED_FILE_DRIFT_REVERTED"
    ensures code != "PROTECTED_PATH_METADATA_REMOVED"
    ensures code != "MODULARITY_RULE_FILE_WARNING" + "_ROUTED_NON_BLOCKING"
  {
    assert "BUSINESS_LOGIC_"[0] == 'B' && "BUSINESS_LOGIC_EVIDENCE_"[0] == 'B';
    var passes := ["_PASS", "_PASSED", "_VERIFIED", "_FIXED"];
    NoneBetween(code, "BUSINESS_LOGIC_EVIDENCE_", passes);
    NoneBetween(code, "BUSINESS_LOGIC_", passes);
  }

  /** The subject may stand after a colon, on both sides. */
  lemma DetailCloses(s: string)
    requires IsToken(s)
    ensures PositiveFlagClosesFinding("ENTRYPOINT_WIRED:" + s, "ENTRYPOINT_UNWIRED:" + s)
  {
    hide FlagCode, Upper, UpperCode, IsPositiveFlag, FlagDetail, NormalizeToken, EndsWith, Singularize, WithoutNoun;
    DetailIsCode("ENTRYPOINT_WIRED", s);
    DetailIsCode("ENTRYPOINT_UNWIRED", s);
    assert "ENTRYPOINT_WIRED" + ":" == "ENTRYPOINT_WIRED:" && "ENTRYPOINT_UNWIRED" + ":" == "ENTRYPOINT_UNWIRED:";
    WiredAlone(s);
    TokenIsNormal(s);
  }

  lemma DetailIsCode(code: string, s: string)
    requires IsToken(s) && code in ["ENTRYPOINT_WIRED", "ENTRYPOINT_UNWIRED"]
    ensures FlagCode(code + ":" + s) == code && UpperCode(code + ":" + s) == code && FlagDetail(code + ":" + s) == s
  {
    hide Trim, StripSource, FlagCode, Before, Upper;
    var flag := code + (":" + s);
    assert flag == code + ":" + s;
    CodeShape(code);
    NotMarked(flag);
    UnmarkedCode(code, ":" + s);
    assert flag[0] == 'E' && flag[|flag| - 1] == s[|s| - 1];
    TrimPlain(flag);
    BeforeOfJoined(code, ":" + s, ':');
    assert Before(":" + s, ':') == "" by { ColonIsFirst(s); }
    assert flag[|code| + 1..] == s;
    NoSourcePrefix(flag);
  }

  lemma CodeShape(code: string)
    requires code in ["ENTRYPOINT_WIRED", "ENTRYPOINT_UNWIRED"]
    ensures |code| > 1 && code[0] == 'E' && code[|code| - 1] == 'D' && ':' !in code && Upper(code) == code
  {
    assert AllUpper(code);
    UpperAlready(code);
  }

  lemma ColonIsFirst(s: string)
    ensures Before(":" + s, ':') == ""
  {
    NothingBefore(":" + s);
  }

  lemma NoSourcePrefix(flag: string)
    requires flag != "" && flag[0] == 'E'
    ensures !(|flag| >= |SOURCE_PREFIX| && Upper(flag[..|SOURCE_PREFIX|]) == SOURCE_PREFIX)
  {
    if |flag| >= |SOURCE_PREFIX| {
      assert Upper(flag[..|SOURCE_PREFIX|])[0] == 'E' && SOURCE_PREFIX[0] == 'R';
    }
  }

  lemma WiredAlone(s: string)
    requires FlagCode("ENTRYPOINT_WIRED:" + s) == "ENTRYPOINT_WIRED"
    ensures IsPositiveFlag("ENTRYPOINT_WIRED:" + s)
  {
    hide FlagCode, Upper, IsPositiveCode, IsTemplateManagedMetadataDetail, IsEntrypointEvidence, IsNegativeRejection,
      EndsWith;
    var code := "ENTRYPOINT_WIRED";
    CodeShape(code);
    EntrypointIsNotNegative(code);
    WiredEnds();
    var suffixes := ["_PASS", "_PASSED", "_FIXED", "_RECOVERED", "_RESOLVED", "_WIRED", "_PROPAGATED", "_SATISFIED",
                     "_COVERED", "_ENFORCED", "_VERIFIED", "_ALLOWLISTED", "_NORMALIZED", "_RECORDED",
                     "_EVIDENCE_RECORDED", "_REVERTED", "_PRESERVED", "_NOT_APPLICABLE", "_NO_LEAKS", "_UNTOUCHED",
                     "_NO_FINDINGS", "_NO_BLOCKING_FINDINGS", "_RECORDED_AS_MANUAL_NOT_FINDINGS"];
    assert EndsWith(code, suffixes[5]);
  }

  lemma WiredEnds()
    ensures var code := "ENTRYPOINT_WIRED";
            && EndsWith(code, "_WIRED") && !EndsWith(code, "_NOT_WIRED") && !EndsWith(code, "_REJECTED")
            && code[1] == 'N'
  {
    var code := "ENTRYPOINT_WIRED";
    assert code[10..] == "_WIRED" && code[6..] == "OINT_WIRED" && "OINT_WIRED"[0] == 'O' && "_NOT_WIRED"[0] == '_';
    if EndsWith(code, "_REJECTED") { LastFour(code, "_REJECTED"); }
  }

  /** The orders worker is the entrypoint of an order, and not of a user. */
  lemma OrdersWorkerCloses()
    ensures PositiveFlagClosesFinding("ENTRYPOINT_WIRED_ORDERS_WORKER", "ENTRYPOINT_UNWIRED_ORDER")
    ensures !PositiveFlagClosesFinding("ENTRYPOINT_WIRED_ORDERS_WORKER", "ENTRYPOINT_UNWIRED_USER")
  {
    hide PositiveFlagClosesFinding, Singularize, EndsWith, Before;
    var s := "ORDERS_WORKER";
    OrdersAreTokens();
    assert "ENTRYPOINT_WIRED_ORDERS_WORKER" == WIRED + s;
    assert "ENTRYPOINT_UNWIRED_ORDER" == UNWIRED + "ORDER" && "ENTRYPOINT_UNWIRED_USER" == UNWIRED + "USER";
    WiredCloses(s, "ORDER");
    WiredCloses(s, "USER");
    OrdersAreOrder();
  }

  lemma OrdersAreTokens()
    ensures IsToken("ORDERS_WORKER") && IsToken("ORDER") && IsToken("USER")
    ensures !EndsWith("ORDERS_WORKER", "_USER")
    ensures !EndsWith(WIRED + "ORDERS_WORKER", "_NOT_WIRED") && !EndsWith(WIRED + "ORDERS_WORKER", "_REJECTED")
  {
    hide IsToken, EndsWith;
    OrdersWorkerIsToken();
    OrderIsToken();
    WorkerEnds("ORDERS_WORKER");
    WorkerEnds(WIRED + "ORDERS_WORKER");
  }

  lemma OrdersWorkerIsToken()
    ensures IsToken("ORDERS_WORKER") && EndsWith("ORDERS_WORKER", "_WORKER")
    ensures EndsWith(WIRED + "ORDERS_WORKER", "_WORKER")
  {
    assert "ORDERS_WORKER"[6..] == "_WORKER";
    var flag := WIRED + "ORDERS_WORKER";
    assert flag[|flag| - 7..] == "ORDERS_WORKER"[6..];
  }

  lemma OrderIsToken()
    ensures IsToken("ORDER") && IsToken("USER")
  {
  }

  /** What ends with WORKER ends otherwise than those. */
  lemma WorkerEnds(s: string)
    requires EndsWith(s, "_WORKER")
    ensures !EndsWith(s, "_NOT_WIRED") && !EndsWith(s, "_REJECTED") && !EndsWith(s, "_USER")
  {
    hide EndsWith;
    LastFour(s, "_WORKER");
    if EndsWith(s, "_NOT_WIRED") { LastFour(s, "_NOT_WIRED"); }
    if EndsWith(s, "_REJECTED") { LastFour(s, "_REJECTED"); }
    if EndsWith(s, "_USER") { LastFour(s, "_USER"); }
  }

  lemma OrdersAreOrder()
    ensures WithoutNoun("ORDERS_WORKER") == "ORDERS" && "_" + "USER" == "_USER"
    ensures Singularize("ORDERS") == "ORDER" && Singularize("ORDER") == "ORDER" && Singularize("USER") == "USER"
  {
    hide Singularize, WithoutNoun;
    OrdersShape();
    NounIsDropped("ORDERS", 2);
    OneWord("ORDERS");
    OneWord("ORDER");
    OneWord("USER");
  }

  lemma OrdersShape()
    ensures NOUNS[2] == "_WORKER" && "ORDERS" + "_WORKER" == "ORDERS_WORKER" && "_" + "USER" == "_USER"
    ensures |"ORDERS"| == 6 && "ORDERS"[5] == 'S' && "ORDERS"[..5] == "ORDER" && '_' !in "ORDERS"
    ensures |"ORDER"| == 5 && "ORDER"[4] == 'R' && '_' !in "ORDER"
    ensures |"USER"| == 4 && "USER"[3] == 'R' && '_' !in "USER"
  {
  }

  const NOUNS: seq<string> := ["_WIRING", "_ENTRYPOINT", "_WORKER"]

  /** The word for the kind of entrypoint is dropped, and no other. */
  lemma NounIsDropped(s: string, n: nat)
    requires n < |NOUNS|
    ensures WithoutNoun(s + NOUNS[n]) == s
  {
    var target := s + NOUNS[n];
    assert target[|s|..] == NOUNS[n] && target[..|s|] == s;
    assert target[|target| - 1] == NOUNS[n][|NOUNS[n]| - 1];
    if EndsWith(target, "_WIRING") { LastFour(target, "_WIRING"); }
    if EndsWith(target, "_ENTRYPOINT") { LastFour(target, "_ENTRYPOINT"); }
  }

  lemma OneWord(s: string)
    requires |s| > 3 && '_' !in s
    ensures Singularize(s) == if s[|s| - 1] == 'S' then s[..|s| - 1] else s
  {
    BeforeOfJoined(s, "", '_');
    assert s + "" == s && Before("", '_') == "";
  }

  // ---- Business logic ----

  const LOGIC := "BUSINESS_LOGIC_"
  const LOGIC_GAP := "BUSINESS_LOGIC_GAP_"

  lemma LogicStarts()
    ensures IsBareStart(LOGIC) && IsBareStart(LOGIC_GAP) && |LOGIC| == 15 && |LOGIC_GAP| == 19
    ensures LOGIC[0] == 'B' && LOGIC[2] == 'S' && LOGIC_GAP[0] == 'B' && LOGIC_GAP[15] == 'G'
  {
  }

  lemma PassedIsPositive(code: string)
    requires |code| > 5 && code[0] == 'B' && code[2] == 'S' && FlagCode(code) == code && Upper(code) == code
    requires EndsWith(code, "_PASS")
    ensures IsPositiveFlag(code)
  {
    hide FlagCode, Upper, IsPositiveCode, IsTemplateManagedMetadataDetail, IsEntrypointEvidence, IsNegativeRejection;
    NotNegative(code);
    LastFour(code, "_PASS");
    if EndsWith(code, "_NOT_WIRED") { LastFour(code, "_NOT_WIRED"); }
    if EndsWith(code, "_REJECTED") { LastFour(code, "_REJECTED"); }
    var suffixes := ["_PASS", "_PASSED", "_FIXED", "_RECOVERED", "_RESOLVED", "_WIRED", "_PROPAGATED", "_SATISFIED",
                     "_COVERED", "_ENFORCED", "_VERIFIED", "_ALLOWLISTED", "_NORMALIZED", "_RECORDED",
                     "_EVIDENCE_RECORDED", "_REVERTED", "_PRESERVED", "_NOT_APPLICABLE", "_NO_LEAKS", "_UNTOUCHED",
                     "_NO_FINDINGS", "_NO_BLOCKING_FINDINGS", "_RECORDED_AS_MANUAL_NOT_FINDINGS"];
    assert EndsWith(code, suffixes[0]);
  }

  lemma LogicTarget(s: string)
    requires IsToken(s) && s[0] != 'E'
    ensures BusinessTarget(LOGIC + s + "_PASS") == Some(s)
  {
    var code := LOGIC + s + "_PASS";
    LogicStarts();
    TokenIsOneLine(s);
    assert code[..15] == LOGIC && code[15] == s[0] && "BUSINESS_LOGIC_EVIDENCE_"[15] == 'E';
    assert !StartsWith(code, "BUSINESS_LOGIC_EVIDENCE_");
    NoneBetween(code, "BUSINESS_LOGIC_EVIDENCE_", ["_PASS", "_PASSED", "_VERIFIED", "_FIXED"]);
    assert code[|code| - 5..] == "_PASS" && code[15..|code| - 5] == s;
    assert StartsWith(code, "BUSINESS_LOGIC_") && EndsWith(code, "_PASS");
  }

  lemma {:induction false} NoneBetween(code: string, prefix: string, suffixes: seq<string>)
    requires !StartsWith(code, prefix)
    ensures Between(code, prefix, suffixes).None?
  {
    if suffixes != [] { NoneBetween(code, prefix, suffixes[1..]); }
  }

  lemma GapSubject(s: string)
    requires IsToken(s)
    ensures WithoutPrefix(LOGIC_GAP + s, ["BUSINESS_LOGIC_DRIFT_", "BUSINESS_LOGIC_GAP_", "BUSINESS_LOGIC_MISSING_",
                                          "BUSINESS_LOGIC_UNVERIFIED_", "BUSINESS_LOGIC_UNVALIDATED_"]) == Some(s)
    ensures !StartsWith(LOGIC_GAP + s, "BUSINESS_LOGIC_DRIFT_")
  {
    var finding := LOGIC_GAP + s;
    LogicStarts();
    var prefixes := ["BUSINESS_LOGIC_DRIFT_", "BUSINESS_LOGIC_GAP_", "BUSINESS_LOGIC_MISSING_",
                     "BUSINESS_LOGIC_UNVERIFIED_", "BUSINESS_LOGIC_UNVALIDATED_"];
    assert finding[15] == 'G' && "BUSINESS_LOGIC_DRIFT_"[15] == 'D';
    assert finding[..19] == LOGIC_GAP && finding[19..] == s;
    assert prefixes[1..][0] == "BUSINESS_LOGIC_GAP_";
  }

  /** Evidence that business logic passes closes a gap in it exactly when the subjects match: the same, the end of a
      longer one, the start of a more special one, or both of tenant fairness. */
  lemma PassClosesGap(s: string, subject: string)
    requires IsToken(s) && IsToken(subject) && s[0] != 'E'
    ensures PositiveFlagClosesFinding(LOGIC + s + "_PASS", LOGIC_GAP + subject) <==>
            || s == subject || EndsWith(s, "_" + subject) || StartsWith(subject, s + "_")
            || (StartsWith(s, "TENANT_FAIRNESS_") && StartsWith(subject, "TENANT_FAIRNESS_"))
  {
    hide FlagCode, Upper, UpperCode, IsPositiveFlag, EntrypointTarget, BusinessTarget, WithoutPrefix, NormalizeToken,
      EndsWith, StartsWith, IsEntrypointFinding;
    var flag, id := LOGIC + s + "_PASS", LOGIC_GAP + subject;
    LogicCode(s);
    LogicStarts();
    TokenCode(LOGIC_GAP, subject);
    LogicTarget(s);
    GapSubject(subject);
    NoEntrypoint(flag);
    GapIsNoOther(subject);
    TokenIsNormal(s);
    TokenIsNormal(subject);
  }

  lemma LogicCode(s: string)
    requires IsToken(s)
    ensures var flag := LOGIC + s + "_PASS";
            FlagCode(flag) == flag && UpperCode(flag) == flag && IsPositiveFlag(flag)
  {
    hide Upper, Trim, FlagCode, StripSource, UpperCode, IsPositiveFlag;
    var flag := LOGIC + s + "_PASS";
    LogicStarts();
    assert IsBareEnd("_PASS");
    assert AllUpper(flag);
    UpperAlready(flag);
    assert flag[0] == 'B' && flag[2] == 'S' && flag[|flag| - 1] == "_PASS"[4] == 'S';
    assert Plain(flag);
    PlainCode(flag);
    assert flag[|flag| - 5..] == "_PASS";
    PassedIsPositive(flag);
  }

  predicate IsBareEnd(s: string) {
    forall i | 0 <= i < |s| :: 'A' <= s[i] <= 'Z' || s[i] == '_'
  }

  lemma NoEntrypoint(code: string)
    requires code != "" && code[0] == 'B'
    ensures EntrypointTarget(code, code).None?
  {
    hide NormalizeToken, FlagDetail;
    if EntrypointTarget(code, code).Some? { EntrypointCodes(code, code); }
  }

  lemma GapIsNoOther(subject: string)
    ensures var finding := LOGIC_GAP + subject;
            && !StartsWith(finding, "BUSINESS_LOGIC_DRIFT_TENANT_FAIRNESS_")
            && !StartsWith(finding, "GENERATED_FILE_DRIFT_")
            && finding != "CHANGED_FILE_MISSING_METADATA_REMOVED" && finding != "MODULARITY_RULE_FILE_LIMIT_VIOLATION"
  {
    LogicStarts();
    assert (LOGIC_GAP + subject)[0] == 'B' && (LOGIC_GAP + subject)[15] == 'G';
    assert "BUSINESS_LOGIC_DRIFT_TENANT_FAIRNESS_"[15] == 'D' && "GENERATED_FILE_DRIFT_"[0] == 'G';
  }
}
