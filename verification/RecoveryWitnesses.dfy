/** Concrete flags on which the general statements about signatures stop holding. */
module RecoveryWitnesses {
  import opened Wrappers
  import opened Sequences
  import opened Text
  import opened FlagClassification
  import opened OrdinaryFlags
  import opened RuntimeTypes
  import opened RecoverySignatures
  import opened RecoveryLoops
  import opened RecoveryProperties
  import opened RecoveryPipes
  import opened RecoveryTurns

  const RERUN := "COMMAND_RERUN_FAILED"

  /** A flag of the command gate: the command that was run again holds a pipe. */
  const PIPED := RERUN + ":green:npm test " + "|" + " tee log:1"

  // ---- Blocking flags that are kept as they are ----

  lemma UnlistedIsKept(flag: string)
    requires flag != "" && flag[0] != 'Q' && Trim(flag) == flag && !StartsWith(flag, SOURCE_PREFIX)
             && UpperChar(flag[|flag| - 1]) != 'G'
    requires Unlisted(FlagCode(flag))
    requires EndsWith(FlagCode(flag), "_REJECTED") ==> IsNegativeRejection(FlagCode(flag))
    ensures NormalizeRecoveryFlag(flag) == Some(flag)
  {
    hide FlagCode, Unlisted, IsPositiveFlag, IsWarningFlag, IsRuntimeRecoveryMetaFlag, EndsWith, IsNegativeRejection,
         Trim, StartsWith, EndsWithAny;
    UnlistedBlocks(flag, "");
    assert Upper(flag)[|flag| - 1] != 'G';
    NotAFinding(Upper(flag));
  }

  lemma GatesRejectedIsPlain()
    ensures Plain(GATES_REJECTED) && Unlisted(GATES_REJECTED) && Upper(GATES_REJECTED) == GATES_REJECTED
    ensures GATES_REJECTED[0] == 'R'
    ensures UpperChar(GATES_REJECTED[|GATES_REJECTED| - 1]) == 'D'
  {
    NoNonBlocking(GATES_REJECTED);
  }

  lemma GatesRejectedIsNegative()
    ensures IsNegativeRejection(GATES_REJECTED)
  {
    var rejections := ["VALIDATOR_REJECTED_", "JOURNAL_REJECTED_", "RUNTIME_GATES_REJECTED_", "BUGFIX_REJECTED_",
                       "AUDIT_REJECTED_", "ADVERSARIAL_VALIDATION_REJECTED_", "RESULT_STATUS_REJECTED_",
                       "CONTRACT_REJECTED_", "GATE_REJECTED_", "SECURITY_REJECTED_", "SECRET_REJECTED_",
                       "AUTH_REJECTED_", "TENANT_REJECTED_", "EXTERNAL_OPS_REJECTED_"];
    GatesRejectedIsPlain();
    assert rejections[2] == GATES_REJECTED + "_";
    assert StartsWith(Upper(GATES_REJECTED) + "_", rejections[2]);
  }

  lemma GatesRejectedIsKept()
    ensures NormalizeRecoveryFlag(GATES_REJECTED) == Some(GATES_REJECTED)
  {
    hide NormalizeRecoveryFlag, FlagCode, Plain, Unlisted, Trim, StartsWith, IsNegativeRejection;
    GatesRejectedIsPlain();
    GatesRejectedIsNegative();
    PlainFlagCode(GATES_REJECTED);
    UnlistedIsKept(GATES_REJECTED);
  }

  lemma UnknownIsPlain()
    ensures Plain(UNKNOWN) && Unlisted(UNKNOWN) && !EndsWith(UNKNOWN, "_REJECTED") && UNKNOWN[0] == 'U'
    ensures UpperChar(UNKNOWN[|UNKNOWN| - 1]) == 'E'
  {
    NoNonBlocking(UNKNOWN);
  }

  lemma UnknownIsKept()
    ensures NormalizeRecoveryFlag(UNKNOWN) == Some(UNKNOWN)
  {
    hide NormalizeRecoveryFlag, FlagCode, Plain, Unlisted, Trim, StartsWith, EndsWith;
    UnknownIsPlain();
    PlainFlagCode(UNKNOWN);
    UnlistedIsKept(UNKNOWN);
  }

  /** The corner of `SignatureIsFlagSet`: no blocking flag at all and an unknown failure share a signature. */
  lemma EmptySharesUnknown()
    ensures BlockingRecoveryFlags([], Some("")) == [] && BlockingRecoveryFlags([], None) == [UNKNOWN]
    ensures FailureSignature([], Some("")) == FailureSignature([], None)
  {
    UnknownIsKept();
    EmptyIsDropped();
    hide NormalizeRecoveryFlag, Join, Sort;
    OneNormalized("");
    OneNormalized(UNKNOWN);
    assert [""] + [] == [""] && [UNKNOWN] + [] == [UNKNOWN];
    assert Join(Sort([UNKNOWN])) == UNKNOWN && Join(Sort([])) == "" by { OneJoined(UNKNOWN); }
  }

  lemma EmptyIsDropped()
    ensures NormalizeRecoveryFlag("") == None
  {
    hide IsPositiveFlag, IsWarningFlag, IsRuntimeRecoveryMetaFlag, EndsWithAny;
  }

  lemma OneNormalized(flag: string)
    ensures NormalizeAll([flag]) == if NormalizeRecoveryFlag(flag).Some? then [NormalizeRecoveryFlag(flag).value]
            else []
  {
    hide NormalizeRecoveryFlag;
    assert [flag][..0] == [];
  }

  lemma OneJoined(flag: string)
    ensures Join(Sort([flag])) == flag && Join(Sort([])) == ""
  {
    assert Sort([flag]) == Insert(flag, Sort([])) == [flag];
  }

  /** In the gate loop the corner cannot occur: signatures are equal exactly when the sets of blocking flags are. */
  lemma GateSignatureIsFlagSet(f1: seq<string>, f2: seq<string>)
    requires PipeFree(f1) && PipeFree(f2)
    ensures FailureSignature(f1, Some(GATES_REJECTED)) == FailureSignature(f2, Some(GATES_REJECTED)) <==>
            SameFlags(BlockingRecoveryFlags(f1, Some(GATES_REJECTED)), BlockingRecoveryFlags(f2, Some(GATES_REJECTED)))
  {
    NoPipes();
    GatesRejectedBlocks(f1);
    GatesRejectedBlocks(f2);
    hide BlockingRecoveryFlags, FailureSignature;
    SignatureIsFlagSet(f1, Some(GATES_REJECTED), f2, Some(GATES_REJECTED));
  }

  lemma GatesRejectedBlocks(flags: seq<string>)
    ensures GATES_REJECTED in BlockingRecoveryFlags(flags, Some(GATES_REJECTED))
  {
    GatesRejectedIsKept();
    hide NormalizeRecoveryFlag;
    assert [GATES_REJECTED] + flags != [];
    HeadIsKept(GATES_REJECTED, flags);
  }

  lemma {:induction false} HeadIsKept(flag: string, flags: seq<string>)
    requires NormalizeRecoveryFlag(flag) == Some(flag)
    ensures flag in NormalizeAll([flag] + flags)
  {
    hide NormalizeRecoveryFlag;
    if flags == [] {
      assert [flag] + flags == [flag];
      assert NormalizeAll([flag]) == [flag];
    } else {
      var n := |flags| - 1;
      assert ([flag] + flags)[..n + 1] == [flag] + flags[..n];
      HeadIsKept(flag, flags[..n]);
    }
  }

  // ---- A flag with a pipe reaches the poisoned exit ----

  lemma OwnedByCode(flag: string)
    requires Upper(FlagCode(flag)) == FlagCode(flag) && HasRuntimePrefix(FlagCode(flag))
    ensures IsRuntimeOwnedRecoveryFlag(flag)
  {
    hide IsNonRecoverableRuntimeFlag, IsBadArtifactCode, HasRuntimePrefix, FlagCode, IsMissingFileCode,
      IsRuntimeNoteCode, Upper;
  }

  lemma RuntimePrefix(rest: string)
    ensures HasRuntimePrefix("RUNTIME_" + rest)
  {
    var code := "RUNTIME_" + rest;
    assert StartsWith(code + "_", "RUNTIME_");
    assert ["VALIDATOR_REJECTED_", "PLAN_REJECTED_", "RUNTIME_", "BUGFIX_", "CONTRACT_", "RESULT_STATUS_", "GATE_",
            "JOURNAL_", "AGENT_", "WORKTREE_", "COMMAND_RERUN_", "ADJUDICATION_"][2] == "RUNTIME_";
  }

  lemma RerunPrefix(rest: string)
    ensures HasRuntimePrefix("COMMAND_RERUN_" + rest)
  {
    var code := "COMMAND_RERUN_" + rest;
    assert StartsWith(code + "_", "COMMAND_RERUN_");
    assert ["VALIDATOR_REJECTED_", "PLAN_REJECTED_", "RUNTIME_", "BUGFIX_", "CONTRACT_", "RESULT_STATUS_", "GATE_",
            "JOURNAL_", "AGENT_", "WORKTREE_", "COMMAND_RERUN_", "ADJUDICATION_"][10] == "COMMAND_RERUN_";
  }

  lemma RerunShape()
    ensures |RERUN| == 20 && RERUN[0] == 'C' && RERUN[1] == 'O' && ':' !in RERUN && RERUN[19] == 'D'
  {
  }

  lemma RerunIsUpper()
    ensures Upper(RERUN) == RERUN
  {
    assert forall i | 0 <= i < |RERUN| :: !('a' <= RERUN[i] <= 'z');
    UpperAlready(RERUN);
  }

  lemma PipedShape()
    ensures |PIPED| > 20 && PIPED[0] == 'C' && PIPED[|PIPED| - 1] == '1' && Trim(PIPED) == PIPED
    ensures FlagCode(PIPED) == RERUN && !StartsWith(PIPED, SOURCE_PREFIX)
  {
    hide Trim, StripSource, StartsWith, FlagCode;
    RerunShape();
    var rest := ":green:npm test " + "|" + " tee log:1";
    assert PIPED == RERUN + rest;
    TrimPlain(PIPED);
    NotMarked(PIPED);
    UnmarkedCode(RERUN, rest);
  }

  lemma RerunIsUnlisted()
    ensures Unlisted(RERUN) && !EndsWith(RERUN, "_REJECTED")
  {
    RerunIsUpper();
    NoNonBlocking(RERUN);
  }

  lemma PipedIsKept()
    ensures NormalizeRecoveryFlag(PIPED) == Some(PIPED)
  {
    hide NormalizeRecoveryFlag, FlagCode, Unlisted, Trim, StartsWith, EndsWith;
    PipedShape();
    RerunIsUnlisted();
    UnlistedIsKept(PIPED);
  }

  lemma PipedIsBlocking(gate: string)
    ensures !IsPositiveFlag(PIPED) && !IsWarningFlag(PIPED, gate) && !IsRuntimeRecoveryMetaFlag(PIPED)
  {
    hide FlagCode, Unlisted, Trim, StartsWith, EndsWith, IsPositiveFlag, IsWarningFlag, IsRuntimeRecoveryMetaFlag;
    PipedShape();
    RerunIsUnlisted();
    UnlistedBlocks(PIPED, gate);
  }

  lemma BothAreOwned()
    ensures IsRuntimeOwnedRecoveryFlag(GATES_REJECTED) && IsRuntimeOwnedRecoveryFlag(PIPED)
  {
    hide IsRuntimeOwnedRecoveryFlag;
    GatesRejectedIsOwned();
    PipedIsOwned();
  }

  lemma GatesRejectedIsOwned()
    ensures IsRuntimeOwnedRecoveryFlag(GATES_REJECTED)
  {
    hide IsRuntimeOwnedRecoveryFlag, FlagCode, Plain, Upper, HasRuntimePrefix, StartsWith, Trim;
    GatesRejectedIsPlain();
    PlainFlagCode(GATES_REJECTED);
    assert GATES_REJECTED == "RUNTIME_" + "GATES_REJECTED";
    RuntimePrefix("GATES_REJECTED");
    OwnedByCode(GATES_REJECTED);
  }

  lemma PipedIsOwned()
    ensures IsRuntimeOwnedRecoveryFlag(PIPED)
  {
    hide IsRuntimeOwnedRecoveryFlag, FlagCode, Upper, HasRuntimePrefix, StartsWith, Trim;
    RerunIsUpper();
    PipedShape();
    assert RERUN == "COMMAND_RERUN_" + "FAILED";
    RerunPrefix("FAILED");
    OwnedByCode(PIPED);
  }

  lemma PipedBlocks()
    ensures BlockingRecoveryFlags([PIPED], Some(GATES_REJECTED)) == [GATES_REJECTED, PIPED]
  {
    hide BlockingRecoveryFlags, NormalizeRecoveryFlag, FlagCode, Trim;
    GatesRejectedIsKept();
    PipedIsKept();
    PipedShape();
    assert PIPED[0] != GATES_REJECTED[0];
    TwoBlock(GATES_REJECTED, PIPED);
  }

  lemma TwoBlock(a: string, b: string)
    requires NormalizeRecoveryFlag(a) == Some(a) && NormalizeRecoveryFlag(b) == Some(b) && a != b
    ensures BlockingRecoveryFlags([b], Some(a)) == [a, b]
  {
    hide NormalizeRecoveryFlag;
    var sources, blocking := [a] + [b], [a, b];
    assert sources[..1] == [a] && sources[1] == b;
    OneNormalized(a);
    assert NormalizeAll(sources) == blocking;
    assert blocking[..1] == [a];
    assert Unique([a]) == [a] by { assert [a][..0] == []; }
  }

  // ---- The part after the pipe ----

  const TEE := "tee log:1"

  lemma SevenLetterIsNoCode(code: string)
    requires |code| == 7 && (code[0] == 't' || code[0] == 'T')
    ensures !IsNonRecoverableRuntimeCode(code) && !IsMissingPathEvidenceCode(code) && !IsMissingFileCode(code)
    ensures !HasRuntimePrefix(code) && !IsBadArtifactCode(code) && !IsRuntimeNoteCode(code)
  {
    assert (code + "_")[0] == code[0];
    assert |"TEMPLATE_MANAGED_PROTECTED_PATH"| == 31;
  }

  lemma TeeCode()
    ensures FlagCode(TEE) == "tee log"
  {
    hide Trim, StripSource, StartsWith, FlagCode;
    assert TEE == "tee log" + ":1";
    NotMarked(TEE);
    UnmarkedCode("tee log", ":1");
  }

  lemma TeeIsNotOwned()
    ensures !IsRuntimeOwnedRecoveryFlag(TEE)
  {
    hide FlagCode, IsNonRecoverableRuntimeCode, IsMissingPathEvidenceCode, IsMissingFileCode, HasRuntimePrefix,
      IsBadArtifactCode,
         IsRuntimeNoteCode, Trim;
    TeeCode();
    var code := "tee log";
    assert |Upper(code)| == 7 && Upper(code)[0] == 'T';
    SevenLetterIsNoCode(code);
    SevenLetterIsNoCode(Upper(code));
  }

  lemma TeeIsPart()
    ensures TEE in SignatureFlags(PIPED)
  {
    hide Split, Trim, StripSource;
    var head := RERUN + ":green:npm test ";
    assert PIPED == head + "|" + (" " + TEE);
    SignatureConcat(head, " " + TEE);
    TeeAlone();
  }

  lemma TeeAlone()
    ensures TEE in SignatureFlags(" " + TEE)
  {
    hide SignatureFlags, Trim;
    assert '|' !in TEE && '|' !in " " + TEE;
    TeeTrimmed();
    PartAlone(" " + TEE);
  }

  lemma PartAlone(piece: string)
    requires '|' !in piece && Trim(piece) != ""
    ensures SignatureFlags(piece) == [Trim(piece)]
  {
    hide Trim;
    BeforeOfJoined(piece, "", '|');
    assert piece + "" == piece;
    assert Split(piece, '|') == [piece];
    var part := Trim(piece);
    assert Map(Trim, [piece]) == [part];
    FilterAll((flag: string) => flag != "", [part]);
  }

  lemma TeeTrimmed()
    ensures Trim(" " + TEE) == TEE
  {
    var piece := " " + TEE;
    assert piece[1..] == TEE && !IsSpace(TEE[0]);
    assert TrimStart(piece) == TrimStart(TEE) == TEE;
  }

  /** Both blocking flags are owned, and `tee log:1` is not. */
  lemma PipedIsHidden()
    ensures Hidden([PIPED], Some(GATES_REJECTED))
  {
    hide IsRuntimeOwnedRecoveryFlag, SignatureFlags, BlockingRecoveryFlags;
    PipedBlocks();
    BothAreOwned();
    TeeIsPart();
    TeeIsNotOwned();
    var blocking := [GATES_REJECTED, PIPED];
    assert PIPED in blocking;
    PartOfSome(blocking, TEE);
    OneUnowned(AllParts(blocking), TEE);
  }

  lemma OneUnowned(flags: seq<string>, flag: string)
    requires flag in flags && !IsRuntimeOwnedRecoveryFlag(flag)
    ensures !AllRuntimeOwned(flags)
  {
    hide IsRuntimeOwnedRecoveryFlag;
  }

  lemma PipedIsRecoverable()
    ensures !HasNonRecoverableRuntimeBlocker([PIPED]) && !RequiresHumanSecurityApproval([PIPED])
  {
    hide FlagCode, IsNonRecoverableRuntimeCode, IsMissingPathEvidenceCode, RequiresHumanSecurityApproval, StartsWith,
      Trim;
    PipedShape();
    RerunShape();
    StartsWithCOIsRecoverable(RERUN);
    StartsWithCNeedsNoHuman(PIPED);
    assert !IsNonRecoverableRuntimeFlag(PIPED);
  }

  lemma StartsWithCNeedsNoHuman(flag: string)
    requires flag != "" && flag[0] == 'C'
    ensures !RequiresHumanSecurityApproval([flag])
  {
    hide NeedsSecurityApproval;
    NoMutation(flag);
  }

  lemma StartsWithCOIsRecoverable(code: string)
    requires |code| == 20 && code[0] == 'C' && code[1] == 'O'
    ensures !IsNonRecoverableRuntimeCode(code) && !IsMissingPathEvidenceCode(code)
  {
    assert "CHANGED_FILE_MISSING"[1] == 'H';
  }

  /** When a test command with a pipe keeps failing, the runtime spends one bugfix and then reports a poisoned loop. */
  lemma PipedReachesPoisoned(maxBugfixAttempts: Option<int>, answers: nat -> Round)
    requires BugfixAccepted(answers(0)) && answers(0).gates == [GateResult("command-rerun", false, [PIPED])]
    requires answers(0).existing.None? && answers(0).written.None?
    ensures var run := GateRecovery([PIPED], maxBugfixAttempts, answers);
            run.end.PoisonedLoop? && |run.dispatches| == 1
  {
    hide RequiresHumanSecurityApproval, HasNonRecoverableRuntimeBlocker, GatesPassed, GateFlags, GateRecovery,
      BugfixAccepted, Hidden;
    PipedIsRecoverable();
    PipedGateFails(answers(0).gates);
    PipedIsHidden();
    RepeatPoisonsExactly([PIPED], maxBugfixAttempts, answers);
  }

  lemma PipedGateFails(gates: seq<GateResult>)
    requires gates == [GateResult("command-rerun", false, [PIPED])]
    ensures !GatesPassed(gates) && GateFlags(gates) == [PIPED]
  {
    PipedIsBlocking("command-rerun");
    hide IsWarningFlag, IsPositiveFlag, IsBlockingFlag;
    assert gates[..0] == [];
    assert !GatePasses(gates[0]) by { assert gates[0].flags[0] == PIPED; }
  }

  // ---- An open finding ----

  /** A bugfix whose gates pass is not accepted while a missing check is open: the check is what the loop goes on
      with. */
  lemma MissingCheckIsNotReturned(round: Round, signature: string)
    requires BugfixAccepted(round) && round.gates == [GateResult("tests", true, [])]
    requires exists i | 0 <= i < |round.state.findings| ::
               round.state.findings[i].id == AUTH && round.state.findings[i].status.Open?
    ensures var turn := GateTurn(round, signature);
            (turn.Poisoned? || turn.Continue?) && (turn.Continue? ==> AUTH in turn.flags)
  {
    hide GateTurn, IsWarningFlag, IsPositiveFlag, AllSatisfied, BugfixAccepted, FlagCode;
    NothingIsSatisfied(round.gates);
    var i :| 0 <= i < |round.state.findings| && round.state.findings[i].id == AUTH
             && round.state.findings[i].status.Open?;
    AuthIsHard("");
    OpenFindingIsNotReturned(round, signature, i);
  }

  lemma NothingIsSatisfied(gates: seq<GateResult>)
    requires gates == [GateResult("tests", true, [])]
    ensures AllSatisfied(gates)
  {
    hide IsWarningFlag, IsPositiveFlag, IsBlockingFlag;
  }

  // ---- A failing check is recovered ----

  lemma AuthIsKept()
    ensures NormalizeRecoveryFlag(AUTH) == Some(AUTH)
  {
    hide FlagCode, Plain, Unlisted, IsPositiveFlag, IsWarningFlag, IsRuntimeRecoveryMetaFlag, EndsWith,
      IsNegativeRejection, Trim, StartsWith;
    AuthIsOrdinary();
    PlainFlagCode(AUTH);
    assert Upper(AUTH) == AUTH && |AUTH| >= 4 && EndsOtherwise(AUTH) by { UnlistedShape(AUTH); }
    NoRejected(AUTH);
    UnlistedBlocks(AUTH, "");
    NoFinding(AUTH);
  }

  lemma UnlistedShape(code: string)
    requires Unlisted(code)
    ensures Upper(code) == code && |code| >= 4 && EndsOtherwise(code)
  {
  }

  lemma NoRejected(code: string)
    requires |code| > 0 && code[|code| - 1] != 'D'
    ensures !EndsWith(code, "_REJECTED")
  {
    if EndsWith(code, "_REJECTED") { LastFour(code, "_REJECTED"); }
  }

  lemma AuthCodeIsNotOwned(code: string)
    requires |code| == 18 && code[0] == 'A' && code[1] == 'U' && code[17] == 'G'
    ensures !IsNonRecoverableRuntimeCode(code) && !IsMissingPathEvidenceCode(code) && !IsMissingFileCode(code)
    ensures !HasRuntimePrefix(code) && !IsBadArtifactCode(code) && !IsRuntimeNoteCode(code)
  {
    hide HasRuntimePrefix, EndsWith;
    assert !HasRuntimePrefix(code) by { AuthHasNoRuntimePrefix(code); }
    assert !EndsWith(code, "_METADATA") by { NoMetadata(code); }
  }

  lemma AuthHasNoRuntimePrefix(code: string)
    requires |code| == 18 && code[0] == 'A' && code[1] == 'U'
    ensures !HasRuntimePrefix(code)
  {
    var prefixes := ["VALIDATOR_REJECTED_", "PLAN_REJECTED_", "RUNTIME_", "BUGFIX_", "CONTRACT_", "RESULT_STATUS_",
                     "GATE_", "JOURNAL_", "AGENT_", "WORKTREE_", "COMMAND_RERUN_", "ADJUDICATION_"];
    assert forall i | 0 <= i < |prefixes| :: prefixes[i][0] != 'A' || prefixes[i][1] != 'U';
    assert (code + "_")[0] == code[0] && (code + "_")[1] == code[1];
  }

  lemma NoMetadata(code: string)
    requires |code| > 0 && code[|code| - 1] != 'A'
    ensures !EndsWith(code, "_METADATA")
  {
    if EndsWith(code, "_METADATA") { LastFour(code, "_METADATA"); }
  }

  lemma AuthIsNotOwned()
    ensures !IsRuntimeOwnedRecoveryFlag(AUTH) && !IsNonRecoverableRuntimeFlag(AUTH) && !NeedsSecurityApproval(AUTH)
  {
    hide FlagCode, IsNonRecoverableRuntimeCode, IsMissingPathEvidenceCode, IsMissingFileCode, HasRuntimePrefix,
      IsBadArtifactCode, IsRuntimeNoteCode, Plain, Unlisted, StartsWithAny;
    AuthIsOrdinary();
    PlainFlagCode(AUTH);
    assert Upper(AUTH) == AUTH by { UnlistedShape(AUTH); }
    AuthCodeIsNotOwned(AUTH);
    NoMutation(AUTH);
  }

  lemma NoMutation(flag: string)
    requires flag != "" && flag[0] != 'E'
    ensures !NeedsSecurityApproval(flag)
  {
  }

  /** Gate recovery on a missing check: when the first accepted bugfix leaves passing gates and nothing that blocks, its
      result is returned, after one dispatch that carries the check. */
  lemma MissingCheckIsRecovered(maxBugfixAttempts: Option<int>, answers: nat -> Round)
    requires BugfixAccepted(answers(0)) && answers(0).gates == [GateResult("tests", true, [])]
    requires NothingBlocks(answers(0).state.findings)
    ensures var run := GateRecovery([AUTH], maxBugfixAttempts, answers);
            run.end == Recovered(answers(0).recovered) && |run.dispatches| == 1 && AUTH in run.dispatches[0].flags
  {
    hide NormalizeRecoveryFlag, FailureSignature, Loop, BugfixAccepted, NothingBlocks, AllSatisfied,
      IsRuntimeOwnedRecoveryFlag, IsNonRecoverableRuntimeFlag, NeedsSecurityApproval, IsRuntimeOwnedRecoverySignature,
      BlockingRecoveryFlags;
    AuthIsKept();
    GatesRejectedIsKept();
    AuthIsNotOwned();
    AuthIsOrdinary();
    NoPipes();
    NothingIsSatisfied(answers(0).gates);
    assert GATES_REJECTED[0] == 'R' by { GatesRejectedIsPlain(); }
    TwoBlock(GATES_REJECTED, AUTH);
    OneUnowned([GATES_REJECTED, AUTH], AUTH);
    assert PipeFree([AUTH] + [GATES_REJECTED]) by { AuthHasNoPipe(); }
    OwnedSignature([AUTH], Some(GATES_REJECTED));
    FailureIsDispatched([AUTH], Some(GATES_REJECTED), maxBugfixAttempts, answers, false);
  }

  lemma AuthHasNoPipe()
    ensures PipeFree([AUTH] + [GATES_REJECTED])
  {
    NoPipes();
    assert '|' !in AUTH;
  }

  /** A gate that lists it is not left to adjudication. */
  lemma MissingCheckIsNotAdjudicated(gates: seq<GateResult>, i: nat, existing: Option<Adjudication>,
                                     written: Option<Adjudication>)
    requires i < |gates| && AUTH in gates[i].flags
    ensures Adjudicate(gates, existing, written) == NoVerdict
  {
    hide FlagCode, IsPositiveFlag, IsWarningFlag, SkipsE2e, IsFrontendRecoveryCode;
    AuthIsHard(gates[i].name);
    AuthIsOrdinary();
    assert SeverityFor(gates[i].name, AUTH).HardFail?;
    HardFailureForbidsAdjudication(gates, i, AUTH, existing, written);
  }

  // ---- What may be adjudicated ----

  const SKIPPED := RERUN + ":e2e:skipped"
  const FAILED := RERUN + ":green:exit one"

  lemma RerunFlag(rest: string)
    requires rest != "" && !IsSpace(rest[|rest| - 1])
    ensures var flag := RERUN + ":" + rest; FlagCode(flag) == RERUN && flag[0] == 'C'
  {
    hide Trim, StripSource, StartsWith, FlagCode;
    var flag := RERUN + (":" + rest);
    assert flag == RERUN + ":" + rest;
    RerunShape();
    NotMarked(flag);
    UnmarkedCode(RERUN, ":" + rest);
  }

  lemma RerunSeverity(gate: string, rest: string)
    requires rest != "" && !IsSpace(rest[|rest| - 1])
    ensures var flag := RERUN + ":" + rest;
            SeverityFor(gate, flag) == if SkipsE2e(flag) then Ambiguous else HardFail
  {
    hide FlagCode, IsPositiveFlag, IsWarningFlag, IsRuntimeRecoveryMetaFlag, Unlisted, SkipsE2e, EndsWith;
    RerunFlag(rest);
    RerunIsUnlisted();
    UnlistedBlocks(RERUN + ":" + rest, gate);
    RerunIsNoFrontend();
  }

  lemma RerunIsNoFrontend()
    ensures !IsFrontendRecoveryCode(RERUN)
    ensures RERUN !in ["INVALID_FLAGS_SHAPE", "INVALID_LOCAL_ONLY_FILES_SHAPE", "INVALID_ARTIFACTS_SHAPE"]
  {
    assert RERUN[0] == 'C';
  }

  /** A command that failed because an end-to-end test was skipped is ambiguous; one that failed is a hard failure. */
  lemma SkippedIsAmbiguous(gate: string)
    ensures SeverityFor(gate, SKIPPED).Ambiguous? && SeverityFor(gate, FAILED).HardFail?
  {
    hide SeverityFor, SkipsE2e;
    assert SKIPPED == RERUN + ":" + "e2e:skipped" && FAILED == RERUN + ":" + "green:exit one";
    assert !IsSpace("e2e:skipped"[10]) && !IsSpace("green:exit one"[13]) by { EndsAreLetters(); }
    RerunSeverity(gate, "e2e:skipped");
    RerunSeverity(gate, "green:exit one");
    SkippedSkips();
    FailedDoesNot();
  }

  lemma EndsAreLetters()
    ensures |"e2e:skipped"| == 11 && |"green:exit one"| == 14
    ensures !IsSpace("e2e:skipped"[10]) && !IsSpace("green:exit one"[13])
  {
  }

  lemma SkippedSkips()
    ensures SkipsE2e(SKIPPED)
  {
    hide Upper;
    var notes := [":E2E:NOT RUN", ":E2E:NOT APPLICABLE", ":E2E:SKIPPED", ":E2E:N/A"];
    UpperSkipped();
    assert (RERUN + ":E2E:SKIPPED")[20..32] == ":E2E:SKIPPED" by { RerunShape(); }
    assert EndsWordAt(Upper(SKIPPED), notes[2], 20);
  }

  lemma UpperSkipped()
    ensures Upper(SKIPPED) == RERUN + ":E2E:SKIPPED" && |SKIPPED| == 32 && |":E2E:SKIPPED"| == 12
  {
    hide UpperChar;
    RerunIsUpper();
    RerunShape();
    forall k | 0 <= k < 32 ensures Upper(SKIPPED)[k] == (RERUN + ":E2E:SKIPPED")[k] {
      if k < 20 {
        assert SKIPPED[k] == RERUN[k] && Upper(RERUN)[k] == RERUN[k];
      } else {
        SkippedChar(k - 20);
      }
    }
    SameChars(Upper(SKIPPED), RERUN + ":E2E:SKIPPED");
  }

  lemma SkippedChar(k: nat)
    requires k < 12
    ensures |":e2e:skipped"| == 12 && |":E2E:SKIPPED"| == 12 && UpperChar(":e2e:skipped"[k]) == ":E2E:SKIPPED"[k]
  {
  }

  /** More may follow the note, but its word must end there. */
  lemma SkippedWord(rest: string)
    requires rest != "" && '2' !in rest
    ensures SkipsE2e(SKIPPED + rest) <==> !IsWordChar(UpperChar(rest[0]))
  {
    hide UpperChar, IsWordChar, Upper;
    var notes, text := [":E2E:NOT RUN", ":E2E:NOT APPLICABLE", ":E2E:SKIPPED", ":E2E:N/A"], Upper(SKIPPED + rest);
    SkippedThen(rest);
    assert notes[2] == ":E2E:SKIPPED" && |notes[2]| == 12;
    forall i: nat, n | i < |text| && 0 <= n < 4 ensures OccursAt(text, notes[n], i) ==> n == 2 && i == 20 {
      NoteStart(n);
      SkippedOnly(text, notes[n], i);
    }
    assert EndsWordAt(text, notes[2], 20) <==> !IsWordChar(UpperChar(rest[0]));
  }

  lemma NoteStart(n: nat)
    requires n < 4
    ensures var note := [":E2E:NOT RUN", ":E2E:NOT APPLICABLE", ":E2E:SKIPPED", ":E2E:N/A"][n];
            |note| > 5 && note[2] == '2' && (note[5] == 'S' <==> n == 2)
  {
  }

  lemma SkippedOnly(text: string, note: string, i: nat)
    requires |text| > 32 && text[25] == 'S' && forall k | 0 <= k < |text| && k != 22 :: text[k] != '2'
    requires |note| > 5 && note[2] == '2'
    ensures OccursAt(text, note, i) ==> i == 20 && note[5] == 'S'
  {
    if OccursAt(text, note, i) { OccursChars(text, note, i); }
  }

  lemma SkippedThen(rest: string)
    requires rest != "" && '2' !in rest
    ensures var text := Upper(SKIPPED + rest);
            && |text| > 32 && text[25] == 'S' && text[32] == UpperChar(rest[0])
            && OccursAt(text, ":E2E:SKIPPED", 20) && forall k | 0 <= k < |text| && k != 22 :: text[k] != '2'
  {
    UpperSkipped();
    SkippedTwo();
    hide UpperChar;
    var text, front := Upper(SKIPPED + rest), RERUN + ":E2E:SKIPPED";
    assert forall k | 0 <= k < 32 :: text[k] == UpperChar(SKIPPED[k]) == front[k];
    assert text[20..32] == front[20..32] == ":E2E:SKIPPED" by { RerunShape(); }
    forall k | 32 <= k < |text| ensures text[k] != '2' {
      assert text[k] == UpperChar(rest[k - 32]);
      TwoHasNoCase(rest[k - 32]);
    }
  }

  lemma TwoHasNoCase(c: char)
    ensures UpperChar(c) == '2' <==> c == '2'
  {
  }

  lemma SkippedTwo()
    ensures var front := RERUN + ":E2E:SKIPPED";
            |front| == 32 && front[25] == 'S' && forall k | 0 <= k < 32 && k != 22 :: front[k] != '2'
  {
    assert '2' !in RERUN;
    RerunShape();
  }

  lemma FailedDoesNot()
    ensures !SkipsE2e(FAILED)
  {
    hide Upper, OccursAt;
    var notes := [":E2E:NOT RUN", ":E2E:NOT APPLICABLE", ":E2E:SKIPPED", ":E2E:N/A"];
    assert forall n | 0 <= n < |notes| :: |notes[n]| > 2 && notes[n][2] == '2';
    assert '2' !in Upper(FAILED) by { NoTwo(); }
    forall i: nat, n | i < |FAILED| && 0 <= n < |notes| ensures !EndsWordAt(Upper(FAILED), notes[n], i) {
      StrangeAt(Upper(FAILED), notes[n], 2, i);
    }
  }

  lemma NoTwo()
    ensures '2' !in Upper(FAILED)
  {
    RerunIsUpper();
    assert '2' !in RERUN && forall k | 0 <= k < |":green:exit one"| :: UpperChar(":green:exit one"[k]) != '2';
    hide UpperChar;
    forall k | 0 <= k < |FAILED| ensures Upper(FAILED)[k] != '2' {
      if k < |RERUN| {
        assert FAILED[k] == RERUN[k] && Upper(RERUN)[k] == RERUN[k];
      } else {
        assert FAILED[k] == ":green:exit one"[k - |RERUN|];
      }
    }
  }

  /** Such a gate alone is left to an adjudication, whose acceptance is the verdict. */
  lemma SkippedIsAdjudicated(gate: string, accepted: Adjudication)
    requires accepted == Adjudication("SUCCESS", Accept, false, false)
    ensures Adjudicate([GateResult(gate, false, [SKIPPED])], Some(accepted), None) == VerdictAccepted
    ensures Adjudicate([GateResult(gate, false, [SKIPPED, FAILED])], Some(accepted), None) == NoVerdict
  {
    hide SeverityFor, AdjudicationAllowed;
    var one, two := [GateResult(gate, false, [SKIPPED])], [GateResult(gate, false, [SKIPPED, FAILED])];
    SkippedIsAmbiguous(gate);
    VerdictMeans(one, Some(accepted), None);
    VerdictMeans(two, Some(accepted), None);
    assert SeverityFor(one[0].name, one[0].flags[0]) == Ambiguous;
    assert GateLists(one[0], Ambiguous) && !GateLists(one[0], HardFail);
    assert SeverityFor(two[0].name, two[0].flags[1]) == HardFail;
    assert GateLists(two[0], HardFail);
  }
}
