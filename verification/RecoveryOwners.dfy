/** Which blockers the runtime owns and which it never recovers from, told on the characters of their flags
    (tools/klevar-yolo-runtime/src/runtime.ts:1024-1041, tools/klevar-yolo-runtime/src/gate-findings.ts:71-100). */
module RecoveryOwners {
  import opened Wrappers
  import opened Text
  import opened FlagClassification
  import opened OrdinaryFlags
  import opened PathPolicy
  import opened RecoverySignatures
  import opened RecoveryLoops
  import opened RecoveryProperties
  import opened RecoveryWitnesses
  import opened RecoveryTurns
  import opened ShardSync
  import PathClasses

  // ---- Flags of a code and a path ----

  /** A code in capitals that no source prefix starts. */
  predicate IsCode(code: string) {
    && |code| > 1 && ':' !in code && AllUpper(code) && !IsSpace(code[0]) && !IsSpace(code[|code| - 1])
    && !(code[0] == 'R' && code[1] == 'E')
  }

  /** A path as it is written after a colon. */
  predicate IsDetail(path: string) {
    path != "" && !IsSpace(path[0]) && !IsSpace(path[|path| - 1]) && '\\' !in path
  }

  lemma CodeAlone(code: string)
    requires IsCode(code)
    ensures FlagCode(code) == code && Upper(code) == code
  {
    hide FlagCode, StripSource;
    UpperAlready(code);
    NotMarked(code);
    assert code + "" == code;
    UnmarkedCode(code, "");
  }

  lemma CodeAndPath(code: string, path: string)
    requires IsCode(code) && IsDetail(path)
    ensures var flag := code + ":" + path;
            && FlagCode(flag) == code && Upper(code) == code && FlagPath(flag) == path
            && ReplaceChar(AfterFirst(flag, ':'), '\\', '/') == path
  {
    hide FlagCode, StripSource, Trim;
    var flag := code + (":" + path);
    assert flag == code + ":" + path && flag[0] == code[0] && flag[1] == code[1];
    UpperAlready(code);
    NotMarked(flag);
    UnmarkedCode(code, ":" + path);
    BeforeOfJoined(code, ":" + path, ':');
    NothingBefore(":" + path);
    assert flag[|code| + 1..] == path;
    TrimPlain(path);
    assert ReplaceChar(path, '\\', '/') == path;
  }

  // ---- Codes ----

  const UNSAFE_CODES: seq<string> := ["PROTECTED_PATH", "TEMPLATE_MANAGED_PROTECTED_PATH", "BLOCKED_PATH",
                                      "UNSAFE_PATH", "PROTECTED_COORDINATION_FILE" + "_MODULARITY_FINDING",
                                      "TOOLING_HUMAN_REQUIRED_SYNC_CONTEXT"]
  const MISSING_CODES: seq<string> := ["CHANGED_FILE_MISSING", "ARTIFACT_MISSING", "LOCAL_ONLY_FILE_MISSING",
                                       "WIRING_VERIFIER_FILE_MISSING"]

  lemma MissingIsCode(code: string)
    requires code in MISSING_CODES
    ensures IsCode(code) && code[|code| - 1] == 'G'
  {
    hide IsCode;
    ChangedIsCode(code);
    LocalIsCode(code);
  }

  lemma ChangedIsCode(code: string)
    ensures code in MISSING_CODES[..2] ==> IsCode(code) && code[|code| - 1] == 'G'
  {
  }

  lemma LocalIsCode(code: string)
    ensures code in MISSING_CODES[2..] ==> IsCode(code) && code[|code| - 1] == 'G'
  {
  }

  lemma MissingShape(code: string)
    requires code in MISSING_CODES
    ensures IsCode(code) && IsMissingPathEvidenceCode(code) && IsMissingFileCode(code) && code !in UNSAFE_CODES
    ensures !HasRuntimePrefix(code) && !IsBadArtifactCode(code)
  {
    hide IsCode, EndsWith, HasRuntimePrefix;
    MissingIsCode(code);
    assert !EndsWith(code, "_METADATA") by {
      assert |"_METADATA"| == 9 && "_METADATA"[8] == 'A';
      LastDiffers(code, "_METADATA");
    }
    assert "MISSING_"[0] == 'M' && "INVALID_"[0] == 'I';
    assert code[0] in "ACLW";
    NoRuntimePrefix(code);
  }

  lemma LastDiffers(s: string, suffix: string)
    requires s != "" && suffix != "" && s[|s| - 1] != suffix[|suffix| - 1]
    ensures !EndsWith(s, suffix)
  {
    EndChar(s, suffix);
  }

  lemma EndChar(s: string, suffix: string)
    requires suffix != ""
    ensures EndsWith(s, suffix) ==> s != "" && s[|s| - 1] == suffix[|suffix| - 1]
  {
    if EndsWith(s, suffix) { assert s[|s| - |suffix|..][|suffix| - 1] == s[|s| - 1]; }
  }

  lemma StartChars(s: string, prefix: string)
    requires |prefix| >= 2
    ensures StartsWith(s, prefix) ==> |s| >= 2 && s[0] == prefix[0] && s[1] == prefix[1]
  {
  }

  lemma NoRuntimePrefix(code: string)
    requires |code| >= 2
    requires (code[0] in "LMI" || (code[0] == 'A' && code[1] == 'R') || (code[0] == 'C' && code[1] == 'H')
              || (code[0] == 'W' && code[1] == 'I'))
    ensures !HasRuntimePrefix(code)
  {
    var prefixes := ["VALIDATOR_REJECTED_", "PLAN_REJECTED_", "RUNTIME_", "BUGFIX_", "CONTRACT_", "RESULT_STATUS_",
                     "GATE_", "JOURNAL_", "AGENT_", "WORKTREE_", "COMMAND_RERUN_", "ADJUDICATION_"];
    var text := code + "_";
    assert text[0] == code[0] && text[1] == code[1];
    forall i | 0 <= i < |prefixes| ensures !StartsWith(text, prefixes[i]) {
      StartChars(text, prefixes[i]);
    }
  }

  /** With a path, exactly these flags are beyond recovery: six codes, and a missing file where nothing may be
      changed. */
  lemma BeyondRecovery(code: string, path: string)
    requires IsCode(code) && IsDetail(path)
    ensures IsNonRecoverableRuntimeFlag(code + ":" + path) <==>
            code in UNSAFE_CODES || (code in MISSING_CODES && IsUntouchablePath(path))
  {
    hide FlagCode, FlagPath, IsUntouchablePath, IsCode, ReplaceChar, Upper;
    CodeAndPath(code, path);
  }

  /** Gate recovery stops at once when one of its flags has such a code, whatever stands after it. */
  lemma UnsafeCodeStops(flags: seq<string>, i: nat, code: string, path: string, maxBugfixAttempts: Option<int>,
                        answers: nat -> Round)
    requires code in UNSAFE_CODES && IsDetail(path) && i < |flags| && flags[i] in [code, code + ":" + path]
    ensures var run := GateRecovery(flags, maxBugfixAttempts, answers);
            run.end.NonRecoverable? && run.dispatches == []
  {
    hide FlagCode, IsUntouchablePath, IsNonRecoverableRuntimeFlag, IsCode, GateRecovery, IsMissingPathEvidenceCode;
    assert IsCode(code) by { UnsafeShape(code); }
    if flags[i] == code {
      CodeAlone(code);
      assert IsNonRecoverableRuntimeFlag(code) by { UnsafeIsBeyond(code); }
    } else {
      BeyondRecovery(code, path);
    }
    assert IsUnsafe(flags[i]);
    UnsafeFlagStops(flags, maxBugfixAttempts, answers);
  }

  lemma UnsafeShape(code: string)
    requires code in UNSAFE_CODES
    ensures IsCode(code)
  {
    hide IsCode;
    ShortIsCode("PROTECTED_PATH");
    ShortIsCode("BLOCKED_PATH");
    ShortIsCode("UNSAFE_PATH");
    TemplateIsCode();
    CoordinationIsCode();
    ToolingIsCode();
  }

  lemma ShortIsCode(code: string)
    requires code in ["PROTECTED_PATH", "BLOCKED_PATH", "UNSAFE_PATH"]
    ensures IsCode(code)
  {
  }

  lemma TemplateIsCode()
    ensures IsCode("TEMPLATE_MANAGED_PROTECTED_PATH")
  {
  }

  lemma CoordinationIsCode()
    ensures IsCode("PROTECTED_COORDINATION_FILE" + "_MODULARITY_FINDING")
  {
  }

  lemma ToolingIsCode()
    ensures IsCode("TOOLING_HUMAN_REQUIRED_SYNC_CONTEXT")
  {
  }

  lemma UnsafeIsBeyond(flag: string)
    requires FlagCode(flag) in UNSAFE_CODES
    ensures IsNonRecoverableRuntimeFlag(flag)
  {
    hide FlagCode, IsUntouchablePath, FlagPath;
  }

  // ---- Paths where nothing may be changed ----

  /** Keys and certificates are, wherever they lie. */
  lemma KeysAreUntouchable(front: string, ending: string)
    requires ending in [".pem", ".key"] && IsTidy(front + ending) && OneLine(front)
    requires forall i | 0 <= i < |front| :: !('A' <= front[i] <= 'Z')
    ensures IsUntouchablePath(front + ending)
  {
    hide IsTidy, NormalizeRuntimePath, ClassifyRuntimePath, GlobMatches, Lower;
    var file, patterns := front + ending, PROTECTED_PATHS + BLOCKED_PATHS;
    var n := if ending == ".pem" then 12 else 13;
    TidyIsNormal(file);
    assert forall i | 0 <= i < |file| :: !('A' <= file[i] <= 'Z') by { EndingIsLower(ending); }
    LowerAlready(file);
    StarIsNormal(ending);
    StarMatches(front, ending);
    assert patterns[n] == "*" + ending;
    EndsWithChar("*" + ending, '/');
    assert MatchesPolicyPattern(file, patterns[n]);
  }

  lemma EndingIsLower(ending: string)
    requires ending in [".pem", ".key"]
    ensures |ending| == 4 && forall i | 0 <= i < 4 :: !('A' <= ending[i] <= 'Z')
  {
  }

  lemma StarIsNormal(ending: string)
    requires ending in [".pem", ".key"]
    ensures NormalizeRuntimePath("*" + ending) == "*" + ending && Lower("*" + ending) == "*" + ending
  {
    hide NormalizeRuntimePath, Lower;
    TidyIsNormal("*" + ending);
    LowerAlready("*" + ending);
  }

  lemma {:induction false} StarMatches(front: string, ending: string)
    requires OneLine(front) && ending != "" && '*' !in ending
    ensures GlobMatches(front + ending, "*" + ending)
  {
    if front == "" {
      Literal(ending);
      assert front + ending == ending && ("*" + ending)[1..] == ending;
    } else {
      var file := front + ending;
      assert file[1..] == front[1..] + ending && file[..1] == front[..1];
      StarMatches(front[1..], ending);
    }
  }

  lemma {:induction false} Literal(text: string)
    requires '*' !in text
    ensures GlobMatches(text, text)
  {
    if text != "" { Literal(text[1..]); }
  }

  /** A file the runtime writes for itself is untouchable too. */
  lemma RuntimeIsUntouchable(name: string)
    requires ClassifyRuntimePath(".yolo/runtime/" + name).RuntimeControl?
    ensures IsUntouchablePath(".yolo/runtime/" + name)
  {
    hide ClassifyRuntimePath, NormalizeRuntimePath, MatchesAnyPolicyPattern;
  }

  // ---- Files of the source ----

  /** A file of the source, named in small letters. */
  predicate IsSourceFile(file: string) {
    && |file| > 7 && file[..4] == "src/" && file[|file| - 3..] == ".ts"
    && forall i | 4 <= i < |file| - 3 :: 'a' <= file[i] <= 'z'
  }

  lemma SourceChars(file: string)
    requires IsSourceFile(file)
    ensures file[0] == 's' && file[1] == 'r' && file[2] == 'c' && file[3] == '/'
    ensures var n := |file|; file[n - 3] == '.' && file[n - 2] == 't' && file[n - 1] == 's'
    ensures forall i | 0 <= i < |file| :: (file[i] == '/' <==> i == 3) && (file[i] == '.' <==> i == |file| - 3)
    ensures forall i | 0 <= i < |file| ::
              !('A' <= file[i] <= 'Z') && file[i] != '\\' && file[i] != '\0' && !IsSpace(file[i])
  {
    var n := |file|;
    assert file[0] == file[..4][0] && file[1] == file[..4][1] && file[2] == file[..4][2] && file[3] == file[..4][3];
    var end := file[n - 3..];
    assert file[n - 3] == end[0] && file[n - 2] == end[1] && file[n - 1] == end[2];
    forall i | 0 <= i < n
      ensures (file[i] == '/' <==> i == 3) && (file[i] == '.' <==> i == n - 3)
      ensures !('A' <= file[i] <= 'Z') && file[i] != '\\' && file[i] != '\0' && !IsSpace(file[i])
    {
    }
  }

  lemma SourceIsLong(file: string)
    requires IsSourceFile(file)
    ensures |file| > 7
  {
  }

  lemma SourceIsTidy(file: string)
    requires IsSourceFile(file)
    ensures IsTidy(file) && Lower(file) == file && DropSlashes(file) == file && IsSafeRelativePath(file)
    ensures NormalizeRuntimePath(file) == file && IsDetail(file)
  {
    hide NormalizeRuntimePath, Lower, Includes, IsSpace, Trim, Unquote;
    SourceChars(file);
    assert IsTidy(file);
    TidyIsNormal(file);
    LowerAlready(file);
    PathClasses.NotClimbing(file);
  }

  /** A directory whose name is not where a source file lies. */
  predicate IsOtherDirectory(part: string) {
    && |part| >= 4 && part[0] == '/' && part[|part| - 1] == '/' && part[1] != 's' && part[|part| - 3] != 't'
  }

  lemma OutsideDirectory(file: string, part: string)
    requires IsSourceFile(file) && IsOtherDirectory(part)
    ensures !Includes("/" + file + "/", part)
  {
    hide OccursAt, IsSourceFile;
    SourceChars(file);
    assert |file| > 7 by { SourceIsLong(file); }
    var text := "/" + file + "/";
    forall i: nat | i <= |text| - |part| ensures !OccursAt(text, part, i) {
      if OccursAt(text, part, i) { OutsideAt(file, text, part, i); }
    }
  }

  lemma OutsideAt(file: string, text: string, part: string, i: nat)
    requires text == "/" + file + "/" && OccursAt(text, part, i)
    requires |part| >= 4 && part[0] == '/' && part[|part| - 1] == '/'
    requires |file| > 7 && file[0] == 's' && file[3] == '/' && file[|file| - 2] == 't'
    requires forall k | 0 <= k < |file| :: file[k] == '/' <==> k == 3
    ensures part[1] == 's' || part[|part| - 3] == 't'
  {
    var last := i + |part| - 1;
    OccursChars(text, part, i);
    assert text[i] == '/' && text[last] == '/' && text[i + 1] == part[1] && text[last - 2] == part[|part| - 3];
    assert forall k | 0 < k <= |file| :: text[k] == file[k - 1];
    assert i == 0 || i == 4;
    assert last == 4 || last == |text| - 1;
  }

  /** It is part of the product, */
  lemma SourceIsProduct(file: string)
    requires IsSourceFile(file)
    ensures ClassifyRuntimePath(file).Product?
  {
    hide NormalizeRuntimePath, IsSafeRelativePath, Lower, StartsWithAny, IsReportName, IsSourceFile, DropSlashes,
      Includes, IsTidy, IsDetail;
    SourceIsTidy(file);
    SourceChars(file);
    SourceIsLong(file);
    NoPrefix(file, [".yolo/runtime/", ".yolo/events/", ".yolo/logs/", ".yolo/worktrees/", ".yolo/pi-sessions/",
                    ".yolo/subagent-prompts/", ".yolo/subagent-runs/", ".yolo/incidents/"]);
    NoPrefix(file, [".agent/rules/", ".agent/workflows/", ".agent/guides/", ".agent/agents/"]);
    NoPrefix(file, ["tools/klevar-yolo-runtime/", "tools/klevar-pi-package/"]);
    NotGenerated(file);
  }

  lemma NotGenerated(file: string)
    requires IsSourceFile(file)
    ensures !IsGeneratedDependencyPath(file)
  {
    hide NormalizeRuntimePath, IsSafeRelativePath, Lower, IsSourceFile, DropSlashes, Includes, IsTidy, IsDetail;
    SourceIsTidy(file);
    var directories := ["/node_modules/", "/.pnpm/", "/vendor/bundle/", "/dist/", "/build/", "/coverage/", "/.next/"];
    forall d | 0 <= d < |directories| ensures !Includes("/" + file + "/", directories[d]) {
      OutsideDirectory(file, directories[d]);
    }
  }

  /** What a pattern demands of the characters at the ends. */
  lemma {:induction false} GlobEnds(file: string, pattern: string)
    requires pattern != "" && GlobMatches(file, pattern)
    ensures pattern[0] != '*' ==> file != "" && file[0] == pattern[0]
    ensures pattern[|pattern| - 1] != '*' ==> file != "" && file[|file| - 1] == pattern[|pattern| - 1]
    decreases |file| + |pattern|
  {
    var rest := pattern[1..];
    if pattern[0] == '*' {
      if GlobMatches(file, rest) {
        if rest != "" { GlobEnds(file, rest); }
      } else {
        GlobEnds(file[1..], pattern);
      }
    } else if rest != "" {
      GlobEnds(file[1..], rest);
    }
  }

  /** A pattern of the lists whose first or last character tells it from source files. */
  predicate IsOtherPattern(pattern: string) {
    && |pattern| >= 4 && IsTidy(pattern) && pattern[|pattern| - 1] != '/'
    && (pattern[0] in ".AC" || (pattern[0] == '*' && pattern[|pattern| - 1] in "my"))
  }

  lemma PlainPattern(file: string, pattern: string)
    requires IsSourceFile(file) && IsOtherPattern(pattern)
    ensures !MatchesPolicyPattern(file, pattern)
  {
    hide NormalizeRuntimePath, GlobMatches, IsSourceFile, IsTidy, DropSlashes, MatchesDirectoryPattern,
      IsSafeRelativePath, IsDetail, EndsWith;
    SourceIsTidy(file);
    SourceIsLong(file);
    SourceChars(file);
    TidyIsNormal(pattern);
    var wanted := Lower(pattern);
    assert wanted[0] == LowerChar(pattern[0]) && wanted[|wanted| - 1] == LowerChar(pattern[|pattern| - 1]);
    EndsWithChar(wanted, '/');
    if '*' in wanted && GlobMatches(file, wanted) { GlobEnds(file, wanted); }
    FirstDiffers(file, wanted);
  }

  lemma FirstDiffers(file: string, wanted: string)
    requires file != "" && wanted != ""
    ensures (file == wanted || StartsWith(file, wanted + "/")) ==> file[0] == wanted[0]
  {
    if wanted + "/" <= file { assert file[0] == (wanted + "/")[0]; }
  }

  /** A directory of the lists, written with a slash at its end. */
  lemma DirectoryPattern(file: string, directory: string)
    requires IsSourceFile(file) && directory != "" && IsTidy(directory + "/") && Lower(directory) == directory
    requires directory[|directory| - 1] != '/' && directory[0] != 's'
    requires '/' !in directory ==> IsOtherDirectory("/" + directory + "/")
    ensures !MatchesPolicyPattern(file, directory + "/")
  {
    hide NormalizeRuntimePath, Lower, GlobMatches, IsSourceFile, IsTidy, IsSafeRelativePath, IsDetail, EndsWith,
      Includes;
    SourceIsTidy(file);
    SourceIsLong(file);
    SourceChars(file);
    TidyIsNormal(directory + "/");
    var wanted := directory + "/";
    assert Lower(wanted) == wanted by { SlashIsLower(directory); }
    EndsWithChar(wanted, '/');
    assert wanted[..|wanted| - 1] == directory;
    assert DropSlashes(wanted) == directory;
    FirstDiffers(file, directory);
    if '/' !in directory { InNoDirectory(file, directory); }
  }

  lemma SlashIsLower(directory: string)
    requires Lower(directory) == directory
    ensures Lower(directory + "/") == directory + "/"
  {
    forall i | 0 <= i < |directory| ensures Lower(directory + "/")[i] == directory[i] {
      assert Lower(directory)[i] == directory[i];
    }
  }

  lemma InNoDirectory(file: string, directory: string)
    requires IsSourceFile(file) && IsOtherDirectory("/" + directory + "/")
    ensures !Includes(file, "/" + directory + "/") && !EndsWith(file, "/" + directory)
  {
    hide IsSourceFile, OccursAt;
    var part := "/" + directory + "/";
    OutsideDirectory(file, part);
    forall i: nat | i <= |file| - |part| ensures !OccursAt(file, part, i) { OccursInside(file, part, i); }
    EndsInside(file, directory);
  }

  lemma OccursInside(file: string, part: string, i: nat)
    ensures OccursAt(file, part, i) ==> Includes("/" + file + "/", part)
  {
    if OccursAt(file, part, i) {
      assert ("/" + file + "/")[i + 1..i + 1 + |part|] == file[i..i + |part|];
      assert OccursAt("/" + file + "/", part, i + 1);
    }
  }

  lemma EndsInside(file: string, directory: string)
    ensures EndsWith(file, "/" + directory) ==> Includes("/" + file + "/", "/" + directory + "/")
  {
    if EndsWith(file, "/" + directory) {
      var i := |file| - |directory| - 1;
      assert file[i..] == "/" + directory;
      assert ("/" + file + "/")[i + 1..] == file[i..] + "/";
      assert OccursAt("/" + file + "/", "/" + directory + "/", i + 1);
    }
  }

  /** and a bugfix may touch it. */
  lemma SourceIsTouchable(file: string)
    requires IsSourceFile(file)
    ensures !IsUntouchablePath(file)
  {
    hide NormalizeRuntimePath, IsSourceFile, MatchesPolicyPattern, ClassifyRuntimePath, Lower, IsTidy, IsDetail,
      IsSafeRelativePath, DropSlashes;
    SourceIsTidy(file);
    SourceIsProduct(file);
    var patterns := PROTECTED_PATHS + BLOCKED_PATHS;
    forall i | 0 <= i < |patterns| ensures !MatchesPolicyPattern(file, patterns[i]) {
      if i < 4 { ProtectedDirectory(file, i); } else if i < 8 { ProtectedFile(file, i); } else { Blocked(file, i - 8); }
    }
  }

  lemma ProtectedDirectory(file: string, i: nat)
    requires IsSourceFile(file) && i < 4
    ensures !MatchesPolicyPattern(file, PROTECTED_PATHS[i])
  {
    hide IsSourceFile, MatchesPolicyPattern, Lower;
    var directories := [".agent/rules", ".agent/workflows", ".agent/guides", ".agent/agents"];
    var directory := directories[i];
    assert PROTECTED_PATHS[i] == directory + "/";
    LowerAlready(directory);
    DirectoryPattern(file, directory);
  }

  lemma ProtectedFile(file: string, i: nat)
    requires IsSourceFile(file) && 4 <= i < 8
    ensures !MatchesPolicyPattern(file, PROTECTED_PATHS[i])
  {
    hide IsSourceFile, MatchesPolicyPattern;
    PlainPattern(file, PROTECTED_PATHS[i]);
  }

  lemma Blocked(file: string, i: nat)
    requires IsSourceFile(file) && i < 6
    ensures !MatchesPolicyPattern(file, BLOCKED_PATHS[i])
  {
    hide IsSourceFile, MatchesPolicyPattern, Lower;
    if i == 2 || i == 3 {
      var directory := [".git", "node_modules"][i - 2];
      assert BLOCKED_PATHS[i] == directory + "/";
      LowerAlready(directory);
      DirectoryPattern(file, directory);
    } else {
      PlainPattern(file, BLOCKED_PATHS[i]);
    }
  }

  // ---- Files that are missing ----

  /** The path lies where the runtime keeps its own. */
  predicate IsKept(path: string) {
    || (|path| >= 6 && path[..6] == ".yolo/") || (|path| >= 4 && path[..4] == ".pi/")
    || (|path| >= 7 && path[..7] == ".agent/") || path in ["AGENTS.md", "CLAUDE.md", "docs/progress.md"]
  }

  /** A missing file is the runtime's own failure exactly when its path is the runtime's or may not be touched. */
  lemma MissingFileIsOwned(code: string, path: string)
    requires code in MISSING_CODES && IsDetail(path)
    ensures IsRuntimeOwnedRecoveryFlag(code + ":" + path) <==> IsUntouchablePath(path) || IsKept(path)
  {
    hide FlagCode, FlagPath, IsUntouchablePath, IsCode, ReplaceChar, Upper, IsDetail, IsMissingFileCode, IsKept,
      IsBadArtifactCode, HasRuntimePrefix, IsNonRecoverableRuntimeFlag, IsMissingPathEvidenceCode, IsRuntimeFile,
      IsRuntimeNoteCode;
    MissingShape(code);
    CodeAndPath(code, path);
    BeyondRecovery(code, path);
    KeptMeans(path);
  }

  lemma KeptMeans(path: string)
    ensures IsRuntimeFile(path) <==> IsKept(path)
  {
    var roots := [".yolo/", ".pi/", ".agent/"];
    assert StartsWithAny(path, roots) <==>
           StartsWith(path, roots[0]) || StartsWith(path, roots[1]) || StartsWith(path, roots[2]);
    PrefixMeans(path, ".yolo/");
    PrefixMeans(path, ".pi/");
    PrefixMeans(path, ".agent/");
  }

  lemma PrefixMeans(s: string, prefix: string)
    ensures StartsWith(s, prefix) <==> |s| >= |prefix| && s[..|prefix|] == prefix
  {
  }

  /** So a missing source file is left to a bugfix, */
  lemma MissingSourceIsProduct(code: string, file: string)
    requires code in MISSING_CODES && IsSourceFile(file)
    ensures !IsRuntimeOwnedRecoveryFlag(code + ":" + file) && !IsNonRecoverableRuntimeFlag(code + ":" + file)
  {
    hide IsRuntimeOwnedRecoveryFlag, IsNonRecoverableRuntimeFlag, IsUntouchablePath, IsSourceFile, IsCode;
    assert IsDetail(file) by { SourceIsTidy(file); }
    SourceIsTouchable(file);
    SourceIsNotKept(file);
    MissingFileIsOwned(code, file);
    assert IsCode(code) && code !in UNSAFE_CODES by { MissingShape(code); }
    BeyondRecovery(code, file);
  }

  lemma SourceIsNotKept(file: string)
    requires IsSourceFile(file)
    ensures !IsKept(file)
  {
    hide IsSourceFile;
    SourceIsLong(file);
    SourceChars(file);
    assert ".yolo/"[0] == '.' && ".pi/"[0] == '.' && ".agent/"[0] == '.';
    assert file[..4][0] == 's' && file[..6][0] == 's' && file[..7][0] == 's';
  }

  /** a missing key ends the recovery, */
  lemma MissingKeyEndsRecovery(code: string, front: string, ending: string)
    requires code in MISSING_CODES && ending in [".pem", ".key"] && IsTidy(front + ending) && OneLine(front)
    requires forall i | 0 <= i < |front| :: !('A' <= front[i] <= 'Z')
    ensures IsNonRecoverableRuntimeFlag(code + ":" + (front + ending))
  {
    hide IsNonRecoverableRuntimeFlag, IsUntouchablePath, IsCode;
    assert IsCode(code) by { MissingIsCode(code); }
    KeysAreUntouchable(front, ending);
    BeyondRecovery(code, front + ending);
  }

  /** and a missing report of the runtime gets no bugfix. */
  lemma MissingReportIsOwned(code: string, report: string)
    requires code in MISSING_CODES && IsDetail(".yolo/gates/" + report)
    ensures IsRuntimeOwnedRecoveryFlag(code + ":" + (".yolo/gates/" + report))
  {
    hide IsRuntimeOwnedRecoveryFlag, IsUntouchablePath, IsDetail;
    var path := ".yolo/gates/" + report;
    assert path[..6] == ".yolo/";
    MissingFileIsOwned(code, path);
  }

  // ---- Codes of reports and notes ----

  const NOUNS: seq<string> := ["ARTIFACT", "MANIFEST", "RESULT", "GATE", "JOURNAL", "REPORT", "SHAPE"]

  /** A code on something missing or invalid is the runtime's own exactly when it names one of its documents. */
  lemma BadDocumentIsOwned(code: string)
    requires IsCode(code) && OneLine(code) && |code| >= 8 && code[..8] in ["MISSING_", "INVALID_"]
    ensures IsRuntimeOwnedRecoveryFlag(code) <==>
            exists i, w | 8 <= i <= |code| && 0 <= w < |NOUNS| :: OccursAt(code, NOUNS[w], i)
  {
    hide FlagCode, FlagPath, IsUntouchablePath, IsCode, Upper, HasRuntimePrefix, IsMissingPathEvidenceCode,
      IsMissingFileCode, IsRuntimeNoteCode, IsBadArtifactCode, IsNonRecoverableRuntimeCode, OneLine;
    CodeAlone(code);
    BadDocumentCode(code);
    assert code[0] == code[..8][0] && code[1] == code[..8][1];
    NoRuntimePrefix(code);
    NoOtherCode(code);
    NoNote(code);
    NoUnsafeCode(code);
  }

  lemma NoNote(code: string)
    requires |code| >= 8 && code[0] in "MI" && code[1] != 'O'
    ensures !IsRuntimeNoteCode(code)
  {
    assert code[0] != 'T' && code[0] != 'P' && code[0] != 'R' && code[0] != 'S' && code[0] != 'F' && code[0] != 'W';
  }

  lemma NoUnsafeCode(code: string)
    requires |code| >= 8 && code[0] in "MI"
    ensures !IsNonRecoverableRuntimeCode(code)
  {
    assert code[0] != 'T' && code[0] != 'P' && code[0] != 'B' && code[0] != 'U';
  }

  lemma NoOtherCode(code: string)
    requires |code| >= 8 && code[0] in "MI" && code[1] != 'O'
    ensures !IsMissingPathEvidenceCode(code) && !IsMissingFileCode(code)
  {
    hide IsMissingPathEvidenceCode;
    var dropped := DropEnd(code, |"_METADATA"|);
    NoEvidence(code);
    NoEvidence(dropped);
  }

  lemma NoEvidence(code: string)
    requires code != "" ==> code[0] in "MI"
    ensures !IsMissingPathEvidenceCode(code)
  {
    assert |code| > 0 ==> code[0] != 'C' && code[0] != 'A' && code[0] != 'L' && code[0] != 'W';
  }

  lemma BadDocumentCode(code: string)
    requires OneLine(code) && |code| >= 8 && code[..8] in ["MISSING_", "INVALID_"]
    ensures IsBadArtifactCode(code) <==>
            exists i, w | 8 <= i <= |code| && 0 <= w < |NOUNS| :: OccursAt(code, NOUNS[w], i)
  {
    hide OccursAt, StartsWithAny;
    PrefixMeans(code, "MISSING_");
    PrefixMeans(code, "INVALID_");
    if IsBadArtifactCode(code) {
      var n :| 8 <= n <= |code| && OneLine(code[8..n])
        && StartsWithAny(code[n..], ["ARTIFACT", "MANIFEST", "RESULT", "GATE", "JOURNAL", "REPORT", "SHAPE"]);
      NounAt(code, n);
    }
    if i, w :| 8 <= i <= |code| && 0 <= w < |NOUNS| && OccursAt(code, NOUNS[w], i) {
      NounAt(code, i);
      assert OneLine(code[8..i]);
    }
  }

  lemma NounAt(code: string, i: nat)
    requires i <= |code|
    ensures StartsWithAny(code[i..], ["ARTIFACT", "MANIFEST", "RESULT", "GATE", "JOURNAL", "REPORT", "SHAPE"]) <==>
            exists w | 0 <= w < |NOUNS| :: OccursAt(code, NOUNS[w], i)
  {
    hide OccursAt;
    var nouns := ["ARTIFACT", "MANIFEST", "RESULT", "GATE", "JOURNAL", "REPORT", "SHAPE"];
    assert nouns == NOUNS;
    forall w | 0 <= w < |NOUNS| ensures StartsWith(code[i..], NOUNS[w]) <==> OccursAt(code, NOUNS[w], i) {
      StartsThere(code, NOUNS[w], i);
    }
  }

  lemma StartsThere(s: string, part: string, i: nat)
    requires i <= |s|
    ensures StartsWith(s[i..], part) <==> OccursAt(s, part, i)
  {
    if part <= s[i..] { assert s[i..i + |part|] == s[i..][..|part|]; }
    if OccursAt(s, part, i) { assert s[i..][..|part|] == s[i..i + |part|]; }
  }

  /** Notes on the runtime's own state are its own too. */
  lemma NoteIsOwned(note: string)
    requires note in ["SUPPORT_LOOP_STALE", "MODULARITY_RULE_FILE_LIMIT_VIOLATION"]
    ensures IsRuntimeOwnedRecoveryFlag(note)
  {
    hide FlagCode, IsCode, Upper, IsNonRecoverableRuntimeFlag, HasRuntimePrefix, IsBadArtifactCode, EndsWith,
      IsMissingPathEvidenceCode;
    assert IsCode(note) by { NoteIsCode(note); }
    CodeAlone(note);
    assert note[|note| - 1] in "EN" && "_METADATA"[8] == 'A' && |"_METADATA"| == 9;
    LastDiffers(note, "_METADATA");
    assert note[0] in "SM" && !IsMissingPathEvidenceCode(note) by { NoteIsNoEvidence(note); }
  }

  lemma NoteIsCode(note: string)
    ensures note == "SUPPORT_LOOP_STALE" || note == "MODULARITY_RULE_FILE_LIMIT_VIOLATION" ==> IsCode(note)
  {
  }

  lemma NoteIsNoEvidence(note: string)
    requires note in ["SUPPORT_LOOP_STALE", "MODULARITY_RULE_FILE_LIMIT_VIOLATION"]
    ensures note[0] in "SM" && !IsMissingPathEvidenceCode(note)
  {
  }

  // ---- A run ----

  const CHANGED := "CHANGED_FILE_MISSING"

  lemma ChangedIsUnlisted()
    ensures Unlisted(CHANGED) && CHANGED[0] == 'C' && CHANGED[|CHANGED| - 1] == 'G' && '|' !in CHANGED
  {
    assert AllUpper(CHANGED);
    UpperAlready(CHANGED);
    NoNonBlocking(CHANGED);
  }

  lemma FlagShape(code: string, file: string)
    requires IsCode(code) && '|' !in code && IsSourceFile(file)
    ensures var flag := code + ":" + file;
            && flag != "" && flag[0] == code[0] && flag[|flag| - 1] == 's' && '|' !in flag
            && FlagCode(flag) == code && Trim(flag) == flag && !StartsWith(flag, SOURCE_PREFIX)
  {
    hide FlagCode, Trim, StartsWith, IsSourceFile, StripSource, IsDetail, AllUpper;
    assert IsDetail(file) by { SourceIsTidy(file); }
    SourceIsLong(file);
    assert file[|file| - 1] == 's' && !IsSpace(file[|file| - 1]) by { SourceChars(file); }
    CodeAndPath(code, file);
    CodeIsTrimmed(code, file);
    NoBar(file);
  }

  lemma CodeIsTrimmed(code: string, file: string)
    requires IsCode(code) && file != "" && !IsSpace(file[|file| - 1])
    ensures var flag := code + ":" + file; Trim(flag) == flag && !StartsWith(flag, SOURCE_PREFIX)
  {
    hide Trim, StartsWith, IsSpace, StripSource;
    var flag := code + ":" + file;
    assert flag[0] == code[0] && flag[1] == code[1] && flag[|flag| - 1] == file[|file| - 1];
    assert UpperChar(flag[0]) == flag[0] && UpperChar(flag[1]) == flag[1];
    TrimPlain(flag);
    NotMarked(flag);
  }

  lemma ChangedIsKept(file: string)
    requires IsSourceFile(file)
    ensures NormalizeRecoveryFlag(CHANGED + ":" + file) == Some(CHANGED + ":" + file)
    ensures (CHANGED + ":" + file)[0] == 'C' && '|' !in CHANGED + ":" + file
  {
    hide FlagCode, Unlisted, EndsWith, Trim, StartsWith, NormalizeRecoveryFlag, IsCode, IsSourceFile,
      IsNegativeRejection;
    ChangedIsUnlisted();
    MissingIsCode(CHANGED);
    FlagShape(CHANGED, file);
    RecoveryWitnesses.NoRejected(CHANGED);
    UnlistedIsKept(CHANGED + ":" + file);
  }

  lemma NoBar(file: string)
    requires IsSourceFile(file)
    ensures '|' !in file
  {
    SourceChars(file);
    hide IsSpace;
    assert forall i | 4 <= i < |file| - 3 :: file[i] != '|';
  }

  /** A gate failure that is one missing source file goes to a bugfix, which is told of it. */
  lemma MissingSourceIsDispatched(file: string, maxBugfixAttempts: Option<int>, answers: nat -> Round)
    requires IsSourceFile(file)
    ensures var flag := CHANGED + ":" + file;
            var run := GateRecovery([flag], maxBugfixAttempts, answers);
            run.dispatches != [] && flag in run.dispatches[0].flags
  {
    hide NormalizeRecoveryFlag, FailureSignature, Loop, IsSourceFile, IsCode,
      IsRuntimeOwnedRecoveryFlag, IsNonRecoverableRuntimeFlag, NeedsSecurityApproval, IsRuntimeOwnedRecoverySignature,
      BlockingRecoveryFlags;
    var flag := CHANGED + ":" + file;
    ChangedIsKept(file);
    GatesRejectedIsKept();
    MissingSourceIsProduct(CHANGED, file);
    NoMutation(flag);
    NoPipes();
    assert GATES_REJECTED[0] == 'R' by { GatesRejectedIsPlain(); }
    TwoBlock(GATES_REJECTED, flag);
    OneUnowned([GATES_REJECTED, flag], flag);
    assert PipeFree([flag] + [GATES_REJECTED]);
    OwnedSignature([flag], Some(GATES_REJECTED));
    FailureIsDispatched([flag], Some(GATES_REJECTED), maxBugfixAttempts, answers, false);
  }
}
