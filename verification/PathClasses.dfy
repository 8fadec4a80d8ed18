/** Which paths a sync copies back, told on their characters (tools/klevar-yolo-runtime/src/path-policy.ts,
    tools/klevar-yolo-runtime/src/worktree-sync.ts). */
module PathClasses {
  import opened Sequences
  import opened Text
  import opened PathPolicy
  import opened RecoveryMerge
  import opened MergeEvidence
  import opened ShardSync

  // ---- Safe paths ----

  /** No two dots in a row. */
  predicate NoDoubleDot(s: string) {
    forall i | 0 <= i < |s| - 1 && s[i] == '.' :: s[i + 1] != '.'
  }

  /** A relative path that climbs nowhere. */
  predicate IsRelative(file: string) {
    IsTidy(file) && file[0] != '/' && '\0' !in file && ':' !in file && NoDoubleDot(file)
  }

  lemma RelativeIsSafe(file: string)
    requires IsRelative(file)
    ensures IsSafeRelativePath(file) && NormalizeRuntimePath(file) == file && IsNormal(file)
  {
    hide NormalizeRuntimePath, Trim, Unquote, Includes;
    TidyIsNormal(file);
    NotClimbing(file);
  }

  lemma NotClimbing(file: string)
    requires NoDoubleDot(file) && file != ""
    ensures !Includes("/" + file + "/", "/../")
  {
    hide OccursAt;
    var text := "/" + file + "/";
    forall i: nat | i <= |text| - 4 ensures !OccursAt(text, "/../", i) {
      OccursStart(text, "/../", i);
      assert i + 1 < |text| - 1 ==> text[i + 1] == file[i];
      assert i + 2 < |text| - 1 ==> text[i + 2] == file[i + 1];
    }
  }

  /** A path that climbs is never safe, and never copied. */
  lemma ClimbingIsUnsafe(front: string, rest: string)
    requires IsTidy(front + "/../" + rest)
    ensures ClassifyRuntimePath(front + "/../" + rest).Unsafe? && !IsSynced(front + "/../" + rest)
  {
    hide NormalizeRuntimePath, Trim, Unquote;
    var file := front + "/../" + rest;
    TidyIsNormal(file);
    var text := "/" + file + "/";
    assert text[|front| + 1..|front| + 5] == "/../";
    assert OccursAt(text, "/../", |front| + 1);
  }

  /** Nor is an absolute one. */
  lemma AbsoluteIsUnsafe(file: string)
    requires IsTidy(file) && file[0] == '/'
    ensures ClassifyRuntimePath(file).Unsafe? && !IsSynced(file)
  {
    hide NormalizeRuntimePath, Trim, Unquote;
    TidyIsNormal(file);
  }

  /** Nor is one on a drive, with either slash. */
  lemma DriveIsUnsafe(drive: char, slash: char, rest: string)
    requires ('a' <= drive <= 'z' || 'A' <= drive <= 'Z') && slash in "/\\"
    requires rest != "" && !IsSpace(rest[|rest| - 1]) && !IsQuote(rest[|rest| - 1])
    ensures var file := [drive, ':', slash] + rest; ClassifyRuntimePath(file).Unsafe? && !IsSynced(file)
  {
    hide NormalizeRuntimePath, Trim, Includes;
    var file := [drive, ':', slash] + rest;
    assert file[0] == drive && file[1] == ':' && file[2] == slash && file[|file| - 1] == rest[|rest| - 1];
    TrimPlain(file);
    assert Unquote(file) == file;
    assert IsAbsolute(file);
  }

  /** Quotes around a path do not count. */
  lemma QuotesDoNotCount(file: string, left: char, right: char)
    requires IsTidy(file) && IsQuote(left) && IsQuote(right)
    ensures NormalizeRuntimePath([left] + file + [right]) == file
  {
    hide Trim;
    var quoted := [left] + file + [right];
    TrimPlain(quoted);
    assert quoted[1..] == file + [right] && (file + [right])[..|file|] == file;
    assert Unquote(quoted) == file;
    assert ReplaceChar(file, '\\', '/') == file;
    DotSlash(file);
  }

  // ---- Reports ----

  /** A report that lies in the directory itself is an artifact of the runtime, */
  lemma ReportIsArtifact(name: string)
    requires name != "" && forall i | 0 <= i < |name| :: 'a' <= name[i] <= 'z'
    ensures IsRuntimeArtifactDeliverablePath(".yolo/gates/" + name + ".json")
  {
    hide NormalizeRuntimePath, Lower;
    var file, rest := ".yolo/gates/" + name + ".json", name + ".json";
    assert file == ".yolo/gates/" + rest && |".yolo/gates/"| == 12 && file[12..] == rest;
    assert forall i | |name| <= i < |rest| :: rest[i] == ".json"[i - |name|];
    GateFile(file, rest);
    assert rest[|rest| - 5..] == ".json";
    assert EndsWith(rest, ".json") && '/' !in rest;
  }

  /** and nothing below it is. */
  lemma NestedIsNoArtifact(rest: string)
    requires '/' in rest && IsTidy(".yolo/gates/" + rest)
    requires forall i | 0 <= i < |rest| :: !('A' <= rest[i] <= 'Z')
    ensures !IsRuntimeArtifactDeliverablePath(".yolo/gates/" + rest)
  {
    hide NormalizeRuntimePath, Lower, IsTidy;
    var file := ".yolo/gates/" + rest;
    assert |".yolo/gates/"| == 12 && file[12..] == rest;
    GateFile(file, rest);
    assert file[6] == 'g' && ".yolo/batch-results/"[6] == 'b';
  }

  lemma GateFile(file: string, rest: string)
    requires file == ".yolo/gates/" + rest && IsTidy(file) && forall i | 0 <= i < |rest| :: !('A' <= rest[i] <= 'Z')
    ensures NormalizeRuntimePath(file) == file && Lower(file) == file
  {
    hide NormalizeRuntimePath, Lower, IsTidy;
    TidyIsNormal(file);
    var front := ".yolo/gates/";
    assert forall i | 0 <= i < |front| :: !('A' <= front[i] <= 'Z');
    LowerAlready(file);
  }

  // ---- Paths that stay where they are ----

  /** Version control and its configuration. */
  lemma GitStays(rest: string)
    requires IsRelative(".git/" + rest)
    ensures ClassifyRuntimePath(".git/" + rest).GitControl? && !IsSynced(".git/" + rest)
  {
    hide NormalizeRuntimePath, IsSafeRelativePath;
    RelativeIsSafe(".git/" + rest);
  }

  /** The environment, and its variants. */
  lemma EnvironmentStays(rest: string)
    requires rest == "" || IsRelative(".env." + rest)
    ensures var file := if rest == "" then ".env" else ".env." + rest;
            ClassifyRuntimePath(file).Environment? && !IsSynced(file)
  {
    hide NormalizeRuntimePath, IsSafeRelativePath, IsTidy;
    var file := if rest == "" then ".env" else ".env." + rest;
    assert IsRelative(".env") by { EnvIsRelative(); }
    RelativeIsSafe(file);
    assert file != ".git" && !StartsWith(file, ".git/") by { assert file[1] == 'e' && ".git/"[1] == 'g'; }
  }

  lemma EnvIsRelative()
    ensures IsRelative(".env")
  {
  }

  /** A path whose second character tells it from version control and the environment. */
  predicate IsElsewhere(file: string) {
    IsRelative(file) && |file| >= 2 && file[1] != 'g' && file[1] != 'e'
  }

  lemma ElsewhereIsNoControl(file: string)
    requires IsElsewhere(file)
    ensures IsSafeRelativePath(file) && NormalizeRuntimePath(file) == file
    ensures file != ".git" && !StartsWith(file, ".git/") && file != ".env" && !StartsWith(file, ".env.")
  {
    hide NormalizeRuntimePath, IsSafeRelativePath;
    RelativeIsSafe(file);
    assert ".git/"[1] == 'g' && ".env."[1] == 'e' && ".git"[1] == 'g' && ".env"[1] == 'e';
  }

  /** What the runtime writes for itself. */
  lemma RuntimeStays(name: string)
    requires name != "" && IsElsewhere(".yolo/runtime/" + name) && 'a' <= name[|name| - 1] <= 'z'
    ensures ClassifyRuntimePath(".yolo/runtime/" + name).RuntimeControl? && !IsSynced(".yolo/runtime/" + name)
  {
    hide NormalizeRuntimePath, IsSafeRelativePath, IsRuntimeOwnedPath;
    ElsewhereIsNoControl(".yolo/runtime/" + name);
    assert '\\' !in name by { NoBackslash(".yolo/runtime/", name); }
    RuntimeIsOwned(name);
  }

  lemma NoBackslash(front: string, rest: string)
    requires IsTidy(front + rest)
    ensures '\\' !in rest
  {
    forall i | 0 <= i < |rest| ensures rest[i] != '\\' {
      assert (front + rest)[|front| + i] == rest[i];
    }
  }

  /** Installed packages, wherever they are installed. */
  lemma PackagesStay(rest: string)
    requires IsElsewhere("lib/node_modules/" + rest) && rest != "" && rest[|rest| - 1] != '/'
    ensures ClassifyRuntimePath("lib/node_modules/" + rest).Generated? && !IsSynced("lib/node_modules/" + rest)
  {
    hide NormalizeRuntimePath, IsSafeRelativePath, IsRuntimeOwnedPath, IsTemplateManagedProtectedPath, Lower,
      IsRuntimeArtifactDeliverablePath, IsVendoredKlevarToolingPath, IsGeneratedDependencyPath, IsElsewhere;
    var file := "lib/node_modules/" + rest;
    ElsewhereIsNoControl(file);
    assert file[0] == 'l';
    assert Lower(file) != "" && Lower(file)[0] == 'l' by { FirstLowered(file); }
    LibraryIsNoneOfThem(file);
    PackagesAreGenerated(rest);
  }

  lemma LibraryIsNoneOfThem(file: string)
    requires NormalizeRuntimePath(file) == file && Lower(file) != "" && Lower(file)[0] == 'l'
    ensures !IsRuntimeOwnedPath(file) && !IsTemplateManagedProtectedPath(file) && !IsVendoredKlevarToolingPath(file)
    ensures !IsRuntimeArtifactDeliverablePath(file)
  {
    hide NormalizeRuntimePath, Lower, StartsWithAny, IsReportName;
    var lowered := Lower(file);
    NoPrefix(lowered, [".yolo/runtime/", ".yolo/events/", ".yolo/logs/", ".yolo/worktrees/", ".yolo/pi-sessions/",
                       ".yolo/subagent-prompts/", ".yolo/subagent-runs/", ".yolo/incidents/"]);
    NoPrefix(lowered, [".agent/rules/", ".agent/workflows/", ".agent/guides/", ".agent/agents/"]);
    NoPrefix(lowered, ["tools/klevar-yolo-runtime/", "tools/klevar-pi-package/"]);
  }

  lemma PackagesAreGenerated(rest: string)
    requires rest != "" && rest[|rest| - 1] != '/'
    requires NormalizeRuntimePath("lib/node_modules/" + rest) == "lib/node_modules/" + rest
    ensures IsGeneratedDependencyPath("lib/node_modules/" + rest)
  {
    hide NormalizeRuntimePath, Lower;
    var file := "lib/node_modules/" + rest;
    assert DropSlashes(file) == file;
    LowerAlready("lib/node_modules/");
    LowerPrefix(file, "lib/node_modules/");
    var text := "/" + Lower(file) + "/";
    assert text[4..18] == "/node_modules/" by { assert text[1..18] == Lower(file)[..17] == "lib/node_modules/"; }
    assert OccursAt(text, "/node_modules/", 4);
    var directories := ["/node_modules/", "/.pnpm/", "/vendor/bundle/", "/dist/", "/build/", "/coverage/", "/.next/"];
    assert Includes(text, directories[0]);
  }

  // ---- What the checks of a sync let through ----

  /** The path lies in the directory, which may be written with a slash at its end. */
  predicate IsInside(path: string, directory: string) {
    && |path| > |directory| > 0 && path[..|directory|] == directory
    && (path[|directory|] == '/' || directory[|directory| - 1] == '/')
  }

  /** A changed path is declared exactly when a listed path that is synced at all is the same, contains it, or lies in
      it; a listed directory may stand for itself. */
  lemma CoveredMeans(actual: string, declared: seq<string>)
    requires actual != "" && forall d | 0 <= d < |declared| :: declared[d] != ""
    ensures IsCovered(actual, declared) <==>
            exists d | 0 <= d < |declared| :: !IsSyncExcludedPath(declared[d]) &&
              (actual == declared[d] || IsInside(actual, declared[d]) || IsInside(declared[d], actual))
  {
    hide IsSyncExcludedPath, StartsWith, IsInside;
    forall d | 0 <= d < |declared|
      ensures actual == declared[d] || Overlaps(declared[d], actual) <==>
              actual == declared[d] || IsInside(actual, declared[d]) || IsInside(declared[d], actual)
    {
      InsideMeans(actual, declared[d]);
      InsideMeans(declared[d], actual);
    }
  }

  lemma InsideMeans(path: string, directory: string)
    requires directory != ""
    ensures StartsWith(path, AsDirectory(directory)) || path == directory <==>
            IsInside(path, directory) || path == directory
  {
    var n := |directory|;
    EndsWithChar(directory, '/');
    assert ['/'] == "/";
    if directory[n - 1] == '/' {
      if directory <= path { assert path[..n] == directory; }
    } else {
      if directory + "/" <= path {
        assert path[n] == (directory + "/")[n] && path[..n] == (directory + "/")[..n] == directory;
      }
      if IsInside(path, directory) { assert path[..n + 1] == directory + "/"; }
    }
  }

  /** Only the progress file and what lies in `.yolo/` may be listed by two results. */
  lemma ExemptMeans(file: string)
    ensures IsExempt(file) <==> file == "docs/progress.md" || IsInside(file, ".yolo") || file == ".yolo/"
  {
    if ".yolo/" <= file { assert file[..6] == ".yolo/" && file[..5] == ".yolo/"[..5] && file[5] == '/'; }
    if IsInside(file, ".yolo") { assert file[..6] == ".yolo/"; }
  }

  /** A changed progress file that the result does not list stops the sync. */
  lemma UnlistedProgressStops(root: Tree, head: Tree, shard: Shard)
    requires shard.filesChanged == ["src/cart.ts"] && PROGRESS_FILE in Dirty(shard.worktree, head)
    ensures Sync(root, head, shard).Err?
  {
    hide Dirty, Rejected, NormalizeRuntimePath, ClassifyRuntimePath, IsVendoredKlevarToolingPath, Lower, StartsWithAny,
      IsSyncExcludedPath, UniqueNormalized, DirtyConflicts, Candidates, IsCovered;
    ProgressIsNotIgnored();
    ListedIs("src/cart.ts");
    assert UniqueNormalized(shard.filesChanged) == ["src/cart.ts"];
    CoveredMeans(PROGRESS_FILE, ["src/cart.ts"]);
    assert PROGRESS_FILE[0] == 'd' && "src/cart.ts"[0] == 's';
    assert PROGRESS_FILE in Undeclared(shard, head);
  }

  lemma ListedIs(file: string)
    requires file == "src/cart.ts"
    ensures UniqueNormalized([file]) == [file]
  {
    hide NormalizeRuntimePath;
    TidyIsNormal(file);
    assert Map(NormalizeRuntimePath, [file]) == [file];
    FilterAll((path: string) => path != "", [file]);
    assert Unique([file]) == [file] by { assert [file][..0] == []; }
  }

  lemma ProgressIsNotIgnored()
    ensures !IsIgnoredWhenUndeclared(PROGRESS_FILE)
  {
    hide NormalizeRuntimePath, ClassifyRuntimePath, IsVendoredKlevarToolingPath, Lower, IsRuntimeOwnedPath,
      IsTemplateManagedProtectedPath, IsRuntimeArtifactDeliverablePath, StartsWithAny;
    ProgressFileShape();
    ProgressFileIsNormal();
    ProgressFileIsProduct();
    StartsLikeProduct(PROGRESS_FILE);
    NoPrefix(PROGRESS_FILE, [".yolo/batch-results/", ".yolo/gates/", ".yolo/knowledge-packs/",
                             ".yolo/subagent-events/"]);
    assert ".yolo/command-cache.json"[0] == '.';
  }

  /** A changed report need not be listed. */
  lemma ReportIsIgnored(name: string)
    ensures IsIgnoredWhenUndeclared(".yolo/gates/" + name)
  {
    hide IsSyncExcludedPath, IsVendoredKlevarToolingPath, Lower;
    var file := ".yolo/gates/" + name;
    LowerAlready(".yolo/gates/");
    LowerPrefix(file, ".yolo/gates/");
    assert StartsWith(Lower(file) + "/", ".yolo/gates/");
    var directories := [".yolo/batch-results/", ".yolo/gates/", ".yolo/knowledge-packs/", ".yolo/subagent-events/"];
    assert directories[1] == ".yolo/gates/";
  }
}
