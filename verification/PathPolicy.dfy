/** Who owns a path, and whether it is copied back to the root (tools/klevar-yolo-runtime/src/path-policy.ts). */
module PathPolicy {
  import opened Text

  predicate IsQuote(c: char) { c == '\'' || c == '"' }

  function Unquote(s: string): string {
    var headed := if s != "" && IsQuote(s[0]) then s[1..] else s;
    if headed != "" && IsQuote(headed[|headed| - 1]) then DropEnd(headed, 1) else headed
  }

  function WithoutDot(s: string): string {
    if StartsWith(s, "./") then s[2..] else s
  }

  function NormalizeRuntimePath(value: string): string {
    WithoutDot(ReplaceChar(Unquote(Trim(value)), '\\', '/'))
  }

  function DropSlashes(s: string): string {
    if s != "" && s[|s| - 1] == '/' then DropSlashes(s[..|s| - 1]) else s
  }

  predicate IsAbsolute(s: string) {
    || (s != "" && (s[0] == '/' || s[0] == '\\'))
    || (|s| > 2 && ('A' <= UpperChar(s[0]) <= 'Z') && s[1] == ':' && (s[2] == '/' || s[2] == '\\'))
  }

  predicate IsSafeRelativePath(raw: string) {
    && raw != "" && '\0' !in raw && !IsAbsolute(Unquote(Trim(raw)))
    && !Includes("/" + NormalizeRuntimePath(raw) + "/", "/../")
  }

  /** The nine answers of `classifyRuntimePath`. */
  datatype PathClass = Unsafe | GitControl | Environment | RuntimeControl | TemplateProtected | RuntimeArtifact
                     | VendoredTooling | Generated | Product

  function ClassifyRuntimePath(value: string): PathClass {
    var file := NormalizeRuntimePath(value);
    if !IsSafeRelativePath(value) then Unsafe
    else if file == ".git" || StartsWith(file, ".git/") then GitControl
    else if file == ".env" || StartsWith(file, ".env.") then Environment
    else if IsRuntimeOwnedPath(file) then RuntimeControl
    else if IsTemplateManagedProtectedPath(file) then TemplateProtected
    else if IsRuntimeArtifactDeliverablePath(file) then RuntimeArtifact
    else if IsVendoredKlevarToolingPath(file) then VendoredTooling
    else if IsGeneratedDependencyPath(file) then Generated
    else Product
  }

  predicate IsRuntimeOwnedPath(value: string) {
    var file := Lower(NormalizeRuntimePath(value));
    || file == ".yolo/runtime-state.json" || file == ".yolo/runtime-lock.json" || file == ".yolo/runtime.config.json"
    || StartsWithAny(file + "/", [".yolo/runtime/", ".yolo/events/", ".yolo/logs/", ".yolo/worktrees/",
                                  ".yolo/pi-sessions/", ".yolo/subagent-prompts/", ".yolo/subagent-runs/",
                                  ".yolo/incidents/"])
  }

  /** Neither white space nor a quote at the ends, no backslash, and no leading `./`. */
  predicate IsTidy(file: string) {
    && file != "" && !IsSpace(file[0]) && !IsQuote(file[0]) && !IsSpace(file[|file| - 1])
    && !IsQuote(file[|file| - 1]) && '\\' !in file && !(|file| >= 2 && file[0] == '.' && file[1] == '/')
  }

  /** Such a path is its own normal form. */
  lemma TidyIsNormal(file: string)
    requires IsTidy(file)
    ensures NormalizeRuntimePath(file) == file && Trim(file) == file && Unquote(file) == file
  {
    hide Trim;
    TrimPlain(file);
    assert ReplaceChar(file, '\\', '/') == file;
    DotSlash(file);
  }

  lemma DotSlash(file: string)
    ensures StartsWith(file, "./") ==> |file| >= 2 && file[0] == '.' && file[1] == '/'
  {
    if "./" <= file { assert file[0] == "./"[0] && file[1] == "./"[1]; }
  }

  /** The runtime owns no path that starts with a letter. */
  lemma LetterIsNotOwned(file: string)
    requires Lower(NormalizeRuntimePath(file)) != "" && 'a' <= Lower(NormalizeRuntimePath(file))[0] <= 'z'
    ensures !IsRuntimeOwnedPath(file)
  {
    hide NormalizeRuntimePath, Lower;
    var lowered := Lower(NormalizeRuntimePath(file));
    assert (lowered + "/")[0] == lowered[0];
  }

  predicate IsTemplateManagedProtectedPath(value: string) {
    var file := Lower(NormalizeRuntimePath(value));
    || file == "agents.md" || file == "claude.md" || file == ".cursorrules"
    || StartsWithAny(file + "/", [".agent/rules/", ".agent/workflows/", ".agent/guides/", ".agent/agents/"])
  }

  predicate IsVendoredKlevarToolingPath(value: string) {
    StartsWithAny(Lower(NormalizeRuntimePath(value)) + "/", ["tools/klevar-yolo-runtime/", "tools/klevar-pi-package/"])
  }

  predicate IsRuntimeArtifactDeliverablePath(value: string) {
    var file := Lower(NormalizeRuntimePath(value));
    || (StartsWith(file, ".yolo/batch-results/") && IsReportName(file[|".yolo/batch-results/"|..]))
    || (StartsWith(file, ".yolo/gates/") && IsReportName(file[|".yolo/gates/"|..]))
  }

  predicate IsReportName(name: string) {
    && '/' !in name
    && ((|name| > 5 && EndsWith(name, ".json")) || (|name| > 3 && EndsWith(name, ".md"))
        || (|name| > 6 && EndsWith(name, ".jsonl")) ||
        (|name| > 4 && EndsWith(name, ".txt")))
  }

  predicate IsGeneratedDependencyPath(value: string) {
    IncludesAny("/" + Lower(DropSlashes(NormalizeRuntimePath(value))) + "/",
                ["/node_modules/", "/.pnpm/", "/vendor/bundle/", "/dist/", "/build/", "/coverage/", "/.next/"])
  }

  /** `sync` is "ignore" or "reject". */
  predicate IsExcludedClass(class_: PathClass) {
    || class_.Unsafe? || class_.GitControl? || class_.Environment? || class_.RuntimeControl?
      || class_.TemplateProtected?
    || class_.Generated?
  }

  predicate IsSyncExcludedPath(value: string) {
    IsExcludedClass(ClassifyRuntimePath(value))
  }

  // ---- Policy patterns ----

  predicate GlobMatches(file: string, pattern: string)
    decreases |file| + |pattern|
  {
    if pattern == "" then file == ""
    else if pattern[0] == '*' then
      GlobMatches(file, pattern[1..]) || (file != "" && OneLine(file[..1]) && GlobMatches(file[1..], pattern))
    else file != "" && file[0] == pattern[0] && GlobMatches(file[1..], pattern[1..])
  }

  predicate MatchesDirectoryPattern(file: string, directory: string) {
    if directory == "" then false
    else if '/' in directory then file == directory || StartsWith(file, directory + "/")
    else
      file == directory || StartsWith(file, directory + "/") || Includes(file, "/" + directory + "/") ||
      EndsWith(file, "/" + directory)
  }

  predicate MatchesPolicyPattern(file: string, pattern: string) {
    var name, wanted := Lower(NormalizeRuntimePath(file)), Lower(NormalizeRuntimePath(pattern));
    if EndsWith(wanted, "/") then MatchesDirectoryPattern(name, DropSlashes(wanted))
    else if '*' in wanted then GlobMatches(name, wanted)
    else name == wanted || StartsWith(name, wanted + "/")
  }

  predicate MatchesAnyPolicyPattern(file: string, patterns: seq<string>) {
    exists i | 0 <= i < |patterns| :: MatchesPolicyPattern(file, patterns[i])
  }

  const PROTECTED_PATHS := [".agent/rules/", ".agent/workflows/", ".agent/guides/", ".agent/agents/", "AGENTS.md",
                            "CLAUDE.md", ".cursorrules", ".yolo/runtime.config.json"]
  const BLOCKED_PATHS := [".env", ".env.*", ".git/", "node_modules/", "*.pem", "*.key"]
}
