/** Which items run in parallel: the greedy planner and the claims it respects
    (tools/klevar-yolo-runtime/src/collaboration/scheduler.ts, tools/klevar-yolo-runtime/src/collaboration/claims.ts).
    */
module ParallelPlan {
  import opened Wrappers
  import opened Sequences
  import opened Text
  import opened ProgressFile
  import SupportScheduler

  // ---- Claims ----

  datatype ClaimStatus = Active | Blocked | Done | Released

  datatype Claim = Claim(task: string, operator: string, status: ClaimStatus, expectedFiles: seq<string>)

  predicate IsActiveClaim(claim: Claim) { claim.status.Active? || claim.status.Blocked? }

  predicate IsExternal(claim: Claim) {
    IsActiveClaim(claim) && !StartsWith(claim.operator, "operator:pi-yolo")
  }

  /** `replace(/^\[[A-Z-]+\]\s+/, "")` */
  function WithoutTag(value: string): string {
    var rest := value[|TagOf(value)|..];
    if TagOf(value) != "" && rest != "" && IsSpace(rest[0]) then TrimStart(rest) else value
  }

  /** `/\s*PRD\s+.+$/i` at the start of `s`. */
  predicate IsPrdNote(s: string) {
    StartsWith(Upper(TrimStart(s)), "PRD") && IsTitle(TrimStart(s)[3..])
  }

  /** `replace(/—\s*PRD\s+.+$/i, "")` */
  function WithoutPrd(value: string): string {
    if value == "" then ""
    else if value[0] == '\U{2014}' && IsPrdNote(value[1..]) then ""
    else [value[0]] + WithoutPrd(value[1..])
  }

  function NormalizeTask(value: string): string {
    Lower(Trim(WithoutPrd(WithoutTag(value))))
  }

  predicate SameTask(a: string, b: string) {
    Includes(NormalizeTask(a), NormalizeTask(b)) || Includes(NormalizeTask(b), NormalizeTask(a))
  }

  predicate IsClaimedByExternalOperator(title: string, claims: seq<Claim>) {
    exists c | 0 <= c < |claims| :: IsExternal(claims[c]) && SameTask(title, claims[c].task)
  }

  predicate IsClaimedFile(file: string, claims: seq<Claim>) {
    exists c | 0 <= c < |claims| :: IsExternal(claims[c]) && file in claims[c].expectedFiles
  }

  /** `conflictsWithClaimedFiles` */
  function ClaimConflicts(files: seq<string>, claims: seq<Claim>): seq<string> {
    Filter((file: string) => IsClaimedFile(file, claims), files)
  }

  // ---- Shared files and domains ----

  const SHARED_FILE_PREFIXES: seq<string> :=
    ["package.json", "package-lock.json", "pnpm-lock.yaml", "yarn.lock", "bun.lockb", "deno.lock", "pom.xml",
     "build.gradle", "build.gradle.kts", "settings.gradle", "settings.gradle.kts", "gradle/", "gradlew",
     "gradlew.bat", "Cargo.toml", "Cargo.lock", "go.mod", "go.sum", "pyproject.toml", "poetry.lock", "Pipfile",
     "Pipfile.lock", "requirements.txt", "Gemfile", "Gemfile.lock", "composer.json", "composer.lock", "mix.exs",
     "mix.lock", "pubspec.yaml", "pubspec.lock", ".csproj", ".fsproj", ".sln", "Makefile", "CMakeLists.txt",
     "Dockerfile", "docker-compose", ".github/workflows/", ".yolo/", ".agent/rules/", ".agent/agents/",
     ".agent/workflows/", ".agent/guides/"]

  predicate MatchesShared(file: string, prefix: string) {
    file == prefix || StartsWith(file, prefix) || (StartsWith(prefix, ".") && EndsWith(file, prefix))
  }

  predicate IsSharedFile(file: string) {
    exists p | 0 <= p < |SHARED_FILE_PREFIXES| :: MatchesShared(file, SHARED_FILE_PREFIXES[p])
  }

  function Domain(tag: string): string {
    if tag == "[UI]" then "frontend"
    else if tag == "[API]" || tag == "[JOB]" then "backend"
    else if tag == "[INTEGRATION]" then "integration"
    else if tag == "[DATA]" then "data"
    else if tag == "[SETUP]" then "setup"
    else if tag == "[FEATURE]" then "feature"
    else if tag == "[FIX]" then "fix"
    else if tag == "[BUG]" then "bug"
    else if tag == "[AUDIT]" then "audit"
    else tag
  }

  // ---- The greedy decisions ----

  datatype SkipReason = AuditNotParallel | ExternallyClaimed | ClaimFileConflict(files: seq<string>) | SharedFile
                      | LocalFileConflict | UnknownFilesSameDomain

  datatype Decision = Planned(item: ProgressItem) | Skipped(item: ProgressItem, reason: SkipReason)

  /** The planned items, in order. */
  function Shards(decisions: seq<Decision>): seq<ProgressItem> {
    if decisions == [] then []
    else
      var last := decisions[|decisions| - 1];
      Shards(decisions[..|decisions| - 1]) + (if last.Planned? then [last.item] else [])
  }

  function Skips(decisions: seq<Decision>): seq<Decision> {
    Filter((d: Decision) => d.Skipped?, decisions)
  }

  predicate UsesFile(shards: seq<ProgressItem>, file: string) {
    exists s | 0 <= s < |shards| :: file in shards[s].affectedFiles
  }

  predicate UsesDomain(shards: seq<ProgressItem>, domain: string) {
    exists s | 0 <= s < |shards| :: Domain(shards[s].tag) == domain
  }

  predicate HasSharedFile(files: seq<string>) {
    exists f | 0 <= f < |files| :: IsSharedFile(files[f])
  }

  predicate UsesAnyFile(shards: seq<ProgressItem>, files: seq<string>) {
    exists f | 0 <= f < |files| :: UsesFile(shards, files[f])
  }

  function Choose(item: ProgressItem, shards: seq<ProgressItem>, claims: seq<Claim>): Decision {
    if SupportScheduler.IsAuditItem(item) then Skipped(item, AuditNotParallel)
    else if IsClaimedByExternalOperator(item.title, claims) then Skipped(item, ExternallyClaimed)
    else if ClaimConflicts(item.affectedFiles, claims) != [] then
      Skipped(item, ClaimFileConflict(ClaimConflicts(item.affectedFiles, claims)))
    else if HasSharedFile(item.affectedFiles) then Skipped(item, SharedFile)
    else if UsesAnyFile(shards, item.affectedFiles) then Skipped(item, LocalFileConflict)
    else if UsesDomain(shards, Domain(item.tag)) && item.affectedFiles == [] then Skipped(item, UnknownFilesSameDomain)
    else Planned(item)
  }

  function MaxShards(count: int, maxParallelAgents: Option<int>): (max: nat)
    ensures max >= 2 && (max > 2 ==> max <= count && max <= maxParallelAgents.Or(2))
  {
    var agents := maxParallelAgents.Or(2);
    var least := if count < agents then count else agents;
    if least < 2 then 2 else least
  }

  /** The decisions on the items scanned until `max` shards are planned. */
  function Decisions(open: seq<ProgressItem>, max: nat, claims: seq<Claim>): (ds: seq<Decision>)
    ensures |ds| <= |open|
  {
    if open == [] then []
    else
      var n := |open| - 1;
      var front := Decisions(open[..n], max, claims);
      if |front| < n || |Shards(front)| >= max then front else front + [Choose(open[n], Shards(front), claims)]
  }

  // ---- What a plan guarantees ----

  predicate Disjoint(a: ProgressItem, b: ProgressItem) {
    forall f | 0 <= f < |a.affectedFiles| :: a.affectedFiles[f] !in b.affectedFiles
  }

  /** A planned item is no audit, is not claimed, and touches no shared and no claimed file. */
  predicate IsIndependent(item: ProgressItem, claims: seq<Claim>) {
    && !SupportScheduler.IsAuditItem(item) && !IsClaimedByExternalOperator(item.title, claims)
    && forall f | 0 <= f < |item.affectedFiles| ::
         !IsSharedFile(item.affectedFiles[f]) && !IsClaimedFile(item.affectedFiles[f], claims)
  }

  /** An item is planned exactly when it is independent, shares no file with a planned item, and names files or has a
      domain of its own. */
  lemma PlannedExactly(item: ProgressItem, shards: seq<ProgressItem>, claims: seq<Claim>)
    ensures Choose(item, shards, claims).Planned? <==>
            && IsIndependent(item, claims)
            && (forall s | 0 <= s < |shards| :: Disjoint(shards[s], item))
            && (item.affectedFiles != [] || forall s | 0 <= s < |shards| :: Domain(shards[s].tag) != Domain(item.tag))
  {
    hide SupportScheduler.IsAuditItem, IsClaimedByExternalOperator, IsSharedFile, IsClaimedFile, Domain;
    NoClaimConflict(item.affectedFiles, claims);
    NoFileUsed(item, shards);
  }

  lemma NoClaimConflict(files: seq<string>, claims: seq<Claim>)
    ensures ClaimConflicts(files, claims) == [] <==> forall f | 0 <= f < |files| :: !IsClaimedFile(files[f], claims)
  {
    hide IsClaimedFile;
    var conflicts := ClaimConflicts(files, claims);
    if conflicts != [] {
      FilterKeeps((file: string) => IsClaimedFile(file, claims), files, conflicts[0]);
    }
    forall f | 0 <= f < |files| && conflicts == [] ensures !IsClaimedFile(files[f], claims) {
      FilterKeeps((file: string) => IsClaimedFile(file, claims), files, files[f]);
    }
  }

  lemma NoFileUsed(item: ProgressItem, shards: seq<ProgressItem>)
    ensures UsesAnyFile(shards, item.affectedFiles) <==>
            exists s | 0 <= s < |shards| :: !Disjoint(shards[s], item)
  {
    if UsesAnyFile(shards, item.affectedFiles) {
      var f :| 0 <= f < |item.affectedFiles| && UsesFile(shards, item.affectedFiles[f]);
      var s :| 0 <= s < |shards| && item.affectedFiles[f] in shards[s].affectedFiles;
      assert !Disjoint(shards[s], item);
    }
    if exists s | 0 <= s < |shards| :: !Disjoint(shards[s], item) {
      var s :| 0 <= s < |shards| && !Disjoint(shards[s], item);
      var f :| 0 <= f < |shards[s].affectedFiles| && shards[s].affectedFiles[f] in item.affectedFiles;
      FileIsUsed(shards, s, shards[s].affectedFiles[f]);
      UsedAmong(shards, item.affectedFiles, shards[s].affectedFiles[f]);
    }
  }

  lemma UsedAmong(shards: seq<ProgressItem>, files: seq<string>, file: string)
    ensures file in files && UsesFile(shards, file) ==> UsesAnyFile(shards, files)
  {
  }

  lemma FileIsUsed(shards: seq<ProgressItem>, s: nat, file: string)
    requires s < |shards| && file in shards[s].affectedFiles
    ensures UsesFile(shards, file)
  {
  }

  lemma OneMoreDecision(ds: seq<Decision>, last: Decision)
    ensures Shards(ds + [last]) == Shards(ds) + (if last.Planned? then [last.item] else [])
    ensures Skips(ds + [last]) == Skips(ds) + (if last.Skipped? then [last] else [])
  {
    assert (ds + [last])[..|ds|] == ds;
    FilterAppend((d: Decision) => d.Skipped?, ds, [last]);
  }

  /** The decisions with one more item: the same, or one more. */
  lemma OneMoreItem(open: seq<ProgressItem>, max: nat, claims: seq<Claim>)
    requires open != []
    ensures var n := |open| - 1;
            var front := Decisions(open[..n], max, claims);
            Decisions(open, max, claims) ==
            if |front| < n || |Shards(front)| >= max then front else front + [Choose(open[n], Shards(front), claims)]
  {
    hide Choose, Shards;
  }

  /** The decisions are on the first items, in order, each a plan or a skip; they stop at the end or at the limit. */
  predicate Covers(ds: seq<Decision>, open: seq<ProgressItem>, max: nat) {
    && |ds| <= |open| && (forall i | 0 <= i < |ds| :: ds[i].item == open[i])
    && |Shards(ds)| + |Skips(ds)| == |ds|
    && |Shards(ds)| <= max && (|ds| == |open| || |Shards(ds)| == max)
  }

  /** Every scanned item is planned or skipped exactly once, in order; scanning stops at the end or at the limit. */
  lemma {:induction false} EveryItemIsDecided(open: seq<ProgressItem>, max: nat, claims: seq<Claim>)
    ensures Covers(Decisions(open, max, claims), open, max)
  {
    if open == [] {
      assert Skips([]) == [];
    } else {
      hide Choose, Decisions, Covers;
      var n := |open| - 1;
      EveryItemIsDecided(open[..n], max, claims);
      OneMoreItem(open, max, claims);
      var front := Decisions(open[..n], max, claims);
      ChooseKeepsItem(open[n], Shards(front), claims);
      OneMoreCovers(front, open, Choose(open[n], Shards(front), claims), max);
    }
  }

  lemma OneMoreCovers(front: seq<Decision>, open: seq<ProgressItem>, last: Decision, max: nat)
    requires open != [] && Covers(front, open[..|open| - 1], max) && last.item == open[|open| - 1]
    ensures if |front| < |open| - 1 || |Shards(front)| >= max then Covers(front, open, max)
            else Covers(front + [last], open, max)
  {
    hide Shards, Skips;
    OneMoreDecision(front, last);
  }

  /** Shards are pairwise disjoint in files, touch no shared and no externally claimed file, and no two shards without
      files share a domain. */
  lemma {:induction false} ShardsAreIndependent(open: seq<ProgressItem>, max: nat, claims: seq<Claim>)
    ensures var shards := Shards(Decisions(open, max, claims));
            && (forall s | 0 <= s < |shards| :: IsIndependent(shards[s], claims))
            && (forall s, t | 0 <= s < t < |shards| :: Disjoint(shards[s], shards[t]))
            && (forall s, t | 0 <= s < t < |shards| && shards[t].affectedFiles == [] ::
                Domain(shards[s].tag) != Domain(shards[t].tag))
  {
    if open != [] {
      hide IsIndependent, Disjoint, Choose, Domain, Shards, Decisions;
      var n := |open| - 1;
      ShardsAreIndependent(open[..n], max, claims);
      OneMoreItem(open, max, claims);
      var front := Decisions(open[..n], max, claims);
      var last := Choose(open[n], Shards(front), claims);
      ChooseKeepsItem(open[n], Shards(front), claims);
      OneMoreDecision(front, last);
      if last.Planned? { PlannedExactly(open[n], Shards(front), claims); }
    }
  }

  lemma ChooseKeepsItem(item: ProgressItem, shards: seq<ProgressItem>, claims: seq<Claim>)
    ensures Choose(item, shards, claims).item == item
  {
    hide SupportScheduler.IsAuditItem, IsClaimedByExternalOperator, ClaimConflicts, HasSharedFile, UsesAnyFile,
      UsesDomain, Domain;
  }

  /** Each decision is the greedy one given the shards planned before it. */
  lemma {:induction false} DecisionIsGreedy(open: seq<ProgressItem>, max: nat, claims: seq<Claim>, i: nat)
    requires i < |Decisions(open, max, claims)|
    ensures var ds := Decisions(open, max, claims);
            ds[i] == Choose(open[i], Shards(ds[..i]), claims) && |Shards(ds[..i])| < max
  {
    hide Choose, Shards;
    var n := |open| - 1;
    var ds := Decisions(open, max, claims);
    var front := Decisions(open[..n], max, claims);
    if i < |front| {
      DecisionIsGreedy(open[..n], max, claims, i);
      assert ds[..i] == front[..i];
    } else {
      assert ds[..i] == front;
    }
  }

  /** `planParallelBatches`: `usedFiles` and `usedDomains` stand for the shards planned so far. */
  method PlanParallelBatches(items: seq<ProgressItem>, count: int, maxParallelAgents: Option<int>, claims: seq<Claim>)
    returns (shards: seq<ProgressItem>, skipped: seq<Decision>, insufficient: bool)
    ensures var ds := Decisions(OpenItems(items), MaxShards(count, maxParallelAgents), claims);
            shards == Shards(ds) && skipped == Skips(ds) && insufficient == (|shards| < 2)
  {
    hide Choose, Domain, Shards, Skips, Decisions, UsesFile, UsesDomain;
    var max := MaxShards(count, maxParallelAgents);
    PlanStart(max, claims);
    var open := OpenItems(items);
    var usedFiles: set<string>, usedDomains: set<string> := {}, {};
    shards, skipped := [], [];
    ghost var ds: seq<Decision> := [];
    assert open[..0] == [];
    var n := 0;
    while n < |open| && |shards| < max
      invariant 0 <= n <= |open| && |ds| == n
      invariant ds == Decisions(open[..n], max, claims)
      invariant shards == Shards(ds) && skipped == Skips(ds)
      invariant forall file :: file in usedFiles <==> UsesFile(shards, file)
      invariant forall domain :: domain in usedDomains <==> UsesDomain(shards, domain)
    {
      var item := open[n];
      assert open[..n + 1][..n] == open[..n] && open[..n + 1][n] == item;
      var decision := Decide(item, usedFiles, usedDomains, shards, claims);
      ghost var before := shards;
      OneMoreDecision(ds, decision);
      OneMoreItem(open[..n + 1], max, claims);
      if decision.Planned? {
        usedFiles := usedFiles + set file | file in item.affectedFiles;
        usedDomains := usedDomains + {Domain(item.tag)};
        shards := shards + [item];
        UsedGrows(before, item);
      } else {
        skipped := skipped + [decision];
      }
      ds := ds + [decision];
      n := n + 1;
    }
    StoppedEarly(open, n, max, claims);
    insufficient := |shards| < 2;
  }

  lemma PlanStart(max: nat, claims: seq<Claim>)
    ensures Decisions([], max, claims) == [] && Shards([]) == [] && Skips([]) == []
    ensures forall file :: !UsesFile([], file)
    ensures forall domain :: !UsesDomain([], domain)
  {
  }

  /** The tests of one iteration, on the sets of used files and domains. */
  method Decide(item: ProgressItem, usedFiles: set<string>, usedDomains: set<string>, ghost shards: seq<ProgressItem>,
                claims: seq<Claim>)
    returns (decision: Decision)
    requires forall file :: file in usedFiles <==> UsesFile(shards, file)
    requires forall domain :: domain in usedDomains <==> UsesDomain(shards, domain)
    ensures decision == Choose(item, shards, claims) && decision.item == item
  {
    hide SupportScheduler.IsAuditItem, IsClaimedByExternalOperator, ClaimConflicts, HasSharedFile, Domain, UsesFile,
      UsesDomain;
    var files := item.affectedFiles;
    var conflicts := ClaimConflicts(files, claims);
    if SupportScheduler.IsAuditItem(item) {
      decision := Skipped(item, AuditNotParallel);
    } else if IsClaimedByExternalOperator(item.title, claims) {
      decision := Skipped(item, ExternallyClaimed);
    } else if conflicts != [] {
      decision := Skipped(item, ClaimFileConflict(conflicts));
    } else if HasSharedFile(files) {
      decision := Skipped(item, SharedFile);
    } else if exists f | 0 <= f < |files| :: files[f] in usedFiles {
      decision := Skipped(item, LocalFileConflict);
    } else if Domain(item.tag) in usedDomains && |files| == 0 {
      decision := Skipped(item, UnknownFilesSameDomain);
    } else {
      decision := Planned(item);
    }
  }

  lemma UsedGrows(shards: seq<ProgressItem>, item: ProgressItem)
    ensures forall file :: UsesFile(shards + [item], file) <==> UsesFile(shards, file) || file in item.affectedFiles
    ensures forall domain :: UsesDomain(shards + [item], domain) <==>
            UsesDomain(shards, domain) || domain == Domain(item.tag)
  {
    hide Domain;
    var longer := shards + [item];
    forall file ensures UsesFile(longer, file) <==> UsesFile(shards, file) || file in item.affectedFiles {
      if UsesFile(shards, file) {
        var s :| 0 <= s < |shards| && file in shards[s].affectedFiles;
        assert longer[s] == shards[s];
      }
      assert longer[|shards|] == item;
    }
    forall domain ensures UsesDomain(longer, domain) <==> UsesDomain(shards, domain) || domain == Domain(item.tag) {
      if UsesDomain(shards, domain) {
        var s :| 0 <= s < |shards| && Domain(shards[s].tag) == domain;
        assert longer[s] == shards[s];
      }
      assert longer[|shards|] == item;
    }
  }

  /** Once the limit is reached, later items are not looked at. */
  lemma {:induction false} StoppedEarly(open: seq<ProgressItem>, n: nat, max: nat, claims: seq<Claim>)
    requires n <= |open| && |Decisions(open[..n], max, claims)| == n
    requires n == |open| || |Shards(Decisions(open[..n], max, claims))| >= max
    ensures Decisions(open, max, claims) == Decisions(open[..n], max, claims)
    decreases |open| - n
  {
    hide Choose, Shards;
    if n < |open| {
      var last := |open| - 1;
      assert open[..last][..n] == open[..n];
      if n < last {
        StoppedEarlyStep(open, n, last, max, claims);
      }
    } else {
      assert open[..n] == open;
    }
  }

  lemma {:induction false} StoppedEarlyStep(open: seq<ProgressItem>, n: nat, m: nat, max: nat, claims: seq<Claim>)
    requires n <= m <= |open| && |Decisions(open[..n], max, claims)| == n
    requires |Shards(Decisions(open[..n], max, claims))| >= max
    ensures Decisions(open[..m], max, claims) == Decisions(open[..n], max, claims)
    decreases m - n
  {
    hide Choose, Shards;
    if n < m {
      assert open[..m][..m - 1] == open[..m - 1];
      StoppedEarlyStep(open, n, m - 1, max, claims);
    }
  }

  // ---- Two items that can run in parallel, and one that cannot ----

  /** Neither a phase close-out nor a coverage audit is named. */
  predicate NamesNoAudit(text: string) {
    forall i | 0 <= i < |text| - 1 ::
      && !(text[i] == 'p' && text[i + 1] == 'h') && !(text[i] == 'a' && text[i + 1] == 'u')
      && !(text[i] == 'm' && text[i + 1] == 'a')
  }

  lemma NoPhase(text: string)
    requires NamesNoAudit(text)
    ensures forall i | 0 <= i <= |text| :: !SupportScheduler.CloseOutAt(text, i) && !SupportScheduler.MatrixAt(text, i)
    ensures !Includes(text, "matrix-coverage")
  {
    hide TrimStart, SupportScheduler.DropDigits;
    forall i | 0 <= i <= |text| ensures !StartsWith(text[i..], "phase") && !StartsWith(text[i..], "audit") {
      StartTwo(text[i..], "phase");
      StartTwo(text[i..], "audit");
    }
    forall i: nat ensures !OccursAt(text, "matrix-coverage", i) {
      OccursStart(text, "matrix-coverage", i);
    }
  }

  lemma StartTwo(s: string, prefix: string)
    requires |prefix| >= 2
    ensures StartsWith(s, prefix) ==> |s| >= 2 && s[0] == prefix[0] && s[1] == prefix[1]
  {
  }

  /** No letter that one of these names needs. */
  predicate IsQuiet(text: string) {
    forall i | 0 <= i < |text| :: LowerChar(text[i]) != 'h' && LowerChar(text[i]) != 'u' && LowerChar(text[i]) != 'm'
  }

  lemma QuietNamesNoAudit(text: string)
    requires IsQuiet(text)
    ensures NamesNoAudit(Lower(text))
  {
    hide LowerChar;
  }

  lemma NotAnAudit(item: ProgressItem)
    requires item.tag != "[AUDIT]" && NamesNoAudit(Lower(item.title + "\n" + item.raw))
    requires NamesNoAudit(Lower(JoinLines(item.details))) && NamesNoAudit(Lower(item.raw))
    ensures !SupportScheduler.IsAuditItem(item)
  {
    hide Lower, JoinLines, SupportScheduler.CloseOutAt, SupportScheduler.MatrixAt, Includes, NamesNoAudit;
    NoPhase(Lower(item.title + "\n" + item.raw));
    NoPhase(Lower(JoinLines(item.details)));
    NoPhase(Lower(item.raw));
  }

  /** A file that starts with `sr` and does not end as a shared one does. */
  lemma SourceIsNotShared(file: string)
    requires |file| > 2 && file[0] == 's' && file[1] == 'r' && file[|file| - 1] == 's'
    ensures !IsSharedFile(file)
  {
    hide StartsWith, EndsWith;
    forall p | 0 <= p < |SHARED_FILE_PREFIXES| ensures !MatchesShared(file, SHARED_FILE_PREFIXES[p]) {
      var prefix := SHARED_FILE_PREFIXES[p];
      SharedShape(p);
      StartAndEnd(file, prefix);
    }
  }

  lemma SharedShape(p: nat)
    requires p < |SHARED_FILE_PREFIXES|
    ensures var prefix := SHARED_FILE_PREFIXES[p];
            && |prefix| > 1 && (prefix[0] != 's' || prefix[1] != 'r')
            && (prefix[0] == '.' ==> prefix[|prefix| - 1] != 's')
  {
  }

  lemma StartAndEnd(file: string, prefix: string)
    requires prefix != ""
    ensures StartsWith(file, prefix) ==> |file| >= |prefix| && forall k | 0 <= k < |prefix| :: file[k] == prefix[k]
    ensures EndsWith(file, prefix) ==> |file| >= |prefix| && file[|file| - 1] == prefix[|prefix| - 1]
    ensures StartsWith(prefix, ".") ==> prefix[0] == '.'
  {
    if EndsWith(file, prefix) { assert file[|file| - |prefix|..][|prefix| - 1] == file[|file| - 1]; }
    if StartsWith(prefix, ".") { assert "."[0] == '.'; }
  }

  lemma PackageIsShared()
    ensures IsSharedFile("package.json")
  {
    assert SHARED_FILE_PREFIXES[0] == "package.json";
    assert MatchesShared("package.json", SHARED_FILE_PREFIXES[0]);
  }

  function ItemOn(tag: string, file: string): ProgressItem {
    ProgressItem("- [ ] " + tag + " Login", tag, "Login", "", false, [], [file], None)
  }

  /** Without claims, two items on files of their own are both planned; an item on a shared file is skipped for it. */
  lemma TwoItemsArePlanned(max: nat)
    requires max >= 2
    ensures var a, b := ItemOn("[API]", "src/api.ts"), ItemOn("[DATA]", "src/data.ts");
            var c := ItemOn("[DATA]", "package.json");
            && Decisions([c, a, b], max, []) == [Skipped(c, SharedFile), Planned(a), Planned(b)]
  {
    hide Decisions, ItemOn;
    var a, b, c := ItemOn("[API]", "src/api.ts"), ItemOn("[DATA]", "src/data.ts"), ItemOn("[DATA]", "package.json");
    LoginsAreChosen(a, b, c);
    ThreeDecisions(c, a, b, max);
  }

  lemma LoginsAreChosen(a: ProgressItem, b: ProgressItem, c: ProgressItem)
    requires a == ItemOn("[API]", "src/api.ts") && b == ItemOn("[DATA]", "src/data.ts")
             && c == ItemOn("[DATA]", "package.json")
    ensures Choose(c, [], []) == Skipped(c, SharedFile) && Choose(a, [], []) == Planned(a)
            && Choose(b, [a], []) == Planned(b)
  {
    hide Choose, IsSharedFile, Domain, SupportScheduler.IsAuditItem, Disjoint;
    PackageIsShared();
    SourceIsNotShared("src/api.ts");
    SourceIsNotShared("src/data.ts");
    LoginIsNoAudit("[API]", "src/api.ts");
    LoginIsNoAudit("[DATA]", "src/data.ts");
    LoginIsNoAudit("[DATA]", "package.json");
    SharedIsSkipped(c);
    PlannedExactly(a, [], []);
    ChooseKeepsItem(a, [], []);
    PlannedExactly(b, [a], []);
    ChooseKeepsItem(b, [a], []);
    OtherFile(a, b);
  }

  lemma NextDecision(open: seq<ProgressItem>, ds: seq<Decision>, item: ProgressItem, max: nat)
    requires Decisions(open, max, []) == ds && |ds| == |open| && |Shards(ds)| < max
    ensures var decision := Choose(item, Shards(ds), []);
            && Decisions(open + [item], max, []) == ds + [decision]
            && Shards(ds + [decision]) == Shards(ds) + (if decision.Planned? then [decision.item] else [])
  {
    hide Choose, Decisions, Shards, Skips;
    assert (open + [item])[..|open|] == open && (open + [item])[|open|] == item;
    OneMoreItem(open + [item], max, []);
    OneMoreDecision(ds, Choose(item, Shards(ds), []));
  }

  /** One item skipped and two planned, in a scan of three. */
  lemma ThreeDecisions(c: ProgressItem, a: ProgressItem, b: ProgressItem, max: nat)
    requires max >= 2 && Choose(c, [], []) == Skipped(c, SharedFile) && Choose(a, [], []) == Planned(a)
             && Choose(b, [a], []) == Planned(b)
    ensures Decisions([c, a, b], max, []) == [Skipped(c, SharedFile), Planned(a), Planned(b)]
  {
    hide Choose, Decisions, Shards, Skips;
    PlanStart(max, []);
    NextDecision([], [], c, max);
    assert [] + [c] == [c] && [] + [Skipped(c, SharedFile)] == [Skipped(c, SharedFile)];
    NextDecision([c], [Skipped(c, SharedFile)], a, max);
    assert [c] + [a] == [c, a] && [Skipped(c, SharedFile)] + [Planned(a)] == [Skipped(c, SharedFile), Planned(a)];
    assert Shards([Skipped(c, SharedFile), Planned(a)]) == [a];
    NextDecision([c, a], [Skipped(c, SharedFile), Planned(a)], b, max);
    assert [c, a] + [b] == [c, a, b];
    assert [Skipped(c, SharedFile), Planned(a)] + [Planned(b)] == [Skipped(c, SharedFile), Planned(a), Planned(b)];
  }

  lemma OtherFile(a: ProgressItem, b: ProgressItem)
    requires a.affectedFiles == ["src/api.ts"] && b.affectedFiles == ["src/data.ts"]
    ensures Disjoint(a, b)
  {
    assert "src/api.ts"[4] != "src/data.ts"[4];
  }

  lemma SharedIsSkipped(item: ProgressItem)
    requires item.affectedFiles == ["package.json"] && !SupportScheduler.IsAuditItem(item)
    requires IsSharedFile("package.json")
    ensures Choose(item, [], []) == Skipped(item, SharedFile)
  {
    hide SupportScheduler.IsAuditItem, IsSharedFile, Domain;
    NoClaimConflict(item.affectedFiles, []);
  }

  lemma LoginIsNoAudit(tag: string, file: string)
    requires tag == "[API]" || tag == "[DATA]"
    ensures !SupportScheduler.IsAuditItem(ItemOn(tag, file))
  {
    hide SupportScheduler.IsAuditItem, NamesNoAudit, Lower;
    var item := ItemOn(tag, file);
    assert IsQuiet(item.title) && IsQuiet("\n") && IsQuiet("") && IsQuiet("- [ ] ") && IsQuiet(" Login");
    if tag == "[API]" { assert IsQuiet("[API]"); } else { assert IsQuiet("[DATA]"); }
    QuietTogether("- [ ] ", tag);
    QuietTogether("- [ ] " + tag, " Login");
    QuietTogether(item.title, "\n");
    QuietTogether(item.title + "\n", item.raw);
    QuietNamesNoAudit(item.title + "\n" + item.raw);
    QuietNamesNoAudit(item.raw);
    QuietNamesNoAudit("");
    NotAnAudit(item);
  }

  lemma QuietTogether(a: string, b: string)
    requires IsQuiet(a) && IsQuiet(b)
    ensures IsQuiet(a + b)
  {
    hide LowerChar;
  }

  // ---- Whose claims count ----

  const OWN := "operator:pi-yolo"

  /** A claim of somebody else that is not closed. */
  predicate IsForeign(claim: Claim) {
    && (claim.status == Active || claim.status == Blocked)
    && !(|claim.operator| >= |OWN| && claim.operator[..|OWN|] == OWN)
  }

  lemma ForeignMeans(claim: Claim)
    ensures IsExternal(claim) <==> IsForeign(claim)
  {
    if OWN <= claim.operator { assert claim.operator[..|OWN|] == OWN; }
  }

  /** An item is not planned when a foreign claim is on its title or on one of its files. */
  lemma ForeignClaimBlocks(item: ProgressItem, shards: seq<ProgressItem>, claims: seq<Claim>, c: nat)
    requires c < |claims| && IsForeign(claims[c])
    requires claims[c].task == item.title
             || exists f | 0 <= f < |item.affectedFiles| :: item.affectedFiles[f] in claims[c].expectedFiles
    ensures Choose(item, shards, claims).Skipped?
  {
    hide SupportScheduler.IsAuditItem, IsSharedFile, Domain, NormalizeTask, IsExternal, IsForeign, StartsWith;
    PlannedExactly(item, shards, claims);
    ForeignMeans(claims[c]);
    if claims[c].task == item.title {
      HoldsItself(NormalizeTask(item.title));
      assert SameTask(item.title, claims[c].task);
    }
  }

  lemma HoldsItself(s: string)
    ensures Includes(s, s)
  {
    assert s[0..0 + |s|] == s;
    assert OccursAt(s, s, 0);
  }

  /** Without a foreign claim a choice is made as without any. */
  lemma OwnClaimsDoNotBlock(item: ProgressItem, shards: seq<ProgressItem>, claims: seq<Claim>)
    requires forall c | 0 <= c < |claims| :: !IsForeign(claims[c])
    ensures Choose(item, shards, claims) == Choose(item, shards, [])
  {
    hide SupportScheduler.IsAuditItem, IsSharedFile, Domain, SameTask, IsExternal, IsForeign, UsesAnyFile, UsesDomain;
    forall c | 0 <= c < |claims| ensures !IsExternal(claims[c]) { ForeignMeans(claims[c]); }
    NoClaimConflict(item.affectedFiles, claims);
    NoClaimConflict(item.affectedFiles, []);
  }

  // ---- What a claim's task is compared with ----

  /** Lower-case words. */
  predicate IsWords(s: string) {
    && s != "" && 'a' <= s[0] <= 'z' && 'a' <= s[|s| - 1] <= 'z'
    && forall i | 0 <= i < |s| :: 'a' <= s[i] <= 'z' || s[i] == ' '
  }

  lemma {:induction false} WordsHaveNoPrd(s: string, rest: string)
    requires '\U{2014}' !in s && (rest == "" || (rest[0] == '\U{2014}' && IsPrdNote(rest[1..])))
    ensures WithoutPrd(s + rest) == s
  {
    hide IsPrdNote;
    if s == "" {
      assert s + rest == rest;
    } else {
      assert (s + rest)[1..] == s[1..] + rest && (s + rest)[0] == s[0];
      WordsHaveNoPrd(s[1..], rest);
    }
  }

  /** The reference to the requirements at the end of a title does not count. */
  lemma TaskOfWords(s: string)
    requires IsWords(s)
    ensures NormalizeTask(s) == s && NormalizeTask(s + " \U{2014} PRD 4.2") == s
  {
    hide Trim, IsPrdNote, WithoutPrd, Lower;
    assert TagOf(s) == "" && s[0..] == s;
    assert s + "" == s;
    WordsHaveNoPrd(s, "");
    TrimPlain(s);
    LowerAlready(s);
    var titled := s + " \U{2014} PRD 4.2";
    assert TagOf(titled) == "" && titled[0..] == titled by { assert titled[0] == s[0]; }
    NoteIsPrd();
    assert titled == (s + " ") + "\U{2014} PRD 4.2" && "\U{2014} PRD 4.2"[1..] == " PRD 4.2";
    WordsHaveNoPrd(s + " ", "\U{2014} PRD 4.2");
    assert (s + " ")[..|s|] == s && (s + " ")[|s|..] == " " && IsSpace(' ');
    assert AllBlank((s + " ")[..0]) && AllBlank((s + " ")[|s|..]);
    TrimsTo(s + " ", 0, |s|);
  }

  lemma NoteIsPrd()
    ensures IsPrdNote(" PRD 4.2")
  {
    assert TrimStart(" PRD 4.2") == "PRD 4.2" by { assert " PRD 4.2"[1..] == "PRD 4.2"; }
    assert Upper("PRD 4.2")[..3] == "PRD";
    assert "PRD 4.2"[3..] == " 4.2" && " 4.2"[1..] == "4.2";
    assert TrimStart(" 4.2") == "4.2";
  }

  /** A task whose words are part of another's is the same, whichever is claimed. */
  lemma PartIsSameTask(front: string, task: string, rest: string)
    requires IsWords(task) && IsWords(front + task + rest)
    ensures SameTask(task, front + task + rest) && SameTask(front + task + rest, task)
  {
    hide NormalizeTask;
    var whole := front + task + rest;
    TaskOfWords(task);
    TaskOfWords(whole);
    assert whole[|front|..|front| + |task|] == task;
    assert OccursAt(whole, task, |front|);
  }

  /** A foreign claim on other work does not count, whatever requirement either names. */
  lemma OtherWorkIsPlanned(claim: Claim)
    requires claim.task == "checkout" && claim.expectedFiles == []
    ensures SameTask("login \U{2014} PRD 4.2", "login") && !SameTask("login \U{2014} PRD 4.2", claim.task)
  {
    hide NormalizeTask, OccursAt;
    assert IsWords("login") && IsWords("checkout");
    TaskOfWords("login");
    TaskOfWords("checkout");
    assert "login \U{2014} PRD 4.2" == "login" + " \U{2014} PRD 4.2";
    HoldsItself("login");
    assert 'h' !in "login" && 'l' !in "checkout";
    StrangeText("checkout", "login", 0);
    StrangeText("login", "checkout", 1);
  }

  // ---- Domains ----

  const TAGS: seq<string> := ["[UI]", "[API]", "[JOB]", "[INTEGRATION]", "[DATA]", "[SETUP]", "[FEATURE]", "[FIX]",
                              "[BUG]", "[AUDIT]"]

  lemma KnownDomain(tag: string)
    requires tag in TAGS
    ensures |Domain(tag)| > 1 && Domain(tag)[0] != '['
  {
  }

  /** Of two different known tags only those of the backend are of one domain: the others differ in their first two
      letters. */
  lemma KnownDomains(a: string, b: string)
    requires a in TAGS && b in TAGS
    ensures Domain(a) == Domain(b) <==> a == b || (a in ["[API]", "[JOB]"] && b in ["[API]", "[JOB]"])
  {
    hide Domain;
    DomainLetters(a);
    DomainLetters(b);
  }

  /** The first two letters of the domain. */
  lemma DomainLetters(tag: string)
    requires tag in TAGS
    ensures |Domain(tag)| > 1
    ensures var d := Domain(tag);
            && (d[0] == 'b' && d[1] == 'a' <==> tag == "[API]" || tag == "[JOB]")
            && (d[0] == 'f' && d[1] == 'r' <==> tag == "[UI]") && (d[0] == 'i' <==> tag == "[INTEGRATION]")
            && (d[0] == 'd' <==> tag == "[DATA]") && (d[0] == 's' <==> tag == "[SETUP]")
            && (d[0] == 'f' && d[1] == 'e' <==> tag == "[FEATURE]") && (d[0] == 'f' && d[1] == 'i' <==> tag == "[FIX]")
            && (d[0] == 'b' && d[1] == 'u' <==> tag == "[BUG]") && (d[0] == 'a' <==> tag == "[AUDIT]")
    ensures tag == "[API]" || tag == "[JOB]" ==> Domain(tag) == "backend"
  {
  }

  lemma OtherDomain(tag: string)
    requires tag !in TAGS
    ensures Domain(tag) == tag
  {
  }

  /** Two tags are of one domain exactly when they are the same, or both of the backend. */
  lemma DomainsDiffer(a: string, b: string)
    requires a != "" && a[0] == '[' && b != "" && b[0] == '['
    ensures Domain(a) == Domain(b) <==> a == b || (a in ["[API]", "[JOB]"] && b in ["[API]", "[JOB]"])
  {
    hide Domain;
    assert "[API]" == TAGS[1] && "[JOB]" == TAGS[2];
    if a in TAGS { KnownDomain(a); } else { OtherDomain(a); }
    if b in TAGS { KnownDomain(b); } else { OtherDomain(b); }
    if a in TAGS && b in TAGS { KnownDomains(a, b); }
  }
}
