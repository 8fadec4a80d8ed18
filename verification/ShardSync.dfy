/** Copying the worktrees of parallel shards back to the root (tools/klevar-yolo-runtime/src/worktree-sync.ts:24-45 and
    92-137, tools/klevar-yolo-runtime/src/runtime.ts:646-667). A tree maps the path of a file to its content. */
module ShardSync {
  import opened Wrappers
  import opened Sequences
  import opened Text
  import opened PathPolicy

  type Tree = map<string, string>

  /** A shard's worktree and the files its result lists. */
  datatype Shard = Shard(worktree: Tree, filesChanged: seq<string>)

  function At(tree: Tree, path: string): Option<string> {
    if path in tree then Some(tree[path]) else None
  }

  function UniqueNormalized(paths: seq<string>): seq<string> {
    Unique(Filter((path: string) => path != "", Map(NormalizeRuntimePath, paths)))
  }

  predicate IsSynced(path: string) {
    !IsSyncExcludedPath(path) && IsSafeRelativePath(path)
  }

  // ---- Conflicts between results ----

  predicate IsExempt(file: string) {
    file == "docs/progress.md" || StartsWith(file, ".yolo/")
  }

  function AllFiles(shards: seq<Shard>): seq<string> {
    if shards == [] then [] else AllFiles(shards[..|shards| - 1]) + shards[|shards| - 1].filesChanged
  }

  predicate ListedTwice(files: seq<string>, file: string) {
    exists i, j | 0 <= i < j < |files| :: files[i] == file && files[j] == file
  }

  /** `detectResultFileConflicts` */
  method DetectResultFileConflicts(files: seq<string>) returns (conflicts: seq<string>)
    ensures forall file :: file in conflicts <==> !IsExempt(file) && ListedTwice(files, file)
    ensures Distinct(conflicts)
  {
    var seen: set<string> := {};
    conflicts := [];
    for n := 0 to |files|
      invariant forall file :: file in seen <==> !IsExempt(file) && file in files[..n]
      invariant forall file :: file in conflicts <==> !IsExempt(file) && ListedTwice(files[..n], file)
      invariant Distinct(conflicts)
    {
      var file := files[n];
      ListedAgain(files, n);
      if IsExempt(file) {
        continue;
      }
      if file in seen && file !in conflicts {
        conflicts := conflicts + [file];
      }
      seen := seen + {file};
    }
    assert files[..|files|] == files;
  }

  lemma ListedAgain(files: seq<string>, n: nat)
    requires n < |files|
    ensures forall file :: ListedTwice(files[..n + 1], file) <==>
            ListedTwice(files[..n], file) || (file == files[n] && file in files[..n])
    ensures forall file :: file in files[..n + 1] <==> file in files[..n] || file == files[n]
  {
    var front, longer := files[..n], files[..n + 1];
    assert longer == front + [files[n]];
    forall file ensures ListedTwice(longer, file) <==> ListedTwice(front, file) || (file == files[n] && file in front) {
      if ListedTwice(front, file) {
        var i, j :| 0 <= i < j < |front| && front[i] == file && front[j] == file;
        assert longer[i] == file && longer[j] == file;
      }
      if file == files[n] && file in front {
        var i :| 0 <= i < |front| && front[i] == file;
        assert longer[i] == file && longer[n] == file;
      }
      if ListedTwice(longer, file) {
        var i, j :| 0 <= i < j < |longer| && longer[i] == file && longer[j] == file;
        assert front[i] == file && (j < n ==> front[j] == file);
      }
    }
  }

  // ---- One sync ----

  datatype SyncError =
    | RejectedPaths(paths: set<string>) | UndeclaredPaths(paths: set<string>) | DirtyRootConflict(paths: set<string>)

  /** The paths `git status` lists: those that differ from the last commit. */
  function Dirty(tree: Tree, head: Tree): set<string> {
    set path | path in tree.Keys + head.Keys && At(tree, path) != At(head, path)
  }

  /** What is synced: the files the result lists, or when it lists none, what `git status` does. */
  function Candidates(shard: Shard, head: Tree): set<string> {
    if shard.filesChanged == [] then
      (set path | path in Dirty(shard.worktree, head) :: NormalizeRuntimePath(path)) - {""}
    else set path | path in UniqueNormalized(shard.filesChanged)
  }

  /** Both have the file, with the same content. */
  predicate SameContent(a: Tree, b: Tree, path: string) {
    path in a && path in b && a[path] == b[path]
  }

  /** Template-managed paths the worktree would change. */
  function Rejected(worktree: Tree, root: Tree, candidates: set<string>): set<string> {
    set path | path in candidates && ClassifyRuntimePath(path).TemplateProtected? && !SameContent(root, worktree, path)
  }

  /** A path whose copy in the root may be in the way of a sync. */
  predicate CanConflict(path: string) {
    !IsSyncExcludedPath(path) && !IsRuntimeArtifactDeliverablePath(path)
  }

  /** Dirty files of the root that a sync would overwrite with something else. */
  function DirtyConflicts(worktree: Tree, root: Tree, head: Tree, candidates: set<string>): set<string> {
    set path | path in Dirty(root, head) && path in candidates && CanConflict(path)
      && !SameContent(root, worktree, path)
  }

  predicate IsCovered(actual: string, declared: seq<string>) {
    exists d | 0 <= d < |declared| :: !IsSyncExcludedPath(declared[d])
      && (declared[d] == actual || Overlaps(declared[d], actual))
  }

  /** One path is a directory prefix of the other. */
  predicate Overlaps(declared: string, actual: string) {
    StartsWith(actual, AsDirectory(declared)) || StartsWith(declared, AsDirectory(actual))
  }

  function AsDirectory(path: string): string {
    if EndsWith(path, "/") then path else path + "/"
  }

  predicate IsIgnoredWhenUndeclared(path: string) {
    || IsSyncExcludedPath(path) || IsVendoredKlevarToolingPath(path) || path == ".yolo/command-cache.json"
    || StartsWithAny(Lower(path) + "/",
                     [".yolo/batch-results/", ".yolo/gates/", ".yolo/knowledge-packs/", ".yolo/subagent-events/"])
  }

  /** Changed files of the worktree that no listed path covers; a result that lists none declares all. */
  function Undeclared(shard: Shard, head: Tree): set<string> {
    set path | path in Dirty(shard.worktree, head) && shard.filesChanged != [] && !IsIgnoredWhenUndeclared(path) &&
               !IsCovered(path, UniqueNormalized(shard.filesChanged))
  }

  predicate IsBrought(candidates: set<string>, path: string) {
    path in candidates && IsSynced(path)
  }

  /** The candidates, or their absence, come from the worktree. */
  function Copied(root: Tree, worktree: Tree, candidates: set<string>): Tree {
    map path | path in root.Keys + worktree.Keys && path in (if IsBrought(candidates, path) then worktree else root) ::
      if IsBrought(candidates, path) then worktree[path] else root[path]
  }

  /** `syncWorktreeChangesToRoot` */
  function Sync(root: Tree, head: Tree, shard: Shard): Result<Tree, SyncError> {
    var candidates := Candidates(shard, head);
    var rejected, undeclared := Rejected(shard.worktree, root, candidates), Undeclared(shard, head);
    var conflicts := DirtyConflicts(shard.worktree, root, head, candidates);
    if rejected != {} then Err(RejectedPaths(rejected))
    else if undeclared != {} then Err(UndeclaredPaths(undeclared))
    else if conflicts != {} then Err(DirtyRootConflict(conflicts))
    else Ok(Copied(root, shard.worktree, candidates))
  }

  function SetOf(paths: seq<string>): set<string> {
    set path | path in paths
  }

  /** The copying loop, after the three checks. `status` is what `git status` lists in the worktree. */
  method SyncWorktreeChangesToRoot(root: Tree, head: Tree, shard: Shard, status: seq<string>)
    returns (r: Result<Tree, SyncError>, synced: seq<string>)
    requires SetOf(status) == Dirty(shard.worktree, head)
    ensures r == Sync(root, head, shard)
    ensures var paths := if shard.filesChanged != [] then shard.filesChanged else status;
            synced == if r.Ok? then Filter(IsSynced, UniqueNormalized(paths)) else []
  {
    hide UniqueNormalized, Rejected, Undeclared, DirtyConflicts, IsSynced, Dirty, Copied;
    var rels := UniqueNormalized(if shard.filesChanged != [] then shard.filesChanged else status);
    synced := [];
    assert SetOf(rels) == Candidates(shard, head) by { CandidatesAre(shard, head, status); }
    if Rejected(shard.worktree, root, SetOf(rels)) != {} {
      return Err(RejectedPaths(Rejected(shard.worktree, root, SetOf(rels)))), synced;
    }
    if Undeclared(shard, head) != {} {
      return Err(UndeclaredPaths(Undeclared(shard, head))), synced;
    }
    if DirtyConflicts(shard.worktree, root, head, SetOf(rels)) != {} {
      return Err(DirtyRootConflict(DirtyConflicts(shard.worktree, root, head, SetOf(rels)))), synced;
    }
    var tree := root;
    NothingCopied(root, shard.worktree);
    assert SetOf(rels[..0]) == {};
    for n := 0 to |rels|
      invariant tree == Copied(root, shard.worktree, SetOf(rels[..n]))
      invariant synced == Filter(IsSynced, rels[..n])
    {
      var rel := rels[n];
      assert rels[..n + 1] == rels[..n] + [rel];
      assert SetOf(rels[..n + 1]) == SetOf(rels[..n]) + {rel};
      FilterAppend(IsSynced, rels[..n], [rel]);
      OneMoreCopied(root, shard.worktree, SetOf(rels[..n]), rel);
      if !IsSynced(rel) {
        continue;
      }
      tree := if rel in shard.worktree then tree[rel := shard.worktree[rel]] else tree - {rel};
      synced := synced + [rel];
    }
    assert rels[..|rels|] == rels;
    r := Ok(tree);
  }

  lemma CandidatesAre(shard: Shard, head: Tree, status: seq<string>)
    requires SetOf(status) == Dirty(shard.worktree, head)
    ensures SetOf(UniqueNormalized(if shard.filesChanged != [] then shard.filesChanged else status)) ==
            Candidates(shard, head)
  {
    hide NormalizeRuntimePath, Dirty;
    if shard.filesChanged == [] {
      forall path ensures path in UniqueNormalized(status) <==> path in Candidates(shard, head) {
        FilterKeeps((path: string) => path != "", Map(NormalizeRuntimePath, status), path);
        if path in Map(NormalizeRuntimePath, status) {
          var i :| 0 <= i < |status| && Map(NormalizeRuntimePath, status)[i] == path;
          assert status[i] in SetOf(status);
        }
        if path in Candidates(shard, head) {
          var listed :| listed in Dirty(shard.worktree, head) && NormalizeRuntimePath(listed) == path;
          assert listed in SetOf(status);
          var i :| 0 <= i < |status| && status[i] == listed;
          assert Map(NormalizeRuntimePath, status)[i] == path;
        }
      }
    }
  }

  lemma NothingCopied(root: Tree, worktree: Tree)
    ensures Copied(root, worktree, {}) == root
  {
    assert forall path :: !IsBrought({}, path);
  }

  lemma OneMoreCopied(root: Tree, worktree: Tree, candidates: set<string>, rel: string)
    ensures var tree := Copied(root, worktree, candidates);
            Copied(root, worktree, candidates + {rel}) ==
            if !IsSynced(rel) then tree else if rel in worktree then tree[rel := worktree[rel]] else tree - {rel}
  {
    hide IsSynced;
    assert forall path :: IsBrought(candidates + {rel}, path) <==>
      IsBrought(candidates, path) || (path == rel && IsSynced(rel));
  }

  // ---- Syncing the shards one after another ----

  function SyncAll(root: Tree, head: Tree, shards: seq<Shard>): Result<Tree, SyncError> {
    if shards == [] then Ok(root)
    else
      var before := SyncAll(root, head, shards[..|shards| - 1]);
      if before.Err? then before else Sync(before.value, head, shards[|shards| - 1])
  }

  /** A successful sync brings exactly the candidates, or their absence, from the worktree. */
  lemma SyncedAt(root: Tree, head: Tree, shard: Shard, path: string)
    requires Sync(root, head, shard).Ok?
    ensures At(Sync(root, head, shard).value, path) ==
            if IsBrought(Candidates(shard, head), path) then At(shard.worktree, path) else At(root, path)
  {
    hide Candidates, Rejected, Undeclared, DirtyConflicts, IsBrought;
  }

  /** The content of a path after some shards: that of the last shard that brings it, or of the root. */
  function Left(root: Tree, head: Tree, shards: seq<Shard>, path: string): Option<string> {
    if shards == [] then At(root, path)
    else
      var last := shards[|shards| - 1];
      if IsBrought(Candidates(last, head), path) then At(last.worktree, path)
        else Left(root, head, shards[..|shards| - 1], path)
  }

  lemma {:induction false} SyncedAllAt(root: Tree, head: Tree, shards: seq<Shard>, path: string)
    requires SyncAll(root, head, shards).Ok?
    ensures At(SyncAll(root, head, shards).value, path) == Left(root, head, shards, path)
  {
    hide Sync, IsBrought, At, Candidates;
    if shards != [] {
      var n := |shards| - 1;
      SyncedAllAt(root, head, shards[..n], path);
      SyncedAt(SyncAll(root, head, shards[..n]).value, head, shards[n], path);
    }
  }

  predicate Brings(shard: Shard, head: Tree, path: string) {
    IsBrought(Candidates(shard, head), path)
  }

  /** Nobody brought the path. */
  lemma {:induction false} LeftAlone(root: Tree, head: Tree, shards: seq<Shard>, path: string)
    requires forall s | 0 <= s < |shards| :: !Brings(shards[s], head, path)
    ensures Left(root, head, shards, path) == At(root, path)
  {
    hide IsBrought, At, Candidates;
    if shards != [] {
      var n := |shards| - 1;
      assert !Brings(shards[n], head, path);
      LeftAlone(root, head, shards[..n], path);
    }
  }

  /** The last shard that brought it decides. */
  lemma {:induction false} LeftByLast(root: Tree, head: Tree, shards: seq<Shard>, s: nat, path: string)
    requires s < |shards| && Brings(shards[s], head, path) && forall t | s < t < |shards| ::
             !Brings(shards[t], head, path)
    ensures Left(root, head, shards, path) == At(shards[s].worktree, path)
  {
    hide IsBrought, At, Candidates;
    var n := |shards| - 1;
    if s < n {
      assert !Brings(shards[n], head, path);
      LeftByLast(root, head, shards[..n], s, path);
    }
  }

  // ---- When all syncs succeed ----

  /** What was left of the path is what was committed, or what this shard brings. */
  predicate NotInTheWay(left: Option<string>, head: Tree, worktree: Tree, path: string) {
    left == At(head, path) || (path in worktree && left == At(worktree, path))
  }

  /** All the shard's checks, on what the earlier shards are known to leave. */
  predicate Fits(root: Tree, head: Tree, earlier: seq<Shard>, shard: Shard) {
    && Rejected(shard.worktree, root, Candidates(shard, head)) == {}
    && Undeclared(shard, head) == {}
    && forall path | path in Candidates(shard, head) && CanConflict(path) ::
         NotInTheWay(Left(root, head, earlier, path), head, shard.worktree, path)
  }

  lemma ExcludedIsNotBrought(path: string)
    ensures ClassifyRuntimePath(path).TemplateProtected? ==> !IsSynced(path)
    ensures CanConflict(path) ==> IsSynced(path)
  {
    hide IsRuntimeOwnedPath, IsTemplateManagedProtectedPath, IsRuntimeArtifactDeliverablePath,
      IsVendoredKlevarToolingPath,
         IsGeneratedDependencyPath, IsSafeRelativePath, NormalizeRuntimePath;
  }

  lemma {:induction false} TemplateIsLeft(root: Tree, head: Tree, shards: seq<Shard>, path: string)
    requires !IsSynced(path)
    ensures Left(root, head, shards, path) == At(root, path)
  {
    hide IsSynced, Candidates, At;
    if shards != [] {
      TemplateIsLeft(root, head, shards[..|shards| - 1], path);
    }
  }

  /** After the earlier syncs, the checks of a sync fail exactly on what can be told before the first one. */
  lemma ChecksAfterSyncs(root: Tree, head: Tree, earlier: seq<Shard>, shard: Shard)
    requires SyncAll(root, head, earlier).Ok?
    ensures Sync(SyncAll(root, head, earlier).value, head, shard).Ok? <==> Fits(root, head, earlier, shard)
  {
    hide SyncAll, Candidates, Undeclared, ClassifyRuntimePath, CanConflict, IsSynced, Left, Copied;
    var now, candidates := SyncAll(root, head, earlier).value, Candidates(shard, head);
    forall path
      ensures At(now, path) == Left(root, head, earlier, path)
      ensures ClassifyRuntimePath(path).TemplateProtected? ==> At(now, path) == At(root, path)
    {
      SyncedAllAt(root, head, earlier, path);
      ExcludedIsNotBrought(path);
      if ClassifyRuntimePath(path).TemplateProtected? { TemplateIsLeft(root, head, earlier, path); }
    }
    RejectedAlike(shard.worktree, now, root, candidates);
    forall path | path in candidates && CanConflict(path)
      ensures path in DirtyConflicts(shard.worktree, now, head, candidates) <==>
              !NotInTheWay(Left(root, head, earlier, path), head, shard.worktree, path)
    {
      ConflictAt(shard.worktree, now, head, candidates, path);
    }
  }

  lemma RejectedAlike(worktree: Tree, now: Tree, root: Tree, candidates: set<string>)
    requires forall path :: ClassifyRuntimePath(path).TemplateProtected? ==> At(now, path) == At(root, path)
    ensures Rejected(worktree, now, candidates) == Rejected(worktree, root, candidates)
  {
    hide ClassifyRuntimePath;
    forall path | ClassifyRuntimePath(path).TemplateProtected?
      ensures SameContent(now, worktree, path) <==> SameContent(root, worktree, path)
    {
      assert At(now, path) == At(root, path);
    }
  }

  lemma ConflictAt(worktree: Tree, root: Tree, head: Tree, candidates: set<string>, path: string)
    requires path in candidates && CanConflict(path)
    ensures path in DirtyConflicts(worktree, root, head, candidates) <==>
            !NotInTheWay(At(root, path), head, worktree, path)
  {
    hide CanConflict;
    assert path in Dirty(root, head) <==> At(root, path) != At(head, path);
  }

  /** All shards sync exactly when each passes the two checks that no sync touches, and every path it brings that may
      be in the way was left by the last earlier shard that brings it, or else by the root, as it was committed or as
      the shard brings it. */
  lemma {:induction false} SyncAllIffFits(root: Tree, head: Tree, shards: seq<Shard>)
    ensures SyncAll(root, head, shards).Ok? <==>
            forall s | 0 <= s < |shards| :: Fits(root, head, shards[..s], shards[s])
  {
    hide Sync, Fits;
    if shards != [] {
      var n := |shards| - 1;
      SyncAllIffFits(root, head, shards[..n]);
      assert forall s | 0 <= s < n :: shards[..n][..s] == shards[..s] && shards[..n][s] == shards[s];
      if SyncAll(root, head, shards[..n]).Ok? {
        ChecksAfterSyncs(root, head, shards[..n], shards[n]);
      }
    }
  }

  /** No path that may be in the way is brought by two shards. */
  predicate Disjoint(shards: seq<Shard>, head: Tree) {
    forall s, t, path | 0 <= s < t < |shards| && path in Candidates(shards[s], head)
      && path in Candidates(shards[t], head) ::
      !CanConflict(path)
  }

  /** Then all shards sync exactly when each of them would alone. */
  lemma SyncAllIffEach(root: Tree, head: Tree, shards: seq<Shard>)
    requires Disjoint(shards, head)
    ensures SyncAll(root, head, shards).Ok? <==> forall s | 0 <= s < |shards| :: Sync(root, head, shards[s]).Ok?
  {
    hide SyncAll, Sync, Fits, Disjoint;
    SyncAllIffFits(root, head, shards);
    forall s | 0 <= s < |shards| ensures Fits(root, head, shards[..s], shards[s]) <==> Sync(root, head, shards[s]).Ok? {
      FitsAlone(root, head, shards, s);
    }
  }

  lemma FitsAlone(root: Tree, head: Tree, shards: seq<Shard>, s: nat)
    requires Disjoint(shards, head) && s < |shards|
    ensures Fits(root, head, shards[..s], shards[s]) <==> Sync(root, head, shards[s]).Ok?
  {
    hide Sync, Candidates, CanConflict, Rejected, Undeclared, NotInTheWay;
    assert SyncAll(root, head, []) == Result<Tree, SyncError>.Ok(root);
    ChecksAfterSyncs(root, head, [], shards[s]);
    forall path | path in Candidates(shards[s], head) && CanConflict(path)
      ensures Left(root, head, shards[..s], path) == Left(root, head, [], path)
    {
      forall t | 0 <= t < s ensures !Brings(shards[..s][t], head, path) {
        assert shards[..s][t] == shards[t];
      }
      LeftAlone(root, head, shards[..s], path);
    }
  }

  /** Two shards that bring one path in turn: when the first leaves neither what was committed nor what the second
      brings, the syncs fail. */
  lemma ClashFailsSync(root: Tree, head: Tree, shards: seq<Shard>, s: nat, t: nat, path: string)
    requires s < t < |shards| && path in Candidates(shards[s], head) && path in Candidates(shards[t], head)
             && CanConflict(path)
    requires forall u | s < u < t :: path !in Candidates(shards[u], head)
    requires !NotInTheWay(At(shards[s].worktree, path), head, shards[t].worktree, path)
    ensures SyncAll(root, head, shards).Err?
  {
    hide SyncAll, Candidates, CanConflict, IsSynced, NotInTheWay, Left, Rejected, Undeclared, At;
    SyncAllIffFits(root, head, shards);
    ExcludedIsNotBrought(path);
    LeftByLast(root, head, shards[..t], s, path);
    assert !Fits(root, head, shards[..t], shards[t]);
  }

  // ---- The order of the shards ----

  predicate BroughtOnce(shards: seq<Shard>, head: Tree, path: string) {
    forall s, t | 0 <= s < t < |shards| :: path !in Candidates(shards[s], head) || path !in Candidates(shards[t], head)
  }

  /** Any two orders of the shards give the same content to a path that one shard at most brings. */
  lemma AnyOrder(root: Tree, head: Tree, shards: seq<Shard>, others: seq<Shard>, path: string)
    requires BroughtOnce(shards, head, path) && BroughtOnce(others, head, path) && multiset(shards) == multiset(others)
    requires SyncAll(root, head, shards).Ok? && SyncAll(root, head, others).Ok?
    ensures At(SyncAll(root, head, shards).value, path) == At(SyncAll(root, head, others).value, path)
  {
    hide SyncAll, At, Candidates, IsSynced, Left;
    SyncedAllAt(root, head, shards, path);
    SyncedAllAt(root, head, others, path);
    if s :| 0 <= s < |shards| && Brings(shards[s], head, path) {
      var t := Elsewhere(shards, others, s);
      LeftByLast(root, head, shards, s, path);
      LeftByLast(root, head, others, t, path);
    } else if t :| 0 <= t < |others| && Brings(others[t], head, path) {
      var s := Elsewhere(others, shards, t);
      assert false;
    } else {
      LeftAlone(root, head, shards, path);
      LeftAlone(root, head, others, path);
    }
  }

  lemma Elsewhere(shards: seq<Shard>, others: seq<Shard>, s: nat) returns (t: nat)
    requires multiset(shards) == multiset(others) && s < |shards|
    ensures t < |others| && others[t] == shards[s]
  {
    assert shards[s] in multiset(others);
    t :| 0 <= t < |others| && others[t] == shards[s];
  }

  /** Of disjoint shards, one order syncs exactly when any other does. */
  lemma AnyOrderSyncs(root: Tree, head: Tree, shards: seq<Shard>, others: seq<Shard>)
    requires Disjoint(shards, head) && Disjoint(others, head) && multiset(shards) == multiset(others)
    ensures SyncAll(root, head, shards).Ok? <==> SyncAll(root, head, others).Ok?
  {
    hide SyncAll, Sync, Disjoint;
    SyncAllIffEach(root, head, shards);
    SyncAllIffEach(root, head, others);
    forall s | 0 <= s < |shards| ensures exists t :: 0 <= t < |others| && others[t] == shards[s] {
      var t := Elsewhere(shards, others, s);
    }
    forall t | 0 <= t < |others| ensures exists s :: 0 <= s < |shards| && shards[s] == others[t] {
      var s := Elsewhere(others, shards, t);
    }
  }

  // ---- What the detection of conflicts gives ----

  /** Result paths as the runtime asks for them: not empty, and written as they are normalised. */
  predicate Normal(shard: Shard) {
    shard.filesChanged != [] && forall i | 0 <= i < |shard.filesChanged| :: IsNormal(shard.filesChanged[i])
  }

  predicate IsNormal(file: string) {
    file != "" && NormalizeRuntimePath(file) == file
  }

  predicate AllNormal(shards: seq<Shard>) {
    forall s | 0 <= s < |shards| :: Normal(shards[s])
  }

  lemma NormalIsListed(shard: Shard, head: Tree, path: string)
    requires Normal(shard)
    ensures path in Candidates(shard, head) <==> path in shard.filesChanged
  {
    hide NormalizeRuntimePath, Dirty;
    var files := shard.filesChanged;
    var normal := Map(NormalizeRuntimePath, files);
    forall i | 0 <= i < |files| ensures normal[i] == files[i] && files[i] != "" {
      assert IsNormal(files[i]);
    }
    assert normal == files;
    FilterKeeps((path: string) => path != "", normal, path);
  }

  /** No path outside the exempt ones is listed by two shards. */
  predicate NoConflicts(shards: seq<Shard>) {
    forall s, t, path | 0 <= s < t < |shards| && path in shards[s].filesChanged && path in shards[t].filesChanged ::
      IsExempt(path)
  }

  /** With normal paths and no detected conflict, a path that is not exempt is brought once at most. */
  lemma UndetectedIsBroughtOnce(shards: seq<Shard>, head: Tree, path: string)
    requires AllNormal(shards) && NoConflicts(shards) && !IsExempt(path)
    ensures BroughtOnce(shards, head, path)
  {
    hide Normal, Candidates, IsExempt;
    forall s | 0 <= s < |shards| ensures path in Candidates(shards[s], head) <==> path in shards[s].filesChanged {
      NormalIsListed(shards[s], head, path);
    }
  }

  /** And the shards are disjoint, unless two list an exempt path that may be in the way. Report files never are. */
  lemma UndetectedAreDisjoint(shards: seq<Shard>, head: Tree)
    requires AllNormal(shards) && NoConflicts(shards)
    ensures Disjoint(shards, head) <==>
            forall s, t, path | 0 <= s < t < |shards| && path in shards[s].filesChanged
              && path in shards[t].filesChanged && IsExempt(path) ::
              !CanConflict(path)
  {
    hide Normal, Candidates, IsExempt, CanConflict;
    forall s, path | 0 <= s < |shards| ensures path in Candidates(shards[s], head) <==> path in shards[s].filesChanged {
      NormalIsListed(shards[s], head, path);
    }
  }

  /** `detectResultFileConflicts` finding nothing means no two shards list the same path outside the exempt ones. */
  lemma {:induction false} UndetectedMeansNone(shards: seq<Shard>)
    requires forall file | ListedTwice(AllFiles(shards), file) :: IsExempt(file)
    ensures NoConflicts(shards)
  {
    hide IsExempt;
    forall s, t, path | 0 <= s < t < |shards| && path in shards[s].filesChanged && path in shards[t].filesChanged
      ensures IsExempt(path) {
      TwiceAcross(shards, s, t, path);
    }
  }

  lemma {:induction false} InAllFiles(shards: seq<Shard>, s: nat, path: string)
    requires s < |shards| && path in shards[s].filesChanged
    ensures path in AllFiles(shards)
  {
    if s < |shards| - 1 {
      InAllFiles(shards[..|shards| - 1], s, path);
    }
  }

  lemma {:induction false} TwiceAcross(shards: seq<Shard>, s: nat, t: nat, path: string)
    requires s < t < |shards| && path in shards[s].filesChanged && path in shards[t].filesChanged
    ensures ListedTwice(AllFiles(shards), path)
  {
    var n := |shards| - 1;
    var front, last := AllFiles(shards[..n]), shards[n].filesChanged;
    if t < n {
      TwiceAcross(shards[..n], s, t, path);
      var i, j :| 0 <= i < j < |front| && front[i] == path && front[j] == path;
      assert (front + last)[i] == path && (front + last)[j] == path;
    } else {
      InAllFiles(shards[..n], s, path);
      var i :| 0 <= i < |front| && front[i] == path;
      var j :| 0 <= j < |last| && last[j] == path;
      assert (front + last)[i] == path && (front + last)[|front| + j] == path;
    }
  }

  // ---- Paths the detection does not see ----

  /** Results that write one path in two ways escape the detection. */
  lemma DotSlashEscapesDetection(path: string)
    requires IsNormal(path)
    ensures NormalizeRuntimePath("./" + path) == path
    ensures !ListedTwice(["./" + path, path], path) && !ListedTwice(["./" + path, path], "./" + path)
  {
    hide NormalizeRuntimePath, Trim;
    var dotted := "./" + path;
    NormalShape(path);
    SlashesKept(path);
    assert dotted[|dotted| - 1] == path[|path| - 1] && dotted[0] == '.' && |dotted| == |path| + 2;
    TrimPlain(dotted);
    assert Unquote(dotted) == dotted && WithoutDot(dotted) == path;
    assert '\\' !in dotted;
    NoSlashToReplace(dotted);
    NormalizeByParts(dotted);
  }

  lemma NoSlashToReplace(value: string)
    requires '\\' !in value
    ensures ReplaceChar(value, '\\', '/') == value
  {
  }

  lemma NormalizeByParts(value: string)
    ensures NormalizeRuntimePath(value) == WithoutDot(ReplaceChar(Unquote(Trim(value)), '\\', '/'))
  {
  }

  /** A normalised path ends neither in a space nor in a quote. */
  lemma NormalShape(path: string)
    requires IsNormal(path)
    ensures !IsSpace(path[|path| - 1]) && !IsQuote(path[|path| - 1])
  {
    var trimmed := Trim(path);
    var plain := Unquote(trimmed);
    assert |path| <= |plain| <= |trimmed| <= |path|;
    assert |trimmed| == |path| ==> trimmed == path by { TrimLength(path); }
  }

  lemma TrimLength(s: string)
    ensures |Trim(s)| <= |s| && (|Trim(s)| == |s| ==> Trim(s) == s)
  {
  }

  lemma SlashesKept(path: string)
    requires IsNormal(path)
    ensures '\\' !in path
  {
    hide Trim, Unquote;
    var slashed := ReplaceChar(Unquote(Trim(path)), '\\', '/');
    assert forall i | 0 <= i < |slashed| :: slashed[i] != '\\';
  }

  const PROGRESS_FILE := "docs/progress.md"

  lemma ProgressFileShape()
    ensures |PROGRESS_FILE| == 16 && PROGRESS_FILE[0] == 'd' && PROGRESS_FILE[1] == 'o' && PROGRESS_FILE[5] == 'p'
            && PROGRESS_FILE[15] == 'd'
    ensures forall i | 0 <= i < 16 && i != 4 :: PROGRESS_FILE[i] != '/'
    ensures '\\' !in PROGRESS_FILE && '\0' !in PROGRESS_FILE && forall i | 0 <= i < 16 ::
            !('A' <= PROGRESS_FILE[i] <= 'Z')
  {
  }

  lemma ProgressFileIsNormal()
    ensures NormalizeRuntimePath(PROGRESS_FILE) == PROGRESS_FILE && Lower(PROGRESS_FILE) == PROGRESS_FILE
  {
    hide NormalizeRuntimePath, Lower, Trim, Unquote;
    var file := PROGRESS_FILE;
    ProgressFileShape();
    assert IsTidy(file);
    TidyIsNormal(file);
    LowerAlready(file);
  }

  /** Between slashes the file reads `docs` and `progress.md`. */
  lemma NoSuchDirectory(file: string, directory: string)
    requires |file| == 16 && file[0] == 'd' && file[1] == 'o' && file[5] == 'p' && forall i | 0 <= i < 16 && i != 4 ::
             file[i] != '/'
    requires |directory| >= 3 && directory[0] == '/' && directory[1] != 'p'
             && (directory[1] != 'd' || directory[2] != 'o')
    ensures !Includes("/" + file + "/", directory)
  {
    hide OccursAt;
    var text := "/" + file + "/";
    forall i: nat | i <= |text| - |directory| ensures !OccursAt(text, directory, i) {
      OccursStart(text, directory, i);
      assert i == 0 || i == 5 || i >= 17 || text[i] != '/';
    }
  }

  lemma ProgressFileIsSafe()
    ensures IsSafeRelativePath(PROGRESS_FILE)
  {
    hide NormalizeRuntimePath, Trim, Unquote, Includes;
    ProgressFileShape();
    ProgressFileIsNormal();
    assert IsTidy(PROGRESS_FILE);
    TidyIsNormal(PROGRESS_FILE);
    NoSuchDirectory(PROGRESS_FILE, "/../");
  }

  lemma ProgressFileIsNotGenerated()
    ensures !IsGeneratedDependencyPath(PROGRESS_FILE)
  {
    hide NormalizeRuntimePath, Includes, Lower;
    ProgressFileShape();
    ProgressFileIsNormal();
    assert DropSlashes(PROGRESS_FILE) == PROGRESS_FILE;
    NoSuchDirectory(PROGRESS_FILE, "/node_modules/");
    NoSuchDirectory(PROGRESS_FILE, "/.pnpm/");
    NoSuchDirectory(PROGRESS_FILE, "/vendor/bundle/");
    NoSuchDirectory(PROGRESS_FILE, "/dist/");
    NoSuchDirectory(PROGRESS_FILE, "/build/");
    NoSuchDirectory(PROGRESS_FILE, "/coverage/");
    NoSuchDirectory(PROGRESS_FILE, "/.next/");
  }

  /** The progress file is a product file: two shards that bring it with different content clash although no conflict is
      detected. */
  lemma ProgressFileClashes(root: Tree, head: Tree, first: Shard, second: Shard)
    requires first.filesChanged != [] && second.filesChanged != []
    requires PROGRESS_FILE in first.filesChanged && PROGRESS_FILE in second.filesChanged
    requires !NotInTheWay(At(first.worktree, PROGRESS_FILE), head, second.worktree, PROGRESS_FILE)
    ensures IsExempt(PROGRESS_FILE)
    ensures SyncAll(root, head, [first, second]).Err?
  {
    hide SyncAll, NormalizeRuntimePath, ClassifyRuntimePath, IsRuntimeArtifactDeliverablePath, Candidates;
    ProgressFileIsNormal();
    ProgressFileIsProduct();
    ListsProgressFile(first, head);
    ListsProgressFile(second, head);
    ClashFailsSync(root, head, [first, second], 0, 1, PROGRESS_FILE);
  }

  lemma ListsProgressFile(shard: Shard, head: Tree)
    requires PROGRESS_FILE in shard.filesChanged
    ensures PROGRESS_FILE in Candidates(shard, head)
  {
    hide NormalizeRuntimePath, Dirty;
    ProgressFileIsNormal();
    var i :| 0 <= i < |shard.filesChanged| && shard.filesChanged[i] == PROGRESS_FILE;
    var normal := Map(NormalizeRuntimePath, shard.filesChanged);
    assert normal[i] == PROGRESS_FILE;
    FilterKeeps((path: string) => path != "", normal, PROGRESS_FILE);
  }

  lemma ProgressFileIsProduct()
    ensures ClassifyRuntimePath(PROGRESS_FILE).Product? && !IsRuntimeArtifactDeliverablePath(PROGRESS_FILE)
  {
    hide NormalizeRuntimePath, IsGeneratedDependencyPath, IsSafeRelativePath, IsRuntimeOwnedPath,
      IsTemplateManagedProtectedPath,
         IsRuntimeArtifactDeliverablePath, IsVendoredKlevarToolingPath, Lower;
    ProgressFileShape();
    ProgressFileIsNormal();
    ProgressFileIsSafe();
    ProgressFileIsNotGenerated();
    StartsLikeProduct(PROGRESS_FILE);
  }

  lemma NoPrefix(file: string, prefixes: seq<string>)
    requires file != "" && forall i | 0 <= i < |prefixes| :: prefixes[i] != "" && prefixes[i][0] != file[0]
    ensures !StartsWithAny(file + "/", prefixes)
  {
    assert forall i | 0 <= i < |prefixes| :: (file + "/")[0] != prefixes[i][0];
  }

  lemma StartsLikeProduct(path: string)
    requires NormalizeRuntimePath(path) == path && Lower(path) == path && path != "" && path[0] == 'd'
    ensures !IsRuntimeOwnedPath(path) && !IsTemplateManagedProtectedPath(path) && !IsVendoredKlevarToolingPath(path)
    ensures !IsRuntimeArtifactDeliverablePath(path)
  {
    hide NormalizeRuntimePath, Lower, StartsWithAny, IsReportName;
    NoPrefix(path, [".yolo/runtime/", ".yolo/events/", ".yolo/logs/", ".yolo/worktrees/", ".yolo/pi-sessions/",
                    ".yolo/subagent-prompts/", ".yolo/subagent-runs/", ".yolo/incidents/"]);
    NoPrefix(path, [".agent/rules/", ".agent/workflows/", ".agent/guides/", ".agent/agents/"]);
    NoPrefix(path, ["tools/klevar-yolo-runtime/", "tools/klevar-pi-package/"]);
  }
}
