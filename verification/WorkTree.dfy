/**
 * The leased git work tree of NightShift: what `git add .`, `git reset --hard` and
 * `git clean -ffd` do to it, when a restore really puts it back, and what a restored tree is
 * worth to the next commit.
 *
 * A commit is a value that holds its whole ancestry, so equal commits are the same commit.
 * A gitlink in the work tree is an embedded repository checked out at that object id.
 */
module WorkTree {
  import opened Wrappers

  type Path = string

  datatype Item = File(content: string) | Gitlink(oid: string)

  type Tree = map<Path, Item>

  datatype Commit = Leased(tree: Tree) | Promoted(parent: Commit, tree: Tree, score: real)

  datatype Git = Git(head: Commit, index: Tree, work: Tree)

  /** How git reads ignore files; the argument holds the ignore files of the work tree only. */
  type IgnoreRules = (Tree, Path) -> bool

  predicate IsIgnoreFile(path: Path) {
    path == ".gitignore" || (|path| > 11 && path[|path| - 11..] == "/.gitignore")
  }

  function IgnoreFiles(work: Tree): Tree {
    map p | p in work && IsIgnoreFile(p) :: work[p]
  }

  predicate Ignored(rules: IgnoreRules, work: Tree, path: Path) {
    rules(IgnoreFiles(work), path)
  }

  function GitlinksOf(tree: Tree): set<(Path, string)> {
    set p | p in tree && tree[p].Gitlink? :: (p, tree[p].oid)
  }

  // ----- git steps that succeed -------------------------------------------------------

  /** `git add .`: everything in the work tree that is tracked or not ignored. */
  function Added(rules: IgnoreRules, g: Git): Tree {
    map p | p in g.work && (p in g.index || !Ignored(rules, g.work, p)) :: g.work[p]
  }

  /** The index holds the file and the target does not: `reset --hard` deletes it. */
  predicate DeletedByReset(g: Git, target: Tree, path: Path) {
    path in g.index && path !in target && path in g.work && g.work[path].File?
  }

  /** `reset --hard` rewrites tracked files; an embedded repository stays where it is. */
  function ResetItem(work: Tree, target: Tree, path: Path): Item
    requires path in target
  {
    if target[path].Gitlink? && path in work && work[path].Gitlink? then work[path] else target[path]
  }

  function ResetWork(g: Git, target: Tree): Tree {
    map p | p in target.Keys + g.work.Keys && (p in target || !DeletedByReset(g, target, p)) ::
      if p in target then ResetItem(g.work, target, p) else g.work[p]
  }

  /** `clean -ffd`: untracked paths go, embedded repositories too, unless they are ignored. */
  function CleanWork(rules: IgnoreRules, work: Tree, target: Tree): Tree {
    map p | p in work && (p in target || Ignored(rules, work, p)) :: work[p]
  }

  function Reset(g: Git, base: Commit): Git {
    Git(base, base.tree, ResetWork(g, base.tree))
  }

  function CleanUp(rules: IgnoreRules, g: Git): Git {
    g.(work := CleanWork(rules, g.work, g.index))
  }

  /** Both steps of `_restore_work_tree`. */
  function Restored(rules: IgnoreRules, g: Git, base: Commit): Git {
    CleanUp(rules, Reset(g, base))
  }

  /** An ignore file stands at the root or in any directory, under that very name. */
  lemma IgnoreFileIff(path: Path)
    ensures IsIgnoreFile(path) <==> path == ".gitignore" || exists dir: Path :: dir != "" && path == dir + "/.gitignore"
  {
    if |path| > 11 && path[|path| - 11..] == "/.gitignore" {
      assert path == path[..|path| - 11] + "/.gitignore";
    }
    assert forall dir: Path :: path == dir + "/.gitignore" ==> path[|path| - 11..] == "/.gitignore";
  }

  /** The gitlinks of a tree are its embedded repositories, each with its object. */
  lemma GitlinkIff(tree: Tree, path: Path, oid: string)
    ensures (path, oid) in GitlinksOf(tree) <==> path in tree && tree[path] == Gitlink(oid)
  {
  }

  /** `git add .` stages what stands in the work tree and is tracked or not ignored, with its content. */
  lemma AddedIff(rules: IgnoreRules, g: Git, path: Path, item: Item)
    ensures path in Added(rules, g) && Added(rules, g)[path] == item <==>
      && path in g.work && g.work[path] == item
      && (path in g.index || !rules(map p | p in g.work && IsIgnoreFile(p) :: g.work[p], path))
  {
  }

  /**
   * What a restore leaves at a path: the base's item (an embedded repository stays as it is where
   * the base tracks one), or an untracked item that the ignore files of the reset tree spare.
   * A file that was staged and is not the base's is gone.
   */
  lemma RestoredIff(rules: IgnoreRules, g: Git, base: Commit, path: Path, item: Item)
    ensures var work, reset := Restored(rules, g, base).work, ResetWork(g, base.tree);
      path in work && work[path] == item <==>
        if path in base.tree then
          if base.tree[path].Gitlink? && path in g.work && g.work[path].Gitlink? then item == g.work[path]
          else item == base.tree[path]
        else
          && path in g.work && item == g.work[path] && !(path in g.index && item.File?)
          && rules(map p | p in reset && IsIgnoreFile(p) :: reset[p], path)
  {
    var reset := ResetWork(g, base.tree);
    assert IgnoreFiles(reset) == map p | p in reset && IsIgnoreFile(p) :: reset[p];
    assert path in Restored(rules, g, base).work <==>
      path in reset && (path in base.tree || Ignored(rules, reset, path));
  }

  // ----- a settled tree ---------------------------------------------------------------

  /** The work tree is the tree, apart from paths that are ignored. */
  ghost predicate Matches(rules: IgnoreRules, work: Tree, tree: Tree) {
    && (forall p :: p in tree ==> p in work && work[p] == tree[p])
    && (forall p :: p in work && p !in tree ==> Ignored(rules, work, p))
  }

  /** HEAD, index and work tree all stand at `base`. */
  ghost predicate Settled(rules: IgnoreRules, g: Git, base: Commit) {
    g.head == base && g.index == base.tree && Matches(rules, g.work, base.tree)
  }

  /** No embedded repository that `base` tracks has been moved to another object. */
  ghost predicate TrackedReposUnmoved(g: Git, base: Commit) {
    forall p :: p in base.tree && base.tree[p].Gitlink? && p in g.work && g.work[p].Gitlink? ==>
      g.work[p] == base.tree[p]
  }

  /** The ignore files that `clean` leaves of a work tree: the tracked ones and the ignored ones. */
  function KeptIgnores(rules: IgnoreRules, work: Tree, tree: Tree): Tree {
    map p | p in work && IsIgnoreFile(p) && (p in tree || Ignored(rules, work, p)) :: work[p]
  }

  lemma CleanKeepsIgnores(rules: IgnoreRules, work: Tree, tree: Tree)
    ensures IgnoreFiles(CleanWork(rules, work, tree)) == KeptIgnores(rules, work, tree)
  {
    var cleaned := CleanWork(rules, work, tree);
    forall p ensures p in IgnoreFiles(cleaned) <==> p in KeptIgnores(rules, work, tree) {}
  }

  /** Every untracked path ignored after the reset is also ignored by the ignore files that `clean` will leave. */
  ghost predicate IgnoresOutliveClean(rules: IgnoreRules, g: Git, base: Commit) {
    var reset := ResetWork(g, base.tree);
    forall p :: p in reset && p !in base.tree && Ignored(rules, reset, p) ==>
      rules(KeptIgnores(rules, reset, base.tree), p)
  }

  /** A caller can check this before the restore. */
  ghost predicate Restorable(rules: IgnoreRules, g: Git, base: Commit) {
    TrackedReposUnmoved(g, base) && IgnoresOutliveClean(rules, g, base)
  }

  /** A restore puts HEAD and index back in any case, and settles the work tree exactly from a restorable state. */
  lemma RestoreSettlesIff(rules: IgnoreRules, g: Git, base: Commit)
    ensures Restored(rules, g, base).head == base && Restored(rules, g, base).index == base.tree
    ensures Settled(rules, Restored(rules, g, base), base) <==> Restorable(rules, g, base)
  {
    var r, reset := Restored(rules, g, base), ResetWork(g, base.tree);
    CleanKeepsIgnores(rules, reset, base.tree);
    forall p | p in base.tree ensures p in r.work && r.work[p] == ResetItem(g.work, base.tree, p) {}
    forall p | p !in base.tree ensures p in r.work <==> p in reset && Ignored(rules, reset, p) {}
    if Settled(rules, r, base) {
      forall p | p in base.tree && base.tree[p].Gitlink? && p in g.work && g.work[p].Gitlink?
        ensures g.work[p] == base.tree[p]
      {
        assert r.work[p] == ResetItem(g.work, base.tree, p);
      }
    }
  }

  /** What a caller can look for: an ignore file that is neither tracked nor itself ignored. */
  ghost predicate StrayIgnoreFile(rules: IgnoreRules, g: Git, base: Commit, path: Path) {
    path in ResetWork(g, base.tree) && IsIgnoreFile(path) && path !in base.tree &&
      !Ignored(rules, ResetWork(g, base.tree), path)
  }

  lemma NoStrayIgnoreFileSuffices(rules: IgnoreRules, g: Git, base: Commit)
    requires forall p :: !StrayIgnoreFile(rules, g, base, p)
    ensures IgnoresOutliveClean(rules, g, base)
  {
    var reset := ResetWork(g, base.tree);
    forall p | p in IgnoreFiles(reset) ensures p in KeptIgnores(rules, reset, base.tree) {
      assert !StrayIgnoreFile(rules, g, base, p);
    }
    assert KeptIgnores(rules, reset, base.tree) == IgnoreFiles(reset);
  }

  /**
   * A round that leaves a new ignore file and a file it covers.  The restore deletes the
   * ignore file only, and the next `git add .` stages the other one.
   */
  lemma RejectedFileRidesAlong(base: Commit)
    requires base.tree == map[]
    ensures var rules: IgnoreRules := (ignores, p) => ".gitignore" in ignores && p == "a.log";
      var left := Git(base, map[], map[".gitignore" := File("*.log"), "a.log" := File("junk")]);
      var restored := Restored(rules, left, base);
      && restored.work == map["a.log" := File("junk")]
      && !Settled(rules, restored, base)
      && Added(rules, restored) == map["a.log" := File("junk")]
  {
    var rules: IgnoreRules := (ignores, p) => ".gitignore" in ignores && p == "a.log";
    var left := Git(base, map[], map[".gitignore" := File("*.log"), "a.log" := File("junk")]);
    var reset := Reset(left, base).work;
    assert reset == left.work;
    assert IsIgnoreFile(".gitignore") && ".gitignore" in IgnoreFiles(reset);
    assert Ignored(rules, reset, "a.log") && !Ignored(rules, reset, ".gitignore");
    var work := Restored(rules, left, base).work;
    assert work == map["a.log" := File("junk")];
    assert ".gitignore" !in IgnoreFiles(work);
    assert !Ignored(rules, work, "a.log");
    assert "a.log" in work && "a.log" !in base.tree;
  }

  // ----- what a settled tree is worth -------------------------------------------------

  /** After a commit of `git add .` the work tree is settled at the new commit. */
  lemma CommitSettles(rules: IgnoreRules, g: Git, score: real)
    requires g.index == Added(rules, g)
    ensures var c := Promoted(g.head, g.index, score); Settled(rules, g.(head := c), c)
  {
  }

  /** `add .` twice is `add .` once. */
  lemma AddedIsStable(rules: IgnoreRules, g: Git)
    ensures Added(rules, g.(index := Added(rules, g))) == Added(rules, g)
  {
    var once := Added(rules, g);
    var twice := Added(rules, g.(index := once));
    forall p ensures p in once <==> p in twice {}
  }

  /** The round that started at `start` and left `left` has neither written nor removed the path. */
  ghost predicate Unwritten(start: Git, left: Git, path: Path) {
    path in start.work && path in left.work && left.work[path] == start.work[path]
  }

  /** Of what `git add .` then stages, everything is the base's or was written by that round. */
  ghost predicate HoldsOwnWork(rules: IgnoreRules, start: Git, base: Commit, left: Git) {
    forall p :: p in Added(rules, left) && Unwritten(start, left, p) ==> p in base.tree && left.work[p] == base.tree[p]
  }

  /** The round has neither staged an ignored leftover nor changed the ignore files so that one is no longer ignored. */
  ghost predicate LeavesLeftovers(rules: IgnoreRules, start: Git, base: Commit, left: Git) {
    forall p :: p in start.work && p !in base.tree && Unwritten(start, left, p) ==>
      p !in left.index && Ignored(rules, left.work, p)
  }

  /** Nothing rides along from a settled start exactly when the round leaves the leftovers alone. */
  lemma NothingRidesAlongIff(rules: IgnoreRules, start: Git, base: Commit, left: Git)
    requires Settled(rules, start, base)
    ensures HoldsOwnWork(rules, start, base, left) <==> LeavesLeftovers(rules, start, base, left)
  {
    if HoldsOwnWork(rules, start, base, left) {
      forall p | p in start.work && p !in base.tree && Unwritten(start, left, p)
        ensures p !in left.index && Ignored(rules, left.work, p)
      {
        assert p !in Added(rules, left);
      }
    }
  }

  /** A round that touches no ignore file and stages no leftover leaves the leftovers alone. */
  lemma SameIgnoresSuffice(rules: IgnoreRules, start: Git, base: Commit, left: Git)
    requires Settled(rules, start, base) && IgnoreFiles(left.work) == IgnoreFiles(start.work)
    requires forall p :: p in left.index && p in start.work ==> p in base.tree
    ensures LeavesLeftovers(rules, start, base, left)
  {
    forall p | p in start.work && p !in base.tree ensures Ignored(rules, left.work, p) {
      assert Ignored(rules, start.work, p);
    }
  }
}
