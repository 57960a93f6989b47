/** Moving a workspace whose repositories are cloned again instead of copied. */
module Migration {
  import opened Wrappers
  import opened Trees
  import opened Names
  import opened Git

  /** A workspace on the source node. `repos` are the repositories that the
      export describes; `outside` are the links that lead out of the workspace. */
  datatype Source = Source(disk: Tree, repos: map<Path, Repo>, outside: set<Path>)

  ghost predicate Valid(src: Source) {
    && WellFormed(src.disk)
    && forall r :: r in src.repos ==>
         && r in src.disk && src.disk[r] == Dir
         && Coherent(src.disk, r, src.repos[r])
  }

  function Listed(src: Source): map<Path, set<Path>> {
    map r | r in src.repos :: Clean(src.disk, src.repos[r])
  }

  /** The walk neither copies `p` nor looks below it. */
  predicate Skipped(src: Source, p: Path)
    requires p != []
  {
    || Forbidden(p, true)
    || (p[|p| - 1] == ".git" && p[..|p| - 1] in src.repos)
    || CleanInRepo(p, Listed(src))
  }

  predicate Open(src: Source, p: Path) {
    forall k :: 0 < k <= |p| ==> !Skipped(src, p[..k])
  }

  /** The repositories the walk reaches, hence describes. */
  function Described(src: Source): set<Path> {
    set r | r in src.repos && Open(src, r)
  }

  predicate Shipped(src: Source, p: Path) {
    && p in src.disk && p != [] && Open(src, p)
    && (src.disk[p].File? || (src.disk[p].Link? && p !in src.outside))
  }

  /** Reported in `excluded`: links that lead out, sockets, pipes, devices. */
  predicate Excluded(src: Source, p: Path) {
    && p in src.disk && p != [] && Open(src, p)
    && (src.disk[p].Special? || (src.disk[p].Link? && p in src.outside))
  }

  function Manifest(src: Source): Tree {
    map p | p in src.disk && Shipped(src, p) :: src.disk[p]
  }

  /** The paths the migration answers for. */
  ghost predicate InScope(src: Source, p: Path) {
    && p != []
    && !Forbidden(p, true)
    && !Excluded(src, p)
    && forall k :: 0 <= k < |p| && p[..k] in Described(src) ==> p[k] != ".git"
  }

  /** `git clone` with a hard reset to HEAD, at the place it will be moved to. */
  ghost function Clone(root: Path, repo: Repo): Tree {
    Spine(root + [".git"]) + Staged(repo.head)
  }

  /** What stands at `root` and below after `merge_tree(overlay, clone)`. */
  ghost function MergeInto(files: Tree, clone: Tree, root: Path): Tree {
    if root in files then Through(files, clone, {root}) else clone
  }

  /** The deletions `restore_repos` carries out on the merged clone. `refused`
      are the paths that the check in `path` turns down. */
  predicate Unlinked(deleted: set<Path>, refused: set<Path>, merged: Tree, p: Path) {
    && p in deleted && p !in refused && !Forbidden(p, true)
    && p in merged && (merged[p].File? || merged[p].Link?)
  }

  function Prune(merged: Tree, deleted: set<Path>, refused: set<Path>): Tree {
    map p | p in merged && !Unlinked(deleted, refused, merged, p) :: merged[p]
  }

  ghost function MergedClone(src: Source, files: Tree, root: Path): Tree
    requires root in src.repos
  {
    MergeInto(files, Clone(root, src.repos[root]), root)
  }

  ghost function Pruned(src: Source, files: Tree, root: Path, refused: set<Path>): Tree
    requires root in src.repos
  {
    Prune(MergedClone(src, files, root), Deleted(src.disk, src.repos[root]), refused)
  }

  /** One turn of `restore_repos`. */
  ghost function RestoreOne(src: Source, files: Tree, root: Path, refused: set<Path>): Tree
    requires root in src.repos
  {
    Without(files, root) + Pruned(src, files, root, refused)
  }

  /** Deepest first, each member of `roots` once. */
  ghost predicate Ordered(roots: set<Path>, order: seq<Path>) {
    && (forall r :: r in order <==> r in roots)
    && (forall i, j :: 0 <= i < j < |order| ==> |order[i]| >= |order[j]| && order[i] != order[j])
  }

  /** The staged tree once the first `i` repositories of `order` are restored. */
  ghost function Restored(src: Source, order: seq<Path>, i: nat, refused: set<Path>): Tree
    requires i <= |order| && forall r :: r in order ==> r in src.repos
  {
    if i == 0 then Staged(Manifest(src))
    else RestoreOne(src, Restored(src, order, i - 1, refused), order[i - 1], refused)
  }

  /** What arrives on the target, before the workspace is initialised there. */
  ghost function Arrival(src: Source, order: seq<Path>, refused: set<Path>): Tree
    requires Ordered(Described(src), order)
  {
    Restored(src, order, |order|, refused)
  }

  /** Nothing missing, nothing extra, nothing different. */
  ghost predicate Identity(src: Source, result: Tree) {
    forall p :: InScope(src, p) ==> LeafOf(result, p) == LeafOf(src.disk, p)
  }

  // ---- when the migration is the identity ----

  /** Nothing sits in a directory that Git tracks as a file and calls unchanged. */
  ghost predicate NothingHidden(src: Source) {
    forall p, k :: InScope(src, p) && LeafOf(src.disk, p).Some? && 0 < k < |p| ==> !CleanInRepo(p[..k], Listed(src))
  }

  /** Something that arrives stands above, at or below `p`, so that a clone's
      entry at `p` does not show. */
  ghost predicate Shadowed(src: Source, p: Path) {
    || (exists q :: InScope(src, q) && LeafOf(src.disk, q).Some? && (Under(p, q) || Under(q, p)))
    || (exists r :: r in Described(src) && Under(p, r))
  }

  /** Every path of HEAD that Git misses is gone from the disk, unless it is
      spared; and a spared one still exists or cannot be seen. */
  ghost predicate MissingSettled(src: Source, refused: set<Path>) {
    forall r, p :: r in Described(src) && p in Missing(src.disk, src.repos[r]) && InScope(src, p) ==>
      if p in src.repos[r].renamed || p in refused then Shadowed(src, p) else LeafOf(src.disk, p) == None
  }

  // ---- proof that the conditions suffice ----

  lemma OpenOne(src: Source, p: Path)
    requires p != [] && Open(src, p[..|p| - 1]) && !Skipped(src, p)
    ensures Open(src, p)
  {
    hide Skipped;
    var parent := p[..|p| - 1];
    forall k | 0 < k <= |p| ensures !Skipped(src, p[..k]) {
      if k < |p| {
        assert p[..k] == parent[..k];
      } else {
        assert p[..k] == p;
      }
    }
  }

  lemma NotSkipped(src: Source, p: Path, k: nat)
    requires InScope(src, p) && 0 < k < |p| && Open(src, p[..k - 1]) && !CleanInRepo(p[..k], Listed(src))
    ensures !Skipped(src, p[..k])
  {
    hide CleanInRepo, Listed, Excluded, Open, Forbidden;
    var a := p[..k];
    assert a[..k - 1] == p[..k - 1];
    ForbiddenBelow(p, k, true);
    assert p[..k - 1] in src.repos ==> p[..k - 1] in Described(src);
  }

  lemma PrefixOpen(src: Source, p: Path, k: nat)
    requires InScope(src, p) && k < |p|
    requires forall j :: 0 < j <= k ==> !CleanInRepo(p[..j], Listed(src))
    ensures Open(src, p[..k])
  {
    if k > 0 {
      hide InScope, Skipped, CleanInRepo, Listed;
      PrefixOpen(src, p, k - 1);
      NotSkipped(src, p, k);
      assert p[..k][..k - 1] == p[..k - 1];
      OpenOne(src, p[..k]);
    }
  }

  lemma ParentOpen(src: Source, p: Path)
    requires NothingHidden(src) && InScope(src, p) && LeafOf(src.disk, p).Some?
    ensures Open(src, p[..|p| - 1])
  {
    hide Described, CleanInRepo, Open;
    PrefixOpen(src, p, |p| - 1);
  }

  /** A leaf that is not shipped although nothing above it is skipped. */
  lemma OnlyClean(src: Source, p: Path)
    requires InScope(src, p) && LeafOf(src.disk, p).Some? && Open(src, p[..|p| - 1])
    requires !Shipped(src, p)
    ensures CleanInRepo(p, Listed(src))
  {
    hide CleanInRepo;
    if !CleanInRepo(p, Listed(src)) {
      var parent := p[..|p| - 1];
      assert parent in src.repos ==> parent in Described(src);
      assert !Skipped(src, p);
      OpenOne(src, p);
    }
  }

  /** Whatever the migration answers for is shipped or left to a clone. */
  lemma Whereabouts(src: Source, p: Path) returns (r: Path)
    requires Valid(src) && NothingHidden(src)
    requires InScope(src, p) && LeafOf(src.disk, p).Some?
    ensures || Shipped(src, p)
            || (r in Described(src) && Innermost(src.repos.Keys, r, p) && p in Clean(src.disk, src.repos[r]))
  {
    r := [];
    if !Shipped(src, p) {
      ParentOpen(src, p);
      OnlyClean(src, p);
      CleanIffInnermost(p, Listed(src));
      r :| Innermost(Listed(src).Keys, r, p) && p in Listed(src)[r];
      assert p[..|r|] == r;
      PrefixOpen(src, p, |r|);
    }
  }

  ghost predicate Arrived(src: Source, done: set<Path>, p: Path) {
    Shipped(src, p) || exists r :: r in done && Under(r, p) && r != p
  }

  /** Where the staged tree stands once the repositories in `done` are restored. */
  ghost predicate Progress(src: Source, files: Tree, done: set<Path>) {
    && WellFormed(files)
    && done <= Described(src)
    && (forall r :: r in done ==> r in files)
    && (forall p :: InScope(src, p) ==>
          LeafOf(files, p) == if Arrived(src, done, p) then LeafOf(src.disk, p) else None)
    && (forall p :: InScope(src, p) && p in files && LeafOf(src.disk, p).Some? ==> files[p] != Dir)
  }

  /** The loop of `restore_repos` turns to `root`: deeper repositories are done. */
  ghost predicate Turn(src: Source, files: Tree, done: set<Path>, root: Path, refused: set<Path>) {
    && Valid(src) && NothingHidden(src) && MissingSettled(src, refused)
    && Progress(src, files, done)
    && root in Described(src) && root !in done
    && (forall r :: r in done ==> |r| >= |root|)
    && (forall r :: r in Described(src) && |r| > |root| ==> r in done)
  }

  lemma NoGitAbove(src: Source, root: Path, k: nat)
    requires root in Described(src) && k <= |root|
    ensures forall j :: 0 <= j < k && root[..k][..j] in Described(src) ==> root[..k][j] != ".git"
  {
    hide CleanInRepo, Forbidden;
    var a := root[..k];
    forall j | 0 <= j < k && a[..j] in Described(src) ensures a[j] != ".git" {
      assert !Skipped(src, root[..j + 1]);
      assert root[..j + 1][..j] == a[..j];
    }
  }

  lemma SpineInScope(src: Source, root: Path, k: nat)
    requires Valid(src) && root in Described(src) && 0 < k <= |root|
    ensures InScope(src, root[..k]) && LeafOf(src.disk, root[..k]) == None
  {
    var a := root[..k];
    assert !Skipped(src, a);
    NoGitAbove(src, root, k);
    assert k == |root| ==> a == root;
    hide Described, CleanInRepo, Listed;
  }

  /** Only directories stand at and above `root`. */
  ghost predicate Clear(files: Tree, root: Path) {
    WellFormed(files) && forall k :: 0 <= k <= |root| && root[..k] in files ==> files[root[..k]] == Dir
  }

  lemma SpineClear(src: Source, files: Tree, done: set<Path>, root: Path)
    requires Valid(src) && Progress(src, files, done) && root in Described(src)
    ensures Clear(files, root)
  {
    forall k | 0 < k <= |root| ensures root[..k] in files ==> files[root[..k]] == Dir {
      SpineInScope(src, root, k);
    }
  }

  lemma CloneTree(src: Source, root: Path)
    requires Valid(src) && root in src.repos
    ensures var clone := Clone(root, src.repos[root]);
            && WellFormed(clone)
            && root in clone
            && (forall p :: p in clone ==> Under(root, p) || Under(p, root))
            && (forall p ::
                  LeafOf(clone, p) == if p in src.repos[root].head then Some(src.repos[root].head[p]) else None)
  {
    var repo := src.repos[root];
    var dir := root + [".git"];
    assert Coherent(src.disk, root, repo);
    assert [] !in repo.head by {
      assert Under(root, []) ==> root == [];
    }
    assert PrefixFree(repo.head);
    StagedWellFormed(repo.head);
    var clone := Clone(root, repo);
    assert dir[..0] == [] && dir[..|root|] == root;
    forall p | p in Prefixes(dir) ensures p !in repo.head {
      var j :| 0 <= j <= |dir| && dir[..j] == p;
      assert |p| > |root| ==> p == dir && p[|root|] == ".git";
    }
    forall p, k | p in clone && 0 <= k < |p| ensures p[..k] in clone && clone[p[..k]] == Dir {
      if p in Staged(repo.head) {
        assert p[..k] in Staged(repo.head);
      } else {
        var j :| 0 <= j <= |dir| && dir[..j] == p;
        assert p[..k] == dir[..k];
        assert p[..k] in Prefixes(dir);
        assert p[..k] in Staged(repo.head) ==> p[..k] !in repo.head;
      }
    }
    forall p | p in clone ensures Under(root, p) || Under(p, root) {
      CloneShape(src, root, p);
    }
  }

  lemma CloneShape(src: Source, root: Path, p: Path)
    requires Valid(src) && root in src.repos && p in Clone(root, src.repos[root])
    ensures Under(root, p) || Under(p, root)
  {}

  /** What the merge makes of a path below `root`. */
  lemma MergedAt(src: Source, files: Tree, root: Path, p: Path)
    requires Valid(src) && Clear(files, root) && root in src.repos
    requires Under(root, p) && p != root
    ensures var merged := MergedClone(src, files, root);
            var clone := Clone(root, src.repos[root]);
            && (p in merged <==> p in files || (p in clone && !Blocked(files, p)))
            && (p in merged ==> merged[p] == if p in files then files[p] else clone[p])
  {
    if root in files {
      assert Below({root}, p);
    } else {
      assert p[..|root|] == root;
      forall k | 0 <= k < |p| ensures p[..k] in files ==> files[p[..k]] == Dir {
        if k <= |root| {
          assert p[..k] == root[..k];
        } else {
          assert p[..k][..|root|] == root;
        }
      }
    }
  }

  /** Left to a deeper clone, hence already staged. */
  lemma DeeperDone(src: Source, files: Tree, done: set<Path>, root: Path, r: Path, q: Path)
    requires Progress(src, files, done)
    requires root in src.repos && Under(root, q) && q != root
    requires r in Described(src) && Innermost(src.repos.Keys, r, q) && r != root
    requires forall d :: d in Described(src) && |d| > |root| ==> d in done
    requires InScope(src, q) && LeafOf(src.disk, q).Some?
    ensures q in files && files[q] == src.disk[q]
  {
    assert q[..|root|] == root && q[..|r|] == r;
    assert |r| > |root|;
    assert Arrived(src, done, q);
  }

  /** HEAD has no entry above or below a clean one, and a missing one is not clean. */
  lemma CleanAlone(src: Source, root: Path, p: Path, q: Path)
    requires Valid(src) && root in src.repos
    requires p in Missing(src.disk, src.repos[root])
    requires LeafOf(src.disk, q).Some?
    requires Under(p, q) || Under(q, p)
    ensures q !in Clean(src.disk, src.repos[root])
  {
    assert Coherent(src.disk, root, src.repos[root]);
    assert |p| == |q| ==> p == q;
    if q in Clean(src.disk, src.repos[root]) {
      CleanLeaf(src.disk, root, src.repos[root], q);
    }
  }

  lemma BelowRoot(src: Source, root: Path, p: Path, q: Path)
    requires Valid(src) && root in src.repos
    requires Under(root, p) && p != root
    requires LeafOf(src.disk, q).Some? && (Under(p, q) || Under(q, p))
    ensures Under(root, q) && q != root
  {
    if Under(p, q) {
      UnderTransitive(root, p, q);
    } else {
      assert |q| <= |root| ==> root[..|q|] == p[..|root|][..|q|] == q;
      assert |q| > |root| ==> q[..|root|] == p[..|q|][..|root|] == root;
    }
  }

  /** A leaf the migration answers for, above or below a missing path of this
      HEAD, is already staged. */
  lemma InFiles(src: Source, files: Tree, done: set<Path>, root: Path, refused: set<Path>, q: Path, p: Path)
    requires Turn(src, files, done, root, refused)
    requires p in Missing(src.disk, src.repos[root]) && Under(root, p) && p != root
    requires InScope(src, q) && LeafOf(src.disk, q).Some?
    requires Under(p, q) || Under(q, p)
    ensures q in files && files[q] == src.disk[q]
  {
    var r := Whereabouts(src, q);
    if Shipped(src, q) {
      assert Arrived(src, done, q);
    } else {
      BelowRoot(src, root, p, q);
      if r == root {
        CleanAlone(src, root, p, q);
        assert false;
      }
      DeeperDone(src, files, done, root, r, q);
    }
  }

  lemma ShadowHides(src: Source, files: Tree, done: set<Path>, root: Path, refused: set<Path>, p: Path)
    requires Turn(src, files, done, root, refused)
    requires p in Missing(src.disk, src.repos[root]) && Under(root, p) && p != root
    requires Shadowed(src, p)
    ensures p in files || Blocked(files, p)
  {
    if r :| r in Described(src) && Under(p, r) {
      RepoHides(src, files, done, root, p, r);
    } else {
      var q :| InScope(src, q) && LeafOf(src.disk, q).Some? && (Under(p, q) || Under(q, p));
      LeafShadow(src, files, done, root, refused, p, q);
    }
  }

  lemma LeafHides(files: Tree, p: Path, q: Path)
    requires WellFormed(files) && LeafOf(files, q).Some?
    requires Under(p, q) || Under(q, p)
    ensures p in files || Blocked(files, p)
  {
    assert |p| == |q| ==> p == q;
    if Under(p, q) {
      assert q[..|p|] == p;
    } else {
      assert p[..|q|] == q;
    }
  }

  lemma RepoHides(src: Source, files: Tree, done: set<Path>, root: Path, p: Path, r: Path)
    requires Progress(src, files, done)
    requires forall d :: d in Described(src) && |d| > |root| ==> d in done
    requires Under(root, p) && p != root
    requires r in Described(src) && Under(p, r)
    ensures p in files
  {
    assert |r| > |root|;
    assert r in files && r[..|p|] == p;
    assert |p| == |r| ==> p == r;
  }

  lemma LeafShadow(src: Source, files: Tree, done: set<Path>, root: Path, refused: set<Path>, p: Path, q: Path)
    requires Turn(src, files, done, root, refused)
    requires p in Missing(src.disk, src.repos[root]) && Under(root, p) && p != root
    requires InScope(src, q) && LeafOf(src.disk, q).Some? && (Under(p, q) || Under(q, p))
    ensures p in files || Blocked(files, p)
  {
    InFiles(src, files, done, root, refused, q, p);
    LeafHides(files, p, q);
  }

  /** Below the repository being restored, the result is what is on the disk. */
  lemma StepBelow(src: Source, files: Tree, done: set<Path>, root: Path, refused: set<Path>, p: Path)
    requires Turn(src, files, done, root, refused)
    requires InScope(src, p) && Under(root, p) && p != root
    ensures LeafOf(Pruned(src, files, root, refused), p) == LeafOf(src.disk, p)
  {
    var repo := src.repos[root];
    CloneTree(src, root);
    SpineClear(src, files, done, root);
    MergedAt(src, files, root, p);
    if LeafOf(src.disk, p).Some? {
      var r := Whereabouts(src, p);
      if !Shipped(src, p) {
        assert p[..|root|] == root;
        if r == root {
          CleanLeaf(src.disk, root, repo, p);
          NotBlocked(src, files, done, p);
          assert p in Clone(root, repo);
        } else {
          assert |r| > |root|;
        }
      }
    } else {
      var merged := MergedClone(src, files, root);
      if p in merged && merged[p] != Dir {
        assert p in repo.head && p in Missing(src.disk, repo);
        if p in repo.renamed || p in refused {
          ShadowHides(src, files, done, root, refused, p);
          assert false;
        }
        assert Coherent(src.disk, root, repo);
        assert Unlinked(Deleted(src.disk, src.repos[root]), refused, merged, p);
      }
    }
  }

  lemma NotBlocked(src: Source, files: Tree, done: set<Path>, p: Path)
    requires Valid(src) && NothingHidden(src) && Progress(src, files, done)
    requires InScope(src, p) && p in src.disk
    ensures !Blocked(files, p)
  {
    forall k | 0 <= k < |p| && p[..k] in files ensures files[p[..k]] == Dir {
      if k > 0 {
        var a := p[..k];
        assert src.disk[a] == Dir;
        ForbiddenBelow(p, k, true);
        forall j | 0 <= j < k && a[..j] in Described(src) ensures a[j] != ".git" {
          assert a[..j] == p[..j];
        }
        assert InScope(src, a);
      }
    }
  }

  lemma MergedShape(src: Source, files: Tree, root: Path)
    requires Valid(src) && Clear(files, root) && root in src.repos
    ensures var t := MergedClone(src, files, root);
            && WellFormed(t) && root in t && t[root] == Dir
            && forall p :: p in t ==> Under(root, p) || Under(p, root)
  {
    CloneTree(src, root);
    var clone := Clone(root, src.repos[root]);
    assert LeafOf(clone, root) == None;
    if root in files {
      assert root[..|root|] == root;
      ThroughOneWellFormed(files, clone, root);
      assert Below({root}, root);
      forall p | p in Through(files, clone, {root}) ensures Under(root, p) || Under(p, root) {}
    }
  }

  /** Unlinking leaves keeps a tree a tree. */
  lemma PrunedShape(src: Source, files: Tree, root: Path, refused: set<Path>)
    requires Valid(src) && Clear(files, root) && root in src.repos
    ensures var t := Pruned(src, files, root, refused);
            && WellFormed(t) && root in t && t[root] == Dir
            && forall p :: p in t ==> Under(root, p) || Under(p, root)
  {
    MergedShape(src, files, root);
    var merged := MergedClone(src, files, root);
    var t := Pruned(src, files, root, refused);
    forall p | p in merged && merged[p] == Dir ensures p in t && t[p] == Dir {}
  }

  lemma RestoreOneWellFormed(src: Source, files: Tree, root: Path, refused: set<Path>)
    requires Valid(src) && Clear(files, root) && root in src.repos
    ensures WellFormed(RestoreOne(src, files, root, refused))
  {
    PrunedShape(src, files, root, refused);
    PlacedWellFormed(files, Pruned(src, files, root, refused), root);
  }

  lemma PlacedWellFormed(files: Tree, t: Tree, root: Path)
    requires WellFormed(files) && WellFormed(t)
    requires root in t && t[root] == Dir
    requires forall p :: p in t ==> Under(root, p) || Under(p, root)
    ensures WellFormed(Without(files, root) + t)
  {}

  /** The roots above and at `root` in the result, and the roots already done. */
  lemma StepRoots(src: Source, files: Tree, done: set<Path>, root: Path, refused: set<Path>, r: Path)
    requires Turn(src, files, done, root, refused)
    requires r in done + {root}
    ensures r in RestoreOne(src, files, root, refused)
  {
    SpineClear(src, files, done, root);
    PrunedShape(src, files, root, refused);
    if Under(root, r) && r != root {
      MergedAt(src, files, root, r);
      SpineClear(src, files, done, r);
      assert r[..|r|] == r;
    }
  }

  lemma StepLeaf(src: Source, files: Tree, done: set<Path>, root: Path, refused: set<Path>, p: Path)
    requires Turn(src, files, done, root, refused)
    requires InScope(src, p)
    ensures var t := RestoreOne(src, files, root, refused);
            && LeafOf(t, p) == (if Arrived(src, done + {root}, p) then LeafOf(src.disk, p) else None)
            && (p in t && LeafOf(src.disk, p).Some? ==> t[p] != Dir)
  {
    SpineClear(src, files, done, root);
    PrunedShape(src, files, root, refused);
    assert Arrived(src, done + {root}, p) <==> Arrived(src, done, p) || (Under(root, p) && p != root) by {
      assert root in done + {root};
    }
    if Under(root, p) && p != root {
      StepBelow(src, files, done, root, refused, p);
    } else if p in Pruned(src, files, root, refused) {
      assert Under(p, root) by { assert Under(root, p) ==> p == root; }
      assert root[..|p|] == p;
      assert |p| == |root| ==> p == root;
    }
  }

  lemma Step(src: Source, files: Tree, done: set<Path>, root: Path, refused: set<Path>)
    requires Turn(src, files, done, root, refused)
    ensures Progress(src, RestoreOne(src, files, root, refused), done + {root})
  {
    SpineClear(src, files, done, root);
    RestoreOneWellFormed(src, files, root, refused);
    forall r | r in done + {root} ensures r in RestoreOne(src, files, root, refused) {
      StepRoots(src, files, done, root, refused, r);
    }
    forall p | InScope(src, p)
      ensures var t := RestoreOne(src, files, root, refused);
              && LeafOf(t, p) == (if Arrived(src, done + {root}, p) then LeafOf(src.disk, p) else None)
              && (p in t && LeafOf(src.disk, p).Some? ==> t[p] != Dir)
    {
      StepLeaf(src, files, done, root, refused, p);
    }
  }

  lemma ManifestPrefixFree(src: Source)
    requires Valid(src)
    ensures PrefixFree(Manifest(src))
  {}

  /** The staged manifest, before any repository is put back. */
  lemma Start(src: Source)
    requires Valid(src)
    ensures Progress(src, Staged(Manifest(src)), {})
  {
    var m := Manifest(src);
    StagedWellFormed(m);
    forall p | p in Staged(m) && p !in m && p != [] ensures LeafOf(src.disk, p) == None {
      var q: Path, k :| q in m && 0 <= k <= |q| && q[..k] == p;
      assert k == |q| ==> q == p;
    }
  }

  ghost function Firsts(order: seq<Path>, i: nat): set<Path>
    requires i <= |order|
  {
    set j | 0 <= j < i :: order[j]
  }

  /** When the loop turns to `order[i]`, exactly the right roots are done. */
  lemma OrderTurn(roots: set<Path>, order: seq<Path>, i: nat)
    requires Ordered(roots, order) && i < |order|
    ensures Firsts(order, i) <= roots && order[i] in roots && order[i] !in Firsts(order, i)
    ensures forall r :: r in Firsts(order, i) ==> |r| >= |order[i]|
    ensures forall r :: r in roots && |r| > |order[i]| ==> r in Firsts(order, i)
    ensures Firsts(order, i + 1) == Firsts(order, i) + {order[i]}
  {}

  lemma {:induction false} RestoredProgress(src: Source, order: seq<Path>, i: nat, refused: set<Path>)
    requires Valid(src) && NothingHidden(src) && MissingSettled(src, refused)
    requires Ordered(Described(src), order) && i <= |order|
    requires forall r :: r in order ==> r in src.repos
    ensures Progress(src, Restored(src, order, i, refused), Firsts(order, i))
  {
    hide *;
    if i == 0 {
      BeforeFirst(src, order, refused);
    } else {
      RestoredProgress(src, order, i - 1, refused);
      RestoredNext(src, order, i - 1, refused, Restored(src, order, i - 1, refused));
    }
  }

  lemma BeforeFirst(src: Source, order: seq<Path>, refused: set<Path>)
    requires Valid(src) && forall r :: r in order ==> r in src.repos
    ensures Progress(src, Restored(src, order, 0, refused), Firsts(order, 0))
  {
    hide Valid, Progress;
    Start(src);
    assert Firsts(order, 0) == {};
  }

  lemma RestoredNext(src: Source, order: seq<Path>, i: nat, refused: set<Path>, files: Tree)
    requires Valid(src) && NothingHidden(src) && MissingSettled(src, refused)
    requires Ordered(Described(src), order) && i < |order|
    requires forall r :: r in order ==> r in src.repos
    requires files == Restored(src, order, i, refused) && Progress(src, files, Firsts(order, i))
    ensures Progress(src, Restored(src, order, i + 1, refused), Firsts(order, i + 1))
  {
    hide Valid, NothingHidden, MissingSettled, Progress, Described, RestoreOne, Ordered, Firsts;
    OrderTurn(Described(src), order, i);
    assert order[i] in order;
    Step(src, files, Firsts(order, i), order[i], refused);
  }

  /** MAIN RESULT: under the three conditions what arrives is the workspace, at
      every path the migration answers for, however the repositories nest. */
  lemma {:induction false} MigrationIsIdentity(src: Source, order: seq<Path>, refused: set<Path>)
    requires Valid(src) && Ordered(Described(src), order)
    requires NothingHidden(src) && MissingSettled(src, refused)
    ensures Identity(src, Arrival(src, order, refused))
  {
    RestoredProgress(src, order, |order|, refused);
    forall p | InScope(src, p) && LeafOf(src.disk, p).Some? ensures Arrived(src, Firsts(order, |order|), p) {
      var r := Whereabouts(src, p);
      if r in Described(src) {
        var i :| 0 <= i < |order| && order[i] == r;
      }
    }
  }
}
