/** `restore_repos`: the staged copies and the clones become one tree, in place. */
module Restore {
  import opened Wrappers
  import opened Trees
  import opened Names
  import opened Git
  import opened Migration
  import opened Merge
  import opened MigrationLimits

  datatype Descriptor = Descriptor(path: Path, deleted: seq<Path>)

  function SetOf(paths: seq<Path>): set<Path> {
    set p | p in paths
  }

  /** What a deletion list may take away. */
  function Doomed(deleted: set<Path>, refused: set<Path>): set<Path> {
    set p | p in deleted && p !in refused && !Forbidden(p, true)
  }

  /** Some leaves in `gone` are missing. */
  ghost predicate Trimmed(t: Tree, t2: Tree, gone: set<Path>) {
    && (forall q :: q in t2 ==> q in t && t2[q] == t[q])
    && (forall q :: q in t && !(q in gone && t[q] != Dir) ==> q in t2)
  }

  /** `path` refuses a name, for what it is or for where
      the links on the way lead; `refused` stands for the latter. */
  method RemoveDeleted(clone: Folder, deleted: seq<Path>, refused: set<Path>, power: Power) returns (cut: bool)
    requires WellFormed(clone.nodes)
    modifies clone, power
    ensures !cut ==> clone.nodes == Prune(old(clone.nodes), SetOf(deleted), refused)
    ensures Trimmed(old(clone.nodes), clone.nodes, Doomed(SetOf(deleted), refused))
    ensures old(power.left) == None ==> !cut && power.left == None
  {
    ghost var merged := clone.nodes;
    for i := 0 to |deleted|
      invariant clone.nodes == Prune(merged, SetOf(deleted[..i]), refused)
      invariant old(power.left) == None ==> power.left == None
    {
      var target := deleted[i];
      PruneMore(merged, deleted, i, refused);
      PruneTrims(merged, deleted, i, refused);
      if target !in refused && !Forbidden(target, true) {
        if target in clone.nodes && (clone.nodes[target].Link? || clone.nodes[target].File?) {
          cut := power.Fails();
          if cut {
            return;
          }
          clone.Remove(target);
        }
      }
    }
    assert deleted[..|deleted|] == deleted;
    PruneTrims(merged, deleted, |deleted|, refused);
    cut := false;
  }

  lemma PruneTrims(merged: Tree, deleted: seq<Path>, i: nat, refused: set<Path>)
    requires i <= |deleted|
    ensures Trimmed(merged, Prune(merged, SetOf(deleted[..i]), refused), Doomed(SetOf(deleted), refused))
  {
    hide Forbidden;
  }

  lemma PruneMore(merged: Tree, deleted: seq<Path>, i: nat, refused: set<Path>)
    requires WellFormed(merged) && i < |deleted|
    ensures var before := Prune(merged, SetOf(deleted[..i]), refused);
            var after := Prune(merged, SetOf(deleted[..i + 1]), refused);
            var target := deleted[i];
            after == if target !in refused && !Forbidden(target, true) && target in before
                        && (before[target].Link? || before[target].File?)
                     then Without(before, target) else before
  {
    var target := deleted[i];
    assert deleted[..i + 1] == deleted[..i] + [target];
    hide Forbidden;
    forall q | q in merged && Under(target, q) && q != target ensures merged[target] == Dir {
      assert q[..|target|] == target;
    }
  }

  predicate Replaceable(files: Tree, clone: Tree, root: Path) {
    && root + [".git"] in clone && clone[root + [".git"]] == Dir
    && (root in files ==> files[root] == Dir)
    && Reachable(files, root)
  }

  ghost function PutBack(files: Tree, clone: Tree, root: Path, deleted: set<Path>, refused: set<Path>): Tree {
    Without(files, root) + Prune(MergeInto(files, clone, root), deleted, refused)
  }

  /** Everything in `clone` is at `root`, below it, or a directory above it. */
  ghost predicate ClonedAt(clone: Tree, root: Path) {
    && WellFormed(clone) && root in clone && clone[root] == Dir
    && forall p :: p in clone ==> Under(root, p) || Under(p, root)
  }

  /** From `f` over `c`, a turn for `root` has come to `f2` over `c2`. Nothing is
      invented; leaves in `kept` are still in the files or in the clone; and what
      the files do not decide about the clone is as it was. */
  ghost predicate Midway(f: Tree, c: Tree, f2: Tree, c2: Tree, root: Path, kept: set<Path>, gone: set<Path>) {
    && (forall q :: q in f2 ==> (q in f && f2[q] == f[q]) || (q in Above(root) && f2[q] == Dir))
    && (forall q :: q in c2 ==> (q in c && c2[q] == c[q]) || (Under(root, q) && q in f && c2[q] == f[q]))
    && (forall q :: q in kept && LeafOf(f, q).Some? && q !in gone ==>
          LeafOf(f2, q) == LeafOf(f, q) || LeafOf(c2, q) == LeafOf(f, q))
    && (forall q :: q in c && !(Under(root, q) && (q in f || Blocked(f, q))) && !(q in gone && c[q] != Dir) ==>
          q in c2 && c2[q] == c[q])
    && ClonedAt(c2, root)
    && Standing(f2, root)
  }

  /** The staged directory itself can be missing, between two steps of the turn for
      a workspace that is one repository. */
  ghost predicate Standing(files: Tree, root: Path) {
    WellFormed(files) || (root == [] && files == map[])
  }

  lemma MergedMidway(f: Tree, c: Tree, f2: Tree, c2: Tree, root: Path, gone: set<Path>)
    requires Between(f, c, f2, c2, root, {}) && ClonedAt(c, root)
    requires WellFormed(f2) && WellFormed(c2) && root in c2 && c2[root] == Dir
    ensures Midway(f, c, f2, c2, root, f.Keys, gone)
  {
    forall q | q in c2 ensures Under(root, q) || Under(q, root) {}
  }

  lemma TrimmedMidway(f: Tree, c: Tree, f2: Tree, c2: Tree, c3: Tree, root: Path, gone: set<Path>)
    requires Midway(f, c, f2, c2, root, f.Keys, gone) && Trimmed(c2, c3, gone)
    ensures Midway(f, c, f2, c3, root, f.Keys, gone)
  {
    hide Blocked;
    forall q, k | q in c3 && 0 <= k < |q| ensures q[..k] in c3 && c3[q[..k]] == Dir {
      assert q in c2;
    }
    assert root in c3;
    forall q | LeafOf(f, q).Some? && q !in gone && LeafOf(c2, q) == LeafOf(f, q)
      ensures LeafOf(c3, q) == LeafOf(f, q)
    {}
  }

  /** The overlay is removed: everything in it has been moved. */
  lemma RemovedMidway(f: Tree, c: Tree, c2: Tree, root: Path, deleted: set<Path>, refused: set<Path>)
    requires Standing(f, root) && ClonedAt(c, root) && (root in f ==> f[root] == Dir)
    requires c2 == Prune(MergeInto(f, c, root), deleted, refused)
    ensures Midway(f, c, Without(f, root), c2, root, f.Keys, Doomed(deleted, refused))
  {
    PrunedAt(f, c, root, deleted, refused);
    RemovedStanding(f, root);
    MergedOnto(f, c, root);
    PruneOnly(MergeInto(f, c, root), deleted, refused);
    hide Prune, MergeInto, Standing, ClonedAt, Forbidden, Blocked, Doomed;
  }

  lemma RemovedStanding(f: Tree, root: Path)
    requires Standing(f, root)
    ensures Standing(Without(f, root), root)
  {
    if root != [] {
      WithoutWellFormed(f, root);
    } else {
      assert Without(f, root) == map[];
    }
  }

  lemma PruneOnly(t: Tree, deleted: set<Path>, refused: set<Path>)
    ensures Trimmed(t, Prune(t, deleted, refused), Doomed(deleted, refused))
  {
    hide Forbidden;
  }

  /** The merge, seen path by path. */
  lemma MergedOnto(f: Tree, c: Tree, root: Path)
    requires Standing(f, root)
    ensures var t := MergeInto(f, c, root);
            && (forall q :: q in t ==> (q in c && t[q] == c[q]) || (Under(root, q) && q in f && t[q] == f[q]))
            && (forall q :: q in f && Under(root, q) ==> q in t && t[q] == f[q])
            && (forall q :: q in c && !(Under(root, q) && (q in f || Blocked(f, q))) ==> q in t && t[q] == c[q])
  {
    hide Blocked;
    if root in f {
      forall q ensures Below({root}, q) <==> Under(root, q) {}
    } else {
      forall q | q in f ensures !Under(root, q) {
        assert |root| < |q| ==> q[..|root|] in f;
        assert |root| == |q| ==> q[..|root|] == q;
      }
    }
  }

  lemma PrunedAt(f: Tree, c: Tree, root: Path, deleted: set<Path>, refused: set<Path>)
    requires Standing(f, root) && ClonedAt(c, root) && (root in f ==> f[root] == Dir)
    ensures ClonedAt(Prune(MergeInto(f, c, root), deleted, refused), root)
  {
    if root in f {
      MergedWellFormed(f, c, root);
    }
    var merged := MergeInto(f, c, root);
    hide Forbidden;
    forall q | q in merged && merged[q] == Dir ensures q in Prune(merged, deleted, refused) {}
  }

  lemma ParentsMidway(f: Tree, c: Tree, f2: Tree, c2: Tree, root: Path, gone: set<Path>)
    requires Midway(f, c, f2, c2, root, f.Keys, gone) && Reachable(f2, root)
    ensures Midway(f, c, f2 + Above(root), c2, root, f.Keys, gone)
  {
    ParentsStanding(f2, root);
    hide Blocked, Reachable, Standing, ClonedAt, Above;
  }

  lemma ParentsStanding(f: Tree, root: Path)
    requires Standing(f, root) && Reachable(f, root)
    ensures Standing(f + Above(root), root)
    ensures forall q :: q in Above(root) ==> Above(root)[q] == Dir && (q in f ==> f[q] == Dir)
  {
    forall q | q in Above(root) && q in f ensures f[q] == Dir {
      var k :| 0 <= k <= |root| && root[..k] == q;
      assert k < |root|;
    }
    var t := f + Above(root);
    if WellFormed(f) {
      forall q, k | q in t && 0 <= k < |q| ensures q[..k] in t && t[q[..k]] == Dir {
        if q in Above(root) {
          var j :| 0 <= j <= |root| && root[..j] == q;
          assert q[..k] == root[..k];
        }
      }
      assert t[[]] == Dir;
    } else {
      assert Above(root) == map[];
    }
  }

  /** The clone has been moved; at most the directories above it are left. */
  ghost predicate Absent(clone: Tree, root: Path) {
    forall q :: q in clone ==> clone[q] == Dir && !Under(root, q)
  }

  lemma NothingAt(t: Tree, root: Path)
    requires ClonedAt(t, root)
    ensures Absent(Without(t, root), root)
  {
    forall q | q in t && !Under(root, q) ensures t[q] == Dir {
      assert root[..|q|] == q;
    }
  }

  lemma TurnFacts(f: Tree, c: Tree, root: Path)
    requires (Standing(f, root) && ClonedAt(c, root)) || Absent(c, root)
    requires root + [".git"] in c
    ensures Standing(f, root) && ClonedAt(c, root) && WellFormed(c) && root in c && c[root] == Dir
    ensures root in f ==> WellFormed(f)
    ensures Reachable(f, root) ==> Reachable(Without(f, root), root)
  {
    assert Under(root, root + [".git"]);
  }

  lemma SameMidway(f: Tree, c: Tree, root: Path, gone: set<Path>)
    requires ClonedAt(c, root) && Standing(f, root)
    ensures Midway(f, c, f, c, root, f.Keys, gone)
  {}

  /** After the merge, if there was anything to merge. */
  lemma MergeDone(f: Tree, c: Tree, root: Path)
    requires Standing(f, root) && ClonedAt(c, root) && (root in f ==> f[root] == Dir)
    ensures WellFormed(MergeInto(f, c, root))
    ensures MergeInto(f, c, root) == if root in f then Through(f, c, {root}) else c
  {
    if root in f {
      MergedWellFormed(f, c, root);
    }
  }

  /** One turn of the loop. `bare`: the state in which only the last rename is
      missing. A failure is an `OperationError`. */
  method RestoreRepo(files: Folder, clone: Folder, root: Path, deleted: seq<Path>, refused: set<Path>, power: Power)
    returns (outcome: Outcome, ghost bare: (Tree, Tree))
    requires files != clone
    requires (Standing(files.nodes, root) && ClonedAt(clone.nodes, root)) || Absent(clone.nodes, root)
    modifies files, clone, power
    ensures outcome == Failed <==> !Replaceable(old(files.nodes), old(clone.nodes), root)
    ensures outcome == Failed ==> files.nodes == old(files.nodes) && clone.nodes == old(clone.nodes)
    ensures outcome == Done ==>
              && files.nodes == PutBack(old(files.nodes), old(clone.nodes), root, SetOf(deleted), refused)
              && Absent(clone.nodes, root)
              && bare == (Without(old(files.nodes), root) + Above(root),
                          Prune(MergeInto(old(files.nodes), old(clone.nodes), root), SetOf(deleted), refused))
              && Midway(old(files.nodes), old(clone.nodes), bare.0, bare.1, root,
                        old(files.nodes).Keys, Doomed(SetOf(deleted), refused))
    ensures outcome == Cut ==>
              Midway(old(files.nodes), old(clone.nodes), files.nodes, clone.nodes, root,
                     old(files.nodes).Keys, Doomed(SetOf(deleted), refused))
    ensures old(power.left) == None ==> outcome != Cut && power.left == None
  {
    hide Midway, Forbidden, Between, Blocked, WellFormed, ClonedAt, Trimmed, Standing, Prune, MergeInto, Absent, Left,
         Through;
    bare := (map[], map[]);
    if root + [".git"] !in clone.nodes || clone.nodes[root + [".git"]] != Dir {
      return Failed, bare;
    }
    if root in files.nodes && files.nodes[root] != Dir {
      return Failed, bare;
    }
    if !Reachable(files.nodes, root) {
      return Failed, bare;
    }
    ghost var f, c, gone := files.nodes, clone.nodes, Doomed(SetOf(deleted), refused);
    TurnFacts(f, c, root);
    SameMidway(f, c, root, gone);
    if root in files.nodes {
      var cut := MergeTree(files, clone, root, power);
      MergedMidway(f, c, files.nodes, clone.nodes, root, gone);
      if cut {
        return Cut, bare;
      }
    }
    ghost var c1 := clone.nodes;
    LeftRemoved(f, c, root);
    MergeDone(f, c, root);
    var cut := RemoveDeleted(clone, deleted, refused, power);
    TrimmedMidway(f, c, files.nodes, c1, clone.nodes, root, gone);
    if cut {
      return Cut, bare;
    }
    cut := power.Fails();
    if cut {
      return Cut, bare;
    }
    files.Remove(root);
    RemovedMidway(f, c, clone.nodes, root, SetOf(deleted), refused);
    cut := power.Fails();
    if cut {
      return Cut, bare;
    }
    ParentsMidway(f, c, files.nodes, clone.nodes, root, gone);
    files.MakeParents(root);
    bare := (files.nodes, clone.nodes);
    cut := power.Fails();
    if cut {
      return Cut, bare;
    }
    PlaceWhole(f, c, root, SetOf(deleted), refused);
    PrunedAt(f, c, root, SetOf(deleted), refused);
    NothingAt(clone.nodes, root);
    clone.MoveTo(root, files);
    outcome := Done;
  }

  lemma MergedWellFormed(files: Tree, clone: Tree, root: Path)
    requires WellFormed(files) && ClonedAt(clone, root)
    requires root in files ==> files[root] == Dir
    ensures ClonedAt(MergeInto(files, clone, root), root)
  {
    if root in files {
      ThroughOneWellFormed(files, clone, root);
      assert Below({root}, root);
    }
  }

  /** What the merge leaves behind is inside what `rmtree` removes. */
  lemma LeftRemoved(files: Tree, clone: Tree, root: Path)
    ensures Without(Left(files, clone, {root}), root) == Without(files, root)
  {}

  lemma PlaceWhole(files: Tree, clone: Tree, root: Path, deleted: set<Path>, refused: set<Path>)
    requires Standing(files, root) && ClonedAt(clone, root) && Replaceable(files, clone, root)
    ensures var pruned := Prune(MergeInto(files, clone, root), deleted, refused);
            Without(files, root) + Above(root) + At(pruned, root) == PutBack(files, clone, root, deleted, refused)
  {}

  // ---- the whole loop ----

  ghost predicate DeepestFirst(repos: seq<Descriptor>) {
    forall i, j :: 0 <= i < j < |repos| ==> |repos[i].path| >= |repos[j].path|
  }

  function Insert(d: Descriptor, order: seq<Descriptor>): seq<Descriptor> {
    if order == [] || |d.path| >= |order[0].path| then [d] + order
    else [order[0]] + Insert(d, order[1..])
  }

  lemma {:induction false} InsertSorts(d: Descriptor, order: seq<Descriptor>)
    requires DeepestFirst(order)
    ensures multiset(Insert(d, order)) == multiset(order) + multiset{d}
    ensures DeepestFirst(Insert(d, order))
    ensures forall e :: e in Insert(d, order) <==> e == d || e in order
  {
    if order == [] || |d.path| >= |order[0].path| {
    } else {
      assert order == [order[0]] + order[1..];
      InsertSorts(d, order[1..]);
      var rest := Insert(d, order[1..]);
      forall i | 0 <= i < |rest| ensures |rest[i].path| <= |order[0].path| {
        assert rest[i] in rest;
        if rest[i] != d {
          var k :| 0 <= k < |order[1..]| && order[1..][k] == rest[i];
        }
      }
    }
  }

  /** Sorted by falling number of components. */
  function SortDeepest(repos: seq<Descriptor>): (order: seq<Descriptor>)
    ensures multiset(order) == multiset(repos)
    ensures DeepestFirst(order)
  {
    if repos == [] then []
    else
      assert repos == [repos[0]] + repos[1..];
      var rest := SortDeepest(repos[1..]);
      InsertSorts(repos[0], rest);
      Insert(repos[0], rest)
  }

  function PathsOf(repos: seq<Descriptor>): seq<Path> {
    seq(|repos|, i requires 0 <= i < |repos| => repos[i].path)
  }

  /** The order in which the repositories are put back. */
  function OrderOf(repos: seq<Descriptor>): seq<Path> {
    PathsOf(SortDeepest(repos))
  }

  /** The descriptors name every root once, in any order. */
  ghost predicate NamesEach(roots: set<Path>, repos: seq<Descriptor>) {
    && (forall d :: d in repos ==> d.path in roots)
    && (forall r :: r in roots ==> exists d :: d in repos && d.path == r)
    && (forall d :: d in repos ==> multiset(repos)[d] == 1)
    && (forall d, e :: d in repos && e in repos && d.path == e.path ==> d == e)
  }

  ghost predicate Describes(src: Source, repos: seq<Descriptor>) {
    && NamesEach(Described(src), repos)
    && forall d :: d in repos && d.path in src.repos ==> SetOf(d.deleted) == Deleted(src.disk, src.repos[d.path])
  }

  lemma SameMembers(repos: seq<Descriptor>, order: seq<Descriptor>)
    requires multiset(order) == multiset(repos)
    ensures forall d :: d in order <==> d in repos
  {
    forall d ensures d in order <==> d in repos {
      assert d in multiset(order) <==> d in multiset(repos);
    }
  }

  lemma SortedOrder(roots: set<Path>, repos: seq<Descriptor>)
    requires NamesEach(roots, repos)
    ensures Ordered(roots, PathsOf(SortDeepest(repos)))
  {
    var order := SortDeepest(repos);
    SameMembers(repos, order);
    forall i, j | 0 <= i < j < |order| ensures order[i].path != order[j].path {
      if order[i] == order[j] {
        Twice(order, i, j);
      }
      assert order[i] in order && order[j] in order;
    }
    OrderedPaths(roots, order);
  }

  lemma OrderedPaths(roots: set<Path>, order: seq<Descriptor>)
    requires DeepestFirst(order)
    requires forall d :: d in order ==> d.path in roots
    requires forall r :: r in roots ==> exists d :: d in order && d.path == r
    requires forall i, j :: 0 <= i < j < |order| ==> order[i].path != order[j].path
    ensures Ordered(roots, PathsOf(order))
  {
    var paths := PathsOf(order);
    forall r | r in roots ensures r in paths {
      var d :| d in order && d.path == r;
      var i :| 0 <= i < |order| && order[i] == d;
      assert paths[i] == r;
    }
    forall r | r in paths ensures r in roots {
      var i :| 0 <= i < |paths| && paths[i] == r;
      assert order[i] in order;
    }
  }

  lemma Twice(order: seq<Descriptor>, i: nat, j: nat)
    requires i < j < |order| && order[i] == order[j]
    ensures multiset(order)[order[i]] >= 2
  {
    var a, b := order[..j], order[j..];
    assert order == a + b;
    assert a[i] == order[i] && b[0] == order[i];
    assert order[i] in multiset(a) && order[i] in multiset(b);
  }

  ghost predicate Cloned(src: Source, clones: map<Path, Folder>, rest: set<Path>)
    reads clones.Values
  {
    && rest <= clones.Keys && rest <= src.repos.Keys
    && forall r :: r in rest ==> clones[r].nodes == Clone(r, src.repos[r])
  }

  ghost predicate Separate(files: Folder, clones: map<Path, Folder>) {
    && files !in clones.Values
    && forall r, q :: r in clones && q in clones && r != q ==> clones[r] != clones[q]
  }

  /** When the loop turns to `order[i]`, nothing stands in its clone's way. */
  lemma TurnReady(src: Source, order: seq<Path>, i: nat, refused: set<Path>, files: Tree)
    requires Valid(src) && Ordered(Described(src), order) && i < |order|
    requires forall r :: r in order ==> r in src.repos
    requires files == Restored(src, order, i, refused)
    ensures order[i] in Described(src) && order[i] in src.repos
    ensures order[i] !in Firsts(order, i) && Firsts(order, i + 1) == Firsts(order, i) + {order[i]}
    ensures WellFormed(files)
    ensures var root := order[i];
            var clone := Clone(root, src.repos[root]);
            && ClonedAt(clone, root) && Replaceable(files, clone, root)
            && Restored(src, order, i + 1, refused)
               == PutBack(files, clone, root, Deleted(src.disk, src.repos[root]), refused)
  {
    hide Valid, Described, Origin, Ordered, Clear, Clone;
    var root := order[i];
    assert root in order;
    OrderTurn(Described(src), order, i);
    RestoredOrigin(src, order, i, refused);
    CloneReady(src, root);
    ClearReplaceable(files, Clone(root, src.repos[root]), root);
  }

  lemma NoGitInHead(disk: Tree, root: Path, repo: Repo, dir: Path)
    requires Coherent(disk, root, repo) && Under(root, dir) && dir != root && dir[|root|] == ".git"
    ensures dir !in repo.head
  {}

  lemma CloneReady(src: Source, root: Path)
    requires Valid(src) && root in src.repos
    ensures var clone := Clone(root, src.repos[root]);
            ClonedAt(clone, root) && root + [".git"] in clone && clone[root + [".git"]] == Dir
  {
    CloneTree(src, root);
    var clone, dir := Clone(root, src.repos[root]), root + [".git"];
    assert dir[..|dir|] == dir && dir in Prefixes(dir);
    assert LeafOf(clone, root) == None;
    NoGitInHead(src.disk, root, src.repos[root], dir);
    assert LeafOf(clone, dir) == None;
  }

  lemma ClearReplaceable(files: Tree, clone: Tree, root: Path)
    requires Clear(files, root)
    requires root + [".git"] in clone && clone[root + [".git"]] == Dir
    ensures WellFormed(files) && Replaceable(files, clone, root)
  {
    assert root[..|root|] == root;
  }

  lemma Prepared(src: Source, repos: seq<Descriptor>, order: seq<Path>, refused: set<Path>)
    requires Valid(src) && Describes(src, repos) && order == OrderOf(repos)
    ensures var sorted := SortDeepest(repos);
            && Ordered(Described(src), order)
            && (forall r :: r in order ==> r in src.repos)
            && Restored(src, order, 0, refused) == Staged(Manifest(src))
            && Firsts(order, 0) == {}
            && |order| == |sorted|
            && forall i :: 0 <= i < |sorted| ==>
                 order[i] == sorted[i].path && SetOf(sorted[i].deleted) == Deleted(src.disk, src.repos[order[i]])
  {
    hide Valid, Open, Staged, Manifest;
    var sorted := SortDeepest(repos);
    SortedOrder(Described(src), repos);
    SameMembers(repos, sorted);
    forall i | 0 <= i < |sorted|
      ensures order[i] == sorted[i].path && order[i] in src.repos
      ensures SetOf(sorted[i].deleted) == Deleted(src.disk, src.repos[order[i]])
    {
      assert sorted[i] in sorted;
    }
  }
}
