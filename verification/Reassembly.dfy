/** `restore_repos` as a whole, cut off anywhere and tried again. */
module Reassembly {
  import opened Wrappers
  import opened Trees
  import opened Names
  import opened Git
  import opened Merge
  import opened Migration
  import opened MigrationLimits
  import opened Restore

  /** Manifest entries that some deletion list takes away again. */
  function Exempt(src: Source, refused: set<Path>): set<Path> {
    set r, p | r in Described(src) && p in Deleted(src.disk, src.repos[r]) && p !in refused && !Forbidden(p, true) :: p
  }

  /** The paths of the files that the manifest lists; its links are made anew at
      the start of each try. */
  function FilePaths(src: Source): set<Path> {
    set p | p in Manifest(src) && Manifest(src)[p].File?
  }

  function GoneAt(src: Source, root: Path, refused: set<Path>): set<Path>
    requires root in src.repos
  {
    Doomed(Deleted(src.disk, src.repos[root]), refused)
  }

  /** A clone as it was made, or none. */
  ghost predicate Made(src: Source, r: Path, c: Tree)
    requires r in src.repos
  {
    c == Clone(r, src.repos[r]) || Absent(c, r)
  }

  /** No repository has been put back, though the first may be in the middle of it. */
  ghost predicate Opening(src: Source, order: seq<Path>, refused: set<Path>, f: Tree, cs: map<Path, Tree>)
    requires forall r :: r in order ==> r in src.repos && r in cs
  {
    var staged := Staged(Manifest(src));
    && (forall i :: 1 <= i < |order| ==> Made(src, order[i], cs[order[i]]))
    && if order == [] || Absent(cs[order[0]], order[0]) then
         && WellFormed(f) && PartOf(f, staged)
         && forall p :: p in FilePaths(src) ==> LeafOf(f, p) == Some(Manifest(src)[p])
       else
         var r := order[0];
         Midway(staged, Clone(r, src.repos[r]), f, cs[r], r, FilePaths(src), GoneAt(src, r, refused))
  }

  /** All that the manifest lists is staged. */
  ghost predicate Ready(src: Source, f: Tree) {
    forall p :: p in Manifest(src) ==> LeafOf(f, p) == Some(Manifest(src)[p])
  }

  /** The first clone is not there: it was never made, or it has been put back. */
  ghost predicate Stuck(order: seq<Path>, cs: map<Path, Tree>)
    requires forall r :: r in order ==> r in cs
  {
    order != [] && Absent(cs[order[0]], order[0])
  }

  /** A leaf of the manifest is in the files or in a clone. */
  ghost predicate Somewhere(src: Source, order: seq<Path>, f: Tree, cs: map<Path, Tree>, p: Path)
    requires p in Manifest(src) && forall r :: r in order ==> r in cs
  {
    LeafOf(f, p) == Some(Manifest(src)[p]) || exists r :: r in order && LeafOf(cs[r], p) == Some(Manifest(src)[p])
  }

  ghost predicate AllPresent(order: seq<Path>, cs: map<Path, Tree>)
    requires forall r :: r in order ==> r in cs
  {
    forall r :: r in order ==> !Absent(cs[r], r)
  }

  ghost predicate AllPlaced(order: seq<Path>, cs: map<Path, Tree>)
    requires forall r :: r in order ==> r in cs
  {
    forall r :: r in order ==> Absent(cs[r], r)
  }

  /** Each repository has its `.git` among the files. */
  ghost predicate AllGit(order: seq<Path>, f: Tree) {
    forall r :: r in order ==> r + [".git"] in f
  }

  /** What is not doomed is in the files or in a clone; a repository's `.git` is not
      among the files before its turn; and once they all are, everything is. */
  ghost predicate PartlyPlaced(src: Source, order: seq<Path>, refused: set<Path>, f: Tree, cs: map<Path, Tree>)
    requires Ordered(Described(src), order) && forall r :: r in order ==> r in src.repos && r in cs
  {
    && Stuck(order, cs)
    && (WellFormed(f) || f == map[])
    && (forall p :: p in Manifest(src) && p !in Exempt(src, refused) ==> Somewhere(src, order, f, cs, p))
    && (forall r :: r in order && !Absent(cs[r], r) ==> r + [".git"] !in f)
    && (AllGit(order, f) ==> PartOf(Arrival(src, order, refused), f))
  }

  /** What holds of the stage between any two operations on the disk. */
  ghost predicate Held(src: Source, order: seq<Path>, refused: set<Path>, f: Tree, cs: map<Path, Tree>)
    requires Ordered(Described(src), order) && forall r :: r in order ==> r in src.repos && r in cs
  {
    Opening(src, order, refused, f, cs) || PartlyPlaced(src, order, refused, f, cs)
  }

  // ---- the `.git` of a repository arrives with its clone ----

  lemma GitSkipped(src: Source, r: Path, q: Path)
    requires r in src.repos && Under(r + [".git"], q)
    ensures !Open(src, q)
  {
    var dir := r + [".git"];
    assert q[..|dir|] == dir && dir[..|dir| - 1] == r;
    assert Skipped(src, q[..|dir|]);
  }

  lemma GitNotStaged(src: Source, r: Path)
    requires r in src.repos
    ensures r + [".git"] !in Staged(Manifest(src))
  {
    var dir := r + [".git"];
    forall p | p in Manifest(src) ensures !Under(dir, p) {
      if Under(dir, p) {
        GitSkipped(src, r, p);
      }
    }
  }

  lemma GitNotAbove(src: Source, r: Path, d: Path)
    requires r in src.repos && d in Described(src)
    ensures !Under(r + [".git"], d) && r + [".git"] !in Prefixes(d)
  {
    if Under(r + [".git"], d) {
      GitSkipped(src, r, d);
    }
  }

  /** Before its turn, a repository's `.git` is not among the files. */
  lemma GitAway(src: Source, order: seq<Path>, i: nat, k: nat, refused: set<Path>)
    requires Valid(src) && Ordered(Described(src), order) && i <= k < |order|
    requires forall r :: r in order ==> r in src.repos
    ensures order[k] + [".git"] !in Restored(src, order, i, refused)
  {
    var r := order[k];
    var dir := r + [".git"];
    assert r in order;
    RestoredOrigin(src, order, i, refused);
    forall m | m in Manifest(src) ensures !Under(dir, m) {
      if Under(dir, m) {
        GitSkipped(src, r, m);
      }
    }
    forall d | d in Firsts(order, i)
      ensures !Under(dir, d + [".git"]) && forall h :: h in src.repos[d].head ==> !Under(dir, h)
    {
      var j :| 0 <= j < i && order[j] == d;
      GitElsewhere(src, r, d);
    }
  }

  lemma GitElsewhere(src: Source, r: Path, d: Path)
    requires Valid(src) && r in src.repos && d in Described(src) && d != r && |d| >= |r|
    ensures !Under(r + [".git"], d + [".git"])
    ensures forall h :: h in src.repos[d].head ==> !Under(r + [".git"], h)
  {
    var dir, at := r + [".git"], d + [".git"];
    GitNotAbove(src, r, d);
    assert dir[..|r|] == r && at[..|d|] == d && Under(d, at);
    OnlyThere(r, d, at);
    forall h | h in src.repos[d].head ensures !Under(dir, h) {
      assert Coherent(src.disk, d, src.repos[d]);
      OnlyThere(r, d, h);
    }
  }

  lemma OnlyThere(r: Path, d: Path, h: Path)
    requires Under(d, h) && |d| >= |r| && d != r && !Under(r + [".git"], d)
    ensures !Under(r + [".git"], h)
  {
    if Under(r + [".git"], h) {
      SameOrAbove(r, d, h);
    }
  }

  lemma SameOrAbove(r: Path, d: Path, h: Path)
    requires Under(r + [".git"], h) && Under(d, h) && |d| >= |r|
    ensures d == r || Under(r + [".git"], d)
  {
    var dir := r + [".git"];
    if |d| == |r| {
      assert d == h[..|r|] == h[..|dir|][..|r|] == r;
    } else {
      assert d[..|dir|] == h[..|d|][..|dir|] == h[..|dir|] == dir;
    }
  }

  // ---- what arrives stays ----

  /** A leaf that is not doomed, and every directory, survives a turn. */
  lemma TurnKeeps(src: Source, files: Tree, root: Path, refused: set<Path>, q: Path)
    requires Valid(src) && root in src.repos && Clear(files, root) && q in files
    requires files[q] != Dir ==> q !in GoneAt(src, root, refused)
    ensures var t := RestoreOne(src, files, root, refused); q in t && t[q] == files[q]
  {
    PrunedShape(src, files, root, refused);
    MergedOnto(files, Clone(root, src.repos[root]), root);
    var pruned := Pruned(src, files, root, refused);
    hide Forbidden;
    if !Under(root, q) && q in pruned {
      assert root[..|q|] == q;
    }
  }

  lemma {:induction false} LeafStays(src: Source, order: seq<Path>, i: nat, refused: set<Path>, p: Path)
    requires Valid(src) && Ordered(Described(src), order) && i <= |order|
    requires forall r :: r in order ==> r in src.repos
    requires p in Manifest(src) && p !in Exempt(src, refused)
    ensures LeafOf(Restored(src, order, i, refused), p) == Some(Manifest(src)[p])
  {
    hide Valid, Described, Ordered, RestoreOne, Clear, Exempt;
    if i == 0 {
      StagedLeaf(src, p);
    } else {
      LeafStays(src, order, i - 1, refused, p);
      RestoredOrigin(src, order, i - 1, refused);
      assert order[i - 1] in order;
      NotDoomed(src, order, i - 1, refused, p);
      TurnKeeps(src, Restored(src, order, i - 1, refused), order[i - 1], refused, p);
    }
  }

  lemma StagedLeaf(src: Source, p: Path)
    requires Valid(src) && p in Manifest(src)
    ensures LeafOf(Staged(Manifest(src)), p) == Some(Manifest(src)[p])
  {
    ManifestPrefixFree(src);
    StagedWellFormed(Manifest(src));
  }

  lemma NotDoomed(src: Source, order: seq<Path>, i: nat, refused: set<Path>, p: Path)
    requires Ordered(Described(src), order) && i < |order| && order[i] in src.repos
    requires p !in Exempt(src, refused)
    ensures p !in GoneAt(src, order[i], refused)
  {
    hide Forbidden, Described;
    assert order[i] in order;
  }

  lemma {:induction false} GitStays(src: Source, order: seq<Path>, k: nat, i: nat, refused: set<Path>)
    requires Valid(src) && Ordered(Described(src), order) && k < i <= |order|
    requires forall r :: r in order ==> r in src.repos
    ensures var t := Restored(src, order, i, refused); order[k] + [".git"] in t && t[order[k] + [".git"]] == Dir
    decreases i
  {
    hide Valid, Described, Ordered, RestoreOne, Clear;
    assert order[i - 1] in order;
    RestoredOrigin(src, order, i - 1, refused);
    if i == k + 1 {
      GitPlaced(src, order, k, refused);
    } else {
      GitStays(src, order, k, i - 1, refused);
      TurnKeeps(src, Restored(src, order, i - 1, refused), order[i - 1], refused, order[k] + [".git"]);
    }
  }

  lemma GitPlaced(src: Source, order: seq<Path>, k: nat, refused: set<Path>)
    requires Valid(src) && Ordered(Described(src), order) && k < |order|
    requires forall r :: r in order ==> r in src.repos
    ensures var t := Restored(src, order, k + 1, refused); order[k] + [".git"] in t && t[order[k] + [".git"]] == Dir
  {
    hide Valid, Described, Ordered, Clear;
    var files, root := Restored(src, order, k, refused), order[k];
    assert root in order;
    TurnReady(src, order, k, refused, files);
    GitAway(src, order, k, k, refused);
    var dir := root + [".git"];
    assert dir[..|root|] == root;
    GitFree(files, root);
    MergedOnto(files, Clone(root, src.repos[root]), root);
    hide Clone, MergeInto, Forbidden, Replaceable;
  }

  lemma GitFree(files: Tree, root: Path)
    requires root in files ==> files[root] == Dir
    requires Reachable(files, root)
    ensures !Blocked(files, root + [".git"])
  {
    var dir := root + [".git"];
    forall k | 0 <= k < |dir| ensures dir[..k] in files ==> files[dir[..k]] == Dir {
      assert dir[..k] == root[..k];
      assert k == |root| ==> root[..k] == root;
    }
  }

  // ---- taking up the first turn again ----

  lemma MergeExactly(f: Tree, c: Tree, root: Path)
    requires Standing(f, root) && Reachable(f, root) && (root in f ==> f[root] == Dir)
    ensures var t := MergeInto(f, c, root);
            forall q :: q in t <==>
              (Under(root, q) && q in f) || (q in c && !(Under(root, q) && (q in f || Blocked(f, q))))
  {
    MergedOnto(f, c, root);
    if root in f {
      forall q ensures Below({root}, q) <==> Under(root, q) {}
    } else {
      forall q | Under(root, q) ensures q !in f && !Blocked(f, q) {
        NotBelow(f, root, q);
      }
    }
  }

  lemma NotBelow(f: Tree, root: Path, q: Path)
    requires Standing(f, root) && Reachable(f, root) && root !in f && Under(root, q)
    ensures q !in f && !Blocked(f, q)
  {
    forall k | 0 <= k <= |q| ensures if k < |root| then q[..k] == root[..k] else q[..k][..|root|] == root {}
    assert q[..|q|] == q;
  }

  /** The files at and below the root are all there, or there was nothing. */
  ghost predicate AllBack(s: Tree, f: Tree, root: Path) {
    PartOf(s, f) || (root == [] && f == map[] && s == map[[] := Dir])
  }

  ghost predicate NoSpecial(t: Tree) {
    forall q :: q in t ==> !t[q].Special?
  }

  lemma SameBelow(s: Tree, c: Tree, f: Tree, c2: Tree, root: Path, kept: set<Path>, gone: set<Path>)
    requires WellFormed(s) && Clear(s, root) && AllBack(s, f, root)
    requires Midway(s, c, f, c2, root, kept, gone)
    ensures Standing(f, root) && Reachable(f, root) && (root in f ==> f[root] == Dir)
    ensures forall q :: Under(root, q) && q != [] ==> (q in f <==> q in s) && (q in s ==> f[q] == s[q])
    ensures forall q :: Under(root, q) ==> (Blocked(f, q) <==> Blocked(s, q))
  {
    assert root[..|root|] == root;
    forall q | q in f && Under(root, q) ensures q in s && f[q] == s[q] {
      assert q !in Above(root);
    }
    forall k | 0 <= k < |root| && root[..k] in f ensures f[root[..k]] == Dir {}
    forall q, k | Under(root, q) && 0 <= k < |q| && q[..k] in f + s
      ensures (q[..k] in f && f[q[..k]] != Dir) <==> (q[..k] in s && s[q[..k]] != Dir)
    {
      if k < |root| {
        assert q[..k] == root[..k];
      } else {
        assert q[..k][..|root|] == root;
      }
    }
    forall q | Under(root, q) ensures Blocked(f, q) <==> Blocked(s, q) {
      if Blocked(f, q) {
        var k :| 0 <= k < |q| && q[..k] in f && f[q[..k]] != Dir;
        assert q[..k] in f + s;
      }
      if Blocked(s, q) {
        var k :| 0 <= k < |q| && q[..k] in s && s[q[..k]] != Dir;
        assert q[..k] in f + s;
      }
    }
  }

  /** With all that was staged still there, the first turn comes out the same,
      whatever an earlier try had already done in it. */
  lemma Resumed(s: Tree, c: Tree, f: Tree, c2: Tree, root: Path, kept: set<Path>, deleted: set<Path>,
                refused: set<Path>)
    requires WellFormed(s) && Clear(s, root) && ClonedAt(c, root) && NoSpecial(c)
    requires Midway(s, c, f, c2, root, kept, Doomed(deleted, refused)) && AllBack(s, f, root)
    ensures PutBack(f, c2, root, deleted, refused) == PutBack(s, c, root, deleted, refused)
  {
    ResumedClone(s, c, f, c2, root, kept, deleted, refused);
    PrunedAt(s, c, root, deleted, refused);
    hide MergeInto, Clear, Prune, Blocked;
    SameAround(s, f, Prune(MergeInto(s, c, root), deleted, refused), root);
  }

  /** The clone brings the directories above it. */
  lemma SameAround(s: Tree, f: Tree, clone: Tree, root: Path)
    requires ClonedAt(clone, root)
    requires forall q :: q in f && !Under(root, q) ==> (q in s && f[q] == s[q]) || q in Above(root)
    requires forall q :: q in s && !Under(root, q) ==> q in f || q in Above(root)
    ensures Without(f, root) + clone == Without(s, root) + clone
  {
    forall q | q in Above(root) ensures q in clone {
      var k :| 0 <= k <= |root| && root[..k] == q;
    }
  }

  lemma ResumedClone(s: Tree, c: Tree, f: Tree, c2: Tree, root: Path, kept: set<Path>, deleted: set<Path>,
                     refused: set<Path>)
    requires WellFormed(s) && Clear(s, root) && ClonedAt(c, root) && NoSpecial(c)
    requires Midway(s, c, f, c2, root, kept, Doomed(deleted, refused)) && AllBack(s, f, root)
    ensures Prune(MergeInto(f, c2, root), deleted, refused) == Prune(MergeInto(s, c, root), deleted, refused)
  {
    hide *;
    var gone := Doomed(deleted, refused);
    var a, b := MergeInto(f, c2, root), MergeInto(s, c, root);
    forall q ensures Alike(a, b, gone, q) {
      ResumedAt(s, c, f, c2, root, kept, gone, q);
    }
    AlikePruned(a, b, deleted, refused);
  }

  lemma AlikePruned(a: Tree, b: Tree, deleted: set<Path>, refused: set<Path>)
    requires forall q :: Alike(a, b, Doomed(deleted, refused), q)
    ensures Prune(a, deleted, refused) == Prune(b, deleted, refused)
  {
    forall q | q in a ensures q in b && a[q] == b[q] {
      assert Alike(a, b, Doomed(deleted, refused), q);
    }
    forall q | q in b && q !in a ensures q in Doomed(deleted, refused) && (b[q].File? || b[q].Link?) {
      assert Alike(a, b, Doomed(deleted, refused), q);
    }
    hide Forbidden, Alike;
  }

  ghost predicate Alike(a: Tree, b: Tree, gone: set<Path>, q: Path) {
    && (q in a ==> q in b && a[q] == b[q])
    && (q in b && !(q in gone && b[q] != Dir && !b[q].Special?) ==> q in a)
  }

  lemma ResumedAt(s: Tree, c: Tree, f: Tree, c2: Tree, root: Path, kept: set<Path>, gone: set<Path>, q: Path)
    requires WellFormed(s) && Clear(s, root) && ClonedAt(c, root) && NoSpecial(c)
    requires Midway(s, c, f, c2, root, kept, gone) && AllBack(s, f, root)
    ensures Alike(MergeInto(f, c2, root), MergeInto(s, c, root), gone, q)
  {
    SameBelow(s, c, f, c2, root, kept, gone);
    assert Standing(s, root) && Reachable(s, root) && (root in s ==> s[root] == Dir) by {
      assert root[..|root|] == root;
    }
    assert c2[root] == Dir && c[root] == Dir && s[[]] == Dir;
    hide Reachable, Clear, AllBack;
    MergeExactly(f, c2, root);
    MergeExactly(s, c, root);
    MergedOnto(f, c2, root);
    MergedOnto(s, c, root);
    hide Blocked, MergeInto, Standing, ClonedAt;
    if Under(root, q) && q != [] {
      assert Blocked(f, q) <==> Blocked(s, q);
    }
  }

  // ---- the loop ----

  function TreesOf(clones: map<Path, Folder>): (trees: map<Path, Tree>)
    reads clones.Values
    ensures trees.Keys == clones.Keys
  {
    map r | r in clones :: clones[r].nodes
  }

  lemma ReadyAll(src: Source, f: Tree, root: Path)
    requires Valid(src) && Ready(src, f) && Standing(f, root)
    ensures AllBack(Staged(Manifest(src)), f, root)
  {
    var m := Manifest(src);
    ManifestPrefixFree(src);
    if WellFormed(f) {
      StagedAll(m, f);
    } else {
      assert forall p :: p in m ==> p in f;
      assert m == map[];
      assert Staged(map[]) == map[[] := Dir];
    }
  }

  lemma StagedClear(src: Source, order: seq<Path>, refused: set<Path>)
    requires Valid(src) && Ordered(Described(src), order) && order != []
    requires forall r :: r in order ==> r in src.repos
    ensures WellFormed(Staged(Manifest(src))) && Clear(Staged(Manifest(src)), order[0])
  {
    RestoredOrigin(src, order, 0, refused);
    hide Valid, Described, Clear, WellFormed, Origin;
  }

  lemma CloneLeaves(src: Source, root: Path)
    requires Valid(src) && root in src.repos
    ensures NoSpecial(Clone(root, src.repos[root])) && ClonedAt(Clone(root, src.repos[root]), root)
    ensures root + [".git"] in Clone(root, src.repos[root]) && Clone(root, src.repos[root])[root + [".git"]] == Dir
  {
    CloneReady(src, root);
    CloneTree(src, root);
    var c := Clone(root, src.repos[root]);
    forall q | q in c ensures !c[q].Special? {
      assert c[q] != Dir ==> LeafOf(c, q) == Some(c[q]);
      assert Coherent(src.disk, root, src.repos[root]);
    }
  }

  /** The first turn, from wherever earlier tries have left it. */
  lemma FirstTurn(src: Source, order: seq<Path>, refused: set<Path>, f: Tree, cs: map<Path, Tree>)
    requires Valid(src) && Ordered(Described(src), order) && order != []
    requires forall r :: r in order ==> r in src.repos && r in cs
    requires Opening(src, order, refused, f, cs) && Ready(src, f) && !Stuck(order, cs)
    ensures var r := order[0];
            && Standing(f, r) && ClonedAt(cs[r], r) && Replaceable(f, cs[r], r)
            && PutBack(f, cs[r], r, Deleted(src.disk, src.repos[r]), refused) == Restored(src, order, 1, refused)
  {
    var r, s := order[0], Staged(Manifest(src));
    var c := Clone(r, src.repos[r]);
    assert r in order;
    StagedClear(src, order, refused);
    CloneLeaves(src, r);
    ReadyAll(src, f, r);
    SameBelow(s, c, f, cs[r], r, FilePaths(src), GoneAt(src, r, refused));
    Resumed(s, c, f, cs[r], r, FilePaths(src), Deleted(src.disk, src.repos[r]), refused);
    GitNotStaged(src, r);
    assert Reachable(s, r) && (r in s ==> s[r] == Dir) by {
      assert r[..|r|] == r;
    }
    GitFree(s, r);
    assert r + [".git"] !in f by {
      GitNotAbove(src, r, r);
    }
    hide Valid, Described, Ordered, Clone, Clear, Staged, Deleted, Forbidden, FilePaths, PutBack, Ready, Blocked;
    assert Restored(src, order, 0, refused) == s;
  }

  /** Cut off in the first turn: still at the opening. */
  lemma FirstCut(src: Source, order: seq<Path>, refused: set<Path>, f: Tree, cs: map<Path, Tree>,
                 f2: Tree, cs2: map<Path, Tree>)
    requires Valid(src) && Ordered(Described(src), order) && order != []
    requires forall r :: r in order ==> r in src.repos && r in cs && r in cs2
    requires Opening(src, order, refused, f, cs) && Ready(src, f) && !Stuck(order, cs)
    requires Midway(f, cs[order[0]], f2, cs2[order[0]], order[0], f.Keys, GoneAt(src, order[0], refused))
    requires forall i :: 1 <= i < |order| ==> cs2[order[i]] == cs[order[i]]
    ensures Opening(src, order, refused, f2, cs2)
  {
    var r, s := order[0], Staged(Manifest(src));
    assert r in order;
    StagedClear(src, order, refused);
    ReadyAll(src, f, r);
    SameBelow(s, Clone(r, src.repos[r]), f, cs[r], r, FilePaths(src), GoneAt(src, r, refused));
    forall p | p in FilePaths(src)
      ensures LeafOf(f, p) == Some(Manifest(src)[p]) && LeafOf(s, p) == Some(Manifest(src)[p])
    {
      StagedLeaf(src, p);
    }
    hide Valid, Described, Ordered, Clone, Clear, Staged, Ready, Doomed, Deleted, ClonedAt, Standing, Blocked,
         Manifest, FilePaths;
    MidwayTwice(s, Clone(r, src.repos[r]), f, cs[r], f2, cs2[r], r, FilePaths(src), GoneAt(src, r, refused));
  }

  lemma MidwayTwice(s: Tree, c: Tree, f: Tree, c1: Tree, f2: Tree, c2: Tree, root: Path, kept: set<Path>,
                    gone: set<Path>)
    requires Midway(s, c, f, c1, root, kept, gone) && Midway(f, c1, f2, c2, root, f.Keys, gone)
    requires AllBack(s, f, root)
    requires forall q :: Under(root, q) && q != [] ==> (q in f <==> q in s) && (q in s ==> f[q] == s[q])
    requires forall q :: Under(root, q) ==> (Blocked(f, q) <==> Blocked(s, q))
    requires forall q :: q in kept ==> LeafOf(f, q).Some? && LeafOf(f, q) == LeafOf(s, q)
    ensures Midway(s, c, f2, c2, root, kept, gone)
  {
    hide Blocked, ClonedAt, Standing, WellFormed;
  }

  /** Cut off in a later turn. */
  ghost predicate InTurn(src: Source, order: seq<Path>, refused: set<Path>, k: nat, f: Tree, cs: map<Path, Tree>)
    requires k < |order| && forall r :: r in order ==> r in src.repos && r in cs
  {
    var files, root := Restored(src, order, k, refused), order[k];
    Midway(files, Clone(root, src.repos[root]), f, cs[root], root, files.Keys, GoneAt(src, root, refused))
  }

  lemma LaterLeaf(src: Source, order: seq<Path>, refused: set<Path>, k: nat, f: Tree, cs: map<Path, Tree>, p: Path)
    requires Valid(src) && Ordered(Described(src), order) && k < |order|
    requires forall r :: r in order ==> r in src.repos && r in cs
    requires InTurn(src, order, refused, k, f, cs) && p in Manifest(src) && p !in Exempt(src, refused)
    ensures Somewhere(src, order, f, cs, p)
  {
    hide Valid, Ordered, Described, Midway, Exempt, GoneAt, Restored, Manifest, Clone;
    var files, root := Restored(src, order, k, refused), order[k];
    assert root in order;
    LeafStays(src, order, k, refused, p);
    NotDoomed(src, order, k, refused, p);
    LeafMidway(files, Clone(root, src.repos[root]), f, cs[root], root, GoneAt(src, root, refused), p);
  }

  lemma LaterGit(src: Source, order: seq<Path>, refused: set<Path>, k: nat, f: Tree, cs: map<Path, Tree>, j: nat)
    requires Valid(src) && Ordered(Described(src), order) && k <= j < |order|
    requires forall r :: r in order ==> r in src.repos && r in cs
    requires InTurn(src, order, refused, k, f, cs)
    ensures order[j] + [".git"] !in f && !Absent(cs[order[k]], order[k])
  {
    assert order[k] in Described(src) && order[j] in order by {
      assert order[k] in order;
    }
    hide Valid, Ordered, Described, Midway, GoneAt, Restored, Clone, Absent;
    var files, root := Restored(src, order, k, refused), order[k];
    GitAway(src, order, k, j, refused);
    GitNotAbove(src, order[j], root);
    OnlyAbove(files, Clone(root, src.repos[root]), f, cs[root], root, GoneAt(src, root, refused), order[j] + [".git"]);
  }

  lemma LaterCut(src: Source, order: seq<Path>, refused: set<Path>, k: nat, f: Tree, cs: map<Path, Tree>)
    requires Valid(src) && Ordered(Described(src), order) && 1 <= k < |order|
    requires forall r :: r in order ==> r in src.repos && r in cs
    requires forall j :: 0 <= j < k ==> Absent(cs[order[j]], order[j])
    requires InTurn(src, order, refused, k, f, cs)
    ensures PartlyPlaced(src, order, refused, f, cs)
  {
    hide *;
    LaterStanding(src, order, refused, k, f, cs);
    LaterGits(src, order, refused, k, f, cs);
    LaterLeaves(src, order, refused, k, f, cs);
    NotYetAll(src, order, refused, f, cs);
  }

  lemma NotYetAll(src: Source, order: seq<Path>, refused: set<Path>, f: Tree, cs: map<Path, Tree>)
    requires Ordered(Described(src), order) && order != []
    requires forall r :: r in order ==> r in src.repos && r in cs
    requires Absent(cs[order[0]], order[0]) && (WellFormed(f) || f == map[]) && !AllGit(order, f)
    requires forall p :: p in Manifest(src) && p !in Exempt(src, refused) ==> Somewhere(src, order, f, cs, p)
    requires forall r :: r in order && !Absent(cs[r], r) ==> r + [".git"] !in f
    ensures PartlyPlaced(src, order, refused, f, cs)
  {
    hide Ordered, Absent, WellFormed, AllGit, Somewhere, Exempt, Manifest, Described, Arrival;
  }

  lemma LaterGits(src: Source, order: seq<Path>, refused: set<Path>, k: nat, f: Tree, cs: map<Path, Tree>)
    requires Valid(src) && Ordered(Described(src), order) && 1 <= k < |order|
    requires forall r :: r in order ==> r in src.repos && r in cs
    requires forall j :: 0 <= j < k ==> Absent(cs[order[j]], order[j])
    requires InTurn(src, order, refused, k, f, cs)
    ensures !AllGit(order, f)
    ensures forall r :: r in order && !Absent(cs[r], r) ==> r + [".git"] !in f
  {
    hide Valid, Ordered, Described, InTurn, Absent;
    LaterGit(src, order, refused, k, f, cs, k);
    assert order[k] in order;
    forall r | r in order && !Absent(cs[r], r) ensures r + [".git"] !in f {
      var j :| 0 <= j < |order| && order[j] == r;
      LaterGit(src, order, refused, k, f, cs, j);
    }
  }

  lemma LaterLeaves(src: Source, order: seq<Path>, refused: set<Path>, k: nat, f: Tree, cs: map<Path, Tree>)
    requires Valid(src) && Ordered(Described(src), order) && k < |order|
    requires forall r :: r in order ==> r in src.repos && r in cs
    requires InTurn(src, order, refused, k, f, cs)
    ensures forall p :: p in Manifest(src) && p !in Exempt(src, refused) ==> Somewhere(src, order, f, cs, p)
  {
    hide Valid, Ordered, Described, InTurn, Somewhere, Exempt, Manifest;
    forall p | p in Manifest(src) && p !in Exempt(src, refused) ensures Somewhere(src, order, f, cs, p) {
      LaterLeaf(src, order, refused, k, f, cs, p);
    }
  }

  lemma LaterStanding(src: Source, order: seq<Path>, refused: set<Path>, k: nat, f: Tree, cs: map<Path, Tree>)
    requires k < |order| && forall r :: r in order ==> r in src.repos && r in cs
    requires InTurn(src, order, refused, k, f, cs)
    ensures WellFormed(f) || f == map[]
  {}

  /** A later clone was never made. */
  lemma LaterMissing(src: Source, order: seq<Path>, refused: set<Path>, k: nat, cs: map<Path, Tree>)
    requires Valid(src) && Ordered(Described(src), order) && 1 <= k < |order|
    requires forall r :: r in order ==> r in src.repos && r in cs
    requires Placed(src, order, k, cs) && Absent(cs[order[k]], order[k])
    ensures Held(src, order, refused, Restored(src, order, k, refused), cs)
  {
    var f := Restored(src, order, k, refused);
    TurnReady(src, order, k, refused, f);
    MissingGits(src, order, refused, k, cs);
    hide Valid, Ordered, Described, Absent, Exempt, Manifest, WellFormed, Restored, AllGit, Made;
    forall p | p in Manifest(src) && p !in Exempt(src, refused) ensures Somewhere(src, order, f, cs, p) {
      LeafStays(src, order, k, refused, p);
    }
    NotYetAll(src, order, refused, f, cs);
  }

  lemma MissingGits(src: Source, order: seq<Path>, refused: set<Path>, k: nat, cs: map<Path, Tree>)
    requires Valid(src) && Ordered(Described(src), order) && k < |order|
    requires forall r :: r in order ==> r in src.repos && r in cs
    requires Placed(src, order, k, cs)
    ensures var f := Restored(src, order, k, refused);
            !AllGit(order, f) && forall r :: r in order && !Absent(cs[r], r) ==> r + [".git"] !in f
  {
    var f := Restored(src, order, k, refused);
    hide Valid, Ordered, Described, Absent, Restored, Made;
    forall r | r in order && !Absent(cs[r], r) ensures r + [".git"] !in f {
      var j :| 0 <= j < |order| && order[j] == r;
      GitAway(src, order, k, j, refused);
    }
    assert order[k] in order;
    GitAway(src, order, k, k, refused);
  }

  lemma LeafMidway(files: Tree, c: Tree, f: Tree, c2: Tree, root: Path, gone: set<Path>, p: Path)
    requires Midway(files, c, f, c2, root, files.Keys, gone) && LeafOf(files, p).Some? && p !in gone
    ensures LeafOf(f, p) == LeafOf(files, p) || LeafOf(c2, p) == LeafOf(files, p)
  {}

  lemma OnlyAbove(files: Tree, c: Tree, f: Tree, c2: Tree, root: Path, gone: set<Path>, q: Path)
    requires Midway(files, c, f, c2, root, files.Keys, gone) && q !in files && q !in Prefixes(root)
    ensures q !in f && !Absent(c2, root)
  {
    assert root in c2 && Under(root, root);
  }

  /** The first `i` clones are gone, the others untouched. */
  ghost predicate Placed(src: Source, order: seq<Path>, i: nat, cs: map<Path, Tree>)
    requires i <= |order| && forall r :: r in order ==> r in src.repos && r in cs
  {
    && (forall j :: 0 <= j < i ==> Absent(cs[order[j]], order[j]))
    && (forall j :: i <= j < |order| ==> Made(src, order[j], cs[order[j]]))
  }

  lemma TurnAgain(src: Source, order: seq<Path>, i: nat, refused: set<Path>, cs: map<Path, Tree>)
    requires Valid(src) && Ordered(Described(src), order) && i < |order|
    requires forall r :: r in order ==> r in src.repos && r in cs
    requires Placed(src, order, i, cs) && !Absent(cs[order[i]], order[i])
    ensures var f, r := Restored(src, order, i, refused), order[i];
            && Standing(f, r) && ClonedAt(cs[r], r) && Replaceable(f, cs[r], r)
            && cs[r] == Clone(r, src.repos[r])
            && PutBack(f, cs[r], r, Deleted(src.disk, src.repos[r]), refused) == Restored(src, order, i + 1, refused)
  {
    TurnReady(src, order, i, refused, Restored(src, order, i, refused));
    hide *;
    TurnStands(Restored(src, order, i, refused), order[i]);
    PlacedHere(src, order, i, cs);
  }

  lemma AbsentRefused(f: Tree, c: Tree, root: Path)
    requires Absent(c, root)
    ensures !Replaceable(f, c, root)
  {
    assert Under(root, root + [".git"]);
  }

  lemma TurnStands(f: Tree, root: Path)
    requires WellFormed(f)
    ensures Standing(f, root)
  {}

  lemma PlacedHere(src: Source, order: seq<Path>, i: nat, cs: map<Path, Tree>)
    requires i < |order| && forall r :: r in order ==> r in src.repos && r in cs
    requires Placed(src, order, i, cs) && !Absent(cs[order[i]], order[i])
    ensures cs[order[i]] == Clone(order[i], src.repos[order[i]])
  {}

  /** After one more turn, the first or a later one. */
  lemma PlacedMore(src: Source, order: seq<Path>, refused: set<Path>, i: nat, f: Tree, cs: map<Path, Tree>,
                   cs2: map<Path, Tree>)
    requires Ordered(Described(src), order) && i < |order|
    requires forall r :: r in order ==> r in src.repos && r in cs && r in cs2
    requires if i == 0 then Opening(src, order, refused, f, cs) else Placed(src, order, i, cs)
    requires Absent(cs2[order[i]], order[i])
    requires forall r :: r in order && r != order[i] ==> cs2[r] == cs[r]
    ensures Placed(src, order, i + 1, cs2)
  {
    hide Midway, Absent, Clone, Described, Made;
    assert forall j :: 0 <= j < |order| ==> order[j] in order;
  }

  /** Wherever a turn is cut off. */
  lemma AnyCut(src: Source, order: seq<Path>, refused: set<Path>, i: nat, f: Tree, cs: map<Path, Tree>, f2: Tree,
               cs2: map<Path, Tree>)
    requires Valid(src) && Ordered(Described(src), order) && i < |order|
    requires forall r :: r in order ==> r in src.repos && r in cs && r in cs2
    requires !Absent(cs[order[i]], order[i])
    requires if i == 0 then Opening(src, order, refused, f, cs) && Ready(src, f)
             else Placed(src, order, i, cs) && f == Restored(src, order, i, refused)
    requires Midway(f, cs[order[i]], f2, cs2[order[i]], order[i], f.Keys, GoneAt(src, order[i], refused))
    requires forall r :: r in order && r != order[i] ==> cs2[r] == cs[r]
    ensures Held(src, order, refused, f2, cs2)
  {
    assert forall j :: 0 <= j < |order| ==> order[j] in order;
    assert forall j, k :: 0 <= j < k < |order| ==> order[j] != order[k];
    hide Midway, Absent, Clone, Described, Valid, Ordered, Opening, PartlyPlaced, Ready, GoneAt, Restored;
    if i == 0 {
      FirstCut(src, order, refused, f, cs, f2, cs2);
    } else {
      PlacedHere(src, order, i, cs);
      LaterCut(src, order, refused, i, f2, cs2);
    }
  }

  lemma AllRestored(src: Source, order: seq<Path>, refused: set<Path>, f: Tree, cs: map<Path, Tree>)
    requires Ordered(Described(src), order) && order != []
    requires forall r :: r in order ==> r in src.repos && r in cs
    requires Placed(src, order, |order|, cs) && f == Restored(src, order, |order|, refused)
    ensures f == Arrival(src, order, refused) && AllPlaced(order, cs)
  {
    hide Described, Ordered, Absent, Restored;
    forall r | r in order ensures Absent(cs[r], r) {
      var j :| 0 <= j < |order| && order[j] == r;
    }
  }

  /** One turn, seen from all the clones. */
  method RestoreNext(files: Folder, clones: map<Path, Folder>, root: Path, deleted: seq<Path>, refused: set<Path>,
                     power: Power)
    returns (outcome: Outcome, ghost bare: (Tree, Tree))
    requires Separate(files, clones) && root in clones
    requires (Standing(files.nodes, root) && ClonedAt(TreesOf(clones)[root], root))
             || Absent(TreesOf(clones)[root], root)
    modifies files, clones[root], power
    ensures forall r :: r in clones && r != root ==> TreesOf(clones)[r] == old(TreesOf(clones))[r]
    ensures outcome == Failed <==> !Replaceable(old(files.nodes), old(TreesOf(clones))[root], root)
    ensures outcome == Failed ==> files.nodes == old(files.nodes) && TreesOf(clones) == old(TreesOf(clones))
    ensures outcome == Done ==>
              && files.nodes == PutBack(old(files.nodes), old(TreesOf(clones))[root], root, SetOf(deleted), refused)
              && Absent(TreesOf(clones)[root], root)
              && Midway(old(files.nodes), old(TreesOf(clones))[root], bare.0, bare.1, root,
                        old(files.nodes).Keys, Doomed(SetOf(deleted), refused))
              && (root == [] ==> bare == (map[], files.nodes))
    ensures outcome == Cut ==>
              Midway(old(files.nodes), old(TreesOf(clones))[root], files.nodes, TreesOf(clones)[root], root,
                     old(files.nodes).Keys, Doomed(SetOf(deleted), refused))
    ensures old(power.left) == None ==> outcome != Cut && power.left == None
  {
    hide Midway, ClonedAt, Standing, Absent, Replaceable, SetOf, Doomed, Prune, MergeInto;
    ghost var f := files.nodes;
    outcome, bare := RestoreRepo(files, clones[root], root, deleted, refused, power);
    if outcome == Done && root == [] {
      AllBelow(f, bare.1);
    }
  }

  lemma AllBelow(f: Tree, t: Tree)
    ensures Without(f, []) + Above([]) == map[] && Without(f, []) + t == t
  {
    assert Without(f, []) == map[] && Above([]) == map[];
  }

  /** Where the loop stands before turn `i`, from the clones `before`. */
  ghost predicate Going(src: Source, order: seq<Path>, refused: set<Path>, i: nat, f: Tree, cs: map<Path, Tree>,
                        before: map<Path, Tree>, bare: (Tree, Tree))
    requires Ordered(Described(src), order) && i <= |order|
    requires forall r :: r in order ==> r in src.repos && r in cs && r in before
  {
    && Untouched(order, i, cs, before)
    && (if i == 0 then order == [] || Stuck(order, cs) || (Opening(src, order, refused, f, cs) && Ready(src, f))
        else f == Restored(src, order, i, refused) && Placed(src, order, i, cs))
    && (i > 0 && order[i - 1] == [] ==> Bared(src, order, refused, i, f, cs, bare))
  }

  /** The last turn was for the workspace itself, and has passed `bare`. */
  ghost predicate Bared(src: Source, order: seq<Path>, refused: set<Path>, i: nat, f: Tree, cs: map<Path, Tree>,
                        bare: (Tree, Tree))
    requires Ordered(Described(src), order) && forall r :: r in order ==> r in src.repos && r in cs
  {
    i == |order| && bare == (map[], f) && Held(src, order, refused, map[], cs[[] := f])
  }

  method RestoreTurn(files: Folder, clones: map<Path, Folder>, d: Descriptor, refused: set<Path>, power: Power,
                     ghost src: Source, ghost order: seq<Path>, ghost i: nat, ghost before: map<Path, Tree>,
                     ghost was: (Tree, Tree))
    returns (outcome: Outcome, ghost bare: (Tree, Tree))
    requires Valid(src) && Separate(files, clones) && Ordered(Described(src), order) && i < |order|
    requires forall r :: r in order ==> r in src.repos && r in clones && r in before
    requires d.path == order[i] && d.path in src.repos && SetOf(d.deleted) == Deleted(src.disk, src.repos[d.path])
    requires Going(src, order, refused, i, files.nodes, TreesOf(clones), before, was)
    modifies files, clones.Values, power
    ensures outcome == Failed <==> Absent(before[d.path], d.path)
    ensures outcome == Failed ==> files.nodes == old(files.nodes) && TreesOf(clones) == old(TreesOf(clones))
    ensures outcome != Done && !Stuck(order, before) ==> Held(src, order, refused, files.nodes, TreesOf(clones))
    ensures outcome == Done ==> Going(src, order, refused, i + 1, files.nodes, TreesOf(clones), before, bare)
    ensures old(power.left) == None ==> outcome != Cut && power.left == None
  {
    hide Valid, Described, Ordered, Clone, PutBack, Replaceable, ClonedAt, Standing, Midway, Opening, Ready, Stuck;
    hide Deleted, Restored, Absent, Doomed, PartlyPlaced, Placed, SetOf, Made, Untouched, TreesOf, Held;
    var root := d.path;
    ghost var f, cs := files.nodes, TreesOf(clones);
    SameHere(order, i, cs, before);
    StuckIsAbsent(order, before);
    if Absent(cs[root], root) {
      AbsentRefused(f, cs[root], root);
      if i > 0 {
        LaterMissing(src, order, refused, i, cs);
      }
    } else if i == 0 {
      NotStuck(order, cs);
      FirstTurn(src, order, refused, f, cs);
    } else {
      TurnAgain(src, order, i, refused, cs);
    }
    outcome, bare := RestoreNext(files, clones, root, d.deleted, refused, power);
    if outcome == Cut {
      AnyCut(src, order, refused, i, f, cs, files.nodes, TreesOf(clones));
    }
    if outcome == Done {
      if root == [] {
        RootIsLast(src, order, i);
        AnyCut(src, order, refused, i, f, cs, bare.0, TreesOf(clones)[[] := bare.1]);
      }
      PlacedMore(src, order, refused, i, f, cs, TreesOf(clones));
      SameNext(src, order, i, cs, TreesOf(clones), before);
    }
  }

  lemma NotStuck(order: seq<Path>, cs: map<Path, Tree>)
    requires order != [] && forall r :: r in order ==> r in cs
    requires !Absent(cs[order[0]], order[0])
    ensures !Stuck(order, cs)
  {}

  /** The loop of `restore_repos`, cut off by `power` or not: it fails exactly at a
      clone that is not there, without a change if that is the first. For a workspace
      that is itself a repository, `bare` is passed just before the last rename: the
      staged directory is gone, and all is in the clone. */
  method RestoreRepos(files: Folder, repos: seq<Descriptor>, clones: map<Path, Folder>, refused: set<Path>,
                      power: Power,
                      ghost src: Source)
    returns (outcome: Outcome, ghost bare: (Tree, Tree))
    requires Valid(src) && Describes(src, repos) && Separate(files, clones)
    requires Ordered(Described(src), OrderOf(repos))
    requires forall r :: r in OrderOf(repos) ==> r in src.repos && r in clones
    requires || OrderOf(repos) == [] || Stuck(OrderOf(repos), TreesOf(clones))
             || (Opening(src, OrderOf(repos), refused, files.nodes, TreesOf(clones)) && Ready(src, files.nodes))
    modifies files, clones.Values, power
    ensures OrderOf(repos) == [] ==>
              outcome == Done && files.nodes == old(files.nodes) && TreesOf(clones) == old(TreesOf(clones))
    ensures Stuck(OrderOf(repos), old(TreesOf(clones))) ==>
              outcome == Failed && files.nodes == old(files.nodes) && TreesOf(clones) == old(TreesOf(clones))
    ensures outcome == Failed ==> !AllPresent(OrderOf(repos), old(TreesOf(clones)))
    ensures outcome == Done ==>
              AllPresent(OrderOf(repos), old(TreesOf(clones))) && AllPlaced(OrderOf(repos), TreesOf(clones))
    ensures outcome == Done && OrderOf(repos) != [] ==> files.nodes == Arrival(src, OrderOf(repos), refused)
    ensures outcome == Done && [] in OrderOf(repos) ==>
              && bare == (map[], files.nodes)
              && Held(src, OrderOf(repos), refused, map[], TreesOf(clones)[[] := files.nodes])
    ensures outcome != Done && !Stuck(OrderOf(repos), old(TreesOf(clones))) ==>
              Held(src, OrderOf(repos), refused, files.nodes, TreesOf(clones))
    ensures old(power.left) == None ==> outcome != Cut && power.left == None
  {
    hide Valid, Described, Describes, Ordered, Opening, Ready, Arrival, Manifest, Stuck;
    hide Staged, Deleted, PathsOf, SortDeepest, OrderOf, Absent, AllPlaced, SetOf, AllPresent, Untouched, TreesOf,
         Held, Going, Placed;
    bare := (map[], map[]);
    ghost var order := OrderOf(repos);
    ghost var f0, t0 := files.nodes, TreesOf(clones);
    var sorted := SortDeepest(repos);
    Prepared(src, repos, order, refused);
    SetOut(src, order, refused, f0, t0, bare);
    StuckIsAbsent(order, t0);
    for i := 0 to |sorted|
      invariant old(power.left) == None ==> power.left == None
      invariant i == 0 ==> files.nodes == f0 && TreesOf(clones) == t0
      invariant Going(src, order, refused, i, files.nodes, TreesOf(clones), t0, bare)
      invariant i > 0 ==> !Stuck(order, t0)
    {
      assert sorted[i].path == order[i] && order[i] in order;
      outcome, bare := RestoreTurn(files, clones, sorted[i], refused, power, src, order, i, t0, bare);
      if outcome != Done {
        if outcome == Failed {
          NotPresent(order, t0, order[i]);
        }
        return;
      }
    }
    LoopEnds(src, order, refused, files.nodes, TreesOf(clones), t0, bare);
    outcome := Done;
  }

  lemma StuckIsAbsent(order: seq<Path>, cs: map<Path, Tree>)
    requires forall r :: r in order ==> r in cs
    ensures Stuck(order, cs) <==> order != [] && Absent(cs[order[0]], order[0])
  {}

  lemma SetOut(src: Source, order: seq<Path>, refused: set<Path>, f: Tree, cs: map<Path, Tree>, bare: (Tree, Tree))
    requires Ordered(Described(src), order) && forall r :: r in order ==> r in src.repos && r in cs
    requires order == [] || Stuck(order, cs) || (Opening(src, order, refused, f, cs) && Ready(src, f))
    ensures Going(src, order, refused, 0, f, cs, cs, bare)
  {
    NoneTouched(order, cs);
    hide Held, Opening, Ready, Untouched, Stuck, Described;
  }

  lemma LoopEnds(src: Source, order: seq<Path>, refused: set<Path>, f: Tree, cs: map<Path, Tree>,
                 before: map<Path, Tree>, bare: (Tree, Tree))
    requires Valid(src) && Ordered(Described(src), order)
    requires forall r :: r in order ==> r in src.repos && r in cs && r in before
    requires Going(src, order, refused, |order|, f, cs, before, bare)
    ensures AllPlaced(order, cs) && AllPresent(order, before)
    ensures order != [] ==> f == Arrival(src, order, refused)
    ensures [] in order ==> bare == (map[], f) && Held(src, order, refused, map[], cs[[] := f])
  {
    hide Valid, Held, Ready, Untouched, Described, Opening, AllPresent, Placed, Ordered, Arrival, Absent;
    if [] in order {
      RootAtEnd(src, order);
    }
    if order != [] {
      AllRestored(src, order, refused, f, cs);
    }
    AllSeen(order, cs, before);
  }

  /** The clones before `i` were there at first; the others have not changed. */
  ghost predicate Untouched(order: seq<Path>, i: nat, cs: map<Path, Tree>, before: map<Path, Tree>)
    requires i <= |order| && forall r :: r in order ==> r in cs && r in before
  {
    && (forall j :: 0 <= j < i ==> !Absent(before[order[j]], order[j]))
    && (forall j :: i <= j < |order| ==> cs[order[j]] == before[order[j]])
  }

  lemma RootIsLast(src: Source, order: seq<Path>, i: nat)
    requires Ordered(Described(src), order) && i < |order| && order[i] == []
    ensures i == |order| - 1
  {
    hide Described;
    var last := |order| - 1;
    assert |order[last]| <= |order[i]|;
    assert order[last] == order[i];
  }

  lemma RootAtEnd(src: Source, order: seq<Path>)
    requires Ordered(Described(src), order) && [] in order
    ensures order != [] && order[|order| - 1] == []
  {
    hide Described;
    var i :| 0 <= i < |order| && order[i] == [];
  }

  lemma NoneTouched(order: seq<Path>, cs: map<Path, Tree>)
    requires forall r :: r in order ==> r in cs
    ensures Untouched(order, 0, cs, cs)
  {
    hide Absent;
    assert forall j :: 0 <= j < |order| ==> order[j] in order;
  }

  lemma SameHere(order: seq<Path>, i: nat, cs: map<Path, Tree>, before: map<Path, Tree>)
    requires i < |order| && forall r :: r in order ==> r in cs && r in before
    requires Untouched(order, i, cs, before)
    ensures cs[order[i]] == before[order[i]]
  {}

  lemma SameNext(src: Source, order: seq<Path>, i: nat, cs: map<Path, Tree>, cs2: map<Path, Tree>,
                 before: map<Path, Tree>)
    requires Ordered(Described(src), order)
    requires i < |order| && forall r :: r in order ==> r in cs && r in before && r in cs2
    requires Untouched(order, i, cs, before) && !Absent(cs[order[i]], order[i])
    requires forall r :: r in order && r != order[i] ==> cs2[r] == cs[r]
    ensures Untouched(order, i + 1, cs2, before)
  {
    hide Absent, Described;
    assert forall j :: 0 <= j < |order| ==> order[j] in order;
  }

  lemma NotPresent(order: seq<Path>, cs: map<Path, Tree>, r: Path)
    requires r in order && forall r :: r in order ==> r in cs
    requires Absent(cs[r], r)
    ensures !AllPresent(order, cs)
  {}

  lemma AllSeen(order: seq<Path>, cs: map<Path, Tree>, before: map<Path, Tree>)
    requires forall r :: r in order ==> r in cs && r in before
    requires Untouched(order, |order|, cs, before)
    ensures AllPresent(order, before)
  {
    forall r | r in order ensures !Absent(before[r], r) {
      var j :| 0 <= j < |order| && order[j] == r;
    }
  }
}
