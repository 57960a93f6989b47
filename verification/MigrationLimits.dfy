/** When the migration is not the identity: the conditions of `Migration` are
    necessary as well, and each can fail in an everyday working tree. */
module MigrationLimits {
  import opened Wrappers
  import opened Trees
  import opened Names
  import opened Git
  import opened Migration

  /** No HEAD reaches into a nested repository, and no staged file replaces a
      directory of HEAD. */
  ghost predicate Ordinary(src: Source) {
    && (forall r, q, p :: r in Described(src) && q in Described(src) && r != q && Under(r, q) ==>
          (p in src.repos[r].head ==> !Under(q, p)))
    && (forall r, a, p :: r in Described(src) && a in Clean(src.disk, src.repos[r]) && p in src.repos[r].head ==>
          (Under(a, p) ==> a == p))
  }

  /** Where an entry of the staged tree can have come from. */
  ghost predicate FromManifest(src: Source, q: Path) {
    exists m :: m in Manifest(src) && Under(q, m)
  }

  ghost predicate FromClone(src: Source, done: set<Path>, q: Path)
    requires done <= src.repos.Keys
  {
    exists d :: d in done && (Under(q, d + [".git"]) || exists h :: h in src.repos[d].head && Under(q, h))
  }

  ghost predicate LeafFrom(src: Source, done: set<Path>, q: Path)
    requires done <= src.repos.Keys
  {
    q in Manifest(src) || exists d :: d in done && q in src.repos[d].head
  }

  ghost predicate Origin(src: Source, files: Tree, done: set<Path>)
    requires done <= src.repos.Keys
  {
    && (forall q :: q in files && files[q] != Dir ==> LeafFrom(src, done, q))
    && (forall q :: q in files && q != [] ==> FromManifest(src, q) || FromClone(src, done, q))
    && (forall q :: q in files && files[q] != Dir ==> files[q].File? || files[q].Link?)
  }

  lemma StartOrigin(src: Source)
    requires Valid(src)
    ensures Origin(src, Staged(Manifest(src)), {})
  {}

  lemma CloneOrigin(src: Source, root: Path, q: Path)
    requires Valid(src) && root in src.repos
    requires q in Clone(root, src.repos[root]) && q != []
    ensures FromClone(src, {root}, q)
  {}

  lemma MoreOrigin(src: Source, files: Tree, done: set<Path>, root: Path)
    requires done <= src.repos.Keys && root in src.repos
    requires Origin(src, files, done)
    ensures Origin(src, files, done + {root})
  {}

  lemma StepOrigin(src: Source, files: Tree, done: set<Path>, root: Path, refused: set<Path>)
    requires Valid(src) && done <= src.repos.Keys && root in src.repos
    requires Origin(src, files, done)
    ensures Origin(src, RestoreOne(src, files, root, refused), done + {root})
  {
    MoreOrigin(src, files, done, root);
    CloneTree(src, root);
    var clone := Clone(root, src.repos[root]);
    var t := RestoreOne(src, files, root, refused);
    assert root in done + {root};
    forall q | q in t ensures (q in files && t[q] == files[q]) || (q in clone && t[q] == clone[q]) {}
    forall q | q in clone && clone[q] != Dir ensures q in src.repos[root].head {
      assert LeafOf(clone, q).Some?;
    }
    forall q | q in clone && q != [] ensures FromClone(src, done + {root}, q) {
      CloneOrigin(src, root, q);
    }
  }

  // ---- what is lost stays lost, what is kept stays kept ----

  lemma StepAbsent(src: Source, files: Tree, root: Path, refused: set<Path>, p: Path)
    requires Valid(src) && root in src.repos
    requires LeafOf(files, p) == None && p !in src.repos[root].head
    ensures LeafOf(RestoreOne(src, files, root, refused), p) == None
  {}

  lemma {:induction false} StaysAbsent(src: Source, order: seq<Path>, i: nat, j: nat, refused: set<Path>, p: Path)
    requires Valid(src) && i <= j <= |order|
    requires forall r :: r in order ==> r in src.repos
    requires LeafOf(Restored(src, order, i, refused), p) == None
    requires forall k :: i <= k < |order| ==> p !in src.repos[order[k]].head
    ensures LeafOf(Restored(src, order, j, refused), p) == None
  {
    hide Valid, LeafOf, RestoreOne;
    if i < j {
      StaysAbsent(src, order, i, j - 1, refused, p);
      StepAbsent(src, Restored(src, order, j - 1, refused), order[j - 1], refused, p);
    }
  }

  lemma StepKept(src: Source, files: Tree, root: Path, refused: set<Path>, p: Path)
    requires Valid(src) && root in src.repos && Clear(files, root)
    requires LeafOf(files, p).Some? && p !in src.repos[root].head && !Under(p, root)
    ensures LeafOf(RestoreOne(src, files, root, refused), p) == LeafOf(files, p)
  {
    PrunedShape(src, files, root, refused);
    if Under(root, p) {
      MergedAt(src, files, root, p);
    }
    hide Valid, Clear, MergedClone, Forbidden;
  }

  lemma {:induction false} StaysKept(src: Source, order: seq<Path>, i: nat, j: nat, refused: set<Path>, p: Path)
    requires Valid(src) && Ordered(Described(src), order) && i <= j <= |order|
    requires forall r :: r in order ==> r in src.repos
    requires LeafOf(Restored(src, order, i, refused), p).Some?
    requires forall k :: i <= k < |order| ==> p !in src.repos[order[k]].head && !Under(p, order[k])
    ensures LeafOf(Restored(src, order, j, refused), p).Some?
  {
    hide Valid, LeafOf, RestoreOne, Ordered, Described;
    if i < j {
      StaysKept(src, order, i, j - 1, refused, p);
      RestoredOrigin(src, order, j - 1, refused);
      StepKept(src, Restored(src, order, j - 1, refused), order[j - 1], refused, p);
    }
  }

  lemma OriginClear(src: Source, files: Tree, done: set<Path>, root: Path)
    requires Valid(src) && done <= src.repos.Keys && root in src.repos
    requires WellFormed(files) && Origin(src, files, done)
    requires root !in done && forall d :: d in done ==> |d| >= |root|
    ensures Clear(files, root)
  {
    forall k | 0 <= k <= |root| && root[..k] in files ensures files[root[..k]] == Dir {
      NoLeafAbove(src, done, root, k);
    }
  }

  lemma NoLeafAbove(src: Source, done: set<Path>, root: Path, k: nat)
    requires Valid(src) && done <= src.repos.Keys && root in src.repos && k <= |root|
    requires root !in done && forall d :: d in done ==> |d| >= |root|
    ensures !LeafFrom(src, done, root[..k])
  {
    var a := root[..k];
    assert k == |root| ==> a == root;
    assert src.disk[a] == Dir;
    forall d | d in done ensures a !in src.repos[d].head {
      HeadBelow(src, d, a);
    }
  }

  /** Whatever the source: the staged tree is a tree, its entries come from the
      manifest or the clones, and the next root is free to be put back. */
  lemma {:induction false} RestoredOrigin(src: Source, order: seq<Path>, i: nat, refused: set<Path>)
    requires Valid(src) && Ordered(Described(src), order) && i <= |order|
    requires forall r :: r in order ==> r in src.repos
    ensures Firsts(order, i) <= src.repos.Keys
    ensures WellFormed(Restored(src, order, i, refused))
    ensures Origin(src, Restored(src, order, i, refused), Firsts(order, i))
    ensures i < |order| ==> Clear(Restored(src, order, i, refused), order[i])
  {
    hide *;
    if i == 0 {
      FirstOrigin(src, order, refused);
    } else {
      RestoredOrigin(src, order, i - 1, refused);
      NextOrigin(src, order, i - 1, refused, Restored(src, order, i - 1, refused));
    }
    if i < |order| {
      TurnClear(src, order, i, Restored(src, order, i, refused));
    }
  }

  lemma FirstOrigin(src: Source, order: seq<Path>, refused: set<Path>)
    requires Valid(src) && forall r :: r in order ==> r in src.repos
    ensures Firsts(order, 0) == {}
    ensures WellFormed(Restored(src, order, 0, refused))
    ensures Origin(src, Restored(src, order, 0, refused), {})
  {
    hide Origin;
    StartOrigin(src);
    ManifestPrefixFree(src);
    StagedWellFormed(Manifest(src));
  }

  lemma NextOrigin(src: Source, order: seq<Path>, i: nat, refused: set<Path>, files: Tree)
    requires Valid(src) && Ordered(Described(src), order) && i < |order|
    requires forall r :: r in order ==> r in src.repos
    requires files == Restored(src, order, i, refused)
    requires Firsts(order, i) <= src.repos.Keys
    requires Origin(src, files, Firsts(order, i)) && Clear(files, order[i])
    ensures Firsts(order, i + 1) <= src.repos.Keys
    ensures WellFormed(Restored(src, order, i + 1, refused))
    ensures Origin(src, Restored(src, order, i + 1, refused), Firsts(order, i + 1))
  {
    hide Origin, Clear, Valid, Described, Ordered, RestoreOne, Firsts, WellFormed;
    OrderTurn(Described(src), order, i);
    assert order[i] in order;
    RestoreOneWellFormed(src, files, order[i], refused);
    StepOrigin(src, files, Firsts(order, i), order[i], refused);
  }

  lemma TurnClear(src: Source, order: seq<Path>, i: nat, files: Tree)
    requires Valid(src) && Ordered(Described(src), order) && i < |order|
    requires forall r :: r in order ==> r in src.repos
    requires Firsts(order, i) <= src.repos.Keys
    requires WellFormed(files) && Origin(src, files, Firsts(order, i))
    ensures Clear(files, order[i])
  {
    hide Origin, Clear, Valid, Described, Ordered, Firsts, WellFormed;
    OrderTurn(Described(src), order, i);
    assert order[i] in order;
    OriginClear(src, files, Firsts(order, i), order[i]);
  }

  // ---- necessity ----

  /** What sits below a directory that Git calls an unchanged file never arrives. */
  lemma HiddenIsLost(src: Source, order: seq<Path>, refused: set<Path>, p: Path, k: nat)
    requires Valid(src) && Ordered(Described(src), order) && Ordinary(src)
    requires forall r :: r in order ==> r in src.repos
    requires InScope(src, p) && 0 < k < |p| && CleanInRepo(p[..k], Listed(src))
    requires forall j :: 0 < j < k ==> !CleanInRepo(p[..j], Listed(src))
    ensures LeafOf(Arrival(src, order, refused), p) == None
  {
    ManifestPrefixFree(src);
    StagedWellFormed(Manifest(src));
    assert Skipped(src, p[..k]);
    assert p !in Manifest(src);
    forall i | 0 <= i < |order| ensures p !in src.repos[order[i]].head {
      assert order[i] in order;
      HiddenFromHead(src, p, k, order[i]);
    }
    StaysAbsent(src, order, 0, |order|, refused, p);
  }

  lemma HiddenFromHead(src: Source, p: Path, k: nat, r: Path)
    requires Valid(src) && Ordinary(src) && r in Described(src)
    requires InScope(src, p) && 0 < k < |p| && CleanInRepo(p[..k], Listed(src))
    requires forall j :: 0 < j < k ==> !CleanInRepo(p[..j], Listed(src))
    requires r in src.repos
    ensures p !in src.repos[r].head
  {
    hide Valid, Ordinary, InScope, Described, CleanInRepo;
    var a := p[..k];
    CleanIffInnermost(a, Listed(src));
    var q :| Innermost(Listed(src).Keys, q, a) && a in Listed(src)[q];
    assert a[..|q|] == q == p[..|q|];
    PrefixOpen(src, p, |q|);
    OpenDescribed(src, q);
    HeadBelow(src, r, p);
    if Under(r, p) {
      RootAboveClean(src, r, p, k);
      assert a[..|r|] == r;
      if |r| < |q| {
        assert q[..|r|] == r;
        OuterHead(src, r, q, p);
      } else {
        CleanHead(src, r, a, p);
      }
    }
  }

  lemma OpenDescribed(src: Source, q: Path)
    ensures q in Described(src) <==> q in Listed(src) && Open(src, q)
  {}

  /** A described repository is not at or below a clean path. */
  lemma RootAboveClean(src: Source, r: Path, p: Path, k: nat)
    requires r in Described(src) && Under(r, p)
    requires 0 < k < |p| && CleanInRepo(p[..k], Listed(src))
    ensures |r| < k && r in Listed(src)
  {
    var a := if |r| >= k then r[..k] else p[..k];
    assert p[..|r|] == r && a == p[..k];
    assert Skipped(src, a);
  }

  lemma HeadBelow(src: Source, r: Path, p: Path)
    requires Valid(src) && r in src.repos
    ensures p in src.repos[r].head ==> Under(r, p) && p != r
  {}

  lemma OuterHead(src: Source, r: Path, q: Path, p: Path)
    requires Ordinary(src) && r in Described(src) && q in Described(src)
    requires r != q && Under(r, q) && Under(q, p)
    ensures p !in src.repos[r].head
  {}

  lemma CleanHead(src: Source, r: Path, a: Path, p: Path)
    requires Ordinary(src) && r in Described(src) && a in Clean(src.disk, src.repos[r])
    requires Under(a, p) && a != p
    ensures p !in src.repos[r].head
  {}

  /** Whoever lists `p` in HEAD comes before `r` in the loop, or is `r`. */
  lemma OnlyHead(src: Source, order: seq<Path>, i: nat, j: nat, p: Path)
    requires Valid(src) && Ordinary(src) && Ordered(Described(src), order)
    requires i < j < |order|
    requires forall r :: r in order ==> r in src.repos
    requires p in src.repos[order[i]].head
    ensures p !in src.repos[order[j]].head && !Under(p, order[j])
  {
    hide Valid, Ordinary, Described;
    var r, q := order[i], order[j];
    assert r in order && q in order;
    HeadBelow(src, r, p);
    HeadBelow(src, q, p);
    assert p[..|r|] == r;
    if Under(q, p) {
      assert p[..|q|] == q;
      assert |q| < |r| && Under(q, r);
      OuterHead(src, q, r, p);
    }
  }

  lemma DeletedHead(src: Source, r: Path, p: Path)
    requires r in src.repos && p in Deleted(src.disk, src.repos[r])
    ensures p in src.repos[r].head
  {}

  /** A file that Git reports as deleted but that is still on the disk is copied,
      and then unlinked on the target. */
  lemma {:induction false} DeletedIsLost(src: Source, order: seq<Path>, refused: set<Path>, i: nat, p: Path)
    requires Valid(src) && Ordered(Described(src), order) && Ordinary(src)
    requires forall r :: r in order ==> r in src.repos
    requires i < |order| && p in Deleted(src.disk, src.repos[order[i]])
    requires InScope(src, p) && p !in refused
    ensures LeafOf(Arrival(src, order, refused), p) == None
  {
    hide Valid, Ordinary, Described, InScope, RestoreOne, Origin, Clear, LeafOf, Ordered;
    var r := order[i];
    var files := Restored(src, order, i, refused);
    RestoredOrigin(src, order, i, refused);
    UnlinkedAt(src, files, Firsts(order, i), r, refused, p);
    assert p in src.repos[r].head by { hide *; DeletedHead(src, r, p); }
    forall k | i + 1 <= k < |order| ensures p !in src.repos[order[k]].head {
      OnlyHead(src, order, i, k, p);
    }
    StaysAbsent(src, order, i + 1, |order|, refused, p);
  }

  lemma UnlinkedAt(src: Source, files: Tree, done: set<Path>, r: Path, refused: set<Path>, p: Path)
    requires Valid(src) && r in src.repos && done <= src.repos.Keys
    requires Origin(src, files, done) && Clear(files, r)
    requires p in Deleted(src.disk, src.repos[r]) && InScope(src, p) && p !in refused
    ensures LeafOf(RestoreOne(src, files, r, refused), p) == None
  {}

  lemma ShippedInScope(src: Source, m: Path)
    requires m in Manifest(src)
    ensures InScope(src, m) && LeafOf(src.disk, m).Some?
  {
    assert m[..|m|] == m && !Skipped(src, m);
    forall k | 0 <= k < |m| && m[..k] in Described(src) ensures m[k] != ".git" {
      assert !Skipped(src, m[..k + 1]);
      assert m[..k + 1][..k] == m[..k];
    }
  }

  /** Deeper repositories bring nothing above, at or below an unshadowed path. */
  lemma NotFromClone(src: Source, done: set<Path>, r: Path, p: Path)
    requires Valid(src) && Ordinary(src) && r in Described(src) && done <= Described(src)
    requires r !in done && forall d :: d in done ==> |d| >= |r|
    requires p in src.repos[r].head && InScope(src, p) && !Shadowed(src, p)
    ensures !FromClone(src, done, p)
  {
    forall d | d in done
      ensures !Under(p, d + [".git"]) && forall h :: h in src.repos[d].head ==> !Under(p, h)
    {
      DeeperApart(src, d, r, p);
      if Under(p, d + [".git"]) {
        Comparable(p, d, d + [".git"]);
      }
      forall h | h in src.repos[d].head ensures !Under(p, h) {
        HeadBelow(src, d, h);
        if Under(p, h) { Comparable(p, d, h); }
      }
    }
  }

  lemma DeeperApart(src: Source, d: Path, r: Path, p: Path)
    requires Valid(src) && Ordinary(src) && r in Described(src) && d in Described(src)
    requires d != r && |d| >= |r|
    requires p in src.repos[r].head && !Shadowed(src, p)
    ensures !Under(d, p) && !Under(p, d)
  {
    HeadBelow(src, r, p);
    if Under(d, p) {
      assert d == p[..|d|] && r == p[..|r|];
      assert d[..|r|] == r;
      OuterHead(src, r, d, p);
    }
  }

  lemma NoLeafFromAbove(src: Source, done: set<Path>, r: Path, p: Path, k: nat)
    requires Valid(src) && Ordinary(src) && r in Described(src) && done <= Described(src)
    requires r !in done && forall d :: d in done ==> |d| >= |r|
    requires p in src.repos[r].head && InScope(src, p) && !Shadowed(src, p) && k <= |p|
    ensures !LeafFrom(src, done, p[..k])
  {
    var a := p[..k];
    if a in Manifest(src) {
      ShippedInScope(src, a);
      assert Under(a, p);
    }
    forall d | d in done ensures a !in src.repos[d].head {
      DeeperApart(src, d, r, p);
      HeadBelow(src, d, a);
      if Under(d, a) { UnderTransitive(d, a, p); }
    }
  }

  /** A path of HEAD that is neither on the disk nor unlinked by the restore is
      back on the target. */
  lemma SparedAt(src: Source, files: Tree, done: set<Path>, r: Path, refused: set<Path>, p: Path)
    requires Valid(src) && Ordinary(src) && r in Described(src) && done <= Described(src)
    requires done <= src.repos.Keys && r in src.repos
    requires r !in done && forall d :: d in done ==> |d| >= |r|
    requires Origin(src, files, done) && Clear(files, r)
    requires p in Missing(src.disk, src.repos[r]) && (p in src.repos[r].renamed || p in refused)
    requires InScope(src, p) && !Shadowed(src, p)
    ensures LeafOf(RestoreOne(src, files, r, refused), p).Some?
  {
    hide Valid, Ordinary, Described, Origin, Clear, Shadowed, InScope;
    var repo := src.repos[r];
    assert p in repo.head;
    HeadBelow(src, r, p);
    NotFromClone(src, done, r, p);
    NotFromManifest(src, p);
    forall k | 0 <= k <= |p| ensures !LeafFrom(src, done, p[..k]) {
      NoLeafFromAbove(src, done, r, p, k);
    }
    Vacant(src, files, done, p);
    MergedAt(src, files, r, p);
    CloneTree(src, r);
    assert LeafOf(Clone(r, repo), p).Some?;
  }

  lemma NotFromManifest(src: Source, p: Path)
    requires !Shadowed(src, p)
    ensures !FromManifest(src, p)
  {
    forall m | m in Manifest(src) && Under(p, m) ensures Shadowed(src, p) {
      ShippedInScope(src, m);
    }
  }

  lemma Vacant(src: Source, files: Tree, done: set<Path>, p: Path)
    requires done <= src.repos.Keys && Origin(src, files, done) && p != []
    requires !FromClone(src, done, p) && !FromManifest(src, p)
    requires forall k :: 0 <= k <= |p| ==> !LeafFrom(src, done, p[..k])
    ensures p !in files && !Blocked(files, p)
  {}

  lemma OnlyHeadAfter(src: Source, order: seq<Path>, i: nat, p: Path)
    requires Valid(src) && Ordinary(src) && Ordered(Described(src), order)
    requires forall r :: r in order ==> r in src.repos
    requires i < |order| && p in src.repos[order[i]].head
    ensures forall k :: i + 1 <= k < |order| ==> p !in src.repos[order[k]].head && !Under(p, order[k])
  {
    hide Valid, Ordinary, Ordered, Described, Under;
    forall k | i + 1 <= k < |order| ensures p !in src.repos[order[k]].head && !Under(p, order[k]) {
      OnlyHead(src, order, i, k, p);
    }
  }

  lemma {:induction false} SparedComesBack(src: Source, order: seq<Path>, refused: set<Path>, i: nat, p: Path)
    requires Valid(src) && Ordered(Described(src), order) && Ordinary(src)
    requires forall r :: r in order ==> r in src.repos
    requires i < |order| && p in Missing(src.disk, src.repos[order[i]])
    requires p in src.repos[order[i]].renamed || p in refused
    requires InScope(src, p) && !Shadowed(src, p)
    ensures LeafOf(Arrival(src, order, refused), p).Some?
  {
    hide Valid, Ordinary, InScope, RestoreOne, Origin, Clear, LeafOf, Ordered, Shadowed, Described, Firsts, Missing,
         Under, WellFormed;
    var r := order[i];
    var files := Restored(src, order, i, refused);
    RestoredOrigin(src, order, i, refused);
    OrderTurn(Described(src), order, i);
    SparedAt(src, files, Firsts(order, i), r, refused, p);
    MissingHead(src, r, p);
    OnlyHeadAfter(src, order, i, p);
    StaysKept(src, order, i + 1, |order|, refused, p);
  }

  lemma MissingHead(src: Source, r: Path, p: Path)
    requires r in src.repos && p in Missing(src.disk, src.repos[r])
    ensures p in src.repos[r].head
  {}

  lemma FirstClean(src: Source, p: Path, k: nat) returns (first: nat)
    requires 0 < k < |p| && CleanInRepo(p[..k], Listed(src))
    ensures 0 < first <= k && CleanInRepo(p[..first], Listed(src))
    ensures forall j :: 0 < j < first ==> !CleanInRepo(p[..j], Listed(src))
  {
    first := k;
    if j :| 0 < j < k && CleanInRepo(p[..j], Listed(src)) {
      first := FirstClean(src, p, j);
    }
  }

  lemma IdentityShowsAll(src: Source, order: seq<Path>, refused: set<Path>)
    requires Valid(src) && Ordered(Described(src), order) && Ordinary(src)
    requires forall r :: r in order ==> r in src.repos
    requires Identity(src, Arrival(src, order, refused))
    ensures NothingHidden(src)
  {
    hide Valid, Ordinary, Ordered, Described, InScope, CleanInRepo, Arrival, LeafOf;
    forall p, k | InScope(src, p) && LeafOf(src.disk, p).Some? && 0 < k < |p|
      ensures !CleanInRepo(p[..k], Listed(src))
    {
      if CleanInRepo(p[..k], Listed(src)) {
        var first := FirstClean(src, p, k);
        HiddenIsLost(src, order, refused, p, first);
      }
    }
  }

  lemma IdentitySettles(src: Source, order: seq<Path>, refused: set<Path>)
    requires Valid(src) && Ordered(Described(src), order) && Ordinary(src)
    requires forall r :: r in order ==> r in src.repos
    requires Identity(src, Arrival(src, order, refused))
    ensures MissingSettled(src, refused)
  {
    hide Valid, Ordinary, Ordered, InScope, Arrival, Shadowed, Missing;
    assert forall r :: r in Described(src) ==> r in src.repos;
    hide Described;
    forall r, p | r in Described(src) && p in Missing(src.disk, src.repos[r]) && InScope(src, p)
      ensures if p in src.repos[r].renamed || p in refused then Shadowed(src, p) else LeafOf(src.disk, p) == None
    {
      var i := IndexOf(Described(src), order, r);
      if p in src.repos[r].renamed || p in refused {
        if !Shadowed(src, p) {
          SparedComesBack(src, order, refused, i, p);
          ShadowsItself(src, p);
        }
      } else {
        DeletedIsLost(src, order, refused, i, p);
      }
    }
  }

  lemma IndexOf(roots: set<Path>, order: seq<Path>, r: Path) returns (i: nat)
    requires Ordered(roots, order) && r in roots
    ensures i < |order| && order[i] == r
  {
    assert r in order;
    i :| 0 <= i < |order| && order[i] == r;
  }

  lemma ShadowsItself(src: Source, p: Path)
    requires InScope(src, p) && LeafOf(src.disk, p).Some?
    ensures Shadowed(src, p)
  {}

  /** MAIN RESULT, both ways: among ordinary workspaces, the migration is the
      identity exactly when nothing is hidden and every missing path is settled. */
  lemma {:induction false} MigrationIsIdentityIff(src: Source, order: seq<Path>, refused: set<Path>)
    requires Valid(src) && Ordered(Described(src), order) && Ordinary(src)
    ensures Identity(src, Arrival(src, order, refused)) <==> NothingHidden(src) && MissingSettled(src, refused)
  {
    hide Valid, Ordinary, Identity, NothingHidden, MissingSettled, Arrival;
    assert forall r :: r in order ==> r in src.repos;
    hide Ordered, Described;
    if NothingHidden(src) && MissingSettled(src, refused) {
      MigrationIsIdentity(src, order, refused);
    }
    if Identity(src, Arrival(src, order, refused)) {
      IdentityShowsAll(src, order, refused);
      IdentitySettles(src, order, refused);
    }
  }

  // ---- each condition fails in an everyday working tree ----

  /** A workspace that is itself one repository. */
  function OneRepo(files: Tree, repo: Repo): Source {
    Source(files + map[[] := Dir, [".git"] := Dir], map[[] := repo], {})
  }

  const NOTE: Path := ["a"]
  const OTHER: Path := ["b"]
  const INNER: Path := ["a", "c"]

  /** `git rm --cached a` */
  function Uncached(): Source {
    OneRepo(map[NOTE := File([1])], Repo(map[NOTE := File([1])], {}, {}))
  }

  /** `git mv a b` */
  function Renamed(): Source {
    OneRepo(map[OTHER := File([1])], Repo(map[NOTE := File([1])], {OTHER}, {NOTE}))
  }

  /** `git add a; rm a; mkdir a; echo > a/c` */
  function Replaced(): Source {
    OneRepo(map[NOTE := Dir, INNER := File([1])], Repo(map[], {NOTE}, {}))
  }

  lemma ShortAllowed(c: string)
    requires |c| == 1
    ensures !ForbiddenPart(c, true)
  {
    assert forall i :: 0 <= i < |PRIVATE_SUFFIXES| ==> |PRIVATE_SUFFIXES[i]| == 4;
    assert forall d :: d in EXCLUDED + PRIVATE_NAMES ==> |d| > 1;
  }

  lemma ExampleNames()
    ensures !Forbidden(NOTE, true) && !Forbidden(OTHER, true) && !Forbidden(INNER, true)
    ensures NOTE[..0] == [] && OTHER[..0] == [] && INNER[..0] == [] && INNER[..1] == NOTE && NOTE[..1] == NOTE
  {
    ShortAllowed("a");
    ShortAllowed("b");
    ShortAllowed("c");
  }

  lemma OneRepoFacts(files: Tree, repo: Repo)
    requires var disk := OneRepo(files, repo).disk; WellFormed(disk) && Coherent(disk, [], repo)
    requires forall a, p :: a in Clean(OneRepo(files, repo).disk, repo) && p in repo.head ==> (Under(a, p) ==> a == p)
    ensures var src := OneRepo(files, repo);
            Valid(src) && Described(src) == {[]} && Ordinary(src) && Ordered(Described(src), [[]])
  {}

  lemma OneRepoScope(files: Tree, repo: Repo, p: Path)
    requires p != [] && !Forbidden(p, true) && p[0] != ".git"
    requires p in files ==> files[p].File?
    ensures InScope(OneRepo(files, repo), p)
  {}

  /** A file taken out of the index but left on the disk does not arrive. */
  lemma {:induction false} UncachedFileIsLost()
    ensures var src := Uncached();
            && Valid(src) && Ordinary(src) && Ordered(Described(src), [[]])
            && InScope(src, NOTE) && LeafOf(src.disk, NOTE).Some?
            && LeafOf(Arrival(src, [[]], {}), NOTE) == None
  {
    hide Forbidden, InScope, Described, Arrival, Ordered;
    var src := Uncached();
    ExampleNames();
    OneRepoFacts(map[NOTE := File([1])], src.repos[[]]);
    OneRepoScope(map[NOTE := File([1])], src.repos[[]], NOTE);
    DeletedIsLost(src, [[]], {}, 0, NOTE);
  }

  /** The old name of a renamed file arrives beside the new one. */
  lemma {:induction false} RenamedFileComesBack()
    ensures var src := Renamed();
            && Valid(src) && Ordinary(src) && Ordered(Described(src), [[]])
            && InScope(src, NOTE) && LeafOf(src.disk, NOTE) == None
            && LeafOf(Arrival(src, [[]], {}), NOTE).Some?
  {
    hide Forbidden, InScope, Described, Arrival, Ordered;
    var src := Renamed();
    ExampleNames();
    OneRepoFacts(map[OTHER := File([1])], src.repos[[]]);
    OneRepoScope(map[OTHER := File([1])], src.repos[[]], NOTE);
    assert !Shadowed(src, NOTE) by {
      forall q | LeafOf(src.disk, q).Some? ensures q == OTHER {}
    }
    SparedComesBack(src, [[]], {}, 0, NOTE);
  }

  /** A file in a directory that replaced a staged file does not arrive. */
  lemma {:induction false} ReplacedDirectoryIsLost()
    ensures var src := Replaced();
            && Valid(src) && Ordinary(src) && Ordered(Described(src), [[]])
            && InScope(src, INNER) && LeafOf(src.disk, INNER).Some?
            && LeafOf(Arrival(src, [[]], {}), INNER) == None
  {
    hide Forbidden, InScope, Described, Arrival, Ordered;
    var src := Replaced();
    ExampleNames();
    OneRepoFacts(map[NOTE := Dir, INNER := File([1])], src.repos[[]]);
    OneRepoScope(map[NOTE := Dir, INNER := File([1])], src.repos[[]], INNER);
    assert NOTE in Clean(src.disk, src.repos[[]]);
    assert NOTE in Listed(src)[[]] && CleanFrom(NOTE, 0, Listed(src));
    HiddenIsLost(src, [[]], {}, INNER, 1);
  }

  /** `git clone <url> a; git add a; git commit`, without a `.gitmodules` */
  function Embedded(): Source {
    Source(map[[] := Dir, [".git"] := Dir, NOTE := Dir, NOTE + [".git"] := Dir, INNER := File([1])],
           map[[] := Repo(map[], {NOTE}, {}), NOTE := Repo(map[INNER := File([1])], {INNER}, {})], {})
  }

  lemma EmbeddedFacts()
    requires INNER[..0] == [] && INNER[..1] == NOTE && NOTE[..0] == [] && NOTE[..1] == NOTE
    ensures var src := Embedded();
            && Valid(src) && NOTE in src.repos && NOTE in Clean(src.disk, src.repos[[]])
            && CleanInRepo(NOTE, Listed(src))
  {
    var src := Embedded();
    var dir := NOTE + [".git"];
    assert dir[..0] == [] && dir[..1] == NOTE;
    assert [".git"][..0] == [];
    assert Coherent(src.disk, [], src.repos[[]]);
    assert Coherent(src.disk, NOTE, src.repos[NOTE]);
    assert NOTE in Listed(src)[[]] && CleanFrom(NOTE, 0, Listed(src));
  }

  lemma EmbeddedOrder()
    requires INNER[..0] == [] && INNER[..1] == NOTE && NOTE[..0] == [] && NOTE[..1] == NOTE
    requires CleanInRepo(NOTE, Listed(Embedded()))
    ensures Described(Embedded()) == {[]} && Ordered(Described(Embedded()), [[]]) && Ordinary(Embedded())
  {
    var src := Embedded();
    assert Skipped(src, NOTE[..1]);
    assert !Open(src, NOTE);
    assert Open(src, []);
    hide Skipped, Open;
    assert Described(src) == {[]};
  }

  /** A repository inside another one, committed without being a submodule, does
      not arrive: the walk takes it for an unchanged file of the outer one. */
  lemma {:induction false} EmbeddedRepoIsLost()
    ensures var src := Embedded();
            && Valid(src) && Ordinary(src) && Ordered(Described(src), [[]])
            && NOTE in src.repos && NOTE !in Described(src)
            && InScope(src, INNER) && LeafOf(src.disk, INNER).Some?
            && LeafOf(Arrival(src, [[]], {}), INNER) == None
  {
    ExampleNames();
    EmbeddedFacts();
    EmbeddedOrder();
    var src := Embedded();
    assert InScope(src, INNER) by {
      hide Forbidden, Described;
    }
    hide Forbidden, InScope, Described, Arrival, Ordered, Valid, Ordinary, CleanInRepo;
    HiddenIsLost(src, [[]], {}, INNER, 1);
  }
}
