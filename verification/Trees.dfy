/** Directory trees as finite maps from relative paths to nodes, and the
    overlay of one tree on another. */
module Trees {
  import opened Wrappers

  type Path = seq<string>

  /** What `os.walk` and `lstat` tell apart. A symbolic link is a leaf. */
  datatype Node = File(data: seq<int>) | Link(target: string) | Special | Dir

  type Tree = map<Path, Node>

  /** `p` is `r` or lies below it. */
  predicate Under(r: Path, p: Path) {
    |r| <= |p| && p[..|r|] == r
  }

  predicate Below(roots: set<Path>, p: Path) {
    exists r :: r in roots && Under(r, p)
  }

  ghost predicate WellFormed(t: Tree) {
    && [] in t && t[[]] == Dir
    && forall p, k :: p in t && 0 <= k < |p| ==> p[..k] in t && t[p[..k]] == Dir
  }

  /** A leaf of `o` sits at a proper ancestor of `p`. */
  ghost predicate Blocked(o: Tree, p: Path) {
    exists k :: 0 <= k < |p| && p[..k] in o && o[p[..k]] != Dir
  }

  /** The overlay of `o` on `b` at and below `roots`, and `b` elsewhere. */
  ghost function Through(o: Tree, b: Tree, roots: set<Path>): Tree {
    map p | p in o.Keys + b.Keys
            && (if Below(roots, p) then p in o || !Blocked(o, p) else p in b)
      :: if Below(roots, p) && p in o then o[p] else b[p]
  }

  /** The overlay of the whole of `o` on `b`. */
  ghost function Overlaid(o: Tree, b: Tree): Tree {
    map p | p in o.Keys + b.Keys && (p in o || !Blocked(o, p)) :: if p in o then o[p] else b[p]
  }

  /** What moving `o` onto `b` leaves behind in `o`: directories that `b` had too. */
  ghost function Left(o: Tree, b: Tree, roots: set<Path>): Tree {
    map p | p in o && (Below(roots, p) ==> o[p] == Dir && p in b && b[p] == Dir) :: o[p]
  }

  /** The file, link or special file at `p`, if that is what is there. */
  function LeafOf(t: Tree, p: Path): Option<Node> {
    if p in t && t[p] != Dir then Some(t[p]) else None
  }

  function Without(t: Tree, p: Path): Tree {
    map q | q in t && !Under(p, q) :: t[q]
  }

  function At(t: Tree, p: Path): Tree {
    map q | q in t && Under(p, q) :: t[q]
  }

  function Prefixes(p: Path): set<Path> {
    set k | 0 <= k <= |p| :: p[..k]
  }

  /** `p` and its ancestors, as directories. */
  function Spine(p: Path): Tree {
    map q | q in Prefixes(p) :: Dir
  }

  /** The proper ancestors of `p`, as directories. */
  function Above(p: Path): Tree {
    map q | q in Prefixes(p) && q != p :: Dir
  }

  /** Making the directories above `p` fails on an ancestor that is no directory. */
  predicate Reachable(t: Tree, p: Path) {
    forall k :: 0 <= k < |p| && p[..k] in t ==> t[p[..k]] == Dir
  }

  /** A new leaf, with the directories it needs. */
  function Grown(t: Tree, p: Path, node: Node): Tree {
    t + Above(p) + map[p := node]
  }

  function Leaves(t: Tree): Tree {
    map p | p in t && t[p] != Dir :: t[p]
  }

  /** The leaves of `m` with the directories they need. */
  ghost function Staged(m: Tree): Tree {
    map q | q in {[]} + (set p: Path, k | p in m && 0 <= k <= |p| :: p[..k]) :: if q in m then m[q] else Dir
  }

  /** No entry of `m` stands in another's way. */
  ghost predicate PrefixFree(m: Tree) {
    && [] !in m
    && (forall p :: p in m ==> m[p] != Dir)
    && forall p, k :: p in m && 0 <= k < |p| ==> p[..k] !in m
  }

  lemma StagedWellFormed(m: Tree)
    requires PrefixFree(m)
    ensures WellFormed(Staged(m))
    ensures forall p :: LeafOf(Staged(m), p) == if p in m then Some(m[p]) else None
  {
    var t := Staged(m);
    forall q, j | q in t && 0 <= j < |q| ensures q[..j] in t && t[q[..j]] == Dir {
      var p: Path, k :| p in m && 0 <= k <= |p| && p[..k] == q;
      assert p[..j] == q[..j];
    }
    forall p | p in m ensures p in t {
      assert p[..|p|] == p;
    }
  }

  ghost predicate PartOf(a: Tree, b: Tree) {
    forall q :: q in a ==> q in b && b[q] == a[q]
  }

  lemma StagedPart(a: Tree, b: Tree)
    requires PartOf(a, b) && PrefixFree(b)
    ensures PartOf(Staged(a), Staged(b))
  {
    forall q | q in Staged(a) ensures q in Staged(b) && Staged(b)[q] == Staged(a)[q] {
      if q != [] {
        var p: Path, k :| p in a && 0 <= k <= |p| && p[..k] == q;
        assert p in b && (k == |p| ==> q == p);
      }
    }
  }

  /** A tree with all the leaves of `m` has all that `m` needs. */
  lemma StagedAll(m: Tree, f: Tree)
    requires PrefixFree(m) && WellFormed(f) && forall p :: p in m ==> LeafOf(f, p) == Some(m[p])
    ensures PartOf(Staged(m), f)
    ensures PartOf(f, Staged(m)) ==> f == Staged(m)
  {
    forall q | q in Staged(m) ensures q in f && f[q] == Staged(m)[q] {
      if q !in m && q != [] {
        var p: Path, k :| p in m && 0 <= k <= |p| && p[..k] == q;
        assert k == |p| ==> q == p;
        assert p in f;
      }
    }
  }

  function Children(t: Tree, at: Path): set<string> {
    set p | p in t && |p| == |at| + 1 && Under(at, p) :: p[|at|]
  }

  lemma UnderTransitive(a: Path, b: Path, c: Path)
    requires Under(a, b) && Under(b, c)
    ensures Under(a, c)
  {}

  lemma Comparable(a: Path, b: Path, c: Path)
    requires Under(a, c) && Under(b, c)
    ensures Under(a, b) || Under(b, a)
  {}

  lemma ThroughWhole(o: Tree, b: Tree)
    requires WellFormed(o) && WellFormed(b)
    ensures Through(o, b, {[]}) == Overlaid(o, b)
  {}

  lemma OverlaidWellFormed(o: Tree, b: Tree)
    requires WellFormed(o) && WellFormed(b)
    ensures WellFormed(Overlaid(o, b))
  {
    var t := Overlaid(o, b);
    forall p, k | p in t && 0 <= k < |p| ensures p[..k] in t && t[p[..k]] == Dir {
      if p !in o {
        forall j | 0 <= j < k ensures p[..k][..j] == p[..j] {}
      }
    }
  }

  lemma ThroughOneWellFormed(o: Tree, b: Tree, at: Path)
    requires WellFormed(o) && WellFormed(b)
    requires at in o && o[at] == Dir && at in b && b[at] == Dir
    ensures WellFormed(Through(o, b, {at}))
  {
    var t := Through(o, b, {at});
    forall q ensures Below({at}, q) <==> Under(at, q) {}
    assert at != [] ==> !Under(at, []);
    forall p, k | p in t && 0 <= k < |p| ensures p[..k] in t && t[p[..k]] == Dir {
      var a := p[..k];
      forall j | 0 <= j < k ensures a[..j] == p[..j] {}
      if Under(at, a) {
        UnderTransitive(at, a, p);
      } else if Under(at, p) {
        assert a == at[..k];
      }
    }
  }

  /** Merging the same overlay again changes nothing. */
  lemma OverlayIdempotent(o: Tree, b: Tree)
    ensures Overlaid(o, Overlaid(o, b)) == Overlaid(o, b)
  {}

  /** Three overlays need not associate: a file between two directories cuts
      off what lies under it only when it is merged first. */
  lemma OverlayNotAssociative()
    ensures exists a: Tree, b: Tree, c: Tree ::
      && WellFormed(a) && WellFormed(b) && WellFormed(c)
      && Overlaid(a, Overlaid(b, c)) != Overlaid(Overlaid(a, b), c)
  {
    var d: Path, x: Path := ["d"], ["d", "x"];
    var a: Tree := map[[] := Dir, d := Dir];
    var b: Tree := map[[] := Dir, d := File([])];
    var c: Tree := map[[] := Dir, d := Dir, x := File([])];
    assert x[..0] == [] && x[..1] == d && d[..0] == [];
    assert WellFormed(a) && WellFormed(b) && WellFormed(c);
    assert Overlaid(a, b)[d] == Dir;
    assert x !in a && x !in b;
    assert Blocked(b, x);
    assert x !in Overlaid(b, c);
    assert !Blocked(Overlaid(a, b), x);
    assert x in Overlaid(Overlaid(a, b), c);
  }

  lemma MoreFree(m: Tree, p: Path, node: Node)
    requires PrefixFree(m) && p != [] && node != Dir
    requires forall q :: q in m && q != p ==> !Under(p, q) && !Under(q, p)
    ensures PrefixFree(m[p := node])
  {
    forall q, k | q in m[p := node] && 0 <= k < |q| ensures q[..k] !in m[p := node] {
      assert Under(q[..k], q);
    }
  }

  lemma MoreReachable(m: Tree, p: Path)
    requires PrefixFree(m) && p != []
    requires forall q :: q in m && q != p ==> !Under(p, q) && !Under(q, p)
    ensures Reachable(Staged(m), p) && (p in Staged(m) ==> p in m)
  {
    StagedWellFormed(m);
    forall k | 0 <= k < |p| && p[..k] in Staged(m) ensures Staged(m)[p[..k]] == Dir {
      assert Under(p[..k], p);
    }
  }

  /** One more leaf that is in nobody's way. */
  lemma GrownStaged(m: Tree, p: Path, node: Node)
    requires PrefixFree(m) && p != [] && node != Dir
    requires forall q :: q in m && q != p ==> !Under(p, q) && !Under(q, p)
    ensures PrefixFree(m[p := node])
    ensures Reachable(Staged(m), p) && (p in Staged(m) ==> p in m)
    ensures Grown(Staged(m), p, node) == Staged(m[p := node])
  {
    hide PrefixFree, Reachable, Staged, Grown, Under;
    MoreFree(m, p, node);
    MoreReachable(m, p);
    StagedMore(m, p, node);
  }

  lemma StagedMore(m: Tree, p: Path, node: Node)
    requires PrefixFree(m[p := node])
    ensures Grown(Staged(m), p, node) == Staged(m[p := node])
  {
    GrownInStaged(m, p, node);
    StagedInGrown(m, p, node);
    var a, b := Grown(Staged(m), p, node), Staged(m[p := node]);
    hide Grown, Staged;
    assert a.Keys == b.Keys;
  }

  lemma GrownInStaged(m: Tree, p: Path, node: Node)
    requires PrefixFree(m[p := node])
    ensures var a, b := Grown(Staged(m), p, node), Staged(m[p := node]);
            forall q :: q in a ==> q in b && b[q] == a[q]
  {
    var m', a, b := m[p := node], Grown(Staged(m), p, node), Staged(m[p := node]);
    forall q | q in a ensures q in b && b[q] == a[q] {
      if q == p {
        assert p[..|p|] == p;
      } else if q in Above(p) {
        var k :| 0 <= k <= |p| && p[..k] == q;
        assert p in m';
      } else if q != [] {
        var h: Path, k :| h in m && 0 <= k <= |h| && h[..k] == q;
        assert h in m';
      }
    }
  }

  lemma StagedInGrown(m: Tree, p: Path, node: Node)
    ensures forall q :: q in Staged(m[p := node]) ==> q in Grown(Staged(m), p, node)
  {}
}
