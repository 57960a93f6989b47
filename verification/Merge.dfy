/** `merge_tree`: the entries of one directory are moved over another, in place. */
module Merge {
  import opened Wrappers
  import opened Trees

  /** A directory on disk, addressed by paths relative to it. */
  class Folder {
    var nodes: Tree

    constructor (nodes: Tree)
      ensures this.nodes == nodes
    {
      this.nodes := nodes;
    }

    /** `shutil.rmtree` and `Path.unlink`: the entry goes, with whatever is below it. */
    method Remove(p: Path)
      modifies this
      ensures nodes == Without(old(nodes), p)
    {
      nodes := Without(nodes, p);
    }

    /** A rename: the entry changes hands with everything below it. */
    method MoveTo(p: Path, other: Folder)
      requires this != other
      modifies this, other
      ensures nodes == Without(old(nodes), p)
      ensures other.nodes == old(other.nodes) + At(old(nodes), p)
    {
      other.nodes := other.nodes + At(nodes, p);
      nodes := Without(nodes, p);
    }

    /** The directories above `p` are made where they are missing. */
    method MakeParents(p: Path)
      requires Reachable(nodes, p)
      modifies this
      ensures nodes == old(nodes) + Above(p)
    {
      nodes := nodes + Above(p);
    }
  }

  /** How an operation ends: done, refused with an error, or cut off by the machine. */
  datatype Outcome = Done | Failed | Cut

  /** How many more operations on the disk are carried out before the machine
      stops; `None`: it does not stop. */
  class Power {
    var left: Option<nat>

    constructor (left: Option<nat>)
      ensures this.left == left
    {
      this.left := left;
    }

    /** Asked before each operation: `true` ends everything there. */
    method Fails() returns (cut: bool)
      modifies this
      ensures cut == (old(left) == Some(0))
      ensures left == (if old(left) == None || cut then old(left) else Some(old(left).value - 1))
    {
      cut := left == Some(0);
      if !cut && left.Some? {
        left := Some(left.value - 1);
      }
    }
  }

  // ---- wherever it is cut off ----

  /** From `o` over `b` to `o2` over `b2`, within `at`: nothing is invented; a leaf
      of the overlay is still there or has arrived; what the overlay does not touch
      stays. Leaves in `gone` may disappear. */
  ghost predicate Between(o: Tree, b: Tree, o2: Tree, b2: Tree, at: Path, gone: set<Path>) {
    && (forall q :: q in o2 ==> q in o && o2[q] == o[q])
    && (forall q :: q in o && !Under(at, q) ==> q in o2)
    && (forall q :: q in b2 ==> (q in b && b2[q] == b[q]) || (Under(at, q) && q in o && b2[q] == o[q]))
    && (forall q :: LeafOf(o, q).Some? && q !in gone ==> LeafOf(o2, q) == LeafOf(o, q) || LeafOf(b2, q) == LeafOf(o, q))
    && (forall q :: q in b && !(Under(at, q) && (q in o || Blocked(o, q))) && !(q in gone && b[q] != Dir) ==>
          q in b2 && b2[q] == b[q])
  }

  lemma BetweenTransitive(o: Tree, b: Tree, o1: Tree, b1: Tree, o2: Tree, b2: Tree, at: Path, gone: set<Path>)
    requires WellFormed(o) && Between(o, b, o1, b1, at, gone) && Between(o1, b1, o2, b2, at, gone)
    ensures Between(o, b, o2, b2, at, gone)
  {
    forall q | LeafOf(o, q).Some? ensures !Blocked(o1, q) && (q in o1 ==> o1[q] == o[q]) {}
    forall q | Blocked(o1, q) ensures Blocked(o, q) {}
  }

  lemma BetweenSame(o: Tree, b: Tree, at: Path, gone: set<Path>)
    ensures Between(o, b, o, b, at, gone)
  {}

  lemma BetweenWider(o: Tree, b: Tree, o2: Tree, b2: Tree, at: Path, entry: Path)
    requires Between(o, b, o2, b2, entry, {}) && Under(at, entry)
    ensures Between(o, b, o2, b2, at, {})
  {
    forall q | Under(entry, q) ensures Under(at, q) {
      UnderTransitive(at, entry, q);
    }
  }

  /** The target of a move is cleared. */
  lemma ClearedBetween(o: Tree, b: Tree, at: Path, entry: Path)
    requires WellFormed(b) && Under(at, entry) && entry in o
    requires !(o[entry] == Dir && entry in b && b[entry] == Dir)
    ensures Between(o, b, o, Without(b, entry), at, {})
  {
    forall q | q in b && Under(entry, q) ensures Under(at, q) && (q in o || Blocked(o, q)) {
      UnderTransitive(at, entry, q);
      if q != entry {
        assert q[..|entry|] == entry;
      }
    }
  }

  /** The move itself. */
  lemma MovedBetween(o: Tree, b: Tree, at: Path, entry: Path)
    requires Under(at, entry) && entry in o
    ensures Between(o, b, Without(o, entry), b + At(o, entry), at, {})
  {
    forall q | Under(entry, q) ensures Under(at, q) {
      UnderTransitive(at, entry, q);
    }
  }

  /** What the loop knows when it turns to the child `name` of `at`. */
  ghost predicate Turn(o: Tree, b: Tree, done: set<Path>, at: Path, name: string) {
    && WellFormed(o) && WellFormed(b)
    && at in o && o[at] == Dir && at in b && b[at] == Dir
    && at + [name] in o
    && forall r :: r in done ==> |r| == |at| + 1 && Under(at, r) && r != at + [name]
  }

  lemma Untouched(done: set<Path>, at: Path, name: string, q: Path)
    requires forall r :: r in done ==> |r| == |at| + 1 && r != at + [name]
    requires Under(at + [name], q) || |q| <= |at|
    ensures !Below(done, q)
  {}

  lemma ChildUnchanged(o: Tree, b: Tree, done: set<Path>, at: Path, name: string)
    requires Turn(o, b, done, at, name)
    ensures At(Left(o, b, done), at + [name]) == At(o, at + [name])
    ensures At(Through(o, b, done), at + [name]) == At(b, at + [name])
    ensures at in Left(o, b, done) && Left(o, b, done)[at] == Dir
  {}

  lemma ParentStands(o: Tree, b: Tree, done: set<Path>, at: Path, name: string)
    requires Turn(o, b, done, at, name)
    ensures at in Through(o, b, done) && Through(o, b, done)[at] == Dir
  {
    Untouched(done, at, name, at);
  }

  lemma BelowOne(done: set<Path>, p: Path, q: Path)
    ensures Below(done + {p}, q) <==> Below(done, q) || Under(p, q)
  {}

  lemma LeftWellFormed(o: Tree, b: Tree, done: set<Path>, at: Path, name: string)
    requires Turn(o, b, done, at, name)
    ensures WellFormed(Left(o, b, done))
  {}

  lemma ThroughWellFormed(o: Tree, b: Tree, done: set<Path>, at: Path, name: string)
    requires Turn(o, b, done, at, name)
    ensures WellFormed(Through(o, b, done))
  {
    var t := Through(o, b, done);
    Untouched(done, at, name, []);
    forall p, k | p in t && 0 <= k < |p| ensures p[..k] in t && t[p[..k]] == Dir {
      ThroughAncestor(o, b, done, at, p, k);
    }
  }

  lemma ThroughAncestor(o: Tree, b: Tree, done: set<Path>, at: Path, p: Path, k: nat)
    requires WellFormed(o) && WellFormed(b)
    requires at in o && o[at] == Dir && at in b && b[at] == Dir
    requires forall r :: r in done ==> |r| == |at| + 1 && Under(at, r)
    requires p in Through(o, b, done) && k < |p|
    ensures p[..k] in Through(o, b, done) && Through(o, b, done)[p[..k]] == Dir
  {
    var a := p[..k];
    forall j | 0 <= j < k ensures a[..j] == p[..j] {}
    if Below(done, a) {
      var r :| r in done && Under(r, a);
      UnderTransitive(r, a, p);
      assert Below(done, p);
    } else if Below(done, p) && p !in b {
      var r :| r in done && Under(r, p);
      assert !Under(r, a);
      assert a == r[..k];
      assert a == at[..k];
    }
  }

  function Extent(t: Tree, at: Path): set<Path> {
    set p | p in t && Under(at, p)
  }

  lemma ExtentShrinks(o: Tree, o1: Tree, at: Path, name: string)
    requires at in o
    requires At(o1, at + [name]) == At(o, at + [name])
    ensures Extent(o1, at + [name]) < Extent(o, at)
  {
    var p := at + [name];
    forall q | q in Extent(o1, p) ensures q in Extent(o, at) {
      assert q in At(o1, p);
      UnderTransitive(at, p, q);
    }
    assert at in Extent(o, at) && at !in Extent(o1, p);
  }

  /** A child that is a directory on both sides: the recursive call did its part. */
  lemma Merged(o: Tree, b: Tree, done: set<Path>, at: Path, name: string)
    requires Turn(o, b, done, at, name)
    ensures Through(Left(o, b, done), Through(o, b, done), {at + [name]}) == Through(o, b, done + {at + [name]})
    ensures Left(Left(o, b, done), Through(o, b, done), {at + [name]}) == Left(o, b, done + {at + [name]})
  {
    MergedThrough(o, b, done, at, name);
    MergedLeft(o, b, done, at, name);
    hide *;
  }

  lemma MergedThrough(o: Tree, b: Tree, done: set<Path>, at: Path, name: string)
    requires Turn(o, b, done, at, name)
    ensures Through(Left(o, b, done), Through(o, b, done), {at + [name]}) == Through(o, b, done + {at + [name]})
  {
    var p := at + [name];
    forall q ensures Below({p}, q) <==> Under(p, q) {}
    forall q ensures Below(done + {p}, q) <==> Below(done, q) || Under(p, q) { BelowOne(done, p, q); }
    BelowChild(o, b, done, at, name);
    hide Turn, Blocked, Below, Under;
  }

  lemma MergedLeft(o: Tree, b: Tree, done: set<Path>, at: Path, name: string)
    requires Turn(o, b, done, at, name)
    ensures Left(Left(o, b, done), Through(o, b, done), {at + [name]}) == Left(o, b, done + {at + [name]})
  {
    var p := at + [name];
    forall q ensures Below({p}, q) <==> Under(p, q) {}
    forall q ensures Below(done + {p}, q) <==> Below(done, q) || Under(p, q) { BelowOne(done, p, q); }
    BelowChild(o, b, done, at, name);
    hide Turn, Blocked, Below, Under, Through;
  }

  lemma BelowChild(o: Tree, b: Tree, done: set<Path>, at: Path, name: string)
    requires Turn(o, b, done, at, name)
    ensures var o1, b1 := Left(o, b, done), Through(o, b, done);
            forall q :: Under(at + [name], q) ==>
              && !Below(done, q)
              && (q in o1 <==> q in o) && (q in o ==> o1[q] == o[q])
              && (q in b1 <==> q in b) && (q in b ==> b1[q] == b[q])
              && (Blocked(o1, q) <==> Blocked(o, q))
  {
    var p := at + [name];
    var o1, b1 := Left(o, b, done), Through(o, b, done);
    ChildUnchanged(o, b, done, at, name);
    forall q | Under(p, q)
      ensures !Below(done, q)
      ensures q in o1 <==> q in o
      ensures q in o ==> o1[q] == o[q]
      ensures q in b1 <==> q in b
      ensures q in b ==> b1[q] == b[q]
      ensures Blocked(o1, q) <==> Blocked(o, q)
    {
      Untouched(done, at, name, q);
      assert q in o1 <==> q in At(o1, p);
      assert q in b1 <==> q in At(b1, p);
      SameBlocked(o, b, done, at, name, q);
    }
  }

  lemma SameBlocked(o: Tree, b: Tree, done: set<Path>, at: Path, name: string, q: Path)
    requires Turn(o, b, done, at, name) && Under(at + [name], q)
    ensures Blocked(Left(o, b, done), q) <==> Blocked(o, q)
  {
    var p := at + [name];
    forall k | 0 <= k < |q|
      ensures q[..k] in o && o[q[..k]] != Dir ==> q[..k] in Left(o, b, done)
    {
      if k <= |at| {
        assert q[..k] == p[..k] == at[..k];
        if k < |at| { assert at[..k] == q[..k]; } else { assert at[..k] == at; }
      } else {
        assert q[..k][..|p|] == p;
        Untouched(done, at, name, q[..k]);
      }
    }
  }

  /** Any other child: whatever stood at its name is replaced by it. */
  lemma Moved(o: Tree, b: Tree, done: set<Path>, at: Path, name: string)
    requires Turn(o, b, done, at, name)
    requires var p := at + [name]; !(o[p] == Dir && p in b && b[p] == Dir)
    ensures var p := at + [name];
            Without(Through(o, b, done), p) + At(Left(o, b, done), p) == Through(o, b, done + {p})
    ensures Without(Left(o, b, done), at + [name]) == Left(o, b, done + {at + [name]})
  {
    MovedThrough(o, b, done, at, name);
    MovedLeft(o, b, done, at, name);
    hide *;
  }

  lemma MovedThrough(o: Tree, b: Tree, done: set<Path>, at: Path, name: string)
    requires Turn(o, b, done, at, name)
    requires var p := at + [name]; !(o[p] == Dir && p in b && b[p] == Dir)
    ensures var p := at + [name];
            Without(Through(o, b, done), p) + At(Left(o, b, done), p) == Through(o, b, done + {p})
  {
    var p := at + [name];
    forall q ensures Below(done + {p}, q) <==> Below(done, q) || Under(p, q) { BelowOne(done, p, q); }
    BelowChild(o, b, done, at, name);
    InTheWay(o, b, p);
    hide Turn, Blocked, Below, Under;
  }

  lemma MovedLeft(o: Tree, b: Tree, done: set<Path>, at: Path, name: string)
    requires Turn(o, b, done, at, name)
    requires var p := at + [name]; !(o[p] == Dir && p in b && b[p] == Dir)
    ensures Without(Left(o, b, done), at + [name]) == Left(o, b, done + {at + [name]})
  {
    var p := at + [name];
    forall q ensures Below(done + {p}, q) <==> Below(done, q) || Under(p, q) { BelowOne(done, p, q); }
    InTheWay(o, b, p);
    hide Turn, Blocked, Below, Under;
  }

  lemma InTheWay(o: Tree, b: Tree, p: Path)
    requires WellFormed(o) && WellFormed(b) && p in o && !(o[p] == Dir && p in b && b[p] == Dir)
    ensures forall q :: Under(p, q) && q !in o && q in b ==> Blocked(o, q)
    ensures forall q :: Under(p, q) && q in o && q in b ==> !(o[q] == Dir && b[q] == Dir)
  {
    forall q | Under(p, q) ensures q[..|p|] == p && (q != p ==> |q| > |p|) {}
  }

  lemma AllMerged(o: Tree, b: Tree, done: set<Path>, at: Path)
    requires WellFormed(o) && WellFormed(b)
    requires at in o && o[at] == Dir && at in b && b[at] == Dir
    requires forall r :: r in done <==> r in o && |r| == |at| + 1 && Under(at, r)
    ensures Through(o, b, done) == Through(o, b, {at})
    ensures Left(o, b, done) == Left(o, b, {at})
  {
    forall q ensures Below({at}, q) <==> Under(at, q) {}
    forall q | Under(at, q) && !Below(done, q)
      ensures q == at || (q !in o && !Blocked(o, q))
    {
      if q != at {
        var c := q[..|at| + 1];
        assert Under(at, c) by { assert c[..|at|] == q[..|at|]; }
        assert Under(c, q);
        assert c !in o;
        forall k | 0 <= k < |q| ensures q[..k] in o ==> o[q[..k]] == Dir {
          if k <= |at| {
            assert q[..k] == at[..k];
            if k == |at| { assert at[..k] == at; }
          } else {
            assert q[..k][..|at| + 1] == c;
          }
        }
      }
    }
    forall q | Below(done, q) ensures Under(at, q) {
      var r :| r in done && Under(r, q);
      UnderTransitive(at, r, q);
    }
  }

  /** The children of `at` whose names are no longer pending. */
  ghost function Done(o: Tree, at: Path, names: set<string>): (done: set<Path>) {
    set r | r in o && |r| == |at| + 1 && Under(at, r) && r[|at|] !in names
  }

  lemma Begin(o: Tree, b: Tree, at: Path)
    ensures Done(o, at, Children(o, at)) == {}
    ensures Through(o, b, {}) == b && Left(o, b, {}) == o
  {}

  lemma TakeTurn(o: Tree, b: Tree, names: set<string>, at: Path, name: string)
    requires WellFormed(o) && WellFormed(b)
    requires at in o && o[at] == Dir && at in b && b[at] == Dir
    requires names <= Children(o, at) && name in names
    ensures var done := Done(o, at, names);
            var entry := at + [name];
            && Turn(o, b, done, at, name)
            && Done(o, at, names - {name}) == done + {entry}
            && entry in Left(o, b, done) && Left(o, b, done)[entry] == o[entry]
            && (entry in Through(o, b, done) <==> entry in b)
            && (entry in b ==> Through(o, b, done)[entry] == b[entry])
  {
    var done, entry := Done(o, at, names), at + [name];
    var c :| c in o && |c| == |at| + 1 && Under(at, c) && c[|at|] == name;
    assert c == entry;
    forall r | r in Done(o, at, names - {name}) ensures r in done + {entry} {
      if r[|at|] == name { assert r == entry; }
    }
    Untouched(done, at, name, entry);
  }

  method MergeTree(overlay: Folder, base: Folder, at: Path, power: Power) returns (cut: bool)
    requires overlay != base
    requires WellFormed(overlay.nodes) && WellFormed(base.nodes)
    requires at in overlay.nodes && overlay.nodes[at] == Dir
    requires at in base.nodes && base.nodes[at] == Dir
    modifies overlay, base, power
    ensures !cut ==> base.nodes == Through(old(overlay.nodes), old(base.nodes), {at})
    ensures !cut ==> overlay.nodes == Left(old(overlay.nodes), old(base.nodes), {at})
    ensures Between(old(overlay.nodes), old(base.nodes), overlay.nodes, base.nodes, at, {})
    ensures WellFormed(overlay.nodes) && WellFormed(base.nodes) && at in base.nodes && base.nodes[at] == Dir
    ensures old(power.left) == None ==> !cut && power.left == None
    decreases Extent(overlay.nodes, at), 1
  {
    hide Between, WellFormed;
    ghost var o, b := overlay.nodes, base.nodes;
    var names := Children(overlay.nodes, at);
    Begin(o, b, at);
    BetweenSame(o, b, at, {});
    while names != {}
      invariant names <= Children(o, at)
      invariant base.nodes == Through(o, b, Done(o, at, names))
      invariant overlay.nodes == Left(o, b, Done(o, at, names))
      invariant Between(o, b, overlay.nodes, base.nodes, at, {})
      invariant WellFormed(overlay.nodes) && WellFormed(base.nodes) && at in base.nodes && base.nodes[at] == Dir
      invariant old(power.left) == None ==> power.left == None
      decreases names
    {
      var name :| name in names;
      var entry := at + [name];
      TakeTurn(o, b, names, at, name);
      ghost var o1, b1 := overlay.nodes, base.nodes;
      cut := MergeEntry(overlay, base, at, name, power, o, b, Done(o, at, names));
      BetweenTransitive(o, b, o1, b1, overlay.nodes, base.nodes, at, {});
      if cut {
        return;
      }
      names := names - {name};
    }
    AllMerged(o, b, Done(o, at, {}), at);
    cut := false;
  }

  /** One turn of the loop: the child `name` of `at`. */
  method MergeEntry(overlay: Folder, base: Folder, at: Path, name: string, power: Power,
                    ghost o: Tree, ghost b: Tree, ghost done: set<Path>) returns (cut: bool)
    requires overlay != base
    requires Turn(o, b, done, at, name)
    requires base.nodes == Through(o, b, done) && overlay.nodes == Left(o, b, done)
    requires at + [name] in overlay.nodes && overlay.nodes[at + [name]] == o[at + [name]]
    requires at + [name] in base.nodes <==> at + [name] in b
    requires at + [name] in b ==> base.nodes[at + [name]] == b[at + [name]]
    modifies overlay, base, power
    ensures !cut ==> base.nodes == Through(o, b, done + {at + [name]})
    ensures !cut ==> overlay.nodes == Left(o, b, done + {at + [name]})
    ensures Between(old(overlay.nodes), old(base.nodes), overlay.nodes, base.nodes, at, {})
    ensures WellFormed(overlay.nodes) && WellFormed(base.nodes) && at in base.nodes && base.nodes[at] == Dir
    ensures old(power.left) == None ==> !cut && power.left == None
    decreases Extent(o, at), 0
  {
    hide Between, WellFormed, Blocked, Through, Left;
    var entry := at + [name];
    LeftWellFormed(o, b, done, at, name);
    ThroughWellFormed(o, b, done, at, name);
    ChildUnchanged(o, b, done, at, name);
    ParentStands(o, b, done, at, name);
    if overlay.nodes[entry] == Dir && entry in base.nodes && base.nodes[entry] == Dir {
      ExtentShrinks(o, overlay.nodes, at, name);
      Merged(o, b, done, at, name);
      cut := MergeTree(overlay, base, entry, power);
      BetweenWider(old(overlay.nodes), old(base.nodes), overlay.nodes, base.nodes, at, entry);
      PrefixThere(base.nodes, at, entry);
    } else {
      Moved(o, b, done, at, name);
      ghost var o1, b1 := overlay.nodes, base.nodes;
      BetweenSame(o1, b1, at, {});
      cut := power.Fails();
      if cut { return; }
      ClearedBetween(o1, b1, at, entry);
      WithoutWellFormed(b1, entry);
      base.Remove(entry);
      cut := power.Fails();
      if cut { return; }
      MovedBetween(o1, base.nodes, at, entry);
      BetweenTransitive(o1, b1, o1, base.nodes, Without(o1, entry), base.nodes + At(o1, entry), at, {});
      WithoutWellFormed(o1, entry);
      PlacedInParent(o1, base.nodes, at, name);
      overlay.MoveTo(entry, base);
    }
  }

  lemma PrefixThere(t: Tree, at: Path, p: Path)
    requires WellFormed(t) && p in t && Under(at, p) && at != p
    ensures at in t && t[at] == Dir
  {
    assert p[..|at|] == at;
  }

  lemma WithoutWellFormed(t: Tree, p: Path)
    requires WellFormed(t) && p != []
    ensures WellFormed(Without(t, p))
  {
    forall q, k | q in t && 0 <= k < |q| && Under(p, q[..k]) ensures Under(p, q) {
      assert q[..|p|] == q[..k][..|p|];
    }
  }

  /** A subtree comes to stand in a directory that is there. */
  lemma PlacedInParent(o: Tree, b: Tree, at: Path, name: string)
    requires WellFormed(o) && WellFormed(b) && at in b && b[at] == Dir
    requires at + [name] in o && at + [name] !in b
    ensures WellFormed(b + At(o, at + [name]))
  {
    var entry := at + [name];
    var t := b + At(o, entry);
    forall q, k | q in t && 0 <= k < |q| ensures q[..k] in t && t[q[..k]] == Dir {
      if Under(entry, q) && q in o {
        if k >= |entry| {
          assert q[..k][..|entry|] == entry;
        } else {
          assert q[..k] == at[..k];
          assert k == |at| ==> at[..k] == at;
        }
      }
    }
  }
}
