/** The target's side of a transfer: chunks in, a checked tree out. */
module Staging {
  import opened Wrappers
  import opened Trees
  import opened Names
  import opened Manifests
  import opened Merge

  const CHUNK: nat := 2 * 1024 * 1024

  /** What may stand in the stage where `e` will be. */
  predicate Fits(e: Entry, node: Node) {
    match e
    case FileEntry(_, size, _) => node.File? && |node.data| <= size
    case LinkEntry(_, target) => node == Link(target)
  }

  /** The stage holds beginnings of the manifest's files, its links, and the
      directories they need. */
  ghost predicate Holds(nodes: Tree, manifest: seq<Entry>) {
    && PrefixFree(Leaves(nodes)) && nodes == Staged(Leaves(nodes))
    && forall p :: p in Leaves(nodes) ==> exists e :: e in manifest && PathOf(e) == p && Fits(e, nodes[p])
  }

  lemma EmptyHolds(manifest: seq<Entry>)
    ensures Holds(map[[] := Dir], manifest)
  {}

  /** An entry's leaf can be created or replaced without disturbing the others. */
  lemma GrownHolds(nodes: Tree, manifest: seq<Entry>, outside: set<Entry>, e: Entry, node: Node)
    requires Accepted(manifest, outside) && Holds(nodes, manifest)
    requires e in manifest && PathOf(e) != [] && Fits(e, node)
    ensures Reachable(nodes, PathOf(e))
    ensures PathOf(e) in nodes ==> nodes[PathOf(e)] != Dir && Fits(e, nodes[PathOf(e)])
    ensures Holds(Grown(nodes, PathOf(e), node), manifest)
    ensures Leaves(Grown(nodes, PathOf(e), node)) == Leaves(nodes)[PathOf(e) := node]
  {
    var p, m := PathOf(e), Leaves(nodes);
    OthersApart(nodes, manifest, outside, e);
    assert node != Dir;
    hide Accepted, PathOf, Staged, PrefixFree, Fits, Reachable, Under;
    GrownStaged(m, p, node);
    LeavesStaged(m);
    LeavesStaged(m[p := node]);
    if p in nodes {
      SameFits(nodes, manifest, outside, e);
    }
    hide Grown, Leaves;
  }

  lemma SameFits(nodes: Tree, manifest: seq<Entry>, outside: set<Entry>, e: Entry)
    requires Accepted(manifest, outside) && Holds(nodes, manifest) && e in manifest && PathOf(e) in Leaves(nodes)
    ensures Fits(e, nodes[PathOf(e)])
  {
    hide Accepted, PathOf, Staged, PrefixFree, Fits;
    var f :| f in manifest && PathOf(f) == PathOf(e) && Fits(f, nodes[PathOf(e)]);
    SameEntry(manifest, outside, e, f);
  }

  lemma OthersApart(nodes: Tree, manifest: seq<Entry>, outside: set<Entry>, e: Entry)
    requires Accepted(manifest, outside) && Holds(nodes, manifest) && e in manifest && PathOf(e) != []
    ensures forall q :: q in Leaves(nodes) && q != PathOf(e) ==> !Under(PathOf(e), q) && !Under(q, PathOf(e))
  {}

  lemma LeavesStaged(m: Tree)
    requires PrefixFree(m)
    ensures Leaves(Staged(m)) == m
  {
    StagedWellFormed(m);
    assert forall p :: LeafOf(Staged(m), p) == if p in m then Some(m[p]) else None;
  }

  lemma SameEntry(manifest: seq<Entry>, outside: set<Entry>, a: Entry, b: Entry)
    requires Accepted(manifest, outside) && a in manifest && b in manifest
    requires PathOf(a) == PathOf(b)
    ensures a == b
  {}

  function Find(manifest: seq<Entry>, name: string): (e: Option<Entry>)
    ensures e.Some? ==> e.value in manifest && e.value.name == name
    ensures e.None? ==> forall x :: x in manifest ==> x.name != name
  {
    if manifest == [] then None
    else if manifest[0].name == name then Some(manifest[0])
    else Find(manifest[1..], name)
  }

  /** The bytes staged at `p` so far. */
  function Received(nodes: Tree, p: Path): seq<int> {
    if p in nodes && nodes[p].File? then nodes[p].data else []
  }

  predicate IsEmptyFile(e: Entry) {
    e.FileEntry? && e.size == 0 && PathOf(e) != []
  }

  function EmptyFiles(m: seq<Entry>): Tree {
    if m == [] then map[]
    else
      var rest, e := EmptyFiles(m[..|m| - 1]), m[|m| - 1];
      if IsEmptyFile(e) then rest[PathOf(e) := File([])] else rest
  }

  /** What the source node would send: the manifest describes it. */
  ghost predicate SentFrom(source: Tree, manifest: seq<Entry>) {
    forall e :: e in manifest && e.FileEntry? ==>
      && PathOf(e) in source && source[PathOf(e)].File?
      && e.size == |source[PathOf(e)].data| && e.hash == Some(source[PathOf(e)].data)
  }

  /** Every staged file is a prefix of the source's file. */
  ghost predicate Beginnings(nodes: Tree, source: Tree) {
    forall p :: p in nodes && nodes[p].File? ==>
      p in source && source[p].File? && nodes[p].data <= source[p].data
  }

  /** `raw` is what `read` returns at `offset` of the source's file. */
  ghost predicate HonestChunk(source: Tree, p: Path, offset: int, raw: seq<int>) {
    p in source && source[p].File?
    && 0 <= offset && offset + |raw| <= |source[p].data|
    && raw == source[p].data[offset..offset + |raw|]
  }

  ghost predicate Complete(nodes: Tree, manifest: seq<Entry>) {
    forall e :: e in manifest && e.FileEntry? ==>
      PathOf(e) in nodes && nodes[PathOf(e)].File?
      && |nodes[PathOf(e)].data| == e.size && e.hash == Some(nodes[PathOf(e)].data)
  }

  class Stage {
    const outside: set<Entry>
    var manifest: Option<seq<Entry>>  // transfer.json
    const files: Folder               // files/

    ghost predicate Valid()
      reads this, files
    {
      match manifest
      case None => files.nodes == map[[] := Dir]
      case Some(m) => Accepted(m, outside) && Holds(files.nodes, m)
    }

    constructor (outside: set<Entry>)
      ensures Valid() && manifest == None && this.outside == outside && fresh(files)
    {
      this.outside := outside;
      manifest := None;
      files := new Folder(map[[] := Dir]);
    }

    /** The first call stores the manifest and creates the empty files. */
    method Begin(given: Option<seq<Entry>>) returns (ok: bool)
      requires Valid() && manifest == None
      modifies this, files
      ensures Valid()
      ensures ok <==> given.Some? && Accepted(given.value, outside)
      ensures ok ==> manifest == given
      ensures ok ==> Leaves(files.nodes) == EmptyFiles(given.value)
      ensures !ok ==> manifest == None && files.nodes == old(files.nodes)
    {
      if given == None {
        return false;
      }
      ok := ValidateManifest(given.value, outside);
      if !ok {
        return;
      }
      manifest := given;
      EmptyHolds(given.value);
      assert Leaves(files.nodes) == map[];
      TouchEmpty(given.value);
    }

    /** Files of size 0 get no chunk: they are created at once. */
    method TouchEmpty(m: seq<Entry>)
      requires Accepted(m, outside) && manifest == Some(m)
      requires Holds(files.nodes, m) && Leaves(files.nodes) == map[]
      modifies files
      ensures Holds(files.nodes, m)
      ensures Leaves(files.nodes) == EmptyFiles(m)
    {
      hide Accepted, Holds, PathOf, Grown;
      for i := 0 to |m|
        invariant Holds(files.nodes, m)
        invariant Leaves(files.nodes) == EmptyFiles(m[..i])
      {
        var e := m[i];
        assert m[..i + 1][..i] == m[..i];
        // Touching "." itself changes nothing.
        if IsEmptyFile(e) {
          GrownHolds(files.nodes, m, outside, e, File([]));
          files.nodes := Grown(files.nodes, PathOf(e), File([]));
        }
      }
      assert m[..|m|] == m;
    }

    /** One chunk; `None` is an `OperationError` and changes nothing. */
    method Receive(name: string, offset: int, raw: seq<int>, ghost source: Tree) returns (received: Option<nat>)
      requires Valid() && manifest.Some?
      modifies files
      ensures Valid()
      ensures received == None ==> files.nodes == old(files.nodes)
      ensures received.Some? <==>
                var e := Find(manifest.value, name);
                && e.Some? && e.value.FileEntry? && PathOf(e.value) != []
                && |raw| <= CHUNK
                && offset == |Received(old(files.nodes), PathOf(e.value))|
                && offset + |raw| <= e.value.size
      ensures received.Some? ==>
                var p := PathOf(Find(manifest.value, name).value);
                && received.value == |Received(files.nodes, p)|
                && Received(files.nodes, p) == Received(old(files.nodes), p) + raw
                && Leaves(files.nodes) == Leaves(old(files.nodes))[p := File(Received(old(files.nodes), p) + raw)]
      ensures Beginnings(old(files.nodes), source)
              && (received.Some? ==> HonestChunk(source, PathOf(Find(manifest.value, name).value), offset, raw))
              ==> Beginnings(files.nodes, source)
    {
      hide Accepted, Holds, PathOf, Grown, Find;
      var found := Find(manifest.value, name);
      if found == None || found.value.LinkEntry? {
        return None;
      }
      var entry := found.value;
      if |raw| > CHUNK {
        return None;
      }
      var p := PathOf(entry);
      if p in files.nodes && files.nodes[p] == Dir {
        RootOnly(files.nodes, manifest.value, outside, entry);
        return None;  // the name is ".": neither its size nor an append makes sense
      }
      PresentFits(files.nodes, manifest.value, outside, entry);
      var before := Received(files.nodes, p);
      if offset != |before| || |before| + |raw| > entry.size {
        return None;
      }
      GrownHolds(files.nodes, manifest.value, outside, entry, File(before + raw));
      files.nodes := Grown(files.nodes, p, File(before + raw));
      assert p in Leaves(files.nodes) && Leaves(files.nodes)[p] == File(before + raw);
      received := Some(|before| + |raw|);
      forall q | q in files.nodes && files.nodes[q].File? ensures q in Leaves(files.nodes) {}
    }
  }

  /** Every file is whole and has its digest. */
  method CheckFiles(files: Folder, m: seq<Entry>) returns (ok: bool)
    ensures ok <==> Complete(files.nodes, m)
  {
    hide PathOf;
    for i := 0 to |m|
      invariant Complete(files.nodes, m[..i])
    {
      var e := m[i];
      assert e in m;
      assert m[..i + 1] == m[..i] + [e];
      if e.FileEntry? {
        var p := PathOf(e);
        if p !in files.nodes || !files.nodes[p].File? || |files.nodes[p].data| != e.size
           || Some(files.nodes[p].data) != e.hash {
          return false;
        }
      }
    }
    assert m[..|m|] == m;
    ok := true;
  }

  ghost predicate Agree(a: Tree, b: Tree) {
    forall q :: q in a && q in b ==> a[q] == b[q]
  }

  ghost predicate LinksMade(nodes: Tree, m: seq<Entry>) {
    forall e :: e in m && e.LinkEntry? ==> PathOf(e) != [] && PathOf(e) in nodes && nodes[PathOf(e)] == Link(e.target)
  }

  /** Nothing that stands in `t` keeps the link `e` from being made or found. */
  predicate LinkFree(t: Tree, e: Entry) {
    PathOf(e) != [] && Reachable(t, PathOf(e)) && (PathOf(e) in t ==> t[PathOf(e)] == NodeOf(e))
  }

  predicate Linkable(t: Tree, m: seq<Entry>) {
    forall e :: e in m && e.LinkEntry? ==> LinkFree(t, e)
  }

  function LinksOf(m: seq<Entry>): (links: seq<Entry>)
    ensures forall e :: e in links <==> e in m && e.LinkEntry?
  {
    if m == [] then []
    else LinksOf(m[..|m| - 1]) + (if m[|m| - 1].LinkEntry? then [m[|m| - 1]] else [])
  }

  /** The tree with all the links; what is there stays. */
  ghost function Linked(t: Tree, m: seq<Entry>): Tree {
    Staged(MapOf(LinksOf(m))) + t
  }

  lemma LinkedNone(t: Tree)
    requires WellFormed(t)
    ensures Linked(t, []) == t
  {
    assert Staged(map[]) == map[[] := Dir];
  }

  /** One more leaf of `s`, under what is there. */
  lemma GrownOver(s: Tree, t: Tree, p: Path, node: Node)
    requires WellFormed(s) && WellFormed(t) && Reachable(s, p) && p != [] && (p in s ==> s[p] == node)
    ensures Reachable(s + t, p) <==> Reachable(t, p)
    ensures p in s + t ==> (s + t)[p] == if p in t then t[p] else node
    ensures Reachable(t, p) && (p in t ==> t[p] == node) ==>
              Grown(s, p, node) + t == if p in s + t then s + t else Grown(s + t, p, node)
  {
    ReachableOver(s, t, p);
    AboveDirs(s, p);
    if Reachable(t, p) && (p in t ==> t[p] == node) {
      AboveDirs(t, p);
      hide WellFormed, Above, Reachable;
      if p in s + t {
        SameOver(s, t, Above(p), p, node);
      } else {
        NewOver(s, t, Above(p), p, node);
      }
    }
  }

  lemma ReachableOver(s: Tree, t: Tree, p: Path)
    requires Reachable(s, p)
    ensures Reachable(s + t, p) <==> Reachable(t, p)
  {
    if Reachable(s + t, p) {
      forall k | 0 <= k < |p| && p[..k] in t ensures t[p[..k]] == Dir {
        assert p[..k] in s + t && (s + t)[p[..k]] == t[p[..k]];
      }
    }
  }

  lemma SameOver(s: Tree, t: Tree, above: Tree, p: Path, node: Node)
    requires p in s || p in t
    requires (p in s ==> s[p] == node) && (p in t ==> t[p] == node)
    requires forall q :: q in above && q in s ==> s[q] == above[q]
    requires forall q :: q in above && q in t ==> t[q] == above[q]
    requires (forall q :: q in above ==> q in s) || (forall q :: q in above ==> q in t)
    ensures s + above + map[p := node] + t == s + t
  {}

  lemma NewOver(s: Tree, t: Tree, above: Tree, p: Path, node: Node)
    requires p !in t && forall q :: q in above && q in t ==> t[q] == above[q]
    ensures s + above + map[p := node] + t == s + t + above + map[p := node]
  {}

  lemma AboveDirs(t: Tree, p: Path)
    requires Reachable(t, p)
    ensures forall q :: q in Above(p) && q in t ==> t[q] == Dir == Above(p)[q]
    ensures WellFormed(t) && p in t ==> forall q :: q in Above(p) ==> q in t
    ensures p !in Above(p)
  {
    forall q | q in Above(p) ensures q in t ==> t[q] == Dir {
      var k :| 0 <= k <= |p| && p[..k] == q;
      assert k == |p| ==> q == p;
    }
    if WellFormed(t) && p in t {
      forall q | q in Above(p) ensures q in t {
        var k :| 0 <= k <= |p| && p[..k] == q;
        assert k == |p| ==> q == p;
      }
    }
  }

  /** More in the way does not help a link. */
  lemma LinkableBefore(t: Tree, t2: Tree, m: seq<Entry>)
    requires PartOf(t, t2) && Linkable(t2, m)
    ensures Linkable(t, m)
  {
    hide PathOf;
    forall e | e in m && e.LinkEntry? ensures LinkFree(t, e) {
      assert LinkFree(t2, e);
    }
  }

  /** Links that have been made did fit. */
  lemma MadeLinkable(t: Tree, t2: Tree, m: seq<Entry>)
    requires PartOf(t, t2) && LinksMade(t2, m) && (WellFormed(t2) || t2 == map[])
    ensures Linkable(t, m)
  {
    hide PathOf;
    forall e | e in m && e.LinkEntry? ensures LinkFree(t2, e) {}
    LinkableBefore(t, t2, m);
  }

  /** One turn of the loop over the links. */
  lemma LinkedStep(t: Tree, m: seq<Entry>, i: nat)
    requires Apart(m) && WellFormed(t) && i < |m| && m[i].LinkEntry?
    ensures var (t1, p) := (Linked(t, m[..i]), PathOf(m[i]));
            && (LinkFree(t, m[i]) <==> p != [] && Reachable(t1, p) && (p in t1 ==> t1[p] == NodeOf(m[i])))
            && (LinkFree(t, m[i]) ==>
                  Linked(t, m[..i + 1]) == if p in t1 then t1 else Grown(t1, p, NodeOf(m[i])))
  {
    var links, e := LinksOf(m[..i]), m[i];
    var p := PathOf(e);
    LinksOfMore(m, i);
    PutLink(m, i, links);
    MapMore(links, e);
    GrownOver(Staged(MapOf(links)), t, p, NodeOf(e));
    hide Apart, PathOf, MapOf, Staged, Grown, Reachable, WellFormed;
  }

  lemma MapMore(es: seq<Entry>, e: Entry)
    ensures MapOf(es + [e]) == MapOf(es)[PathOf(e) := NodeOf(e)]
  {
    assert (es + [e])[..|es|] == es;
  }

  lemma PutLink(m: seq<Entry>, i: nat, links: seq<Entry>)
    requires Apart(m) && i < |m| && links == LinksOf(m[..i]) && m[i].LinkEntry?
    ensures var (s, p, node) := (Staged(MapOf(links)), PathOf(m[i]), NodeOf(m[i]));
            && WellFormed(s) && p != [] && Reachable(s, p) && (p in s ==> s[p] == node)
            && Grown(s, p, node) == Staged(MapOf(links)[p := node])
  {
    var e := m[i];
    forall x | x in links + [e] ensures x in m {}
    assert Apart(links + [e]) && Apart(links);
    hide Apart, PathOf, Staged, Grown, Reachable, Conflict;
    PutAllStaged(links);
    PutAllStaged(links + [e]);
    StagedWellFormed(MapOf(links));
    PutOne(links, e);
    MapMore(links, e);
  }

  lemma PutOne(es: seq<Entry>, e: Entry)
    requires PutAll(es).Some? && PutAll(es + [e]).Some?
    ensures var (t, p) := (PutAll(es).value, PathOf(e));
            && Reachable(t, p) && (p in t ==> t[p] == NodeOf(e))
            && PutAll(es + [e]).value == Grown(t, p, NodeOf(e))
  {
    assert (es + [e])[..|es|] == es;
  }

  /** Whatever is new belongs to `s`. */
  ghost predicate AddedFrom(t: Tree, t2: Tree, s: Tree) {
    forall q :: q in t2 ==> q in t || (q in s && s[q] == t2[q])
  }

  /** A tree that has all the links. */
  ghost predicate HasLinks(s: Tree, m: seq<Entry>) {
    WellFormed(s) && LinksMade(s, m)
  }

  lemma LinkFits(t: Tree, s: Tree, m: seq<Entry>, e: Entry)
    requires HasLinks(s, m) && e in m && e.LinkEntry?
    ensures var t2 := Grown(t, PathOf(e), Link(e.target));
            && AddedFrom(t, t2, s)
            && AddedFrom(t, t + Above(PathOf(e)), s)
            && (Agree(t, s) ==>
                  Agree(t2, s) && Reachable(t, PathOf(e)) && (PathOf(e) in t ==> t[PathOf(e)] == Link(e.target)))
  {
    hide PathOf;
    var p := PathOf(e);
    forall q | q in Above(p) ensures q in s && s[q] == Dir {
      var k :| 0 <= k <= |p| && p[..k] == q;
      assert k == |p| ==> q == p;
    }
  }

  lemma GrownWellFormed(t: Tree, p: Path, node: Node)
    requires (WellFormed(t) || t == map[]) && Reachable(t, p) && p != [] && p !in t
    ensures WellFormed(Grown(t, p, node)) && WellFormed(t + Above(p))
    ensures PartOf(t, Grown(t, p, node)) && PartOf(t, t + Above(p))
  {
    var t2 := Grown(t, p, node);
    forall q | q in Above(p) ensures q in t ==> t[q] == Dir {
      var k :| 0 <= k <= |p| && p[..k] == q;
      assert k == |p| ==> q == p;
    }
    assert p[..0] == [] && [] in Above(p);
    forall q, k | q in t2 && 0 <= k < |q| ensures q[..k] in t2 && t2[q[..k]] == Dir && q[..k] in t + Above(p) {
      if q in Above(p) {
        var j :| 0 <= j <= |p| && p[..j] == q;
        assert q[..k] == p[..k];
      }
    }
  }

  /** Seen from any tree `s` that has all the links, only parts of `s` are added. */
  ghost predicate Linking(t: Tree, t2: Tree, s: Tree, m: seq<Entry>) {
    && PartOf(t, t2)
    && (WellFormed(t2) || t2 == t)
    && (HasLinks(s, m) ==> AddedFrom(t, t2, s) && (Agree(t, s) ==> Agree(t2, s)))
  }

  lemma LinkingStep(t: Tree, t1: Tree, t2: Tree, s: Tree, m: seq<Entry>, e: Entry)
    requires Linking(t, t1, s, m) && (WellFormed(t1) || t1 == map[]) && e in m && e.LinkEntry?
    requires PathOf(e) != [] && PathOf(e) !in t1 && Reachable(t1, PathOf(e))
    requires t2 == t1 + Above(PathOf(e)) || t2 == Grown(t1, PathOf(e), Link(e.target))
    ensures Linking(t, t2, s, m) && PartOf(t1, t2)
  {
    hide PathOf, Reachable, HasLinks;
    GrownWellFormed(t1, PathOf(e), Link(e.target));
    hide WellFormed;
    if HasLinks(s, m) {
      LinkFits(t1, s, m, e);
    }
  }

  /** One link that is not there yet. */
  method MakeLink(files: Folder, p: Path, target: string, power: Power) returns (cut: bool)
    requires Reachable(files.nodes, p)
    modifies files, power
    ensures !cut ==> files.nodes == Grown(old(files.nodes), p, Link(target))
    ensures cut ==> files.nodes == old(files.nodes) || files.nodes == old(files.nodes) + Above(p)
    ensures old(power.left) == None ==> !cut && power.left == None
  {
    ghost var t := files.nodes;
    cut := power.Fails();
    if cut {
      return;
    }
    files.MakeParents(p);
    cut := power.Fails();
    if cut {
      return;
    }
    GrownLink(t, p, target);
    files.nodes := files.nodes[p := Link(target)];
  }

  /** After `i` entries `t` has become `f`. */
  ghost predicate LinksSoFar(t: Tree, f: Tree, s: Tree, m: seq<Entry>, i: nat)
    requires i <= |m|
  {
    && Linking(t, f, s, m)
    && (WellFormed(f) || f == map[])
    && LinksMade(f, m[..i])
    && (Apart(m) && WellFormed(t) ==> Linkable(t, m[..i]) && f == Linked(t, m[..i]))
  }

  /** The links, made or found; nothing goes wrong if the files do not contradict
      a tree that has them, and for entries that stand apart exactly if each fits. */
  method MakeLinks(files: Folder, m: seq<Entry>, power: Power, ghost s: Tree) returns (outcome: Outcome)
    requires WellFormed(files.nodes) || files.nodes == map[]
    modifies files, power
    ensures Linking(old(files.nodes), files.nodes, s, m)
    ensures outcome == Done ==> LinksMade(files.nodes, m)
    ensures HasLinks(s, m) && Agree(old(files.nodes), s) ==> outcome != Failed
    ensures outcome == Failed && Apart(m) && WellFormed(old(files.nodes)) ==> !Linkable(old(files.nodes), m)
    ensures outcome == Done && Apart(m) && WellFormed(old(files.nodes)) ==>
              Linkable(old(files.nodes), m) && files.nodes == Linked(old(files.nodes), m)
    ensures old(power.left) == None ==> outcome != Cut && power.left == None
  {
    hide PathOf, Grown, HasLinks, WellFormed, Reachable, Above, Linking, Agree, Linked, Linkable, Apart, LinksMade,
         LinksSoFar;
    ghost var t := files.nodes;
    NoLinksYet(t, s, m);
    for i := 0 to |m|
      invariant LinksSoFar(t, files.nodes, s, m, i) && Linking(t, files.nodes, s, m)
      invariant old(power.left) == None ==> power.left == None
    {
      var e := m[i];
      LinkTurn(t, files.nodes, s, m, i);
      if e.LinkEntry? {
        var p := PathOf(e);
        if p == [] || !Reachable(files.nodes, p) || (p in files.nodes && files.nodes[p] != Link(e.target)) {
          return Failed;
        }
        if p !in files.nodes {
          var cut := MakeLink(files, p, e.target, power);
          if cut {
            return Cut;
          }
        }
      }
    }
    LinksAll(t, files.nodes, s, m);
    outcome := Done;
  }

  lemma NoLinksYet(t: Tree, s: Tree, m: seq<Entry>)
    requires WellFormed(t) || t == map[]
    ensures LinksSoFar(t, t, s, m, 0) && Linking(t, t, s, m)
  {
    if WellFormed(t) {
      LinkedNone(t);
    }
  }

  lemma LinksAll(t: Tree, f: Tree, s: Tree, m: seq<Entry>)
    requires LinksSoFar(t, f, s, m, |m|)
    ensures LinksMade(f, m)
    ensures Apart(m) && WellFormed(t) ==> Linkable(t, m) && f == Linked(t, m)
  {
    assert m[..|m|] == m;
    hide Linking, Apart, WellFormed, Linkable, Linked, LinksMade;
  }

  /** One turn of the loop. */
  lemma LinkTurn(t: Tree, f: Tree, s: Tree, m: seq<Entry>, i: nat)
    requires i < |m| && LinksSoFar(t, f, s, m, i)
    ensures m[i].FileEntry? ==> LinksSoFar(t, f, s, m, i + 1)
    ensures m[i].LinkEntry? ==>
              var (p, node) := (PathOf(m[i]), Link(m[i].target));
              if p == [] || !Reachable(f, p) || (p in f && f[p] != node) then
                !(HasLinks(s, m) && Agree(t, s)) && (Apart(m) && WellFormed(t) ==> !Linkable(t, m))
              else if p in f then LinksSoFar(t, f, s, m, i + 1)
              else
                && LinksSoFar(t, Grown(f, p, node), s, m, i + 1)
                && Linking(t, Grown(f, p, node), s, m) && Linking(t, f + Above(p), s, m)
  {
    hide PathOf, Grown, HasLinks, WellFormed, Reachable, Linking, Agree, Linked, LinkFree, Apart, LinksMade, Above;
    var e := m[i];
    assert e in m && m[..i + 1] == m[..i] + [e];
    if e.FileEntry? {
      LinksSkip(f, m, i);
      LinkedSkip(t, m, i);
    } else {
      var p := PathOf(e);
      LinkExact(t, f, s, m, i);
      if p != [] && Reachable(f, p) {
        if p !in f {
          LinkingStep(t, f, f + Above(p), s, m, e);
          LinkingStep(t, f, Grown(f, p, Link(e.target)), s, m, e);
          GrownWellFormed(f, p, Link(e.target));
          LinksKept(f, Grown(f, p, Link(e.target)), m, i);
          GrownLink(f, p, e.target);
          LinksMore(Grown(f, p, Link(e.target)), m, i);
        } else if f[p] == Link(e.target) {
          LinksMore(f, m, i);
        }
      }
    }
  }

  lemma LinkExact(t: Tree, f: Tree, s: Tree, m: seq<Entry>, i: nat)
    requires i < |m| && m[i].LinkEntry? && Linking(t, f, s, m)
    ensures var e := m[i];
            HasLinks(s, m) && Agree(t, s) ==>
              PathOf(e) != [] && Reachable(f, PathOf(e)) && (PathOf(e) in f ==> f[PathOf(e)] == Link(e.target))
    ensures Apart(m) && WellFormed(t) && Linkable(t, m[..i]) && f == Linked(t, m[..i]) ==>
              var (e, p) := (m[i], PathOf(m[i]));
              if p == [] || !Reachable(f, p) || (p in f && f[p] != Link(e.target)) then !Linkable(t, m)
              else Linkable(t, m[..i + 1])
                   && Linked(t, m[..i + 1]) == if p in f then f else Grown(f, p, Link(e.target))
  {
    hide PathOf, Grown, HasLinks, WellFormed, Reachable, Linking, Agree, Linked, LinkFree, Apart;
    if HasLinks(s, m) && Agree(t, s) {
      LinkExpected(t, f, s, m, m[i]);
    }
    if Apart(m) && WellFormed(t) && Linkable(t, m[..i]) && f == Linked(t, m[..i]) {
      LinkedStep(t, m, i);
      assert m[..i + 1] == m[..i] + [m[i]];
    }
  }

  lemma LinkedSkip(t: Tree, m: seq<Entry>, i: nat)
    requires i < |m| && m[i].FileEntry?
    ensures Linked(t, m[..i + 1]) == Linked(t, m[..i])
    ensures Linkable(t, m[..i]) ==> Linkable(t, m[..i + 1])
  {
    hide LinkFree, MapOf, Staged, LinksOf;
    LinksOfMore(m, i);
    assert LinksOf(m[..i + 1]) == LinksOf(m[..i]);
    if Linkable(t, m[..i]) {
      LinkableSkip(t, m, i);
    }
  }

  lemma LinkableSkip(t: Tree, m: seq<Entry>, i: nat)
    requires i < |m| && m[i].FileEntry? && Linkable(t, m[..i])
    ensures Linkable(t, m[..i + 1])
  {
    hide LinkFree;
    forall e | e in m[..i + 1] && e.LinkEntry? ensures LinkFree(t, e) {
      assert e in m[..i];
    }
  }

  lemma LinksOfMore(m: seq<Entry>, i: nat)
    requires i < |m|
    ensures LinksOf(m[..i + 1]) == if m[i].LinkEntry? then LinksOf(m[..i]) + [m[i]] else LinksOf(m[..i])
  {
    var front := m[..i + 1];
    assert |front| == i + 1 && front[..i] == m[..i] && front[i] == m[i];
  }

  lemma LinkExpected(t: Tree, t1: Tree, s: Tree, m: seq<Entry>, e: Entry)
    requires Linking(t, t1, s, m) && HasLinks(s, m) && Agree(t, s) && e in m && e.LinkEntry?
    ensures PathOf(e) != [] && Reachable(t1, PathOf(e)) && (PathOf(e) in t1 ==> t1[PathOf(e)] == Link(e.target))
  {
    LinkFits(t1, s, m, e);
    NoDotLink(s, m, e);
    hide PathOf, Reachable;
  }

  lemma LinksKept(t: Tree, t2: Tree, m: seq<Entry>, i: nat)
    requires i <= |m| && LinksMade(t, m[..i]) && PartOf(t, t2)
    ensures LinksMade(t2, m[..i])
  {
    hide PathOf;
  }

  lemma LinksMore(t: Tree, m: seq<Entry>, i: nat)
    requires i < |m| && LinksMade(t, m[..i]) && m[i].LinkEntry?
    requires PathOf(m[i]) != [] && PathOf(m[i]) in t && t[PathOf(m[i])] == Link(m[i].target)
    ensures LinksMade(t, m[..i + 1])
  {
    hide PathOf;
    assert m[..i + 1] == m[..i] + [m[i]];
  }

  lemma LinksSkip(t: Tree, m: seq<Entry>, i: nat)
    requires i < |m| && LinksMade(t, m[..i]) && m[i].FileEntry?
    ensures LinksMade(t, m[..i + 1])
  {
    hide PathOf;
    assert m[..i + 1] == m[..i] + [m[i]];
  }

  lemma NoDotLink(s: Tree, m: seq<Entry>, e: Entry)
    requires HasLinks(s, m) && e in m && e.LinkEntry?
    ensures PathOf(e) != []
  {}

  lemma GrownLink(t: Tree, p: Path, target: string)
    ensures (t + Above(p))[p := Link(target)] == Grown(t, p, Link(target))
    ensures Grown(t, p, Link(target))[p] == Link(target)
  {}

  /** `finish`, as far as the links. */
  method LayOut(files: Folder, m: seq<Entry>, power: Power, ghost s: Tree) returns (outcome: Outcome)
    requires WellFormed(files.nodes) || files.nodes == map[]
    modifies files, power
    ensures Linking(old(files.nodes), files.nodes, s, m)
    ensures !Complete(old(files.nodes), m) ==> outcome == Failed && files.nodes == old(files.nodes)
    ensures outcome == Done ==> LinksMade(files.nodes, m)
    ensures HasLinks(s, m) && Agree(old(files.nodes), s) ==> (outcome == Failed <==> !Complete(old(files.nodes), m))
    ensures outcome == Failed && Apart(m) && WellFormed(old(files.nodes)) ==>
              !(Complete(old(files.nodes), m) && Linkable(old(files.nodes), m))
    ensures outcome == Done && Apart(m) && WellFormed(old(files.nodes)) ==>
              Complete(old(files.nodes), m) && Linkable(old(files.nodes), m)
                  && files.nodes == Linked(old(files.nodes), m)
    ensures old(power.left) == None ==> outcome != Cut && power.left == None
  {
    assert Linking(files.nodes, files.nodes, s, m);
    hide Complete, LinksMade, HasLinks, Linking, Agree, WellFormed, Apart, Linkable, Linked;
    var whole := CheckFiles(files, m);
    if !whole {
      return Failed;
    }
    outcome := MakeLinks(files, m, power, s);
  }

  /** What was received whole is part of the manifest's tree, and with the links it
      is that tree. */
  lemma LaidOut(t: Tree, t2: Tree, m: seq<Entry>, outside: set<Entry>)
    requires Accepted(m, outside) && Holds(t, m) && Complete(t, m)
    requires forall e :: e in m && e.LinkEntry? ==> PathOf(e) != []
    ensures var s := Staged(MapOf(m));
            && HasLinks(s, m) && PartOf(t, s)
            && (Linking(t, t2, s, m) && LinksMade(t2, m) ==> t2 == s)
  {
    WholePart(t, m, outside);
    hide Accepted, PathOf, MapOf, Holds, Staged, PrefixFree, HasLinks, WellFormed, Agree;
    if Linking(t, t2, Staged(MapOf(m)), m) && LinksMade(t2, m) {
      EntriesPresent(t, t2, m);
      StagedAll(MapOf(m), t2);
    }
  }

  lemma WholePart(t: Tree, m: seq<Entry>, outside: set<Entry>)
    requires Accepted(m, outside) && Holds(t, m) && Complete(t, m)
    requires forall e :: e in m && e.LinkEntry? ==> PathOf(e) != []
    ensures HasLinks(Staged(MapOf(m)), m) && PartOf(t, Staged(MapOf(m))) && WellFormed(t) && PrefixFree(MapOf(m))
    ensures forall p :: p in MapOf(m) ==> exists e :: e in m && PathOf(e) == p && MapOf(m)[p] == NodeOf(e)
  {
    HoldsTree(t, m);
    WholeApart(t, m, outside);
    hide Accepted;
    PutAllStaged(m);
    MapOfAt(m);
    StagedWellFormed(MapOf(m));
    ReceivedPart(t, m);
    hide Apart, PathOf, PutAll, MapOf, Holds, Staged, WellFormed, PrefixFree, Complete;
    assert forall e :: e in m ==> LeafOf(Staged(MapOf(m)), PathOf(e)) == Some(NodeOf(e));
  }

  lemma EntriesPresent(t: Tree, t2: Tree, m: seq<Entry>)
    requires Complete(t, m) && PartOf(t, t2) && LinksMade(t2, m)
    ensures forall e :: e in m ==> LeafOf(t2, PathOf(e)) == Some(NodeOf(e))
  {
    hide PathOf;
  }

  lemma ReceivedPart(t: Tree, m: seq<Entry>)
    requires Holds(t, m) && Complete(t, m) && Apart(m)
    ensures PartOf(t, Staged(MapOf(m))) && WellFormed(t)
  {
    MapOfAt(m);
    PutAllStaged(m);
    StagedWellFormed(Leaves(t));
    hide PutAll;
    hide Apart, PathOf, PrefixFree, MapOf, WellFormed;
    forall p | p in Leaves(t) ensures p in MapOf(m) && MapOf(m)[p] == t[p] {}
    StagedPart(Leaves(t), MapOf(m));
  }

  lemma HoldsTree(nodes: Tree, m: seq<Entry>)
    requires Holds(nodes, m)
    ensures [] in nodes && nodes[[]] == Dir
  {
    assert [] in Staged(Leaves(nodes));
  }

  /** Whole files and no link for the directory itself: no entry is named ".". */
  lemma WholeApart(nodes: Tree, m: seq<Entry>, outside: set<Entry>)
    requires Accepted(m, outside) && Complete(nodes, m) && [] in nodes && nodes[[]] == Dir
    requires forall e :: e in m && e.LinkEntry? ==> PathOf(e) != []
    ensures Apart(m)
  {
    forall e | e in m ensures e.name != "." {
      DotParts();
      assert PathOf(e) != [];
    }
    hide Complete;
    AcceptedApart(m, outside, m);
  }

  lemma RootOnly(nodes: Tree, manifest: seq<Entry>, outside: set<Entry>, e: Entry)
    requires Accepted(manifest, outside) && Holds(nodes, manifest) && e in manifest && e.FileEntry?
    requires PathOf(e) in nodes && nodes[PathOf(e)] == Dir
    ensures PathOf(e) == []
  {
    assert EntryOk(e, outside);
    if PathOf(e) != [] {
      GrownHolds(nodes, manifest, outside, e, File([]));
    }
  }

  lemma PresentFits(nodes: Tree, manifest: seq<Entry>, outside: set<Entry>, e: Entry)
    requires Accepted(manifest, outside) && Holds(nodes, manifest) && e in manifest && e.FileEntry?
    requires !(PathOf(e) in nodes && nodes[PathOf(e)] == Dir)
    ensures PathOf(e) != []
    ensures PathOf(e) in nodes ==> nodes[PathOf(e)].File?
  {}
}
