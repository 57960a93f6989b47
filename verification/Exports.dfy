/** `export`: the walk that lists what has to be copied. */
module Exports {
  import opened Wrappers
  import opened Trees
  import opened Names
  import opened Git
  import opened Migration
  import opened Manifests
  import opened Restore

  function EntryOf(disk: Tree, p: Path): Entry
    requires p in disk && (disk[p].File? || disk[p].Link?)
  {
    match disk[p]
    case File(data) => FileEntry(Joined(p), |data|, Some(data))
    case Link(target) => LinkEntry(Joined(p), target)
  }

  /** Names as a file system has them. */
  ghost predicate FileNames(disk: Tree) {
    forall p :: p in disk ==> Proper(p) && forall c :: c in p ==> c != ".." && '\0' !in c
  }

  /** What the export reports as left behind. */
  predicate Reported(src: Source, p: Path) {
    p in src.disk && p != [] && (Excluded(src, p) || (Forbidden(p, true) && Open(src, p[..|p| - 1])))
  }

  predicate EntryFor(disk: Tree, p: Path, e: Entry) {
    p in disk && (disk[p].File? || disk[p].Link?) && e == EntryOf(disk, p)
  }

  /** `entries` lists `paths`, one after the other, as they are on the disk. */
  ghost predicate Lists(disk: Tree, entries: seq<Entry>, paths: seq<Path>) {
    && |entries| == |paths|
    && (forall i :: 0 <= i < |paths| ==> EntryFor(disk, paths[i], entries[i]))
    && (forall i, j :: 0 <= i < j < |paths| ==> paths[i] != paths[j])
  }

  // ---- how much there is to move ----

  function SizeAt(disk: Tree, p: Path): nat {
    if p in disk && disk[p].File? then |disk[p].data| else 0
  }

  ghost function BytesAt(disk: Tree, paths: set<Path>): nat {
    if paths == {} then 0
    else
      var p :| p in paths;
      SizeAt(disk, p) + BytesAt(disk, paths - {p})
  }

  /** Neither too many files nor too many bytes. */
  ghost predicate Within(src: Source) {
    |Manifest(src)| <= MAX_FILES && BytesAt(src.disk, Manifest(src).Keys) <= MAX_TOTAL
  }

  lemma {:induction false} BytesWith(disk: Tree, paths: set<Path>, q: Path)
    requires q in paths
    ensures BytesAt(disk, paths) == SizeAt(disk, q) + BytesAt(disk, paths - {q})
    decreases |paths|
  {
    var p :| p in paths && BytesAt(disk, paths) == SizeAt(disk, p) + BytesAt(disk, paths - {p});
    if p != q {
      BytesWith(disk, paths - {p}, q);
      BytesWith(disk, paths - {q}, p);
      assert paths - {p} - {q} == paths - {q} - {p};
    }
  }

  lemma {:induction false} BytesLess(disk: Tree, some: set<Path>, all: set<Path>)
    requires some <= all
    ensures |some| <= |all| && BytesAt(disk, some) <= BytesAt(disk, all)
    decreases |some|
  {
    if some != {} {
      var p :| p in some;
      BytesWith(disk, some, p);
      BytesWith(disk, all, p);
      BytesLess(disk, some - {p}, all - {p});
    }
  }

  /** A listing has as many entries and bytes as the paths in it. */
  lemma {:induction false} BytesListed(disk: Tree, entries: seq<Entry>, paths: seq<Path>)
    requires Lists(disk, entries, paths)
    ensures |entries| == |SetOf(paths)| && Total(entries) == BytesAt(disk, SetOf(paths))
    decreases |paths|
  {
    if paths == [] {
      assert SetOf(paths) == {};
    } else {
      var n := |paths| - 1;
      ListsFront(disk, entries, paths);
      hide Lists, SetOf, SizeAt, SizeOf;
      BytesListed(disk, entries[..n], paths[..n]);
      BytesWith(disk, SetOf(paths), paths[n]);
    }
  }

  lemma ListsFront(disk: Tree, entries: seq<Entry>, paths: seq<Path>)
    requires Lists(disk, entries, paths) && paths != []
    ensures var n := |paths| - 1;
            && |entries| == n + 1 && Lists(disk, entries[..n], paths[..n])
            && SizeOf(entries[n]) == SizeAt(disk, paths[n])
            && paths[n] in SetOf(paths) && SetOf(paths) - {paths[n]} == SetOf(paths[..n])
  {
    var n := |paths| - 1;
    assert EntryFor(disk, paths[n], entries[n]);
    assert paths == paths[..n] + [paths[n]];
    hide EntryFor;
    forall i | 0 <= i < n ensures EntryFor(disk, paths[..n][i], entries[..n][i]) {}
  }

  /** A partial listing over the limits: so is the whole one. */
  lemma PartialWithin(src: Source, w: Walk)
    requires Partial(src, w)
    ensures |w.manifest| > MAX_FILES || w.total > MAX_TOTAL ==> !Within(src)
    ensures SetOf(w.listed) == Manifest(src).Keys ==>
              (Within(src) <==> |w.manifest| <= MAX_FILES && w.total <= MAX_TOTAL)
  {
    BytesListed(src.disk, w.manifest, w.listed);
    BytesLess(src.disk, SetOf(w.listed), Manifest(src).Keys);
    assert |Manifest(src)| == |Manifest(src).Keys|;
    hide Lists, Manifest, Total;
  }

  /** How far the walk has come: `walked` directories have all their entries in
      `seen`, except those whose turn is still to come under `here`. */
  ghost predicate Walking(src: Source, walked: set<Path>, todo: set<Path>, seen: set<Path>) {
    && (forall d :: d in walked + todo ==> d in src.disk && src.disk[d] == Dir && Open(src, d))
    && walked !! todo
    && (forall d :: d in walked + todo ==> d == [] || d in seen)
    && (forall p :: p in seen ==> p in src.disk && p != [] && p[..|p| - 1] in walked)
    && (forall p :: p in seen && src.disk[p] == Dir && !Skipped(src, p) ==> p in walked + todo)
    && [] in walked + todo
  }

  /** Which of the paths seen so far are shipped, and which are reported. */
  ghost function ShippedOf(src: Source, seen: set<Path>): set<Path> {
    set p | p in seen && Shipped(src, p)
  }

  ghost function ReportedOf(src: Source, seen: set<Path>): set<Path> {
    set p | p in seen && Reported(src, p)
  }

  ghost function ListedOf(src: Source, roots: set<Path>): map<Path, set<Path>> {
    map r | r in roots && r in src.repos :: Clean(src.disk, src.repos[r])
  }

  ghost predicate DescribesRoots(src: Source, walked: set<Path>, ds: seq<Descriptor>) {
    && (forall d :: d in ds ==> d.path in walked && d.path in src.repos
                                && SetOf(d.deleted) == Deleted(src.disk, src.repos[d.path]))
    && (forall r :: r in walked && r in src.repos ==> exists d :: d in ds && d.path == r)
    && (forall i, j :: 0 <= i < j < |ds| ==> ds[i].path != ds[j].path)
  }

  lemma OpenChild(src: Source, here: Path, p: Path)
    requires |p| == |here| + 1 && Under(here, p)
    ensures p[..|p| - 1] == here
    ensures Open(src, p) <==> Open(src, here) && !Skipped(src, p)
  {
    hide Skipped;
    assert p[..|p|] == p;
    forall k | 0 < k <= |here| ensures p[..k] == here[..k] {
      assert p[..k] == p[..|here|][..k];
    }
  }

  lemma {:induction false} WalkedAbove(src: Source, walked: set<Path>, todo: set<Path>, seen: set<Path>, d: Path,
                                       k: nat)
    requires Walking(src, walked, todo, seen) && d in walked && k <= |d|
    ensures d[..k] in walked
    decreases |d|
  {
    if k == |d| {
      assert d[..k] == d;
    } else {
      var up := d[..|d| - 1];
      WalkedAbove(src, walked, todo, seen, up, k);
      assert up[..k] == d[..k];
    }
  }

  /** The repositories described so far are all that `clean_in_repo` needs. */
  lemma CleanSoFar(src: Source, walked: set<Path>, todo: set<Path>, seen: set<Path>, here: Path, p: Path)
    requires Walking(src, walked, todo, seen) && here in walked
    requires |p| == |here| + 1 && Under(here, p)
    ensures CleanInRepo(p, ListedOf(src, walked)) == CleanInRepo(p, Listed(src))
  {
    var a, b := ListedOf(src, walked), Listed(src);
    forall k | 0 <= k < |p| ensures p[..k] in walked {
      WalkedAbove(src, walked, todo, seen, here, k);
      assert p[..k] == p[..|here|][..k];
    }
    hide Walking, Clean;
    CleanFromLocal(p, |p| - 1, a, b);
  }

  /** The entry `p` of the directory `here`, which is being walked. */
  ghost predicate Entered(src: Source, walked: set<Path>, seen: set<Path>, here: Path, p: Path) {
    && here in walked && p in src.disk && |p| == |here| + 1 && Under(here, p) && p !in seen
    && !(here in src.repos && p[|here|] == ".git")
  }

  datatype Treatment = Leave | Report | Copy | Descend

  /** The tests of the loop body, in its order. */
  function Treat(node: Node, p: Path, repos: map<Path, set<Path>>, outside: set<Path>): Treatment {
    if Forbidden(p, true) then Report
    else if CleanInRepo(p, repos) then Leave
    else match node
      case Link(_) => if p in outside then Report else Copy
      case File(_) => Copy
      case Special => Report
      case Dir => Descend
  }

  lemma Verdict(src: Source, walked: set<Path>, todo: set<Path>, seen: set<Path>, here: Path, p: Path)
    requires Walking(src, walked, todo, seen) && Entered(src, walked, seen, here, p)
    ensures var t := Treat(src.disk[p], p, ListedOf(src, walked), src.outside);
            && ShippedOf(src, seen + {p}) == (if t == Copy then ShippedOf(src, seen) + {p} else ShippedOf(src, seen))
            && ReportedOf(src, seen + {p})
               == (if t == Report then ReportedOf(src, seen) + {p} else ReportedOf(src, seen))
            && Walking(src, walked, if t == Descend then todo + {p} else todo, seen + {p})
            && (t == Copy ==> src.disk[p].File? || src.disk[p].Link?)
            && p !in ShippedOf(src, seen)
  {
    EntryVerdict(src, walked, todo, seen, here, p);
    EntryWalked(src, walked, todo, seen, here, p, Treat(src.disk[p], p, ListedOf(src, walked), src.outside));
    hide Treat, Shipped, Reported, Walking, Open, ListedOf, Skipped;
  }

  lemma {:induction false} EntryVerdict(src: Source, walked: set<Path>, todo: set<Path>, seen: set<Path>, here: Path,
                                        p: Path)
    requires Walking(src, walked, todo, seen) && Entered(src, walked, seen, here, p)
    ensures var t := Treat(src.disk[p], p, ListedOf(src, walked), src.outside);
            && (Shipped(src, p) <==> t == Copy) && (Reported(src, p) <==> t == Report)
            && (src.disk[p] == Dir && !Skipped(src, p) <==> t == Descend)
            && (t == Descend ==> Open(src, p))
            && (t == Copy ==> src.disk[p].File? || src.disk[p].Link?)
  {
    OpenChild(src, here, p);
    CleanSoFar(src, walked, todo, seen, here, p);
    hide Forbidden, CleanInRepo, Open, ListedOf;
    assert Skipped(src, p) <==> Forbidden(p, true) || CleanInRepo(p, ListedOf(src, walked));
  }

  lemma EntryWalked(src: Source, walked: set<Path>, todo: set<Path>, seen: set<Path>, here: Path, p: Path, t: Treatment)
    requires Walking(src, walked, todo, seen) && Entered(src, walked, seen, here, p)
    requires src.disk[p] == Dir && !Skipped(src, p) <==> t == Descend
    requires t == Descend ==> Open(src, p)
    ensures Walking(src, walked, if t == Descend then todo + {p} else todo, seen + {p})
  {
    hide Skipped, Open;
    assert p[..|p| - 1] == here;
  }

  /** What `export` accumulates. `listed` are the paths of the manifest's entries. */
  datatype Walk = Walk(manifest: seq<Entry>, listed: seq<Path>, excluded: set<Path>, total: int,
                       repos: map<Path, set<Path>>, descriptors: seq<Descriptor>, todo: set<Path>)

  ghost predicate Consistent(src: Source, w: Walk, walked: set<Path>, seen: set<Path>) {
    && Walking(src, walked, w.todo, seen)
    && Lists(src.disk, w.manifest, w.listed) && SetOf(w.listed) == ShippedOf(src, seen)
    && w.excluded == ReportedOf(src, seen)
    && w.total == Total(w.manifest)
    && w.repos == ListedOf(src, walked)
    && DescribesRoots(src, walked, w.descriptors)
  }

  function Copied(w: Walk, p: Path, e: Entry): Walk {
    w.(manifest := w.manifest + [e], listed := w.listed + [p], total := w.total + SizeOf(e))
  }

  function Visited(src: Source, w: Walk, p: Path): Walk
    requires p in src.disk
  {
    match Treat(src.disk[p], p, w.repos, src.outside)
    case Leave => w
    case Report => w.(excluded := w.excluded + {p})
    case Copy => Copied(w, p, EntryOf(src.disk, p))
    case Descend => w.(todo := w.todo + {p})
  }

  lemma CopiedLists(src: Source, w: Walk, p: Path)
    requires Lists(src.disk, w.manifest, w.listed) && w.total == Total(w.manifest)
    requires p in src.disk && (src.disk[p].File? || src.disk[p].Link?) && p !in SetOf(w.listed)
    ensures var c := Copied(w, p, EntryOf(src.disk, p));
            && Lists(src.disk, c.manifest, c.listed) && SetOf(c.listed) == SetOf(w.listed) + {p}
            && c.total == Total(c.manifest)
  {}

  lemma VisitedConsistent(src: Source, w: Walk, walked: set<Path>, seen: set<Path>, here: Path, p: Path)
    requires Consistent(src, w, walked, seen) && Entered(src, walked, seen, here, p)
    ensures Consistent(src, Visited(src, w, p), walked, seen + {p})
  {
    Verdict(src, walked, w.todo, seen, here, p);
    hide Treat, Walking, Lists, ListedOf, DescribesRoots, Entered, ShippedOf, ReportedOf, SetOf, Total;
    if Treat(src.disk[p], p, w.repos, src.outside) == Copy {
      CopiedLists(src, w, p);
    }
  }

  /** Turning to a directory: if it is a repository that can be described, its
      clean files are noted before any of its entries is looked at. */
  function Turned(src: Source, w: Walk, here: Path, deleted: seq<Path>): Walk {
    var w := w.(todo := w.todo - {here});
    if here in src.repos then
      w.(descriptors := w.descriptors + [Descriptor(here, deleted)],
         repos := w.repos[here := Clean(src.disk, src.repos[here])])
    else w
  }

  lemma TurnedConsistent(src: Source, w: Walk, walked: set<Path>, seen: set<Path>, here: Path, deleted: seq<Path>)
    requires Consistent(src, w, walked, seen) && here in w.todo
    requires here in src.repos ==> SetOf(deleted) == Deleted(src.disk, src.repos[here])
    ensures here !in walked
    ensures Consistent(src, Turned(src, w, here, deleted), walked + {here}, seen)
  {
    hide Lists, Deleted, Clean, Skipped, Open, Total, ShippedOf, ReportedOf;
    var t := Turned(src, w, here, deleted);
    assert here !in walked && walked + {here} + t.todo == walked + w.todo;
    ListedMore(src, walked, here);
    TurnedWalking(src, walked, w.todo, seen, here);
    if here in src.repos {
      DescribesMore(src, walked, w.descriptors, Descriptor(here, deleted));
    }
    hide Walking, ListedOf;
  }

  lemma ListedMore(src: Source, walked: set<Path>, here: Path)
    ensures ListedOf(src, walked + {here})
            == if here in src.repos then ListedOf(src, walked)[here := Clean(src.disk, src.repos[here])]
               else ListedOf(src, walked)
  {
    hide Clean;
  }

  lemma TurnedWalking(src: Source, walked: set<Path>, todo: set<Path>, seen: set<Path>, here: Path)
    requires Walking(src, walked, todo, seen) && here in todo
    ensures Walking(src, walked + {here}, todo - {here}, seen)
  {
    hide Skipped, Open;
    assert walked + {here} + (todo - {here}) == walked + todo;
  }

  lemma DescribesMore(src: Source, walked: set<Path>, ds: seq<Descriptor>, d: Descriptor)
    requires DescribesRoots(src, walked, ds)
    requires d.path !in walked && d.path in src.repos && SetOf(d.deleted) == Deleted(src.disk, src.repos[d.path])
    ensures DescribesRoots(src, walked + {d.path}, ds + [d])
  {}

  /** The names of `here` that the loop goes through: a described repository's
      `.git` is taken out before. */
  function Entries(src: Source, here: Path): set<Path> {
    set p | p in src.disk && |p| == |here| + 1 && Under(here, p) && !(here in src.repos && p[|here|] == ".git")
  }

  lemma EntriesEntered(src: Source, w: Walk, walked: set<Path>, seen: set<Path>, here: Path)
    requires Consistent(src, w, walked, seen) && here !in walked
    ensures forall p :: p in Entries(src, here) ==> Entered(src, walked + {here}, seen, here, p)
  {
    forall p | p in Entries(src, here) ensures p !in seen {
      assert p[..|p| - 1] == here;
    }
  }

  lemma {:induction false} OpenWalked(src: Source, walked: set<Path>, seen: set<Path>, d: Path)
    requires Valid(src) && Walking(src, walked, {}, seen)
    requires forall h :: h in walked ==> Entries(src, h) <= seen
    requires d in src.disk && src.disk[d] == Dir && Open(src, d)
    ensures d in walked
    decreases |d|
  {
    if d != [] {
      var up := d[..|d| - 1];
      OpenChild(src, up, d);
      OpenWalked(src, walked, seen, up);
      assert d in Entries(src, up);
    }
  }

  /** When no directory is left, everything open has been seen. */
  lemma {:induction false} WalkComplete(src: Source, w: Walk, walked: set<Path>, seen: set<Path>)
    requires Valid(src) && Consistent(src, w, walked, seen) && w.todo == {}
    requires forall h :: h in walked ==> Entries(src, h) <= seen
    ensures SetOf(w.listed) == Manifest(src).Keys
    ensures w.excluded == set p | p in src.disk && Reported(src, p)
    ensures Describes(src, w.descriptors)
  {
    forall p | p in src.disk && p != [] && Open(src, p[..|p| - 1]) && (Shipped(src, p) || Reported(src, p))
      ensures p in seen
    {
      SeenEntry(src, w, walked, seen, p);
    }
    forall p | Shipped(src, p) || Excluded(src, p) ensures Open(src, p[..|p| - 1]) {
      OpenChild(src, p[..|p| - 1], p);
    }
    forall r | r in Described(src) ensures r in walked {
      OpenWalked(src, walked, seen, r);
    }
    DescribesAll(src, walked, w.descriptors);
  }

  lemma SeenEntry(src: Source, w: Walk, walked: set<Path>, seen: set<Path>, p: Path)
    requires Valid(src) && Consistent(src, w, walked, seen) && w.todo == {}
    requires forall h :: h in walked ==> Entries(src, h) <= seen
    requires p in src.disk && p != [] && Open(src, p[..|p| - 1]) && (Shipped(src, p) || Reported(src, p))
    ensures p in seen
  {
    var up := p[..|p| - 1];
    OpenWalked(src, walked, seen, up);
    hide Consistent;
    if up in src.repos && p[|up|] == ".git" {
      MetadataLeft(src, up, p);
    } else {
      assert p in Entries(src, up);
    }
  }

  /** A described repository's metadata is neither shipped nor reported. */
  lemma MetadataLeft(src: Source, up: Path, p: Path)
    requires up in src.repos && |p| == |up| + 1 && Under(up, p) && p[|up|] == ".git" && Open(src, up)
    ensures !Shipped(src, p) && !Reported(src, p)
  {
    hide ForbiddenPart, CleanInRepo;
    OpenChild(src, up, p);
    GitTravels();
    assert up[..|up|] == up && (up == [] || !Skipped(src, up));
    forall i | 0 <= i < |p| ensures !ForbiddenPart(p[i], true) {
      if i < |up| { assert p[i] == up[i]; }
    }
  }

  lemma {:induction false} OnlyOnce(ds: seq<Descriptor>, d: Descriptor)
    requires d in ds && forall i, j :: 0 <= i < j < |ds| ==> ds[i].path != ds[j].path
    ensures multiset(ds)[d] == 1
  {
    var rest, last := ds[..|ds| - 1], ds[|ds| - 1];
    assert ds == rest + [last];
    if d in rest {
      OnlyOnce(rest, d);
    }
  }

  lemma DescribesAll(src: Source, walked: set<Path>, ds: seq<Descriptor>)
    requires DescribesRoots(src, walked, ds)
    requires forall r :: r in walked && r in src.repos <==> r in Described(src)
    ensures Describes(src, ds)
  {
    hide Described, Deleted;
    forall d | d in ds ensures multiset(ds)[d] == 1 {
      OnlyOnce(ds, d);
    }
  }

  class Export {
    const src: Source
    var manifest: seq<Entry>
    var excluded: set<Path>
    var total: int
    var repos: map<Path, set<Path>>
    var descriptors: seq<Descriptor>
    var todo: set<Path>
    ghost var listed: seq<Path>

    ghost function State(): Walk
      reads this
    {
      Walk(manifest, listed, excluded, total, repos, descriptors, todo)
    }

    constructor (src: Source)
      ensures this.src == src
      ensures State() == Walk([], [], {}, 0, map[], [], {[]})
    {
      this.src := src;
      manifest, excluded, total, repos, descriptors, todo, listed := [], {}, 0, map[], [], {[]}, [];
    }

    /** One name of a directory. */
    method Visit(p: Path)
      requires p in src.disk
      modifies this
      ensures State() == Visited(src, old(State()), p)
    {
      var node := src.disk[p];
      if Forbidden(p, true) {
        excluded := excluded + {p};
      } else if CleanInRepo(p, repos) {
        // The clone restores it.
      } else if node.Link? {
        if p in src.outside {
          excluded := excluded + {p};
        } else {
          manifest := manifest + [LinkEntry(Joined(p), node.target)];
          listed := listed + [p];
        }
      } else if node.File? {
        total := total + |node.data|;
        manifest := manifest + [FileEntry(Joined(p), |node.data|, Some(node.data))];
        listed := listed + [p];
      } else if node.Special? {
        excluded := excluded + {p};
      } else {
        todo := todo + {p};
      }
    }

    /** `describe_repo` for a directory that has one, and its place in the lists. */
    method Turn(here: Path, ghost walked: set<Path>, ghost seen: set<Path>)
      requires Consistent(src, State(), walked, seen) && here in todo
      modifies this
      ensures here !in walked
      ensures Consistent(src, State(), walked + {here}, seen)
      ensures manifest == old(manifest) && total == old(total)
    {
      ghost var before := State();
      var deleted: seq<Path> := [];
      if here in src.repos {
        deleted := Listing(Deleted(src.disk, src.repos[here]));
      }
      TurnedConsistent(src, before, walked, seen, here, deleted);
      todo := todo - {here};
      if here in src.repos {
        descriptors := descriptors + [Descriptor(here, deleted)];
        repos := repos[here := Clean(src.disk, src.repos[here])];
      }
      assert State() == Turned(src, before, here, deleted);
    }

    /** The loop over the names of one directory; `false` once a limit is passed. */
    method VisitAll(here: Path, ghost walked: set<Path>, ghost seen: set<Path>) returns (ok: bool)
      requires Consistent(src, State(), walked, seen)
      requires forall p :: p in Entries(src, here) ==> Entered(src, walked, seen, here, p)
      requires |manifest| <= MAX_FILES && total <= MAX_TOTAL
      modifies this
      ensures ok <==> |manifest| <= MAX_FILES && total <= MAX_TOTAL
      ensures ok ==> Consistent(src, State(), walked, seen + Entries(src, here))
      ensures Partial(src, State())
    {
      var names := Entries(src, here);
      ghost var visited: set<Path> := {};
      assert seen + visited == seen;
      ConsistentPartial(src, State(), walked, seen);
      while names != {}
        invariant names + visited == Entries(src, here) && names !! visited
        invariant Consistent(src, State(), walked, seen + visited)
        invariant |manifest| <= MAX_FILES && total <= MAX_TOTAL
        invariant Partial(src, State())
        decreases names
      {
        hide Consistent, Visited, Partial, Entries;
        var p :| p in names;
        assert Entered(src, walked, seen + visited, here, p);
        VisitedConsistent(src, State(), walked, seen + visited, here, p);
        assert p in src.disk;
        Visit(p);
        names, visited := names - {p}, visited + {p};
        assert seen + visited == seen + (visited - {p}) + {p};
        ConsistentPartial(src, State(), walked, seen + visited);
        if |manifest| > MAX_FILES || total > MAX_TOTAL {
          return false;
        }
      }
      assert visited == Entries(src, here);
      ok := true;
    }

    /** `false` is the error for a workspace over the limits. */
    method Run() returns (ok: bool)
      requires Valid(src) && State() == Walk([], [], {}, 0, map[], [], {[]})
      modifies this
      ensures Partial(src, State())
      ensures ok <==> Within(src)
      ensures ok <==> |manifest| <= MAX_FILES && total <= MAX_TOTAL
      ensures ok ==> SetOf(listed) == Manifest(src).Keys
      ensures ok ==> excluded == set p | p in src.disk && Reported(src, p)
      ensures ok ==> Describes(src, descriptors)
    {
      hide Lists, Reported, Manifest, Describes, Valid, Total, Within;
      ghost var walked: set<Path>, seen: set<Path> := {}, {};
      ok := true;
      StartConsistent(src);
      ConsistentPartial(src, State(), walked, seen);
      while todo != {}
        invariant Consistent(src, State(), walked, seen) && Partial(src, State())
        invariant forall h :: h in walked ==> Entries(src, h) <= seen
        invariant |manifest| <= MAX_FILES && total <= MAX_TOTAL
        invariant ok
        decreases src.disk.Keys - walked
      {
        hide Consistent, Partial, Entries;
        var here :| here in todo;
        TodoOnDisk(src, State(), walked, seen, here);
        EntriesEntered(src, State(), walked, seen, here);
        Turn(here, walked, seen);
        ok := VisitAll(here, walked + {here}, seen);
        if !ok {
          PartialWithin(src, State());
          return;
        }
        walked, seen := walked + {here}, seen + Entries(src, here);
      }
      WalkComplete(src, State(), walked, seen);
      PartialWithin(src, State());
    }
  }

  /** The manifest so far lists shipped paths, and its size is known. */
  ghost predicate Partial(src: Source, w: Walk) {
    Lists(src.disk, w.manifest, w.listed) && SetOf(w.listed) <= Manifest(src).Keys && w.total == Total(w.manifest)
  }

  lemma ConsistentPartial(src: Source, w: Walk, walked: set<Path>, seen: set<Path>)
    requires Consistent(src, w, walked, seen)
    ensures Partial(src, w)
  {
    hide Lists, Shipped, Total;
  }

  lemma TodoOnDisk(src: Source, w: Walk, walked: set<Path>, seen: set<Path>, here: Path)
    requires Consistent(src, w, walked, seen) && here in w.todo
    ensures here in src.disk && here !in walked
  {}

  lemma StartConsistent(src: Source)
    requires Valid(src)
    ensures Consistent(src, Walk([], [], {}, 0, map[], [], {[]}), {}, {})
  {}

  /** The list of deletions, up to its order, which nothing depends on. */
  method Listing(paths: set<Path>) returns (list: seq<Path>)
    ensures SetOf(list) == paths
  {
    list := [];
    var rest := paths;
    while rest != {}
      invariant rest <= paths && SetOf(list) == paths - rest
      decreases rest
    {
      var p :| p in rest;
      assert SetOf(list + [p]) == SetOf(list) + {p};
      list, rest := list + [p], rest - {p};
    }
  }
}
