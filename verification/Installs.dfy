/** `finish` and `install` over a workspace that may already be there, cut off
    between any two operations on the disk and tried again. */
module Installs {
  import opened Wrappers
  import opened Trees
  import opened Names
  import opened Git
  import opened Merge
  import opened Migration
  import opened MigrationLimits
  import opened Manifests
  import opened Staging
  import opened Restore
  import opened Reassembly
  import opened Layouts
  import opened Excludes

  /** The stage: what is in `files`, the clones, and the workspace that was set aside.
      Without nodes there is no such directory. */
  datatype StageDir = StageDir(files: Tree, clones: map<Path, Tree>, replaced: Option<Tree>)

  /** The target directory, and the stage next to it. */
  datatype Disk = Disk(root: Option<Tree>, stage: Option<StageDir>)

  /** The marker at the target names this transfer. */
  predicate Installed(d: Disk, mark: Bytes) {
    d.root.Some? && LeafOf(d.root.value, MARKER_FILE) == Some(File(mark))
  }

  /** The record in the stage lists the manifest of `src`. */
  ghost predicate Records(src: Source, record: seq<Entry>) {
    && (forall e :: e in record ==> PathOf(e) in Manifest(src) && Manifest(src)[PathOf(e)] == NodeOf(e))
    && (forall p :: p in Manifest(src) ==> exists e :: e in record && PathOf(e) == p)
  }

  /** A transfer from `src`, with its repositories in the order of putting back. */
  ghost predicate Transfer(src: Source, order: seq<Path>) {
    Valid(src) && Ordered(Described(src), order) && forall r :: r in order ==> r in src.repos
  }

  /** The new tree is whole in the stage. */
  ghost predicate WholeIn(src: Source, order: seq<Path>, refused: set<Path>, f: Tree)
    requires Transfer(src, order)
  {
    PartOf(Arrival(src, order, refused), f)
  }

  /** All repositories are back, and `init` has begun, or is finished. */
  ghost predicate Fitted(src: Source, order: seq<Path>, refused: set<Path>, f: Tree, cs: map<Path, Tree>)
    requires Transfer(src, order) && forall r :: r in order ==> r in cs
  {
    AllPlaced(order, cs) && Begun(Arrival(src, order, refused), Manifest(src), f)
  }

  ghost predicate KeptIn(src: Source, order: seq<Path>, refused: set<Path>, f: Tree, cs: map<Path, Tree>)
    requires Transfer(src, order) && forall r :: r in order ==> r in cs
  {
    Held(src, order, refused, f, cs) || Fitted(src, order, refused, f, cs)
  }

  ghost predicate Kept(src: Source, order: seq<Path>, refused: set<Path>, stage: StageDir)
    requires Transfer(src, order)
  {
    (forall r :: r in order ==> r in stage.clones) && KeptIn(src, order, refused, stage.files, stage.clones)
  }

  /** The workspace that was there still stands at the target. */
  ghost predicate Waiting(src: Source, order: seq<Path>, refused: set<Path>, before: Option<Tree>, d: Disk)
    requires Transfer(src, order)
  {
    && d.root == before
    && (d.stage.Some? ==> d.stage.value.replaced == None && Kept(src, order, refused, d.stage.value))
  }

  /** Between the two renames of `install`: both workspaces are in the stage. */
  ghost predicate Gap(src: Source, order: seq<Path>, refused: set<Path>, before: Option<Tree>, d: Disk)
    requires Transfer(src, order)
  {
    && before.Some? && d.root == None
    && d.stage.Some? && d.stage.value.replaced == before
    && (forall r :: r in order ==> r in d.stage.value.clones)
    && Fitted(src, order, refused, d.stage.value.files, d.stage.value.clones)
  }

  ghost predicate InPlace(src: Source, order: seq<Path>, refused: set<Path>, before: Option<Tree>, mark: Bytes, d: Disk)
    requires Transfer(src, order)
  {
    && Installed(d, mark) && Begun(Arrival(src, order, refused), Manifest(src), d.root.value)
    && (d.stage.Some? ==> d.stage.value.replaced == before)
  }

  /** What holds between any two operations on the disk, in any number of tries. */
  ghost predicate Sound(src: Source, order: seq<Path>, refused: set<Path>, before: Option<Tree>, mark: Bytes, d: Disk)
    requires Transfer(src, order)
  {
    || Waiting(src, order, refused, before, d)
    || Gap(src, order, refused, before, d)
    || InPlace(src, order, refused, before, mark, d)
  }

  // ---- the links are made anew in each try ----

  lemma RecordLinks(src: Source, record: seq<Entry>)
    requires Valid(src) && Records(src, record)
    ensures HasLinks(Staged(Manifest(src)), record)
  {
    ManifestPrefixFree(src);
    StagedWellFormed(Manifest(src));
    hide PathOf, WellFormed;
    forall e | e in record && e.LinkEntry? ensures
      PathOf(e) != [] && PathOf(e) in Staged(Manifest(src)) && Staged(Manifest(src))[PathOf(e)] == Link(e.target)
    {
      assert LeafOf(Staged(Manifest(src)), PathOf(e)) == Some(NodeOf(e));
    }
  }

  lemma OpeningAgrees(src: Source, order: seq<Path>, refused: set<Path>, f: Tree, cs: map<Path, Tree>)
    requires Transfer(src, order) && forall r :: r in order ==> r in cs
    requires Opening(src, order, refused, f, cs)
    ensures Agree(f, Staged(Manifest(src))) && (WellFormed(f) || f == map[])
  {
    if order != [] && !Absent(cs[order[0]], order[0]) {
      StagedClear(src, order, refused);
      hide Valid, Described, Staged, Manifest, Clone, GoneAt, FilePaths, Absent, Clear, Midway;
      var r := order[0];
      assert r in order;
      MidwayAgrees(Staged(Manifest(src)), Clone(r, src.repos[r]), f, cs[r], r, FilePaths(src), GoneAt(src, r, refused));
    }
  }

  lemma MidwayAgrees(s: Tree, c: Tree, f: Tree, c2: Tree, root: Path, kept: set<Path>, gone: set<Path>)
    requires Clear(s, root) && Midway(s, c, f, c2, root, kept, gone)
    ensures Agree(f, s) && (WellFormed(f) || f == map[])
  {
    hide WellFormed, Blocked, ClonedAt;
    forall q | q in Above(root) && q in s ensures s[q] == Dir {
      var k :| 0 <= k <= |root| && root[..k] == q;
    }
  }

  lemma OpeningLinked(src: Source, order: seq<Path>, refused: set<Path>, f: Tree, cs: map<Path, Tree>, f2: Tree,
                      record: seq<Entry>)
    requires Transfer(src, order) && forall r :: r in order ==> r in cs
    requires Opening(src, order, refused, f, cs)
    requires HasLinks(Staged(Manifest(src)), record) && Linking(f, f2, Staged(Manifest(src)), record)
    ensures Opening(src, order, refused, f2, cs)
  {
    hide Valid, Described, Staged, Manifest, Clone, GoneAt, FilePaths, Absent, HasLinks, Agree, Blocked, ClonedAt,
         WellFormed, Made;
    if order != [] && !Absent(cs[order[0]], order[0]) {
      var r := order[0];
      MidwayLinked(Staged(Manifest(src)), Clone(r, src.repos[r]), f, cs[r], f2, r, FilePaths(src),
          GoneAt(src, r, refused));
    }
  }

  lemma MidwayLinked(s: Tree, c: Tree, f: Tree, c2: Tree, f2: Tree, root: Path, kept: set<Path>, gone: set<Path>)
    requires Midway(s, c, f, c2, root, kept, gone)
    requires PartOf(f, f2) && AddedFrom(f, f2, s) && (WellFormed(f2) || f2 == f)
    ensures Midway(s, c, f2, c2, root, kept, gone)
  {
    hide Blocked, ClonedAt, WellFormed;
  }

  lemma PlacedLinked(src: Source, order: seq<Path>, refused: set<Path>, f: Tree, cs: map<Path, Tree>, f2: Tree)
    requires Transfer(src, order) && forall r :: r in order ==> r in cs
    requires PartlyPlaced(src, order, refused, f, cs)
    requires PartOf(f, f2) && AddedFrom(f, f2, Staged(Manifest(src))) && (WellFormed(f2) || f2 == f)
    ensures PartlyPlaced(src, order, refused, f2, cs)
  {
    hide Valid, Described, Staged, Manifest, WellFormed, Exempt, Absent, Ordered, Arrival;
    forall r | r in order ensures r + [".git"] !in Staged(Manifest(src)) {
      GitNotStaged(src, r);
    }
    assert AllGit(order, f2) ==> AllGit(order, f);
  }

  lemma HeldLinked(src: Source, order: seq<Path>, refused: set<Path>, f: Tree, cs: map<Path, Tree>, f2: Tree,
                   record: seq<Entry>)
    requires Transfer(src, order) && forall r :: r in order ==> r in cs
    requires Held(src, order, refused, f, cs)
    requires HasLinks(Staged(Manifest(src)), record) && Linking(f, f2, Staged(Manifest(src)), record)
    ensures Held(src, order, refused, f2, cs)
    ensures Opening(src, order, refused, f, cs) ==> Opening(src, order, refused, f2, cs)
  {
    hide Opening, PartlyPlaced, Valid, Described, Staged, Manifest, WellFormed, HasLinks, Agree;
    if Opening(src, order, refused, f, cs) {
      OpeningLinked(src, order, refused, f, cs, f2, record);
    } else {
      PlacedLinked(src, order, refused, f, cs, f2);
    }
  }

  /** All files whole and all links made: the manifest is staged. */
  lemma ReadyNow(src: Source, f: Tree, f2: Tree, record: seq<Entry>)
    requires Records(src, record) && Complete(f, record) && PartOf(f, f2) && LinksMade(f2, record)
    ensures Ready(src, f2)
  {
    hide Manifest, PathOf;
    forall p | p in Manifest(src) ensures LeafOf(f2, p) == Some(Manifest(src)[p]) {
      var e :| e in record && PathOf(e) == p;
    }
  }

  // ---- when the new tree is whole ----

  /** Until `init`, the stage has the new tree exactly when each repository has its
      `.git` there, or, without repositories, when everything is laid out. */
  lemma WholeWhen(src: Source, order: seq<Path>, refused: set<Path>, stage: StageDir)
    requires Transfer(src, order) && forall r :: r in order ==> r in stage.clones
    requires Held(src, order, refused, stage.files, stage.clones)
    ensures WholeIn(src, order, refused, stage.files)
            <==> AllGit(order, stage.files) && (order == [] ==> Ready(src, stage.files))
  {
    var f := stage.files;
    if order == [] {
      WholePlain(src, order, refused, f, stage.clones);
    } else {
      ArrivalGits(src, order, refused);
      hide Valid, Described, Opening, Arrival, Manifest, Absent, Exempt, Ordered;
      assert order[0] in order;
      if Opening(src, order, refused, f, stage.clones) {
        OpeningNoGit(src, order, refused, f, stage.clones);
      }
    }
  }

  lemma WholePlain(src: Source, order: seq<Path>, refused: set<Path>, f: Tree, cs: map<Path, Tree>)
    requires Transfer(src, order) && order == [] && Opening(src, order, refused, f, cs)
    ensures WholeIn(src, order, refused, f) <==> Ready(src, f)
    ensures WholeIn(src, order, refused, f) ==> f == Arrival(src, order, refused)
  {
    ManifestPrefixFree(src);
    StagedWellFormed(Manifest(src));
    assert Arrival(src, order, refused) == Staged(Manifest(src));
    hide Valid, Described, Manifest, Ordered, PrefixFree;
    if Ready(src, f) {
      StagedAll(Manifest(src), f);
    }
    hide Staged, Arrival;
    if PartOf(Staged(Manifest(src)), f) {
      assert f == Staged(Manifest(src));
    }
  }

  lemma ArrivalGits(src: Source, order: seq<Path>, refused: set<Path>)
    requires Transfer(src, order)
    ensures AllGit(order, Arrival(src, order, refused))
  {
    hide Valid, Described, Ordered, Restored;
    forall r | r in order ensures r + [".git"] in Arrival(src, order, refused) {
      var k :| 0 <= k < |order| && order[k] == r;
      GitStays(src, order, k, |order|, refused);
    }
  }

  lemma OpeningNoGit(src: Source, order: seq<Path>, refused: set<Path>, f: Tree, cs: map<Path, Tree>)
    requires Transfer(src, order) && order != [] && forall r :: r in order ==> r in cs
    requires Opening(src, order, refused, f, cs)
    ensures order[0] + [".git"] !in f
  {
    var r := order[0];
    assert r in order;
    GitNotStaged(src, r);
    GitNotAbove(src, r, r);
    hide Valid, Described, Staged, Manifest, Clone, GoneAt, FilePaths, Absent, Blocked, ClonedAt, Made;
  }

  // ---- one try ----

  /** Nothing keeps a request that is not cut off from finishing. */
  ghost predicate Able(order: seq<Path>, record: seq<Entry>, outside: set<Entry>, f: Tree, cs: map<Path, Tree>)
    requires forall r :: r in order ==> r in cs
  {
    Accepted(record, outside) && Complete(f, record) && AllPresent(order, cs)
  }

  lemma HeldStands(src: Source, order: seq<Path>, refused: set<Path>, f: Tree, cs: map<Path, Tree>)
    requires Transfer(src, order) && forall r :: r in order ==> r in cs
    requires Held(src, order, refused, f, cs)
    ensures WellFormed(f) || f == map[]
    ensures Opening(src, order, refused, f, cs) || Stuck(order, cs)
    ensures Opening(src, order, refused, f, cs) ==> Agree(f, Staged(Manifest(src)))
  {
    hide Valid, Described, Opening, Manifest, Staged, WellFormed;
    if Opening(src, order, refused, f, cs) {
      OpeningAgrees(src, order, refused, f, cs);
    }
  }

  lemma HeldPlain(src: Source, order: seq<Path>, refused: set<Path>, f: Tree, cs: map<Path, Tree>)
    requires Transfer(src, order) && forall r :: r in order ==> r in cs
    requires Held(src, order, refused, f, cs)
    ensures order == [] ==> WellFormed(f)
  {
    NeverStuck(order, cs);
    hide Valid, Described, Ordered, WellFormed, Staged, Manifest;
  }

  lemma ArrivalBegun(src: Source, order: seq<Path>, refused: set<Path>)
    requires Transfer(src, order)
    ensures WellFormed(Arrival(src, order, refused))
    ensures Begun(Arrival(src, order, refused), Manifest(src), Arrival(src, order, refused))
  {
    RestoredOrigin(src, order, |order|, refused);
    hide Valid, Described, Ordered, Restored, Manifest, Origin;
    BegunSame(Arrival(src, order, refused), Manifest(src));
  }

  lemma FittedLinked(src: Source, order: seq<Path>, refused: set<Path>, f: Tree, cs: map<Path, Tree>, f2: Tree,
                     record: seq<Entry>)
    requires Transfer(src, order) && forall r :: r in order ==> r in cs
    requires Fitted(src, order, refused, f, cs)
    requires HasLinks(Staged(Manifest(src)), record) && Linking(f, f2, Staged(Manifest(src)), record)
    ensures Fitted(src, order, refused, f2, cs)
  {
    ManifestPrefixFree(src);
    StagedWellFormed(Manifest(src));
    BegunTreeOf(Arrival(src, order, refused), Manifest(src), f);
    hide Valid, Described, Ordered, Arrival, Manifest, Staged, HasLinks, Agree, WellFormed, Landed, Touchable,
         AllPlaced, Begun;
    forall q | q in f2 && f2[q] != Dir && q !in f ensures q in Manifest(src) && Manifest(src)[q] == f2[q] {
      assert LeafOf(Staged(Manifest(src)), q) == Some(f2[q]);
    }
    BegunLinked(Arrival(src, order, refused), Manifest(src), f, f2);
  }

  lemma BegunTreeOf(t: Tree, m: Tree, f: Tree)
    requires Begun(t, m, f)
    ensures WellFormed(f)
  {}

  lemma FittedIsStuck(order: seq<Path>, cs: map<Path, Tree>)
    requires order != [] && forall r :: r in order ==> r in cs
    requires AllPlaced(order, cs)
    ensures Stuck(order, cs) && !AllPresent(order, cs)
  {
    assert order[0] in order;
  }

  /** The checks let the stage through, and every link can be made or is there. */
  ghost predicate Passes(record: seq<Entry>, outside: set<Entry>, f: Tree) {
    Accepted(record, outside) && Complete(f, record) && Linkable(f, record)
  }

  lemma LinksDecide(f: Tree, f2: Tree, record: seq<Entry>, outside: set<Entry>, s: Tree, outcome: Outcome)
    requires Accepted(record, outside) && (WellFormed(f) || f == map[]) && Linking(f, f2, s, record)
    requires outcome == Done ==> LinksMade(f2, record) && Complete(f, record)
    requires outcome == Failed && Apart(record) && WellFormed(f) ==> !(Complete(f, record) && Linkable(f, record))
    requires outcome == Done && Apart(record) && WellFormed(f) ==> f2 == Linked(f, record)
    ensures PartOf(f, f2) && (!Linkable(f, record) ==> outcome != Done)
    ensures WellFormed(f) ==> (outcome == Done ==> Passes(record, outside, f) && f2 == Linked(f, record))
    ensures WellFormed(f) && outcome == Failed ==> !Passes(record, outside, f)
  {
    hide Accepted, Complete, Apart, Linked, HasLinks, Agree, PathOf;
    if outcome == Done {
      MadeLinkable(f, f2, record);
    }
    if Complete(f, record) && Linkable(f, record) && WellFormed(f) {
      WholeApart(f, record, outside);
    }
  }

  lemma NoneLeft(order: seq<Path>, cs: map<Path, Tree>)
    requires forall r :: r in order ==> r in cs
    ensures AllPlaced(order, cs) && order != [] ==> Stuck(order, cs)
  {
    if AllPlaced(order, cs) && order != [] {
      FittedIsStuck(order, cs);
    }
  }

  /** The checks, the links and `restore_repos`. */
  method PutTogether(files: Folder, clones: map<Path, Folder>, record: seq<Entry>, repos: seq<Descriptor>,
                     outside: set<Entry>, refused: set<Path>, power: Power, ghost src: Source)
    returns (outcome: Outcome, ghost bare: (Tree, Tree))
    requires Transfer(src, OrderOf(repos)) && Describes(src, repos) && Records(src, record)
    requires Separate(files, clones) && forall r :: r in OrderOf(repos) ==> r in clones
    requires KeptIn(src, OrderOf(repos), refused, files.nodes, TreesOf(clones))
    modifies files, clones.Values, power
    ensures KeptIn(src, OrderOf(repos), refused, files.nodes, TreesOf(clones))
    ensures Fitted(src, OrderOf(repos), refused, old(files.nodes), old(TreesOf(clones))) || outcome == Done ==>
              Fitted(src, OrderOf(repos), refused, files.nodes, TreesOf(clones))
    ensures !Complete(old(files.nodes), record) ==>
              outcome == Failed && files.nodes == old(files.nodes) && TreesOf(clones) == old(TreesOf(clones))
    ensures Stuck(OrderOf(repos), old(TreesOf(clones))) ==> outcome != Done && TreesOf(clones) == old(TreesOf(clones))
    ensures outcome == Done && Held(src, OrderOf(repos), refused, old(files.nodes), old(TreesOf(clones))) ==>
              files.nodes == Arrival(src, OrderOf(repos), refused)
    ensures outcome == Done && [] in OrderOf(repos) ==>
              && bare == (map[], files.nodes)
              && Held(src, OrderOf(repos), refused, map[], TreesOf(clones)[[] := files.nodes])
    ensures OrderOf(repos) == [] ==> PartOf(old(files.nodes), files.nodes)
    ensures OrderOf(repos) == [] && outcome == Done ==>
              Passes(record, outside, old(files.nodes)) && files.nodes == Linked(old(files.nodes), record)
    ensures OrderOf(repos) == [] && outcome == Failed ==> !Passes(record, outside, old(files.nodes))
    ensures !Linkable(old(files.nodes), record) ==>
              outcome != Done && PartOf(old(files.nodes), files.nodes) && TreesOf(clones) == old(TreesOf(clones))
    ensures old(power.left) == None ==>
              && power.left == None && outcome != Cut
              && (Held(src, OrderOf(repos), refused, old(files.nodes), old(TreesOf(clones))) ==>
                    (outcome == Done
                     <==> Able(OrderOf(repos), record, outside, old(files.nodes), old(TreesOf(clones)))))
  {
    hide Transfer, Describes, Records, OrderOf, Held, Fitted, Stuck, TreesOf, Accepted, Complete, AllPresent;
    hide Arrival, Opening, Ready, LinksMade, HasLinks, Agree, Staged, Manifest, WellFormed, AllPlaced;
    hide Linkable, Linked, Linking, Apart, PartOf, Passes;
    bare := (map[], map[]);
    ghost var order, s := OrderOf(repos), Staged(Manifest(src));
    ghost var f, cs := files.nodes, TreesOf(clones);
    NotAccepted(f, record, outside);
    var ok := ValidateManifest(record, outside);
    if !ok {
      return Failed, bare;
    }
    BeforeLinks(src, order, refused, f, cs, record);
    outcome := LayOut(files, record, power, s);
    ghost var f2 := files.nodes;
    LinksDecide(f, f2, record, outside, s, outcome);
    AfterLinks(src, order, refused, f, cs, f2, record);
    if outcome != Done {
      return;
    }
    outcome, bare := RestoreRepos(files, repos, clones, refused, power, src);
    AfterRestore(src, order, refused, f2, cs, files.nodes, TreesOf(clones), outcome);
  }

  lemma NotAccepted(f: Tree, record: seq<Entry>, outside: set<Entry>)
    ensures !Accepted(record, outside) ==> !Passes(record, outside, f)
    ensures PartOf(f, f)
  {}

  lemma BeforeLinks(src: Source, order: seq<Path>, refused: set<Path>, f: Tree, cs: map<Path, Tree>, record: seq<Entry>)
    requires Transfer(src, order) && Records(src, record) && forall r :: r in order ==> r in cs
    requires KeptIn(src, order, refused, f, cs)
    ensures WellFormed(f) || f == map[]
    ensures order == [] ==> WellFormed(f)
    ensures HasLinks(Staged(Manifest(src)), record)
    ensures Held(src, order, refused, f, cs) && AllPresent(order, cs) ==> Agree(f, Staged(Manifest(src)))
  {
    hide Opening, HasLinks, Records, Agree, Held, WellFormed, Begun;
    if Held(src, order, refused, f, cs) {
      HeldStands(src, order, refused, f, cs);
      HeldPlain(src, order, refused, f, cs);
    } else {
      BegunTreeOf(Arrival(src, order, refused), Manifest(src), f);
    }
    RecordLinks(src, record);
  }

  lemma AfterLinks(src: Source, order: seq<Path>, refused: set<Path>, f: Tree, cs: map<Path, Tree>, f2: Tree,
                   record: seq<Entry>)
    requires Transfer(src, order) && Records(src, record) && forall r :: r in order ==> r in cs
    requires KeptIn(src, order, refused, f, cs) && Linking(f, f2, Staged(Manifest(src)), record)
    ensures Valid(src) && Ordered(Described(src), order) && forall r :: r in order ==> r in src.repos
    ensures Held(src, order, refused, f, cs) ==> Held(src, order, refused, f2, cs)
    ensures Fitted(src, order, refused, f, cs) ==> Fitted(src, order, refused, f2, cs)
    ensures Complete(f, record) && LinksMade(f2, record) ==>
              || order == [] || Stuck(order, cs)
              || (Opening(src, order, refused, f2, cs) && Ready(src, f2))
    ensures Complete(f, record) && LinksMade(f2, record) && Held(src, order, refused, f, cs) && order == [] ==>
              f2 == Arrival(src, order, refused) && Fitted(src, order, refused, f2, cs)
  {
    hide Valid, Ordered, Described, Records, Held, Arrival, Stuck, Complete, LinksMade, Opening, Ready, HasLinks,
         Staged, Manifest, WellFormed, Begun;
    RecordLinks(src, record);
    if Complete(f, record) && LinksMade(f2, record) {
      ReadyNow(src, f, f2, record);
    }
    if Fitted(src, order, refused, f, cs) {
      FittedLinked(src, order, refused, f, cs, f2, record);
      if order != [] {
        FittedIsStuck(order, cs);
      }
    }
    if Held(src, order, refused, f, cs) {
      HeldLinked(src, order, refused, f, cs, f2, record);
      HeldStands(src, order, refused, f, cs);
      ArrivalBegun(src, order, refused);
      NeverStuck(order, cs);
      if order == [] && Ready(src, f2) {
        WholePlain(src, order, refused, f2, cs);
      }
    }
  }

  lemma NeverStuck(order: seq<Path>, cs: map<Path, Tree>)
    requires forall r :: r in order ==> r in cs
    ensures order == [] ==> !Stuck(order, cs) && AllPlaced(order, cs)
  {}

  lemma AfterRestore(src: Source, order: seq<Path>, refused: set<Path>, f: Tree, cs: map<Path, Tree>, f2: Tree,
                     cs2: map<Path, Tree>, outcome: Outcome)
    requires Transfer(src, order) && forall r :: r in order ==> r in cs && r in cs2
    requires KeptIn(src, order, refused, f, cs)
    requires order == [] ==> outcome == Done && f2 == f && cs2 == cs
    requires Stuck(order, cs) ==> outcome == Failed && f2 == f && cs2 == cs
    requires outcome == Done ==> AllPlaced(order, cs2) && (order != [] ==> f2 == Arrival(src, order, refused))
    requires outcome != Done && !Stuck(order, cs) ==> Held(src, order, refused, f2, cs2)
    ensures KeptIn(src, order, refused, f2, cs2)
    ensures outcome == Done && order != [] ==> Fitted(src, order, refused, f2, cs2)
    ensures Fitted(src, order, refused, f, cs) ==> Fitted(src, order, refused, f2, cs2)
  {
    hide Valid, Ordered, Described, Held, Arrival, Stuck, Manifest, Begun, AllPlaced;
    ArrivalBegun(src, order, refused);
    if Fitted(src, order, refused, f, cs) && order != [] {
      FittedIsStuck(order, cs);
    }
  }

  /** The target belongs to another bot: every request is turned down. */
  predicate Occupied(root: Option<Tree>, owners: set<Bytes>) {
    root.Some? && Foreign(root.value, owners)
  }

  /** How far the renames of `install` have come. */
  predicate Renaming(root: Option<Tree>, replaced: Option<Tree>, f: Tree, root2: Option<Tree>, replaced2: Option<Tree>,
                     f2: Tree) {
    || (root2 == root && replaced2 == replaced && f2 == f)
    || (root.Some? && root2 == None && replaced2 == root && f2 == f)
    || (root2 == Some(f) && replaced2 == (if root.Some? then root else replaced) && f2 == map[])
  }

  class Target {
    const texts: Texts                // what `init` writes
    const owners: set<Bytes>          // the markers that name this bot
    const record: seq<Entry>          // transfer.json
    const repos: seq<Descriptor>
    const files: Folder               // files/
    const clones: map<Path, Folder>   // repos/
    var replaced: Option<Tree>        // replaced/
    var staged: bool
    var root: Option<Tree>

    ghost function State(): Disk
      reads this, files, clones.Values
    {
      Disk(root, if staged then Some(StageDir(files.nodes, TreesOf(clones), replaced)) else None)
    }

    constructor (texts: Texts, owners: set<Bytes>, record: seq<Entry>, repos: seq<Descriptor>,
                 files: Folder, clones: map<Path, Folder>, root: Option<Tree>)
      ensures this.texts == texts && this.owners == owners && this.record == record && this.repos == repos
      ensures this.files == files && this.clones == clones && staged
      ensures State() == Disk(root, Some(StageDir(files.nodes, TreesOf(clones), None)))
    {
      this.texts, this.owners, this.record, this.repos := texts, owners, record, repos;
      this.files, this.clones := files, clones;
      this.root, replaced, staged := root, None, true;
    }

    /** `install` with `replace`, and the removal of the stage. */
    method Install(leads: bool, power: Power) returns (outcome: Outcome)
      requires staged && WellFormed(files.nodes) && !(root.Some? && replaced.Some?)
      modifies this, files, power
      ensures outcome == Done ==>
                !Refuses(old(files.nodes), owners) && State() == Disk(Some(Initialised(old(files.nodes), texts)), None)
      ensures outcome == Failed ==> Refuses(old(files.nodes), owners)
      ensures Foreign(old(files.nodes), owners) ==> outcome == Failed && files.nodes == old(files.nodes)
      ensures outcome != Done ==> staged
      ensures outcome == Failed ==> root == old(root) && replaced == old(replaced)
      ensures outcome == Failed ==> Begun(old(files.nodes), map[], files.nodes)
      ensures outcome == Cut ==>
                || (root == old(root) && replaced == old(replaced) && Begun(old(files.nodes), map[], files.nodes))
                || (Begun(old(files.nodes), map[], Initialised(old(files.nodes), texts))
                    && Renaming(old(root), old(replaced), Initialised(old(files.nodes), texts), root, replaced,
                         files.nodes))
      ensures outcome == Done ==> Begun(old(files.nodes), map[], Initialised(old(files.nodes), texts))
      ensures old(power.left) == None ==> outcome != Cut && power.left == None
    {
      hide Begun, WellFormed, Refuses, Initialised, Foreign;
      outcome := Init(files, texts, owners, leads, power);
      if outcome != Done {
        return;
      }
      if root.Some? {
        var cut := power.Fails();
        if cut {
          return Cut;
        }
        root, replaced := None, root;
      }
      var cut := power.Fails();
      if cut {
        return Cut;
      }
      root := Some(files.nodes);
      files.nodes := map[];
      cut := power.Fails();
      if cut {
        return Cut;
      }
      staged := false;
    }

    /** One request to finish with `replace`. For a workspace that is itself a
        repository, `bare` is passed on the way. */
    method Finish(outside: set<Entry>, leads: bool, refused: set<Path>, power: Power, ghost src: Source,
                  ghost before: Option<Tree>)
      returns (outcome: Outcome, ghost bare: Disk)
      requires Transfer(src, OrderOf(repos)) && Describes(src, repos) && Records(src, record)
      requires Separate(files, clones) && forall r :: r in OrderOf(repos) ==> r in clones
      requires Sound(src, OrderOf(repos), refused, before, texts.mark, State()) && texts.mark in owners
      modifies this, files, clones.Values, power
      ensures Sound(src, OrderOf(repos), refused, before, texts.mark, State())
      ensures Occupied(old(root), owners) ==> outcome == Failed && State() == old(State())
      // again
      ensures Installed(old(State()), texts.mark) ==> outcome == Done && State() == old(State())
      ensures outcome == Done ==> Installed(State(), texts.mark)
      ensures outcome != Done ==> staged == old(staged)
      ensures outcome == Failed ==> root == old(root) && replaced == old(replaced)
      ensures !Installed(old(State()), texts.mark) && !Complete(old(files.nodes), record) ==>
                outcome == Failed && State() == old(State()) && files.nodes == old(files.nodes)
      ensures !Installed(old(State()), texts.mark) && Stuck(OrderOf(repos), old(TreesOf(clones))) ==>
                && outcome != Done && root == old(root) && replaced == old(replaced)
                && TreesOf(clones) == old(TreesOf(clones))
      ensures !Installed(old(State()), texts.mark) && !Linkable(old(files.nodes), record) ==>
                outcome != Done && root == old(root) && replaced == old(replaced) && !Linkable(files.nodes, record)
      ensures !Installed(old(State()), texts.mark) && OrderOf(repos) == [] && Foreign(old(files.nodes), owners) ==>
                outcome != Done && root == old(root) && replaced == old(replaced) && Foreign(files.nodes, owners)
      // without repositories, whatever earlier tries have done
      ensures outcome == Done && !Installed(old(State()), texts.mark) && OrderOf(repos) == [] ==>
                State() == Disk(Some(Initialised(Linked(old(files.nodes), record), texts)), None)
      ensures old(power.left) == None && OrderOf(repos) == [] ==>
                (outcome == Done <==>
                   || Installed(old(State()), texts.mark)
                   || (!Occupied(old(root), owners) && old(staged) && Passes(record, outside, old(files.nodes))
                       && !Refuses(Linked(old(files.nodes), record), owners)))
      // from a stage that `init` has not touched
      ensures outcome == Done && !Installed(old(State()), texts.mark)
              && Held(src, OrderOf(repos), refused, old(files.nodes), old(TreesOf(clones))) ==>
                State() == Disk(Some(Initialised(Arrival(src, OrderOf(repos), refused), texts)), None)
      ensures outcome == Done && !Installed(old(State()), texts.mark) && [] in OrderOf(repos) ==>
                && bare.root == before && bare.stage.Some?
                && bare.stage.value
                   == StageDir(map[], TreesOf(clones)[[] := Arrival(src, OrderOf(repos), refused)], None)
                && Sound(src, OrderOf(repos), refused, before, texts.mark, bare)
      ensures old(power.left) == None ==> power.left == None && outcome != Cut
      ensures old(power.left) == None && Held(src, OrderOf(repos), refused, old(files.nodes), old(TreesOf(clones))) ==>
                (outcome == Done <==>
                   || Installed(old(State()), texts.mark)
                   || (!Occupied(old(root), owners) && old(staged)
                       && Able(OrderOf(repos), record, outside, old(files.nodes), old(TreesOf(clones)))
                       && !Refuses(Arrival(src, OrderOf(repos), refused), owners)))
      ensures old(power.left) == None && Held(src, OrderOf(repos), refused, old(files.nodes), old(TreesOf(clones)))
              && outcome == Failed && old(staged) && !Occupied(old(root), owners)
              && Able(OrderOf(repos), record, outside, old(files.nodes), old(TreesOf(clones))) ==>
                && AllPlaced(OrderOf(repos), TreesOf(clones))
                && (OrderOf(repos) != [] ==> Stuck(OrderOf(repos), TreesOf(clones)))
    {
      hide Transfer, Describes, Records, OrderOf, Held, Fitted, Stuck, TreesOf, Able, Arrival, Complete, Begun,
           WellFormed;
      hide Refuses, Initialised, AllPlaced, Sound, KeptIn, Installed, Aside, Renaming, Foreign, Passes, Linkable,
           Linked, PartOf;
      bare := State();
      ghost var order := OrderOf(repos);
      InstalledOwned(State(), texts.mark, owners);
      if root.Some? && Foreign(root.value, owners) {
        return Failed, bare;
      }
      assert Installed(State(), texts.mark) <==>
        root.Some? && MARKER_FILE in root.value && root.value[MARKER_FILE] == File(texts.mark) by
      {
        InstalledIs(State(), texts.mark);
      }
      if root.Some? && MARKER_FILE in root.value && root.value[MARKER_FILE] == File(texts.mark) {
        return Done, bare;
      }
      if !staged {
        return Failed, bare;
      }
      ghost var f, cs := files.nodes, TreesOf(clones);
      StillOpen(src, order, refused, before, texts.mark, root, replaced, f, cs);
      if order != [] && Fitted(src, order, refused, f, cs) {
        FittedOpen(src, order, refused, f, cs);
        FittedIsStuck(order, cs);
      }
      ghost var passed;
      outcome, passed := PutTogether(files, clones, record, repos, outside, refused, power, src);
      OpenSound(src, order, refused, before, texts.mark, root, replaced, files.nodes, TreesOf(clones));
      BlockedStays(f, files.nodes, record, owners);
      if outcome != Done {
        return;
      }
      if [] in order {
        HeldKept(src, order, refused, map[], TreesOf(clones)[[] := passed.1]);
        OpenSound(src, order, refused, before, texts.mark, root, replaced, map[], TreesOf(clones)[[] := passed.1]);
        bare := Disk(root, Some(StageDir(map[], TreesOf(clones)[[] := passed.1], replaced)));
      }
      ghost var t, back := files.nodes, TreesOf(clones);
      FittedOpen(src, order, refused, t, back);
      NoneLeft(order, back);
      ghost var r0, a0 := root, replaced;
      outcome := Install(leads, power);
      AfterInstall(src, order, refused, before, texts, r0, a0, t, back, outcome, root, replaced, staged, files.nodes);
    }
  }

  /** What keeps a stage from being installed is not mended by adding links. */
  lemma BlockedStays(f: Tree, f2: Tree, record: seq<Entry>, owners: set<Bytes>)
    ensures PartOf(f, f2) && !Linkable(f, record) ==> !Linkable(f2, record)
    ensures PartOf(f, f2) && Foreign(f, owners) ==> Foreign(f2, owners)
  {
    hide Linkable;
    if PartOf(f, f2) && Linkable(f2, record) {
      LinkableBefore(f, f2, record);
    }
  }

  lemma InstalledOwned(d: Disk, mark: Bytes, owners: set<Bytes>)
    requires mark in owners
    ensures Installed(d, mark) ==> !Occupied(d.root, owners)
  {}

  lemma InstalledIs(d: Disk, mark: Bytes)
    ensures Installed(d, mark)
            <==> d.root.Some? && MARKER_FILE in d.root.value && d.root.value[MARKER_FILE] == File(mark)
  {}

  lemma HeldKept(src: Source, order: seq<Path>, refused: set<Path>, f: Tree, cs: map<Path, Tree>)
    requires Transfer(src, order) && forall r :: r in order ==> r in cs
    ensures Held(src, order, refused, f, cs) ==> KeptIn(src, order, refused, f, cs)
  {
    hide Held, Fitted;
  }

  lemma FittedKept(src: Source, order: seq<Path>, refused: set<Path>, f: Tree, cs: map<Path, Tree>)
    requires Transfer(src, order) && forall r :: r in order ==> r in cs
    ensures Fitted(src, order, refused, f, cs) ==> KeptIn(src, order, refused, f, cs)
  {
    hide Held, Fitted;
  }

  /** The old workspace, if there was one, stands or is set aside. */
  predicate Aside(before: Option<Tree>, root: Option<Tree>, replaced: Option<Tree>) {
    (root == before && replaced == None) || (before.Some? && root == None && replaced == before)
  }

  lemma StillOpen(src: Source, order: seq<Path>, refused: set<Path>, before: Option<Tree>, mark: Bytes,
                  root: Option<Tree>, replaced: Option<Tree>, f: Tree, cs: map<Path, Tree>)
    requires Transfer(src, order) && forall r :: r in order ==> r in cs
    requires var d := Disk(root, Some(StageDir(f, cs, replaced)));
             Sound(src, order, refused, before, mark, d) && !Installed(d, mark)
    ensures Aside(before, root, replaced) && KeptIn(src, order, refused, f, cs) && !(root.Some? && replaced.Some?)
    ensures Held(src, order, refused, f, cs) || Fitted(src, order, refused, f, cs)
    ensures root != before || replaced != None ==> Fitted(src, order, refused, f, cs)
  {
    hide Transfer, Held, Fitted, Begun;
  }

  lemma OpenSound(src: Source, order: seq<Path>, refused: set<Path>, before: Option<Tree>, mark: Bytes,
                  root: Option<Tree>, replaced: Option<Tree>, f: Tree, cs: map<Path, Tree>)
    requires Transfer(src, order) && forall r :: r in order ==> r in cs
    ensures Aside(before, root, replaced) && KeptIn(src, order, refused, f, cs)
            && (root != before || replaced != None ==> Fitted(src, order, refused, f, cs)) ==>
              Sound(src, order, refused, before, mark, Disk(root, Some(StageDir(f, cs, replaced))))
  {
    hide Transfer, Held, Fitted, Begun;
  }

  lemma RenamedSound(src: Source, order: seq<Path>, refused: set<Path>, before: Option<Tree>, mark: Bytes,
                     root: Option<Tree>, replaced: Option<Tree>, f: Tree, cs: map<Path, Tree>,
                     root2: Option<Tree>, replaced2: Option<Tree>, f2: Tree)
    requires Transfer(src, order) && forall r :: r in order ==> r in cs
    requires Aside(before, root, replaced) && LeafOf(f, MARKER_FILE) == Some(File(mark))
    ensures Fitted(src, order, refused, f, cs) && Renaming(root, replaced, f, root2, replaced2, f2) ==>
              Sound(src, order, refused, before, mark, Disk(root2, Some(StageDir(f2, cs, replaced2))))
    ensures Fitted(src, order, refused, f, cs) ==> Sound(src, order, refused, before, mark, Disk(Some(f), None))
    ensures Installed(Disk(Some(f), None), mark)
  {
    hide Transfer, Held, Begun, AllPlaced;
  }

  lemma FittedOpen(src: Source, order: seq<Path>, refused: set<Path>, f: Tree, cs: map<Path, Tree>)
    requires Transfer(src, order) && forall r :: r in order ==> r in cs
    requires Fitted(src, order, refused, f, cs)
    ensures WellFormed(f) && AllPlaced(order, cs) && Begun(Arrival(src, order, refused), Manifest(src), f)
  {}

  lemma InitialisedMark(t: Tree, x: Texts)
    ensures LeafOf(Initialised(t, x), MARKER_FILE) == Some(File(x.mark))
  {
    hide Shielded, Ignored, Skilled, Instructed;
  }

  lemma AfterInit(src: Source, order: seq<Path>, refused: set<Path>, t: Tree, cs: map<Path, Tree>, f: Tree)
    requires Transfer(src, order) && forall r :: r in order ==> r in cs
    requires Fitted(src, order, refused, t, cs)
    ensures Begun(t, map[], f) ==>
              Begun(Arrival(src, order, refused), Manifest(src), f) && Fitted(src, order, refused, f, cs)
  {
    hide Valid, Described, Ordered, Arrival, Manifest, Begun, AllPlaced;
    if Begun(t, map[], f) {
      BegunOn(Arrival(src, order, refused), Manifest(src), t, f);
    }
  }

  lemma AfterInstall(src: Source, order: seq<Path>, refused: set<Path>, before: Option<Tree>, x: Texts,
                     r0: Option<Tree>, a0: Option<Tree>, t: Tree, cs: map<Path, Tree>,
                     outcome: Outcome, root: Option<Tree>, replaced: Option<Tree>, staged: bool, f: Tree)
    requires Transfer(src, order) && forall r :: r in order ==> r in cs
    requires Fitted(src, order, refused, t, cs) && Aside(before, r0, a0)
    requires if outcome == Done then root == Some(Initialised(t, x)) && !staged && Begun(t, map[], Initialised(t, x))
             else staged
                  && (|| (root == r0 && replaced == a0 && Begun(t, map[], f))
                      || (Begun(t, map[], Initialised(t, x)) && Renaming(r0, a0, Initialised(t, x), root, replaced, f)))
    ensures Sound(src, order, refused, before, x.mark,
            Disk(root, if staged then Some(StageDir(f, cs, replaced)) else None))
    ensures outcome == Done ==> Installed(Disk(root, None), x.mark)
  {
    hide *;
    InitialisedMark(t, x);
    AfterInit(src, order, refused, t, cs, f);
    AfterInit(src, order, refused, t, cs, Initialised(t, x));
    FittedKept(src, order, refused, f, cs);
    OpenSound(src, order, refused, before, x.mark, root, replaced, f, cs);
    RenamedSound(src, order, refused, before, x.mark, r0, a0, Initialised(t, x), cs, root, replaced, f);
  }

  /** Any number of requests, each cut off anywhere or not at all. */
  method Retries(target: Target, tries: seq<(set<Entry>, Option<nat>)>, leads: bool, refused: set<Path>,
                 ghost src: Source, ghost before: Option<Tree>)
    returns (outcomes: seq<Outcome>)
    requires Transfer(src, OrderOf(target.repos)) && Describes(src, target.repos) && Records(src, target.record)
    requires Separate(target.files, target.clones) && forall r :: r in OrderOf(target.repos) ==> r in target.clones
    requires Sound(src, OrderOf(target.repos), refused, before, target.texts.mark, target.State())
    requires target.texts.mark in target.owners
    modifies target, target.files, target.clones.Values
    ensures |outcomes| == |tries|
    ensures Sound(src, OrderOf(target.repos), refused, before, target.texts.mark, target.State())
    ensures Done in outcomes ==> Installed(target.State(), target.texts.mark)
    ensures old(target.staged) && Done !in outcomes ==> target.staged
    // no leaf is lost: the stage goes only once the new tree is in place
    ensures old(target.staged) && !Installed(Disk(before, None), target.texts.mark) ==>
              forall p :: p in Manifest(src) && p !in Exempt(src, refused) ==>
                LeafKept(src, OrderOf(target.repos), refused, before, target.texts.mark, target.State(), p)
    // nothing comes of it at another bot's directory, once the first clone is gone, while a listed
    // file is not whole, or once a link does not fit or, without repositories, the marker is torn
    ensures Occupied(old(target.root), target.owners) ==> Done !in outcomes && target.State() == old(target.State())
    ensures !Installed(old(target.State()), target.texts.mark)
            && Stuck(OrderOf(target.repos), old(TreesOf(target.clones))) ==>
              Done !in outcomes && target.root == old(target.root) && target.replaced == old(target.replaced)
    ensures !Installed(old(target.State()), target.texts.mark) && !Complete(old(target.files.nodes), target.record) ==>
              Done !in outcomes && target.State() == old(target.State())
    ensures !Installed(old(target.State()), target.texts.mark) && !Linkable(old(target.files.nodes), target.record) ==>
              Done !in outcomes && target.root == old(target.root) && target.replaced == old(target.replaced)
    ensures !Installed(old(target.State()), target.texts.mark) && OrderOf(target.repos) == []
            && Foreign(old(target.files.nodes), target.owners) ==>
              Done !in outcomes && target.root == old(target.root) && target.replaced == old(target.replaced)
  {
    hide Transfer, Describes, Records, OrderOf, TreesOf, Arrival, Sound, Stuck, Complete, Held, Able, AllPlaced,
         Initialised, Refuses, Occupied;
    hide Passes, Linkable, Linked, Foreign, LeafKept, Manifest, Exempt;
    ghost var order, mark := OrderOf(target.repos), target.texts.mark;
    ghost var d0, cs0, f0 := target.State(), TreesOf(target.clones), target.files.nodes;
    outcomes := [];
    for i := 0 to |tries|
      invariant |outcomes| == i
      invariant Sound(src, order, refused, before, mark, target.State())
      invariant Done in outcomes ==> Installed(target.State(), mark)
      invariant d0.stage.Some? && Done !in outcomes ==> target.staged
      invariant !Installed(d0, mark) && !Linkable(f0, target.record) ==>
                  Done !in outcomes && target.root == d0.root && target.replaced == old(target.replaced)
                  && !Linkable(target.files.nodes, target.record)
      invariant !Installed(d0, mark) && order == [] && Foreign(f0, target.owners) ==>
                  Done !in outcomes && target.root == d0.root && target.replaced == old(target.replaced)
                  && Foreign(target.files.nodes, target.owners)
      invariant Occupied(d0.root, target.owners) ==> Done !in outcomes && target.State() == d0
      invariant !Installed(d0, mark) && Stuck(order, cs0) ==>
                  Done !in outcomes && target.root == d0.root && target.replaced == old(target.replaced)
                  && TreesOf(target.clones) == cs0
      invariant !Installed(d0, mark) && !Complete(f0, target.record) ==>
                  Done !in outcomes && target.State() == d0 && target.files.nodes == f0
    {
      var power := new Power(tries[i].1);
      ghost var bare;
      var outcome;
      outcome, bare := target.Finish(tries[i].0, leads, refused, power, src, before);
      outcomes := outcomes + [outcome];
    }
    if d0.stage.Some? && !Installed(Disk(before, None), mark) {
      forall p | p in Manifest(src) && p !in Exempt(src, refused)
        ensures LeafKept(src, order, refused, before, mark, target.State(), p)
      {
        LeavesKept(src, order, refused, before, mark, target.State(), p);
      }
    }
  }

  // ---- what this means ----

  /** A leaf of the transfer is in the files, in a clone or at the target, or is a
      link that the next try makes; what was at `CLAUDE.md` may have been set aside. */
  ghost predicate LeafKept(src: Source, order: seq<Path>, refused: set<Path>, before: Option<Tree>, mark: Bytes,
                           d: Disk, p: Path)
    requires Transfer(src, order) && p in Manifest(src)
  {
    || (InPlace(src, order, refused, before, mark, d) && Landed(d.root.value, p, Manifest(src)[p]))
    || (d.stage.Some? && (forall r :: r in order ==> r in d.stage.value.clones)
        && (|| Somewhere(src, order, d.stage.value.files, d.stage.value.clones, p)
            || (Fitted(src, order, refused, d.stage.value.files, d.stage.value.clones)
                && Landed(d.stage.value.files, p, Manifest(src)[p]))
            || (Manifest(src)[p].Link? && Opening(src, order, refused, d.stage.value.files, d.stage.value.clones))))
  }

  /** While the stage is there, and once the new tree is in place, no leaf is lost. What
      a deletion list names and what `init` rewrites is not promised. */
  lemma {:induction false} LeavesKept(src: Source, order: seq<Path>, refused: set<Path>, before: Option<Tree>,
                                      mark: Bytes, d: Disk, p: Path)
    requires Transfer(src, order) && Sound(src, order, refused, before, mark, d)
    requires (d.stage.Some? || Installed(d, mark)) && !Installed(Disk(before, None), mark)
    requires p in Manifest(src) && p !in Exempt(src, refused)
    ensures LeafKept(src, order, refused, before, mark, d, p)
  {
    LeafStaged(src, p);
    LeafStays(src, order, |order|, refused, p);
    hide Valid, Described, Manifest, Opening, Exempt, Somewhere, Restored, Ordered, Landed, Touchable, AllPlaced;
    assert LeafOf(Arrival(src, order, refused), p) == Some(Manifest(src)[p]);
    if !InPlace(src, order, refused, before, mark, d) {
      var f, cs := d.stage.value.files, d.stage.value.clones;
      if Held(src, order, refused, f, cs) && Opening(src, order, refused, f, cs) && Manifest(src)[p].File? {
        OpeningLeaf(src, order, refused, f, cs, p);
      }
    }
  }

  lemma LeafStaged(src: Source, p: Path)
    requires p in Manifest(src)
    ensures Manifest(src)[p].File? || Manifest(src)[p].Link?
  {}

  lemma OpeningLeaf(src: Source, order: seq<Path>, refused: set<Path>, f: Tree, cs: map<Path, Tree>, p: Path)
    requires Transfer(src, order) && forall r :: r in order ==> r in cs
    requires Opening(src, order, refused, f, cs)
    requires p in Manifest(src) && p !in Exempt(src, refused) && Manifest(src)[p].File?
    ensures Somewhere(src, order, f, cs, p)
  {
    assert p in FilePaths(src);
    StagedLeaf(src, p);
    if order != [] && !Absent(cs[order[0]], order[0]) {
      NotDoomed(src, order, 0, refused, p);
      assert order[0] in order;
      hide Valid, Described, Staged, Manifest, Clone, GoneAt, FilePaths, Absent, Blocked, ClonedAt, Made, Standing,
           Exempt;
      var s := Staged(Manifest(src));
      assert LeafOf(f, p) == LeafOf(s, p) || LeafOf(cs[order[0]], p) == LeafOf(s, p);
    }
  }

  /** Once `init` has begun no clone is left to be put back, so that a retry is
      refused, unless there are no repositories at all. In the gap it has. */
  lemma FittedIsLast(src: Source, order: seq<Path>, refused: set<Path>, f: Tree, cs: map<Path, Tree>)
    requires Transfer(src, order) && forall r :: r in order ==> r in cs
    requires Fitted(src, order, refused, f, cs)
    ensures Stuck(order, cs) <==> order != []
    ensures AllPresent(order, cs) <==> order == []
  {
    FittedOpen(src, order, refused, f, cs);
    hide Transfer, Fitted, Absent;
    if order != [] {
      FittedIsStuck(order, cs);
    }
  }

  /** A listed `CLAUDE.md` that has become a link is no whole file: no later try gets
      past the checks. */
  lemma AliasIsRefused(f: Tree, record: seq<Entry>)
    requires CLAUDE in f && f[CLAUDE].Link?
    requires exists e :: e in record && e.FileEntry? && PathOf(e) == CLAUDE
    ensures !Complete(f, record)
  {
    hide PathOf;
  }

  /** Once the directory of links to the skills has become one link, the listed links
      below it no longer fit. */
  lemma SkillsAreRefused(f: Tree, record: seq<Entry>)
    requires SKILLS in f && f[SKILLS].Link?
    requires exists e :: e in record && e.LinkEntry? && Under(SKILLS, PathOf(e)) && PathOf(e) != SKILLS
    ensures !Linkable(f, record)
  {
    var e :| e in record && e.LinkEntry? && Under(SKILLS, PathOf(e)) && PathOf(e) != SKILLS;
    assert PathOf(e)[..2] == SKILLS;
    hide PathOf;
    assert !LinkFree(f, e);
  }

  /** For a workspace that is itself a repository there is a moment at which the new
      tree is in the clone alone: the stage is not whole, and if the record lists a
      file, no later try gets past the checks. */
  lemma BareIsRefused(src: Source, order: seq<Path>, refused: set<Path>, record: seq<Entry>, outside: set<Entry>,
                      cs: map<Path, Tree>)
    requires Transfer(src, order) && [] in order && forall r :: r in order ==> r in cs
    ensures !WholeIn(src, order, refused, map[])
    ensures (exists e :: e in record && e.FileEntry?) ==> !Able(order, record, outside, map[], cs)
  {
    ArrivalGits(src, order, refused);
    hide Transfer, Arrival, Accepted;
    assert [".git"] == [] + [".git"];
    assert [] + [".git"] in Arrival(src, order, refused);
  }

  const STALE: nat := 6 * 3600

  /** `sweep_stages`, when the stage has not changed for `age` seconds. */
  function Swept(d: Disk, age: nat): Disk {
    if age > STALE then d.(stage := None) else d
  }

  /** A sweep is harmless exactly outside the gap, or while the stage is young; in the
      gap it removes both workspaces. */
  lemma SweptInTheGap(src: Source, order: seq<Path>, refused: set<Path>, before: Option<Tree>, mark: Bytes, d: Disk,
                      age: nat)
    requires Transfer(src, order) && Sound(src, order, refused, before, mark, d)
    ensures Sound(src, order, refused, before, mark, Swept(d, age))
            <==> !(Gap(src, order, refused, before, d) && age > STALE)
    ensures Gap(src, order, refused, before, d) && age > STALE ==> Swept(d, age) == Disk(None, None)
  {
    hide Transfer, Kept, Fitted, Begun, Arrival;
  }

  /** The files received whole and the clones made: `finish` can begin. */
  lemma ReceivedSound(src: Source, order: seq<Path>, refused: set<Path>, before: Option<Tree>, mark: Bytes,
                      record: seq<Entry>, outside: set<Entry>, f: Tree, cs: map<Path, Tree>)
    requires Transfer(src, order) && Records(src, record) && MapOf(record) == Manifest(src)
    requires Accepted(record, outside) && Holds(f, record) && Complete(f, record)
    requires forall r :: r in order ==> r in cs && cs[r] == Clone(r, src.repos[r])
    ensures Sound(src, order, refused, before, mark, Disk(before, Some(StageDir(f, cs, None))))
    ensures AllPresent(order, cs) && Held(src, order, refused, f, cs)
  {
    FilesReceived(src, record, outside, f);
    hide Transfer, Accepted, Holds, Complete, Records, MapOf, Manifest, Staged, FilePaths, Opening, PartlyPlaced;
    ClonesPresent(src, order, cs);
    ReceivedOpening(src, order, refused, f, cs);
    BeginSound(src, order, refused, before, mark, f, cs);
  }

  lemma BeginSound(src: Source, order: seq<Path>, refused: set<Path>, before: Option<Tree>, mark: Bytes, f: Tree,
                   cs: map<Path, Tree>)
    requires Transfer(src, order) && forall r :: r in order ==> r in cs
    requires Opening(src, order, refused, f, cs)
    ensures Sound(src, order, refused, before, mark, Disk(before, Some(StageDir(f, cs, None))))
  {
    hide Transfer, Opening, PartlyPlaced, Gap, InPlace;
  }

  lemma ClonesPresent(src: Source, order: seq<Path>, cs: map<Path, Tree>)
    requires Transfer(src, order) && forall r :: r in order ==> r in cs && cs[r] == Clone(r, src.repos[r])
    ensures AllPresent(order, cs)
  {
    forall r | r in order ensures !Absent(cs[r], r) {
      CloneLeaves(src, r);
      assert Under(r, r + [".git"]);
    }
  }

  lemma ReceivedOpening(src: Source, order: seq<Path>, refused: set<Path>, f: Tree, cs: map<Path, Tree>)
    requires Transfer(src, order) && forall r :: r in order ==> r in cs && cs[r] == Clone(r, src.repos[r])
    requires WellFormed(f) && PartOf(f, Staged(Manifest(src)))
    requires forall p :: p in FilePaths(src) ==>
              LeafOf(f, p) == Some(Manifest(src)[p]) && LeafOf(Staged(Manifest(src)), p) == Some(Manifest(src)[p])
    ensures Opening(src, order, refused, f, cs)
  {
    hide Manifest, Staged, Described, Clone, GoneAt, Absent, WellFormed, Midway;
    assert forall i :: 0 <= i < |order| ==> order[i] in order;
    if order != [] {
      var r := order[0];
      CloneLeaves(src, r);
      NothingDone(Staged(Manifest(src)), cs[r], f, r, FilePaths(src), GoneAt(src, r, refused));
    }
  }

  lemma FilesReceived(src: Source, record: seq<Entry>, outside: set<Entry>, f: Tree)
    requires Valid(src) && Records(src, record) && MapOf(record) == Manifest(src)
    requires Accepted(record, outside) && Holds(f, record) && Complete(f, record)
    ensures WellFormed(f) && PartOf(f, Staged(Manifest(src)))
    ensures forall p :: p in FilePaths(src) ==>
              LeafOf(f, p) == Some(Manifest(src)[p]) && LeafOf(Staged(Manifest(src)), p) == Some(Manifest(src)[p])
  {
    RecordLinks(src, record);
    HoldsTree(f, record);
    WholeApart(f, record, outside);
    ReceivedPart(f, record);
    hide Accepted, Holds, PathOf, MapOf, Apart, Staged;
    forall p | p in FilePaths(src)
      ensures LeafOf(f, p) == Some(Manifest(src)[p]) && LeafOf(Staged(Manifest(src)), p) == Some(Manifest(src)[p])
    {
      StagedLeaf(src, p);
      var e :| e in record && PathOf(e) == p;
    }
  }

  lemma NothingDone(s: Tree, c: Tree, f: Tree, root: Path, kept: set<Path>, gone: set<Path>)
    requires PartOf(f, s) && WellFormed(f) && ClonedAt(c, root)
    requires forall p :: p in kept ==> LeafOf(f, p) == LeafOf(s, p)
    ensures Midway(s, c, f, c, root, kept, gone)
  {}

  // ---- when `init` leaves the workspace as it was ----

  /** `init` changes no path the migration answers for: the layout is there already. */
  ghost predicate Laid(src: Source, t: Tree, x: Texts) {
    forall p :: InScope(src, p) ==> !Rewritten(t, x, p)
  }

  /** What is installed is the source exactly when what arrived is and the layout was
      there: each holds if the other condition does. */
  lemma {:induction false} InitialisedIdentity(src: Source, t: Tree, x: Texts, owners: set<Bytes>)
    requires WellFormed(t) && !Refuses(t, owners)
    ensures Identity(src, t) ==> (Identity(src, Initialised(t, x)) <==> Laid(src, t, x))
    ensures Laid(src, t, x) ==> (Identity(src, Initialised(t, x)) <==> Identity(src, t))
  {
    hide Initialised, Rewritten, InScope, WellFormed, Refuses;
    forall p ensures LeafOf(Initialised(t, x), p) != LeafOf(t, p) <==> Rewritten(t, x, p) {
      InitialisedAt(t, x, owners, p);
    }
    hide LeafOf;
  }

  lemma MarkerForbidden()
    ensures Forbidden(MARKER_FILE, true)
  {
    assert ForbiddenPart(".coreman-workspace.json", true);
    assert MARKER_FILE[0] == ".coreman-workspace.json";
  }

  /** In a repository the layout was there if `AGENTS.md` is there and one of the two
      names is a link to the other. */
  lemma LaidInRepository(src: Source, t: Tree, x: Texts)
    requires [] in Described(src) && GIT in t && InScope(src, AGENTS) && InScope(src, CLAUDE)
    ensures Laid(src, t, x) <==> Aliased(t) || (AGENTS in t && CLAUDE in t && t[CLAUDE] == Link("AGENTS.md"))
  {
    MarkerForbidden();
    hide Described, Forbidden, Preserved, FirstFree;
    if Laid(src, t, x) {
      assert !Rewritten(t, x, AGENTS) && !Rewritten(t, x, CLAUDE);
    } else {
      var p :| InScope(src, p) && Rewritten(t, x, p);
      assert p[..0] == [] && p[0] != ".git";
      assert p != GIT_EXCLUDE && p != MARKER_FILE;
      assert InstructionsChange(t, x.content, p);
    }
  }

  // ---- everyday workspaces ----

  /** A workspace without repositories. */
  function Plain(files: Tree): Source {
    Source(files + map[[] := Dir], map[], {})
  }

  lemma InstructionNames()
    ensures !Forbidden(AGENTS, true) && !Forbidden(CLAUDE, true) && |AGENTS| == 1 && |CLAUDE| == 1
  {
    forall c | c == "AGENTS.md" || c == "CLAUDE.md" ensures !ForbiddenPart(c, true) {
      assert |Lower(c)| == 9 && Lower(c)[6] == '.' && Lower(c)[8] == 'd' && Lower(c)[7] == 'm';
      forall i | 0 <= i < |PRIVATE_SUFFIXES| ensures !EndsWith(Lower(c), PRIVATE_SUFFIXES[i]) {
        assert |PRIVATE_SUFFIXES[i]| == 4 && PRIVATE_SUFFIXES[i][0] == '.';
        assert Lower(c)[5..][0] == Lower(c)[5] != '.';
      }
      assert c[0] != '.';
      assert Lower(c)[0] == 'a' || Lower(c)[0] == 'c';
      assert Lower(c) !in PRIVATE_NAMES by {
        assert forall n :: n in PRIVATE_NAMES && |n| == 9 ==> n[8] != 'd';
      }
    }
  }

  lemma PlainFacts(files: Tree)
    requires forall p :: p in files ==> files[p].File? && |p| == 1 && !Forbidden(p, true)
    ensures var src := Plain(files);
            && Valid(src) && Described(src) == {} && Ordered(Described(src), []) && Ordinary(src)
            && NothingHidden(src) && MissingSettled(src, {})
            && Transfer(src, []) && Arrival(src, [], {}) == src.disk
  {
    var src := Plain(files);
    assert Valid(src) && Described(src) == {} && Ordinary(src) && MissingSettled(src, {}) by {
      hide Forbidden;
    }
    hide *;
    PlainOpen(files);
    PlainArrival(files);
  }

  lemma PlainOpen(files: Tree)
    ensures NothingHidden(Plain(files)) && forall p :: !CleanInRepo(p, Listed(Plain(files)))
  {
    var src := Plain(files);
    forall p ensures !CleanInRepo(p, Listed(src)) {
      CleanIffInnermost(p, Listed(src));
    }
    hide CleanInRepo, InScope;
  }

  lemma PlainArrival(files: Tree)
    requires forall p :: p in files ==> files[p].File? && |p| == 1 && !Forbidden(p, true)
    requires forall p :: !CleanInRepo(p, Listed(Plain(files)))
    ensures var src := Plain(files);
            && Described(src) == {} && Ordered(Described(src), []) && Arrival(src, [], {}) == src.disk
            && forall r :: r in [] ==> r in src.repos
  {
    var src := Plain(files);
    assert Described(src) == {};
    hide Forbidden, CleanInRepo, Shipped, Staged, Manifest;
    PlainManifest(files);
    PlainStaged(files);
  }

  lemma PlainManifest(files: Tree)
    requires forall p :: p in files ==> files[p].File? && |p| == 1 && !Forbidden(p, true)
    requires forall p :: !CleanInRepo(p, Listed(Plain(files)))
    ensures Manifest(Plain(files)) == files
  {
    hide Forbidden, CleanInRepo, Shipped;
    forall p | p in files ensures Shipped(Plain(files), p) {
      PlainShipped(files, p);
    }
    ShippedThere(Plain(files));
  }

  lemma ShippedThere(src: Source)
    ensures forall p :: Shipped(src, p) ==> p in src.disk && p != []
  {}

  lemma PlainShipped(files: Tree, p: Path)
    requires p in files && files[p].File? && |p| == 1 && !Forbidden(p, true)
    requires !CleanInRepo(p, Listed(Plain(files)))
    ensures Shipped(Plain(files), p)
  {
    hide Forbidden, CleanInRepo;
    assert p[..1] == p;
    assert p[..0] !in Plain(files).repos;
  }

  lemma PlainStaged(files: Tree)
    requires forall p :: p in files ==> |p| == 1
    ensures Staged(files) == files + map[[] := Dir]
  {
    forall p | p in files ensures p[..1] == p && p[..0] == [] {}
  }

  /** Both files of instructions, different: the tree arrives as it is, and `init`
      refuses it. */
  lemma {:induction false} ConflictIsRefused(owners: set<Bytes>)
    ensures var src := Plain(map[AGENTS := File([1]), CLAUDE := File([2])]);
            && Valid(src) && Ordinary(src) && Ordered(Described(src), [])
            && NothingHidden(src) && MissingSettled(src, {})
            && Arrival(src, [], {}) == src.disk && Refuses(Arrival(src, [], {}), owners)
  {
    hide *;
    InstructionNames();
    TwoAtTop(AGENTS, CLAUDE, File([1]), File([2]));
    PlainFacts(map[AGENTS := File([1]), CLAUDE := File([2])]);
    TwoDifferent(owners);
  }

  lemma TwoAtTop(p: Path, q: Path, a: Node, b: Node)
    requires |p| == 1 && |q| == 1 && !Forbidden(p, true) && !Forbidden(q, true) && a.File? && b.File?
    ensures var files := map[p := a, q := b];
            forall r :: r in files ==> files[r].File? && |r| == 1 && !Forbidden(r, true)
  {
    hide Forbidden;
  }

  lemma TwoDifferent(owners: set<Bytes>)
    ensures Refuses(Plain(map[AGENTS := File([1]), CLAUDE := File([2])]).disk, owners)
  {}

  /** The same twice: what arrives has a link for a file. */
  lemma {:induction false} SecondCopyIsSetAside(x: Texts, owners: set<Bytes>)
    ensures var src := Plain(map[AGENTS := File([1]), CLAUDE := File([1])]);
            && Valid(src) && Ordinary(src) && Ordered(Described(src), [])
            && NothingHidden(src) && MissingSettled(src, {})
            && !Refuses(Arrival(src, [], {}), owners)
            && LeafOf(src.disk, CLAUDE) == Some(File([1]))
            && LeafOf(Initialised(Arrival(src, [], {}), x), CLAUDE) == Some(Link("AGENTS.md"))
            && LeafOf(Initialised(Arrival(src, [], {}), x), Preserved(1)) == Some(File([1]))
  {
    hide *;
    InstructionNames();
    TwoAtTop(AGENTS, CLAUDE, File([1]), File([1]));
    PlainFacts(map[AGENTS := File([1]), CLAUDE := File([1])]);
    PlainTree(map[AGENTS := File([1]), CLAUDE := File([1])]);
    TwoEqual(x, owners);
  }

  lemma PlainTree(files: Tree)
    requires Valid(Plain(files))
    ensures WellFormed(Plain(files).disk)
  {}

  lemma TwoEqual(x: Texts, owners: set<Bytes>)
    requires WellFormed(Plain(map[AGENTS := File([1]), CLAUDE := File([1])]).disk)
    ensures var t := Plain(map[AGENTS := File([1]), CLAUDE := File([1])]).disk;
            && !Refuses(t, owners)
            && LeafOf(t, CLAUDE) == Some(File([1]))
            && LeafOf(Initialised(t, x), CLAUDE) == Some(Link("AGENTS.md"))
            && LeafOf(Initialised(t, x), Preserved(1)) == Some(File([1]))
  {
    var t := Plain(map[AGENTS := File([1]), CLAUDE := File([1])]).disk;
    PreservedApart(1, 1);
    PreservedName(1);
    assert !Refuses(t, owners);
    hide Initialised, WellFormed, Preserved, Refuses;
    assert Preserved(1) !in t;
    FreeOnce(t, FirstFree(t, 1), 1);
    SecondSetAside(t, x, owners);
  }

  /** `git rm --cached AGENTS.md`, where that is a link to `CLAUDE.md` */
  function Untracked(): Source {
    OneRepo(map[CLAUDE := File([1]), AGENTS := Link("CLAUDE.md")],
            Repo(map[CLAUDE := File([1]), AGENTS := Link("CLAUDE.md")], {CLAUDE}, {}))
  }

  lemma UntrackedFacts()
    ensures var src := Untracked();
            && Valid(src) && Described(src) == {[]} && Ordinary(src) && Ordered(Described(src), [[]])
            && WellFormed(src.disk)
            && Clean(src.disk, src.repos[[]]) == {CLAUDE} && Deleted(src.disk, src.repos[[]]) == {AGENTS}
  {
    var src := Untracked();
    assert AGENTS[..0] == [] && CLAUDE[..0] == [] && GIT[..0] == [];
    assert Clean(src.disk, src.repos[[]]) == {CLAUDE};
    assert Coherent(src.disk, [], src.repos[[]]);
    OneRepoFacts(map[CLAUDE := File([1]), AGENTS := Link("CLAUDE.md")], src.repos[[]]);
  }

  lemma UntrackedListed()
    requires var src := Untracked(); Clean(src.disk, src.repos[[]]) == {CLAUDE}
    ensures !CleanInRepo(AGENTS, Listed(Untracked())) && CleanInRepo(CLAUDE, Listed(Untracked()))
  {
    var src := Untracked();
    hide Clean;
    assert Listed(src) == map[[] := {CLAUDE}];
    assert AGENTS[..0] == [] && CLAUDE[..0] == [];
  }

  lemma UntrackedSkips()
    ensures var src := Untracked(); Skipped(src, CLAUDE) && !Skipped(src, AGENTS) && Skipped(src, GIT)
  {
    UntrackedFacts();
    UntrackedListed();
    InstructionNames();
    hide Forbidden, CleanInRepo, Valid, Ordinary, Described, Ordered, Clean, Deleted, Listed, WellFormed;
    assert AGENTS[..0] == [] && GIT[..0] == [];
  }

  lemma UntrackedManifest()
    ensures Manifest(Untracked()) == map[AGENTS := Link("CLAUDE.md")]
  {
    var src := Untracked();
    UntrackedSkips();
    hide Skipped;
    assert AGENTS[..1] == AGENTS && CLAUDE[..1] == CLAUDE && GIT[..1] == GIT;
    assert Shipped(src, AGENTS) && !Shipped(src, CLAUDE) && !Shipped(src, GIT) && !Shipped(src, []);
    hide Shipped;
  }

  const BARE_ARRIVAL: Tree := map[[] := Dir, GIT := Dir, CLAUDE := File([1])]

  const WITH_ALIAS: Tree := map[[] := Dir, GIT := Dir, CLAUDE := File([1]), AGENTS := Link("CLAUDE.md")]

  lemma UntrackedClone()
    ensures Clone([], Untracked().repos[[]]) == WITH_ALIAS
  {
    var head := Untracked().repos[[]].head;
    assert [] + [".git"] == GIT;
    GitSpine();
    PlainStaged(head);
    UntrackedHead();
    hide Staged, Spine, Untracked;
    FourEntries([], GIT, CLAUDE, AGENTS, Dir, File([1]), Link("CLAUDE.md"));
  }

  lemma UntrackedHead()
    ensures Untracked().repos[[]].head == map[CLAUDE := File([1]), AGENTS := Link("CLAUDE.md")]
    ensures CLAUDE != [] && AGENTS != [] && GIT != CLAUDE && GIT != AGENTS && CLAUDE != AGENTS
  {}

  lemma FourEntries(top: Path, p: Path, q: Path, r: Path, dir: Node, a: Node, b: Node)
    requires top != q && top != r && p != q && p != r && q != r
    ensures map[top := dir, p := dir] + (map[q := a, r := b] + map[top := dir])
            == map[top := dir, p := dir, q := a, r := b]
  {}

  lemma GitSpine()
    ensures Spine(GIT) == map[[] := Dir, GIT := Dir]
  {
    assert GIT[..0] == [] && GIT[..1] == GIT;
    assert Prefixes(GIT) == {[], GIT};
  }

  lemma UntrackedArrival()
    ensures Ordered(Described(Untracked()), [[]]) && Arrival(Untracked(), [[]], {}) == BARE_ARRIVAL
  {
    var files := map[[] := Dir, AGENTS := Link("CLAUDE.md")];
    hide *;
    UntrackedFacts();
    UntrackedStaged(files);
    InstructionNames();
    UntrackedClone();
    UntrackedMerge(files, WITH_ALIAS);
    UntrackedPruned(WITH_ALIAS);
    UntrackedTurn(files);
  }

  lemma UntrackedStaged(files: Tree)
    requires files == map[[] := Dir, AGENTS := Link("CLAUDE.md")]
    ensures Staged(Manifest(Untracked())) == files
  {
    hide *;
    UntrackedManifest();
    OneStaged(files);
  }

  lemma OneStaged(files: Tree)
    requires files == map[[] := Dir, AGENTS := Link("CLAUDE.md")]
    ensures Staged(map[AGENTS := Link("CLAUDE.md")]) == files
  {
    PlainStaged(map[AGENTS := Link("CLAUDE.md")]);
    hide Staged;
  }

  lemma UntrackedTurn(files: Tree)
    requires var src := Untracked();
             && Ordered(Described(src), [[]]) && Staged(Manifest(src)) == files
             && Clone([], src.repos[[]]) == WITH_ALIAS && MergeInto(files, WITH_ALIAS, []) == WITH_ALIAS
             && Deleted(src.disk, src.repos[[]]) == {AGENTS} && Prune(WITH_ALIAS, {AGENTS}, {}) == BARE_ARRIVAL
    ensures Arrival(Untracked(), [[]], {}) == BARE_ARRIVAL
  {
    var src := Untracked();
    hide Ordered, Described, Staged, Manifest, Clone, MergeInto, Deleted, Prune;
    assert Restored(src, [[]], 0, {}) == files;
    AllBelow(files, BARE_ARRIVAL);
  }

  lemma UntrackedMerge(files: Tree, clone: Tree)
    requires files == map[[] := Dir, AGENTS := Link("CLAUDE.md")]
    requires clone == WITH_ALIAS
    ensures MergeInto(files, clone, []) == clone
  {
    forall q ensures Below({[]}, q) {
      assert Under([], q);
    }
    forall q | q in {GIT, CLAUDE} ensures !Blocked(files, q) {
      assert q[..0] == [];
    }
  }

  lemma UntrackedPruned(clone: Tree)
    requires clone == WITH_ALIAS
    requires !Forbidden(AGENTS, true)
    ensures Prune(clone, {AGENTS}, {}) == BARE_ARRIVAL
  {
    hide Forbidden;
  }

  /** The link is lost on the way, and `init` makes it again: the workspace is the
      source's although a condition of the migration fails. */
  lemma {:induction false} InitRepairs(x: Texts, owners: set<Bytes>)
    ensures var src := Untracked();
            && Valid(src) && Ordinary(src) && Ordered(Described(src), [[]])
            && !MissingSettled(src, {}) && !Identity(src, Arrival(src, [[]], {}))
            && !Refuses(Arrival(src, [[]], {}), owners)
            && Identity(src, Initialised(Arrival(src, [[]], {}), x))
  {
    hide *;
    UntrackedFacts();
    UntrackedArrival();
    InstructionNames();
    UntrackedScope();
    BareTree(owners);
    RepairedAll(x, owners);
  }

  lemma RepairedAll(x: Texts, owners: set<Bytes>)
    requires Described(Untracked()) == {[]} && InScope(Untracked(), AGENTS)
    ensures Identity(Untracked(), Initialised(BARE_ARRIVAL, x)) && !Identity(Untracked(), BARE_ARRIVAL)
  {
    hide Described, InScope, Initialised;
    assert LeafOf(BARE_ARRIVAL, AGENTS) == None && LeafOf(Untracked().disk, AGENTS).Some?;
    forall p | InScope(Untracked(), p) ensures LeafOf(Initialised(BARE_ARRIVAL, x), p) == LeafOf(Untracked().disk, p) {
      RepairedAt(x, owners, p);
    }
  }

  lemma UntrackedScope()
    requires !Forbidden(AGENTS, true) && Described(Untracked()) == {[]}
    ensures InScope(Untracked(), AGENTS) && !MissingSettled(Untracked(), {})
  {
    var src := Untracked();
    hide Forbidden, Described;
    assert AGENTS[..0] == [];
    assert [] in Described(src) && AGENTS in Missing(src.disk, src.repos[[]]);
  }

  lemma BareTree(owners: set<Bytes>)
    ensures WellFormed(BARE_ARRIVAL) && !Refuses(BARE_ARRIVAL, owners)
  {
    assert GIT[..0] == [] && CLAUDE[..0] == [];
  }

  lemma RepairedAt(x: Texts, owners: set<Bytes>, p: Path)
    requires InScope(Untracked(), p) && Described(Untracked()) == {[]}
    ensures LeafOf(Initialised(BARE_ARRIVAL, x), p) == LeafOf(Untracked().disk, p)
  {
    var src := Untracked();
    assert p[..0] == [] && p[0] != ".git";
    MarkerForbidden();
    hide Forbidden, InScope, Described, Initialised;
    BareTree(owners);
    InitialisedAt(BARE_ARRIVAL, x, owners, p);
    assert Alone(BARE_ARRIVAL) && !LinksSkills(BARE_ARRIVAL);
    if p == AGENTS {
      LaterSame(BARE_ARRIVAL, x, owners, p);
    }
  }
}
