/** A whole move: export, staged import in chunks, finish, clones put back. */
module Moves {
  import opened Wrappers
  import opened Trees
  import opened Names
  import opened Git
  import opened Merge
  import opened Migration
  import opened MigrationLimits
  import opened Manifests
  import opened Staging
  import opened Restore
  import opened Exports
  import opened Reassembly
  import opened Layouts
  import opened Excludes
  import opened Installs

  ghost predicate NoBackslash(src: Source) {
    forall p, i :: p in Manifest(src) && 0 <= i < |p| ==> '\\' !in p[i]
  }

  lemma {:induction false} JoinedWithout(p: Path, c: char)
    requires c != '/'
    ensures c in Joined(p) <==> exists i :: 0 <= i < |p| && c in p[i]
  {
    if |p| > 1 {
      JoinedWithout(p[1..], c);
      if c in p[0] { assert p[0] <= Joined(p); }
      if i :| 0 <= i < |p[1..]| && c in p[1..][i] { assert c in p[i + 1]; }
      forall i | 0 <= i < |p| && c in p[i] ensures c in Joined(p) {
        if i > 0 { assert c in p[1..][i - 1]; }
      }
    }
  }

  /** One entry of an exported manifest, as the target's checks see it. */
  lemma EntryAccepted(src: Source, p: Path, e: Entry)
    requires Valid(src) && FileNames(src.disk) && Shipped(src, p) && EntryFor(src.disk, p, e)
    ensures PathOf(e) == p && Normal(e.name) && NodeOf(e) == src.disk[p]
    ensures EntryOk(e, {}) <==> forall i :: 0 <= i < |p| ==> '\\' !in p[i]
  {
    JoinedParts(p);
    JoinedNormal(p);
    JoinedWithout(p, '\\');
    JoinedWithout(p, '\0');
    assert !Forbidden(p, true) by { assert p[..|p|] == p && !Skipped(src, p[..|p|]); }
    forall c | c in p ensures c != ".." && '\0' !in c {}
  }

  /** `manifest` is what a successful export of `src` returns. */
  ghost predicate ExportOf(src: Source, manifest: seq<Entry>, listed: seq<Path>) {
    && Lists(src.disk, manifest, listed) && SetOf(listed) == Manifest(src).Keys
    && |manifest| <= MAX_FILES && Total(manifest) <= MAX_TOTAL
  }

  lemma ListedShipped(src: Source, manifest: seq<Entry>, listed: seq<Path>, i: nat)
    requires Valid(src) && FileNames(src.disk) && ExportOf(src, manifest, listed) && i < |manifest|
    ensures Shipped(src, listed[i]) && EntryFor(src.disk, listed[i], manifest[i])
    ensures PathOf(manifest[i]) == listed[i] && Normal(manifest[i].name) && NodeOf(manifest[i]) == src.disk[listed[i]]
    ensures EntryOk(manifest[i], {}) <==> forall j :: 0 <= j < |listed[i]| ==> '\\' !in listed[i][j]
  {
    hide Total, Shipped, Valid, EntryOk;
    assert listed[i] in SetOf(listed);
    EntryAccepted(src, listed[i], manifest[i]);
  }

  lemma IndexOfEntry(manifest: seq<Entry>, e: Entry) returns (i: nat)
    requires e in manifest
    ensures i < |manifest| && manifest[i] == e
  {
    i :| 0 <= i < |manifest| && manifest[i] == e;
  }

  lemma ExportedApart(src: Source, manifest: seq<Entry>, listed: seq<Path>)
    requires Valid(src) && FileNames(src.disk) && ExportOf(src, manifest, listed)
    ensures Distinct(manifest)
    ensures forall a, b :: a in manifest && b in manifest ==> !Conflict(a.name, b.name)
  {
    hide Valid, FileNames, ExportOf, Conflict;
    forall i, j | 0 <= i < j < |manifest| ensures manifest[i].name != manifest[j].name {
      NamesDiffer(src, manifest, listed, i, j);
    }
    forall a, b | a in manifest && b in manifest ensures !Conflict(a.name, b.name) {
      var i := IndexOfEntry(manifest, a);
      var j := IndexOfEntry(manifest, b);
      NoConflict(src, manifest, listed, i, j);
    }
  }

  lemma NamesDiffer(src: Source, manifest: seq<Entry>, listed: seq<Path>, i: nat, j: nat)
    requires Valid(src) && FileNames(src.disk) && ExportOf(src, manifest, listed) && i < j < |manifest|
    ensures manifest[i].name != manifest[j].name
  {
    hide Valid, FileNames, EntryFor, Shipped, EntryOk, Manifest, Total;
    ListedShipped(src, manifest, listed, i);
    ListedShipped(src, manifest, listed, j);
  }

  lemma NoConflict(src: Source, manifest: seq<Entry>, listed: seq<Path>, i: nat, j: nat)
    requires Valid(src) && FileNames(src.disk) && ExportOf(src, manifest, listed)
    requires i < |manifest| && j < |manifest|
    ensures !Conflict(manifest[i].name, manifest[j].name)
  {
    ListedShipped(src, manifest, listed, i);
    ListedShipped(src, manifest, listed, j);
    hide FileNames, EntryFor, EntryOk, Manifest, Total, ExportOf, Open, Coherent;
    var p, q := listed[i], listed[j];
    assert WellFormed(src.disk);
  }

  /** What the export lists, the target accepts, exactly when no name in it
      holds a backslash. */
  lemma {:induction false} ExportedAccepted(src: Source, manifest: seq<Entry>, listed: seq<Path>)
    requires Valid(src) && FileNames(src.disk) && ExportOf(src, manifest, listed)
    ensures Accepted(manifest, {}) <==> NoBackslash(src)
  {
    ExportedApart(src, manifest, listed);
    hide Valid, FileNames, Shipped, EntryOk, Conflict, Distinct, EntryFor, Total;
    if NoBackslash(src) {
      forall e | e in manifest ensures EntryOk(e, {}) {
        var i := IndexOfEntry(manifest, e);
        ListedShipped(src, manifest, listed, i);
        assert listed[i] in SetOf(listed);
      }
    }
    if Accepted(manifest, {}) {
      forall p, k | p in Manifest(src) && 0 <= k < |p| ensures '\\' !in p[k] {
        assert p in SetOf(listed);
        var i :| 0 <= i < |listed| && listed[i] == p;
        ListedShipped(src, manifest, listed, i);
        assert manifest[i] in manifest;
      }
    }
  }

  /** ... and the accepted manifest lays out the map that the migration starts from. */
  lemma ExportedMap(src: Source, manifest: seq<Entry>, listed: seq<Path>)
    requires Valid(src) && FileNames(src.disk) && ExportOf(src, manifest, listed)
    ensures forall e :: e in manifest ==> PathOf(e) != []
    ensures MapOf(manifest) == Manifest(src)
    ensures SentFrom(src.disk, manifest)
  {
    ExportedApart(src, manifest, listed);
    hide Valid, FileNames, Shipped, EntryOk, Conflict, Distinct, Total, ExportOf, Lists, Parts, Normal;
    forall e | e in manifest ensures PathOf(e) != [] && Normal(e.name) {
      var i := IndexOfEntry(manifest, e);
      ListedShipped(src, manifest, listed, i);
      ShippedNotRoot(src, listed[i]);
    }
    DistinctSame(manifest);
    MapOfAt(manifest);
    MapsAgree(src, manifest, listed);
    forall e | e in manifest && e.FileEntry?
      ensures PathOf(e) in src.disk && src.disk[PathOf(e)].File?
      ensures e.size == |src.disk[PathOf(e)].data| && e.hash == Some(src.disk[PathOf(e)].data)
    {
      var i := IndexOfEntry(manifest, e);
      ListedShipped(src, manifest, listed, i);
    }
  }

  lemma ShippedNotRoot(src: Source, p: Path)
    requires Shipped(src, p)
    ensures p != [] && p in Manifest(src)
  {}

  lemma DistinctSame(manifest: seq<Entry>)
    requires Distinct(manifest)
    ensures forall a, b :: a in manifest && b in manifest && a.name == b.name ==> a == b
  {}

  lemma MapsAgree(src: Source, manifest: seq<Entry>, listed: seq<Path>)
    requires Valid(src) && FileNames(src.disk) && ExportOf(src, manifest, listed)
    requires forall e :: e in manifest ==> PathOf(e) in MapOf(manifest) && MapOf(manifest)[PathOf(e)] == NodeOf(e)
    requires forall p :: p in MapOf(manifest) ==> exists e :: e in manifest && PathOf(e) == p
    ensures MapOf(manifest) == Manifest(src)
  {
    hide Valid, FileNames, Shipped, EntryOk, Total, MapOf, PathOf, NodeOf, EntryFor;
    forall p | p in MapOf(manifest) ensures p in Manifest(src) && Manifest(src)[p] == MapOf(manifest)[p] {
      var e :| e in manifest && PathOf(e) == p;
      var i := IndexOfEntry(manifest, e);
      ListedShipped(src, manifest, listed, i);
      ShippedNotRoot(src, listed[i]);
    }
    forall p | p in Manifest(src) ensures p in MapOf(manifest) {
      assert p in SetOf(listed);
      var i :| 0 <= i < |listed| && listed[i] == p;
      ListedShipped(src, manifest, listed, i);
      assert manifest[i] in manifest;
    }
  }

  // ---- the transfer itself ----

  /** Which files are whole once the first `i` entries have been sent. */
  ghost function Sent(m: seq<Entry>, i: nat): Tree
    requires i <= |m|
  {
    if i == 0 then EmptyFiles(m)
    else if m[i - 1].FileEntry? && m[i - 1].size > 0 then Sent(m, i - 1)[PathOf(m[i - 1]) := NodeOf(m[i - 1])]
    else Sent(m, i - 1)
  }

  /** Entries with different paths, files with their sizes and digests. */
  ghost predicate Tidy(m: seq<Entry>) {
    && (forall i, j :: 0 <= i < j < |m| ==> PathOf(m[i]) != PathOf(m[j]))
    && (forall e :: e in m ==> PathOf(e) != [])
    && (forall e :: e in m && e.FileEntry? ==> e.hash.Some? && e.size == |e.hash.value|)
  }

  lemma {:induction false} EmptyFilesAt(m: seq<Entry>, e: Entry)
    requires Tidy(m) && e in m
    ensures PathOf(e) in EmptyFiles(m) <==> e.FileEntry? && e.size == 0
    ensures PathOf(e) in EmptyFiles(m) ==> EmptyFiles(m)[PathOf(e)] == File([])
  {
    hide PathOf;
    var rest, last := m[..|m| - 1], m[|m| - 1];
    assert m == rest + [last];
    assert Tidy(rest);
    if e != last {
      EmptyFilesAt(rest, e);
    } else {
      EmptyFilesNew(rest, PathOf(last));
    }
  }

  lemma {:induction false} EmptyFilesNew(m: seq<Entry>, p: Path)
    requires forall e :: e in m ==> PathOf(e) != p
    ensures p !in EmptyFiles(m)
  {
    if m != [] {
      assert m[|m| - 1] in m;
      EmptyFilesNew(m[..|m| - 1], p);
    }
  }

  /** A file with content is absent until its turn, and whole afterwards. */
  lemma {:induction false} SentAt(m: seq<Entry>, i: nat, k: nat)
    requires Tidy(m) && i <= |m| && k < |m| && m[k].FileEntry?
    ensures PathOf(m[k]) in Sent(m, i) <==> k < i || m[k].size == 0
    ensures PathOf(m[k]) in Sent(m, i) ==> Sent(m, i)[PathOf(m[k])] == NodeOf(m[k])
  {
    hide PathOf;
    assert m[k] in m;
    if i == 0 {
      EmptyFilesAt(m, m[k]);
    } else {
      SentAt(m, i - 1, k);
    }
  }

  method SendChunk(stage: Stage, e: Entry, chunk: seq<int>, ghost m: seq<Entry>)
    requires stage.Valid() && stage.manifest == Some(m)
    requires e.FileEntry? && PathOf(e) != [] && Find(m, e.name) == Some(e)
    requires |chunk| <= CHUNK && |Received(stage.files.nodes, PathOf(e))| + |chunk| <= e.size
    modifies stage.files
    ensures stage.Valid()
    ensures Received(stage.files.nodes, PathOf(e)) == Received(old(stage.files.nodes), PathOf(e)) + chunk
    ensures Leaves(stage.files.nodes)
            == Leaves(old(stage.files.nodes))[PathOf(e) := File(Received(stage.files.nodes, PathOf(e)))]
  {
    hide Holds, Accepted, PathOf, Find, Beginnings, HonestChunk, Leaves;
    var offset := |Received(stage.files.nodes, PathOf(e))|;
    var received := stage.Receive(e.name, offset, chunk, map[]);
  }

  /** The first `n` bytes are there; no file before the first chunk. */
  function Partly(t: Tree, p: Path, data: seq<int>, n: nat): Tree
    requires n <= |data|
  {
    if n == 0 then t else t[p := File(data[..n])]
  }

  lemma PartlyMore(t: Tree, p: Path, data: seq<int>, n: nat, end: nat)
    requires n < end <= |data|
    ensures data[..n] + data[n..end] == data[..end]
    ensures Partly(t, p, data, n)[p := File(data[..end])] == Partly(t, p, data, end)
    ensures data[..|data|] == data && data[..0] == []
  {}

  /** `read` and `import` in turn, a chunk at a time. */
  method SendFile(stage: Stage, e: Entry, data: seq<int>, ghost m: seq<Entry>)
    requires stage.Valid() && stage.manifest == Some(m) && Distinct(m)
    requires e in m && e.FileEntry? && PathOf(e) != [] && e.size == |data| && |data| > 0
    requires PathOf(e) !in Leaves(stage.files.nodes)
    modifies stage.files
    ensures stage.Valid()
    ensures Leaves(stage.files.nodes) == Leaves(old(stage.files.nodes))[PathOf(e) := File(data)]
  {
    FoundItself(m, e);
    NothingReceived(stage.files.nodes, PathOf(e));
    hide Stage.Valid, PathOf, Find, Distinct, Received, Leaves;
    PartlyMore(Leaves(stage.files.nodes), PathOf(e), data, 0, |data|);
    hide Partly;
    ghost var p, start := PathOf(e), Leaves(stage.files.nodes);
    var offset := 0;
    NotYet(start, p, data);
    while offset < |data|
      invariant 0 <= offset <= |data|
      invariant stage.Valid()
      invariant Leaves(stage.files.nodes) == Partly(start, p, data, offset)
      invariant Received(stage.files.nodes, p) == data[..offset]
    {
      var end := if offset + CHUNK <= |data| then offset + CHUNK else |data|;
      PartlyMore(start, p, data, offset, end);
      SendChunk(stage, e, data[offset..end], m);
      offset := end;
    }
    AllThere(start, p, data);
  }

  lemma NotYet(t: Tree, p: Path, data: seq<int>)
    ensures Partly(t, p, data, 0) == t
  {}

  lemma AllThere(t: Tree, p: Path, data: seq<int>)
    requires data != []
    ensures Partly(t, p, data, |data|) == t[p := File(data)]
  {
    assert data[..|data|] == data;
  }

  lemma NothingReceived(nodes: Tree, p: Path)
    requires p !in Leaves(nodes)
    ensures Received(nodes, p) == []
  {}

  lemma FoundItself(m: seq<Entry>, e: Entry)
    requires Distinct(m) && e in m
    ensures Find(m, e.name) == Some(e)
  {}

  lemma ExportedTidy(src: Source, m: seq<Entry>, listed: seq<Path>)
    requires Valid(src) && FileNames(src.disk) && ExportOf(src, m, listed)
    ensures Tidy(m)
    ensures forall e :: e in m && e.FileEntry? ==>
              PathOf(e) in src.disk && src.disk[PathOf(e)].File? && e.hash == Some(src.disk[PathOf(e)].data)
  {
    ExportedMap(src, m, listed);
    hide Valid, FileNames, PathOf, EntryFor;
    forall i, j | 0 <= i < j < |m| ensures PathOf(m[i]) != PathOf(m[j]) {
      ListedShipped(src, m, listed, i);
      ListedShipped(src, m, listed, j);
    }
  }

  lemma SentComplete(nodes: Tree, m: seq<Entry>)
    requires Tidy(m) && Leaves(nodes) == Sent(m, |m|)
    ensures Complete(nodes, m)
  {
    hide PathOf, Sent;
    forall e | e in m && e.FileEntry? ensures PathOf(e) in nodes && nodes[PathOf(e)] == NodeOf(e) {
      var k := IndexOfEntry(m, e);
      SentAt(m, |m|, k);
      assert PathOf(e) in Leaves(nodes);
    }
  }

  lemma AlreadyEmpty(nodes: Tree, sent: Tree, e: Entry)
    requires Leaves(nodes) == sent && PathOf(e) in sent && e.FileEntry? && sent[PathOf(e)] == NodeOf(e)
    requires e.size == 0 && e.hash.Some? && e.size == |e.hash.value|
    ensures Received(nodes, PathOf(e)) == [] && sent[PathOf(e) := File([])] == sent
  {}

  method SendAll(stage: Stage, disk: Tree, m: seq<Entry>)
    requires stage.Valid() && stage.manifest == Some(m) && Distinct(m) && Tidy(m)
    requires Leaves(stage.files.nodes) == EmptyFiles(m)
    requires SentFrom(disk, m)
    modifies stage.files
    ensures stage.Valid() && Holds(stage.files.nodes, m) && Complete(stage.files.nodes, m)
  {
    hide Stage.Valid, PathOf, Distinct, Leaves, EmptyFiles, Complete;
    for i := 0 to |m|
      invariant stage.Valid()
      invariant Leaves(stage.files.nodes) == Sent(m, i)
    {
      var e := m[i];
      assert e in m;
      if e.FileEntry? && e.size > 0 {
        SentAt(m, i, i);
        SendFile(stage, e, disk[PathOf(e)].data, m);
      } else if e.FileEntry? {
        // An empty file gets one empty chunk; it has been created before.
        SentAt(m, i, i);
        AlreadyEmpty(stage.files.nodes, Sent(m, i), e);
        FoundItself(m, e);
        SendChunk(stage, e, [], m);
      }
    }
    SentComplete(stage.files.nodes, m);
    StageHolds(stage, m);
  }

  lemma StageHolds(stage: Stage, m: seq<Entry>)
    requires stage.Valid() && stage.manifest == Some(m)
    ensures Holds(stage.files.nodes, m)
  {}

  /** All is there for the request to finish. */
  lemma ReadyToFinish(src: Source, m: seq<Entry>, listed: seq<Path>, repos: seq<Descriptor>, f: Tree,
                      cs: map<Path, Tree>,
                      refused: set<Path>, before: Option<Tree>, mark: Bytes)
    requires Valid(src) && FileNames(src.disk) && ExportOf(src, m, listed) && Describes(src, repos)
    requires Accepted(m, {}) && Holds(f, m) && Complete(f, m)
    requires forall r :: r in Described(src) ==> r in cs && r in src.repos && cs[r] == Clone(r, src.repos[r])
    ensures Transfer(src, OrderOf(repos)) && Records(src, m) && forall r :: r in OrderOf(repos) ==> r in cs
    ensures Sound(src, OrderOf(repos), refused, before, mark, Disk(before, Some(StageDir(f, cs, None))))
    ensures Able(OrderOf(repos), m, {}, f, cs) && Held(src, OrderOf(repos), refused, f, cs)
  {
    ExportedRecords(src, m, listed);
    RepositoriesListed(src, repos, cs, refused);
    hide Valid, FileNames, ExportOf, Describes, Holds, Complete, Accepted, Manifest, MapOf, Described, Clone, OrderOf,
         Sound;
    hide Records, AllPresent, Ordered;
    ReceivedSound(src, OrderOf(repos), refused, before, mark, m, {}, f, cs);
  }

  lemma ExportedRecords(src: Source, m: seq<Entry>, listed: seq<Path>)
    requires Valid(src) && FileNames(src.disk) && ExportOf(src, m, listed) && Accepted(m, {})
    ensures Records(src, m) && MapOf(m) == Manifest(src)
  {
    hide *;
    ExportedMap(src, m, listed);
    MappedRecords(src, m);
  }

  lemma MappedRecords(src: Source, m: seq<Entry>)
    requires Accepted(m, {}) && MapOf(m) == Manifest(src) && forall e :: e in m ==> PathOf(e) != []
    ensures Records(src, m)
  {
    NoDots(m);
    AcceptedApart(m, {}, m);
    MapOfAt(m);
    hide Accepted, Apart, Manifest, MapOf, PathOf, NodeOf;
  }

  lemma RepositoriesListed(src: Source, repos: seq<Descriptor>, cs: map<Path, Tree>, refused: set<Path>)
    requires Valid(src) && Describes(src, repos)
    requires forall r :: r in Described(src) ==> r in cs && r in src.repos && cs[r] == Clone(r, src.repos[r])
    ensures Transfer(src, OrderOf(repos))
    ensures forall r :: r in OrderOf(repos) ==> r in cs && cs[r] == Clone(r, src.repos[r])
  {
    Prepared(src, repos, OrderOf(repos), refused);
    hide Valid, Describes, Described, Clone, OrderOf;
  }

  lemma NoDots(m: seq<Entry>)
    requires forall e :: e in m ==> PathOf(e) != []
    ensures forall e :: e in m ==> e.name != "."
  {
    DotParts();
  }

  /** The manifest and all files go to the target. */
  method Copy(src: Source, m: seq<Entry>, ghost listed: seq<Path>) returns (ok: bool, stage: Stage)
    requires Valid(src) && FileNames(src.disk) && ExportOf(src, m, listed)
    ensures fresh(stage.files)
    ensures ok <==> NoBackslash(src)
    ensures ok ==> Accepted(m, {}) && Holds(stage.files.nodes, m) && Complete(stage.files.nodes, m)
  {
    hide Valid, FileNames, NoBackslash, ExportOf, Accepted, Manifest, Tidy, Stage.Valid, MapOf, Leaves, Complete,
         Holds, SentFrom;
    ExportedAccepted(src, m, listed);
    ExportedMap(src, m, listed);
    ExportedTidy(src, m, listed);
    stage := new Stage({});
    ok := stage.Begin(Some(m));
    if ok {
      AcceptedDistinct(m);
      SendAll(stage, src.disk, m);
    }
  }

  /** The whole sequence of requests of one move, over what stands at the target
      before. The clones are made beside it. It succeeds exactly if the workspace is
      within the limits, has no name that the target does not take, the target is not
      another bot's, and `init` does not refuse what has been put together. Otherwise the
      target is as it was; after such a refusal all clones are used up. */
  method Migrate(src: Source, clones: map<Path, Folder>, refused: set<Path>, texts: Texts, owners: set<Bytes>,
                 leads: bool, before: Option<Tree>)
    returns (ok: bool, root: Option<Tree>, ghost order: seq<Path>)
    requires Valid(src) && FileNames(src.disk)
    requires forall r, q :: r in clones && q in clones && r != q ==> clones[r] != clones[q]
    requires Cloned(src, clones, Described(src))
    requires !Installed(Disk(before, None), texts.mark) && texts.mark in owners
    modifies clones.Values
    ensures NoBackslash(src) && Within(src) ==>
              Ordered(Described(src), order) && forall r :: r in order ==> r in src.repos && r in clones
    ensures ok <==> NoBackslash(src) && Within(src) && !Occupied(before, owners)
                    && !Refuses(Arrival(src, order, refused), owners)
    ensures ok ==> root == Some(Initialised(Arrival(src, order, refused), texts))
    ensures ok && NothingHidden(src) && MissingSettled(src, refused) ==>
              (Identity(src, root.value) <==> Laid(src, Arrival(src, order, refused), texts))
    ensures ok && Ordinary(src) && Laid(src, Arrival(src, order, refused), texts) ==>
              (Identity(src, root.value) <==> NothingHidden(src) && MissingSettled(src, refused))
    ensures !ok ==> root == before
    ensures !ok && NoBackslash(src) && Within(src) && !Occupied(before, owners) ==> AllPlaced(order, TreesOf(clones))
  {
    hide Valid, FileNames, NoBackslash, Described, Accepted, Ordered, Arrival, Identity, NothingHidden, MissingSettled,
         Laid;
    hide Lists, Reported, Describes, Manifest, Stage.Valid, MapOf, Staged, Leaves, Total, PathOf, SentFrom, Refuses,
         Initialised;
    hide Sound, Held, Complete, Transfer, AllPlaced, Able, Fitted, Within, Occupied, Passes, Linkable, Linked, Foreign;
    root, order := before, [];
    var listing := new Export(src);
    ok := listing.Run();
    if !ok {
      return;
    }
    var m := listing.manifest;
    assert ExportOf(src, m, listing.listed);
    var stage;
    ok, stage := Copy(src, m, listing.listed);
    if !ok {
      return;
    }
    var target := new Target(texts, owners, m, listing.descriptors, stage.files, clones, before);
    order := OrderOf(listing.descriptors);
    ReadyToFinish(src, m, listing.listed, listing.descriptors, stage.files.nodes, TreesOf(clones), refused, before,
        texts.mark);
    TransferMeans(src, order);
    var power := new Power(None);
    var outcome;
    ghost var bare;
    outcome, bare := target.Finish({}, leads, refused, power, src, before);
    ok := outcome == Done;
    root := target.root;
    if ok {
      MovedIdentity(src, order, refused, texts, owners);
    }
  }

  lemma TransferMeans(src: Source, order: seq<Path>)
    requires Transfer(src, order)
    ensures Valid(src) && Ordered(Described(src), order) && forall r :: r in order ==> r in src.repos
  {}

  lemma MovedIdentity(src: Source, order: seq<Path>, refused: set<Path>, x: Texts, owners: set<Bytes>)
    requires Transfer(src, order) && !Refuses(Arrival(src, order, refused), owners)
    ensures var t := Arrival(src, order, refused);
            && (NothingHidden(src) && MissingSettled(src, refused) ==>
                 (Identity(src, Initialised(t, x)) <==> Laid(src, t, x)))
            && (Ordinary(src) && Laid(src, t, x) ==>
                  (Identity(src, Initialised(t, x)) <==> NothingHidden(src) && MissingSettled(src, refused)))
  {
    ArrivalBegun(src, order, refused);
    hide Valid, Described, Ordered, Arrival, Identity, NothingHidden, MissingSettled, Laid, Refuses, Initialised,
         Ordinary, WellFormed;
    InitialisedIdentity(src, Arrival(src, order, refused), x, owners);
    if Ordinary(src) {
      MigrationIsIdentityIff(src, order, refused);
    }
    if NothingHidden(src) && MissingSettled(src, refused) {
      MigrationIsIdentity(src, order, refused);
    }
  }

  lemma AcceptedDistinct(m: seq<Entry>)
    requires Accepted(m, {})
    ensures Distinct(m)
  {}
}
