/** Transfer manifests: what `validate_manifest` accepts can be laid out on disk. */
module Manifests {
  import opened Wrappers
  import opened Trees
  import opened Names

  const MAX_FILES: nat := 50000
  const MAX_TOTAL: nat := 4 * 1024 * 1024 * 1024

  /** SHA-256 is taken to be free of collisions; a digest is represented by the
      content it stands for, and is `None` where the text is no digest at all. */
  type Digest = Option<seq<int>>

  datatype Entry =
    | FileEntry(name: string, size: int, hash: Digest)
    | LinkEntry(name: string, target: string)

  /** The names that the check in `path` lets through for a transfer. */
  predicate Permitted(name: string) {
    && '\0' !in name && '\\' !in name
    && (name != "" ==> name[0] != '/')
    && ".." !in Parts(name)
    && !Forbidden(Parts(name), true)
  }

  predicate Normal(name: string) {
    name != "" && Shown(Parts(name)) == name
  }

  /** `outside` are the links whose target is absolute, out of bounds or private. */
  predicate EntryOk(e: Entry, outside: set<Entry>) {
    && Permitted(e.name) && Normal(e.name)
    && match e
       case LinkEntry(_, _) => e !in outside
       case FileEntry(_, size, hash) => 0 <= size && hash.Some?
  }

  function SizeOf(e: Entry): int {
    if e.FileEntry? then e.size else 0
  }

  function Total(manifest: seq<Entry>): int {
    if manifest == [] then 0 else Total(manifest[..|manifest| - 1]) + SizeOf(manifest[|manifest| - 1])
  }

  function NamesOf(manifest: seq<Entry>): set<string> {
    set e | e in manifest :: e.name
  }

  /** Two entries get in each other's way: one names a directory of the other. */
  predicate Conflict(a: string, b: string) {
    var p, q := Parts(a), Parts(b);
    p != [] && |p| < |q| && Under(p, q)
  }

  ghost predicate Distinct(manifest: seq<Entry>) {
    forall i, j :: 0 <= i < j < |manifest| ==> manifest[i].name != manifest[j].name
  }

  ghost predicate Accepted(manifest: seq<Entry>, outside: set<Entry>) {
    && |manifest| <= MAX_FILES
    && (forall e :: e in manifest ==> EntryOk(e, outside))
    && Distinct(manifest)
    && (forall a, b :: a in manifest && b in manifest ==> !Conflict(a.name, b.name))
    && Total(manifest) <= MAX_TOTAL
  }

  /** Two accepted names with the same parts are the same string. */
  lemma NormalInjective(a: string, b: string)
    requires Normal(a) && Normal(b) && Parts(a) == Parts(b)
    ensures a == b
  {}

  /** Some directory above `name`, other than the root itself, is an entry too. */
  predicate ParentSeen(name: string, seen: set<string>) {
    var p := Parts(name);
    exists k :: 0 < k < |p| && Shown(p[..k]) in seen
  }

  lemma ParentSeenConflict(name: string, seen: set<string>)
    requires Normal(name) && forall n :: n in seen ==> Normal(n)
    ensures ParentSeen(name, seen) <==> exists n :: n in seen && Conflict(n, name)
  {
    var p := Parts(name);
    forall k | 0 < k < |p| ensures Parts(Shown(p[..k])) == p[..k] {
      JoinedParts(p[..k]);
    }
    if ParentSeen(name, seen) {
      var k :| 0 < k < |p| && Shown(p[..k]) in seen;
      assert Conflict(Shown(p[..k]), name);
    }
    forall n | n in seen && Conflict(n, name) ensures ParentSeen(name, seen) {
      var q := Parts(n);
      assert Shown(p[..|q|]) == n;
    }
  }

  method ValidateManifest(manifest: seq<Entry>, outside: set<Entry>) returns (ok: bool)
    ensures ok <==> Accepted(manifest, outside)
  {
    hide Permitted, Normal, ParentSeen, Conflict, Total, NamesOf, Distinct;
    EmptyFacts();
    if |manifest| > MAX_FILES {
      return false;
    }
    var seen: set<string>, total := {}, 0;
    assert manifest[..0] == [];
    for i := 0 to |manifest|
      invariant forall j :: 0 <= j < i ==> EntryOk(manifest[j], outside)
      invariant seen == NamesOf(manifest[..i])
      invariant Distinct(manifest[..i])
      invariant total == Total(manifest[..i])
    {
      var entry := manifest[i];
      assert entry in manifest;
      if !Permitted(entry.name) {
        return false;
      }
      if !Normal(entry.name) {
        return false;
      }
      if entry.name in seen {
        Repeated(manifest, i);
        return false;
      }
      SeenGrows(manifest, i);
      seen := seen + {entry.name};
      match entry
      case LinkEntry(_, _) =>
        if entry in outside {
          return false;
        }
      case FileEntry(_, size, hash) =>
        if size < 0 || hash == None {
          return false;
        }
        total := total + size;
    }
    assert manifest[..|manifest|] == manifest;
    NoParents(manifest, outside, seen);
    if exists name :: name in seen && ParentSeen(name, seen) {
      return false;
    }
    ok := total <= MAX_TOTAL;
  }

  lemma EmptyFacts()
    ensures NamesOf([]) == {} && Total([]) == 0 && Distinct([])
  {}

  lemma Repeated(manifest: seq<Entry>, i: nat)
    requires i < |manifest| && manifest[i].name in NamesOf(manifest[..i])
    ensures !Distinct(manifest)
  {}

  lemma SeenGrows(manifest: seq<Entry>, i: nat)
    requires i < |manifest| && manifest[i].name !in NamesOf(manifest[..i]) && Distinct(manifest[..i])
    ensures NamesOf(manifest[..i + 1]) == NamesOf(manifest[..i]) + {manifest[i].name}
    ensures Distinct(manifest[..i + 1])
    ensures Total(manifest[..i + 1]) == Total(manifest[..i]) + SizeOf(manifest[i])
  {
    var a, b := manifest[..i], manifest[..i + 1];
    assert b == a + [manifest[i]] && b[..|b| - 1] == a;
    forall j | 0 <= j < i ensures manifest[j].name in NamesOf(a) {
      assert a[j] in a;
    }
  }

  lemma NoParents(manifest: seq<Entry>, outside: set<Entry>, seen: set<string>)
    requires seen == NamesOf(manifest) && forall e :: e in manifest ==> EntryOk(e, outside)
    ensures (exists name :: name in seen && ParentSeen(name, seen))
            <==> exists a, b :: a in manifest && b in manifest && Conflict(a.name, b.name)
  {
    forall name | name in seen
      ensures ParentSeen(name, seen) <==> exists n :: n in seen && Conflict(n, name)
    {
      ParentSeenConflict(name, seen);
    }
    forall a, b | a in manifest && b in manifest && Conflict(a.name, b.name)
      ensures exists name :: name in seen && ParentSeen(name, seen)
    {
      assert a.name in seen && b.name in seen;
    }
  }

  // ---- laying a manifest out ----

  function NodeOf(e: Entry): Node {
    match e
    case LinkEntry(_, target) => Link(target)
    case FileEntry(_, _, hash) => File(if hash.Some? then hash.value else [])
  }

  function PathOf(e: Entry): Path {
    Parts(e.name)
  }

  function MapOf(es: seq<Entry>): Tree {
    if es == [] then map[] else MapOf(es[..|es| - 1])[PathOf(es[|es| - 1]) := NodeOf(es[|es| - 1])]
  }

  /** Create one entry, with its parents; writing it again is no conflict. */
  function Put(t: Tree, e: Entry): Option<Tree> {
    var p := PathOf(e);
    if Reachable(t, p) && (p in t ==> t[p] == NodeOf(e)) then Some(Grown(t, p, NodeOf(e))) else None
  }

  function PutAll(es: seq<Entry>): Option<Tree> {
    if es == [] then Some(map[[] := Dir])
    else
      var t := PutAll(es[..|es| - 1]);
      if t.None? then None else Put(t.value, es[|es| - 1])
  }

  /** Entries that can stand side by side. */
  ghost predicate Apart(es: seq<Entry>) {
    && (forall e :: e in es ==> Normal(e.name) && PathOf(e) != [])
    && (forall a, b :: a in es && b in es && a.name == b.name ==> a == b)
    && (forall a, b :: a in es && b in es ==> !Conflict(a.name, b.name))
  }

  lemma AcceptedApart(manifest: seq<Entry>, outside: set<Entry>, es: seq<Entry>)
    requires Accepted(manifest, outside)
    requires forall e :: e in es ==> e in manifest && e.name != "."
    ensures Apart(es)
  {}

  lemma {:induction false} MapOfAt(es: seq<Entry>)
    requires Apart(es)
    ensures forall e :: e in es ==> PathOf(e) in MapOf(es) && MapOf(es)[PathOf(e)] == NodeOf(e)
    ensures forall p :: p in MapOf(es) ==> exists e :: e in es && PathOf(e) == p
  {
    if es != [] {
      var rest, last := es[..|es| - 1], es[|es| - 1];
      assert es == rest + [last];
      assert Apart(rest);
      MapOfAt(rest);
      forall e | e in rest && PathOf(e) == PathOf(last) ensures e == last {
        NormalInjective(e.name, last.name);
      }
    }
  }

  lemma ApartPaths(a: Entry, b: Entry, es: seq<Entry>)
    requires Apart(es) && a in es && b in es && PathOf(a) != PathOf(b)
    ensures !Under(PathOf(a), PathOf(b))
  {}

  /** Entries that stand apart can be created in any order, with repetitions, and
      make up the staged tree of their map. */
  lemma {:induction false} PutAllStaged(es: seq<Entry>)
    requires Apart(es)
    ensures PrefixFree(MapOf(es)) && PutAll(es) == Some(Staged(MapOf(es)))
  {
    if es == [] {
      assert Staged(map[]) == map[[] := Dir];
    } else {
      var rest, last := es[..|es| - 1], es[|es| - 1];
      assert es == rest + [last];
      assert Apart(rest);
      PutAllStaged(rest);
      MapOfAt(rest);
      var p := PathOf(last);
      forall q | q in MapOf(rest) && q != p ensures !Under(p, q) && !Under(q, p) {
        var e :| e in rest && PathOf(e) == q;
        ApartPaths(last, e, es);
        ApartPaths(e, last, es);
      }
      GrownStaged(MapOf(rest), p, NodeOf(last));
      StagedWellFormed(MapOf(rest));
      if p in MapOf(rest) {
        var e :| e in rest && PathOf(e) == p;
        NormalInjective(e.name, last.name);
      }
    }
  }

  lemma DotParts()
    ensures Parts(".") == [] && Normal(".") && Permitted(".")
  {}

  lemma DotBlocks(e: Entry)
    requires e.name == "."
    ensures PutAll([e]) == None
  {
    DotParts();
    assert [e][..0] == [];
  }

  /** An accepted manifest can be laid out, in every order, exactly when it has
      no entry for "." itself, which `validate_manifest` lets through. */
  lemma Materialisable(manifest: seq<Entry>, outside: set<Entry>)
    requires Accepted(manifest, outside)
    ensures (forall e :: e in manifest ==> e.name != ".")
            <==> forall es: seq<Entry> :: (forall e :: e in es ==> e in manifest) ==> PutAll(es).Some?
  {
    DotParts();
    if forall e :: e in manifest ==> e.name != "." {
      forall es: seq<Entry> | forall e :: e in es ==> e in manifest ensures PutAll(es).Some? {
        AcceptedApart(manifest, outside, es);
        PutAllStaged(es);
      }
    } else {
      var e :| e in manifest && e.name == ".";
      DotBlocks(e);
      assert forall x :: x in [e] ==> x in manifest;
    }
  }

  /** ... and then what is on disk is the manifest's map and nothing else. */
  lemma {:induction false} MaterialisedExactly(manifest: seq<Entry>, outside: set<Entry>)
    requires Accepted(manifest, outside) && forall e :: e in manifest ==> e.name != "."
    ensures PutAll(manifest) == Some(Staged(MapOf(manifest)))
    ensures forall p :: LeafOf(Staged(MapOf(manifest)), p).Some? <==> exists e :: e in manifest && PathOf(e) == p
    ensures forall e :: e in manifest ==> LeafOf(Staged(MapOf(manifest)), PathOf(e)) == Some(NodeOf(e))
  {
    AcceptedApart(manifest, outside, manifest);
    PutAllStaged(manifest);
    MapOfAt(manifest);
    StagedWellFormed(MapOf(manifest));
  }

  lemma DotIsAccepted()
    ensures Accepted([FileEntry(".", 0, Some([]))], {})
    ensures PutAll([FileEntry(".", 0, Some([]))]) == None
  {}
}
