/** `init` in a staged tree: one file of instructions with a link to it, the link to
    the skills, `.gitignore`, Git's own exclude file, and the marker. */
module Layouts {
  import opened Wrappers
  import opened Trees
  import opened Merge
  import opened Excludes

  const AGENTS: Path := ["AGENTS.md"]
  const CLAUDE: Path := ["CLAUDE.md"]
  const GIT: Path := [".git"]
  const INFO: Path := [".git", "info"]
  const GIT_EXCLUDE: Path := [".git", "info", "exclude"]
  const COMMON: Path := [".agents"]
  const CANONICAL: Path := [".agents", "skills"]
  const OWN: Path := [".claude"]
  const SKILLS: Path := [".claude", "skills"]
  const IGNORE: Path := [".gitignore"]
  const MARKER_FILE: Path := [".coreman-workspace.json"]

  /** What is written: the instructions of the request, the text of a new
      `.gitignore`, the marker of this transfer. */
  datatype Texts = Texts(content: Bytes, ignore: Bytes, mark: Bytes)

  // ---- names that are free ----

  function Preserved(n: nat): Path {
    ["CLAUDE.md.preserved-" + Decimal(n)]
  }

  lemma PreservedApart(a: nat, b: nat)
    ensures Preserved(a) == Preserved(b) ==> a == b
    ensures Preserved(a) != CLAUDE && Preserved(a) != AGENTS
  {
    var prefix := "CLAUDE.md.preserved-";
    assert Preserved(a)[0][|prefix|..] == Decimal(a) && Preserved(b)[0][|prefix|..] == Decimal(b);
    if Preserved(a) == Preserved(b) {
      DecimalInjective(a, b);
    }
    assert |Preserved(a)[0]| > |prefix|;
  }

  function Taken(n: nat): set<Path> {
    set k | 1 <= k < n :: Preserved(k)
  }

  lemma {:induction false} TakenSize(n: nat)
    requires n >= 1
    ensures |Taken(n)| == n - 1
  {
    if n == 1 {
      assert Taken(1) == {};
    } else {
      TakenSize(n - 1);
      forall k | 1 <= k < n - 1 ensures Preserved(k) != Preserved(n - 1) {
        PreservedApart(k, n - 1);
      }
      assert Taken(n) == Taken(n - 1) + {Preserved(n - 1)};
    }
  }

  ghost predicate AllTaken(t: Tree, n: nat) {
    n >= 1 && forall k :: 1 <= k < n ==> Preserved(k) in t
  }

  /** There are not more names taken than there are entries. */
  lemma Crowded(t: Tree, n: nat)
    requires AllTaken(t, n)
    ensures n - 1 <= |t|
  {
    TakenSize(n);
    assert Taken(n) <= t.Keys;
    SubsetSize(Taken(n), t.Keys);
    assert |t| == |t.Keys|;
  }

  function FirstFree(t: Tree, n: nat): (free: nat)
    requires AllTaken(t, n)
    ensures free >= n && Preserved(free) !in t && AllTaken(t, free)
    decreases |t| + 1 - n
  {
    Crowded(t, n);
    if Preserved(n) in t then
      Crowded(t, n + 1);
      FirstFree(t, n + 1)
    else n
  }

  lemma FreeOnce(t: Tree, a: nat, b: nat)
    requires AllTaken(t, a) && AllTaken(t, b) && Preserved(a) !in t && Preserved(b) !in t
    ensures a == b
  {}

  // ---- the instructions ----

  /** `AGENTS.md` leads to the file `CLAUDE.md`. */
  predicate Aliased(t: Tree) {
    AGENTS in t && t[AGENTS] == Link("CLAUDE.md") && CLAUDE in t && t[CLAUDE].File?
  }

  predicate Alone(t: Tree) {
    CLAUDE in t && t[CLAUDE].File? && AGENTS !in t
  }

  /** `AGENTS.md` is a link to somewhere else, or beside it stands a `CLAUDE.md` that
      is neither a link nor the same file once more. */
  predicate Clash(t: Tree) {
    && !Aliased(t) && AGENTS in t
    && (t[AGENTS].Link? || (CLAUDE in t && !t[CLAUDE].Link? && !(t[CLAUDE].File? && t[CLAUDE] == t[AGENTS])))
  }

  /** Everything at and below `p`, at and below `q` instead. */
  function Carried(t: Tree, p: Path, q: Path): Tree {
    var places := set r | r in t && Under(p, r) :: q + r[|p|..];
    map x | x in places && p + x[|q|..] in t :: t[p + x[|q|..]]
  }

  lemma CarriedAt(t: Tree, p: Path, q: Path, x: Path)
    ensures x in Carried(t, p, q) <==> Under(q, x) && p + x[|q|..] in t
    ensures x in Carried(t, p, q) ==> Carried(t, p, q)[x] == t[p + x[|q|..]]
  {
    if Under(q, x) && p + x[|q|..] in t {
      var r := p + x[|q|..];
      assert Under(p, r) && q + r[|p|..] == x;
    }
  }

  function MovedTo(t: Tree, p: Path, q: Path): Tree {
    Without(t, p) + Carried(t, p, q)
  }

  function WithAgents(t: Tree, content: Bytes): Tree {
    if AGENTS in t then t else t[AGENTS := File(content)]
  }

  function WithAlias(t: Tree): Tree {
    if CLAUDE !in t then t[CLAUDE := Link("AGENTS.md")]
    else if t[CLAUDE] == Link("AGENTS.md") then t
    else MovedTo(t, CLAUDE, Preserved(FirstFree(t, 1)))[CLAUDE := Link("AGENTS.md")]
  }

  /** `instructions`, when nothing clashes. */
  function Instructed(t: Tree, content: Bytes): Tree {
    if Aliased(t) then t
    else if Alone(t) then t[AGENTS := Link("CLAUDE.md")]
    else WithAlias(WithAgents(t, content))
  }

  // ---- skills and .gitignore ----

  /** A link from the directory of links to the common skill of the same name. */
  predicate SkillLink(p: Path, node: Node) {
    |p| == 3 && Under(SKILLS, p) && node == Link("../../.agents/skills/" + p[2])
  }

  predicate OnlySkillLinks(t: Tree) {
    SKILLS in t && t[SKILLS] == Dir && forall p :: p in t && Under(SKILLS, p) && p != SKILLS ==> SkillLink(p, t[p])
  }

  predicate DirAt(t: Tree, p: Path) {
    p in t ==> t[p] == Dir
  }

  predicate SkillDirs(t: Tree) {
    DirAt(t, COMMON) && DirAt(t, CANONICAL) && DirAt(t, OWN)
  }

  predicate LinksSkills(t: Tree) {
    GIT !in t && (SKILLS in t ==> OnlySkillLinks(t)) && SkillDirs(t)
  }

  function WithSkills(t: Tree): Tree {
    Without(t, SKILLS) + Spine(CANONICAL) + Above(SKILLS) + map[SKILLS := Link("../.agents/skills")]
  }

  /** `link_skills` */
  function Skilled(t: Tree): Tree {
    if LinksSkills(t) then WithSkills(t) else t
  }

  /** `write_gitignore` */
  function Ignored(t: Tree, text: Bytes): Tree {
    if GIT in t || IGNORE in t then t else t[IGNORE := File(text)]
  }

  // ---- Git's exclude file ----

  function ExcludeText(t: Tree): Bytes {
    if GIT_EXCLUDE in t && t[GIT_EXCLUDE].File? then t[GIT_EXCLUDE].data else []
  }

  /** The exclude file cannot be reached or replaced, or may be elsewhere. */
  predicate GitInTheWay(t: Tree) {
    && GIT in t
    && (|| t[GIT].Link?
        || (t[GIT] == Dir
            && (|| (INFO in t && t[INFO] != Dir)
                || (GIT_EXCLUDE in t && (t[GIT_EXCLUDE].Link? || t[GIT_EXCLUDE] == Dir)))))
  }

  function Shielded(t: Tree): Tree {
    if GIT in t && t[GIT] == Dir
    then t + Above(GIT_EXCLUDE) + map[GIT_EXCLUDE := File(Extended(Unlisted(ExcludeText(t))))]
    else t
  }

  // ---- the whole ----

  /** The marker names another owner, or is none. */
  predicate Foreign(t: Tree, owners: set<Bytes>) {
    MARKER_FILE in t && !(t[MARKER_FILE].File? && t[MARKER_FILE].data in owners)
  }

  /** `init` ends with an error. `owners`: the markers that name this bot. */
  predicate Refuses(t: Tree, owners: set<Bytes>) {
    Foreign(t, owners) || Clash(t) || GitInTheWay(t)
  }

  function Initialised(t: Tree, x: Texts): Tree {
    Shielded(Ignored(Skilled(Instructed(t, x.content)), x.ignore))[MARKER_FILE := File(x.mark)]
  }

  // ---- wherever it is cut off ----

  /** A leaf at `p` is there, or has been set aside, or is one that `init` rewrites. */
  ghost predicate Landed(f: Tree, p: Path, node: Node) {
    || LeafOf(f, p) == Some(node)
    || (Under(CLAUDE, p) && exists n: nat :: LeafOf(f, Preserved(n) + p[1..]) == Some(node))
    || SkillLink(p, node)
    || p == GIT_EXCLUDE || p == MARKER_FILE
  }

  /** Where `init` may put a leaf. */
  ghost predicate Touchable(p: Path) {
    || p in {AGENTS, IGNORE, GIT_EXCLUDE, MARKER_FILE, SKILLS} || Under(CLAUDE, p)
    || exists n: nat :: Under(Preserved(n), p)
  }

  /** From `t` one or more tries of `init` have come to `f`; in between, links of `m`
      may have been made anew. */
  ghost predicate Begun(t: Tree, m: Tree, f: Tree) {
    && WellFormed(f)
    && (forall p :: LeafOf(t, p).Some? ==> Landed(f, p, t[p]))
    && (forall p :: LeafOf(f, p).Some? && LeafOf(f, p) != LeafOf(t, p) ==> Touchable(p) || (p in m && m[p] == f[p]))
  }

  /** Cut off between emptying the marker and writing it. */
  lemma TornMarker(t: Tree, owners: set<Bytes>)
    requires WellFormed(t) && !Foreign(t, owners) && [] !in owners
    ensures var f := t[MARKER_FILE := File([])]; Begun(t, map[], f) && Foreign(f, owners)
  {
    Touched();
    if MARKER_FILE in t {
      Overwritten(t, MARKER_FILE, []);
    } else {
      TopLeaf(t, MARKER_FILE, File([]));
      NewLeaf(t, MARKER_FILE, File([]));
    }
  }

  lemma BegunSame(t: Tree, m: Tree)
    requires WellFormed(t)
    ensures Begun(t, m, t)
  {}

  lemma LandedStays(f: Tree, f2: Tree, p: Path, node: Node)
    requires Landed(f, p, node) && Begun(f, map[], f2)
    ensures Landed(f2, p, node)
  {
    if Under(CLAUDE, p) && exists n: nat :: LeafOf(f, Preserved(n) + p[1..]) == Some(node) {
      var n: nat :| LeafOf(f, Preserved(n) + p[1..]) == Some(node);
      PreservedApart(n, n);
      var q := Preserved(n) + p[1..];
      assert q[0] != ".claude" && q[0] != ".git" && q[0] != ".coreman-workspace.json" by {
        assert q[0][0] == 'C';
      }
      assert !Under(CLAUDE, q) && !SkillLink(q, node) && q != GIT_EXCLUDE && q != MARKER_FILE;
      assert Landed(f2, q, f[q]);
      assert LeafOf(f2, q) == Some(node);
    } else if LeafOf(f, p) == Some(node) {
      assert Landed(f2, p, f[p]);
    }
  }

  lemma BegunOn(t: Tree, m: Tree, f: Tree, f2: Tree)
    requires Begun(t, m, f) && Begun(f, map[], f2)
    ensures Begun(t, m, f2)
  {
    hide Touchable;
    forall p | LeafOf(t, p).Some? ensures Landed(f2, p, t[p]) {
      LandedStays(f, f2, p, t[p]);
    }
    hide Landed;
    forall p | LeafOf(f2, p).Some? && LeafOf(f2, p) != LeafOf(t, p)
      ensures Touchable(p) || (p in m && m[p] == f2[p])
    {
      if LeafOf(f2, p) == LeafOf(f, p) {
        assert Touchable(p) || (p in m && m[p] == f[p]);
      }
    }
  }

  /** Links are made anew. */
  lemma BegunLinked(t: Tree, m: Tree, f: Tree, f2: Tree)
    requires Begun(t, m, f) && WellFormed(f2)
    requires forall q :: q in f ==> q in f2 && f2[q] == f[q]
    requires forall q :: q in f2 && f2[q] != Dir && q !in f ==> q in m && m[q] == f2[q]
    ensures Begun(t, m, f2)
  {
    hide Touchable;
    forall p | LeafOf(t, p).Some? ensures Landed(f2, p, t[p]) {
      assert Landed(f, p, t[p]);
      if n: nat :| Under(CLAUDE, p) && LeafOf(f, Preserved(n) + p[1..]) == Some(t[p]) {
        assert LeafOf(f2, Preserved(n) + p[1..]) == Some(t[p]);
      }
    }
  }

  // ---- the operations on the disk ----

  /** A new leaf where there was nothing, with the directories it needs. */
  lemma NewLeaf(f: Tree, p: Path, node: Node)
    requires WellFormed(f) && Touchable(p) && p != [] && p !in f && Reachable(f, p)
    ensures Begun(f, map[], Grown(f, p, node)) && Begun(f, map[], f + Above(p))
  {
    GrownTree(f, p, node);
    hide Touchable, WellFormed;
  }

  lemma GrownTree(t: Tree, p: Path, node: Node)
    requires WellFormed(t) && Reachable(t, p) && p != [] && p !in t
    ensures WellFormed(Grown(t, p, node)) && WellFormed(t + Above(p))
    ensures forall q :: q in t ==> q in t + Above(p) && (t + Above(p))[q] == t[q]
    ensures forall q :: q in t ==> q in Grown(t, p, node) && Grown(t, p, node)[q] == t[q]
    ensures forall q :: LeafOf(t + Above(p), q) == LeafOf(t, q)
    ensures forall q :: q != p ==> LeafOf(Grown(t, p, node), q) == LeafOf(t, q)
  {
    var t2 := Grown(t, p, node);
    forall q | q in Above(p) ensures q in t ==> t[q] == Dir {
      var k :| 0 <= k <= |p| && p[..k] == q;
      assert k == |p| ==> q == p;
    }
    assert p[..0] == [] && [] in Above(p);
    forall q, k | q in t2 && 0 <= k < |q| ensures q[..k] in t2 && t2[q[..k]] == Dir && q[..k] in t + Above(p) {
      if q in Above(p) {
        var j :| 0 <= j <= |p| && p[..j] == q;
        assert q[..k] == p[..k];
      }
    }
  }

  /** A file is written over. */
  lemma Overwritten(f: Tree, p: Path, data: Bytes)
    requires WellFormed(f) && (p == GIT_EXCLUDE || p == MARKER_FILE) && p in f && f[p] != Dir
    ensures Begun(f, map[], f[p := File(data)])
  {}

  /** `CLAUDE.md` is set aside, with all that may be below it. */
  lemma SetAside(f: Tree, n: nat)
    requires WellFormed(f) && CLAUDE in f && Preserved(n) !in f
    ensures Begun(f, map[], MovedTo(f, CLAUDE, Preserved(n)))
  {
    var q := Preserved(n);
    var f2 := MovedTo(f, CLAUDE, q);
    PreservedApart(n, n);
    forall x ensures x in Carried(f, CLAUDE, q) <==> Under(q, x) && CLAUDE + x[1..] in f
             ensures x in Carried(f, CLAUDE, q) ==> Carried(f, CLAUDE, q)[x] == f[CLAUDE + x[1..]] {
      CarriedAt(f, CLAUDE, q, x);
    }
    hide Carried, Preserved;
    SetAsideTree(f, f2, q);
    forall p | LeafOf(f, p).Some? ensures Landed(f2, p, f[p]) {
      if Under(CLAUDE, p) {
        assert CLAUDE + (q + p[1..])[1..] == p;
        assert LeafOf(f2, Preserved(n) + p[1..]) == Some(f[p]);
      } else {
        NothingUnder(f, q, p);
      }
    }
    forall p | LeafOf(f2, p).Some? && LeafOf(f2, p) != LeafOf(f, p) ensures Touchable(p) {
      assert Under(Preserved(n), p);
    }
  }

  lemma NothingUnder(f: Tree, q: Path, p: Path)
    requires WellFormed(f) && |q| == 1 && q !in f && p in f
    ensures !Under(q, p)
  {
    assert |p| == 1 ==> p[..1] == p;
  }

  lemma SetAsideTree(f: Tree, f2: Tree, q: Path)
    requires WellFormed(f) && CLAUDE in f && |q| == 1 && q !in f && q != CLAUDE
    requires forall x :: x in f2 <==> (x in f && !Under(CLAUDE, x)) || (Under(q, x) && CLAUDE + x[1..] in f)
    requires forall x :: x in f2 ==> f2[x] == if Under(q, x) && CLAUDE + x[1..] in f then f[CLAUDE + x[1..]] else f[x]
    ensures WellFormed(f2)
  {
    forall x, k | x in f2 && 0 <= k < |x| ensures x[..k] in f2 && f2[x[..k]] == Dir {
      if Under(q, x) && CLAUDE + x[1..] in f {
        var y := CLAUDE + x[1..];
        if k > 0 {
          assert y[..k] == CLAUDE + x[..k][1..];
          assert Under(q, x[..k]);
        } else {
          assert x[..0] == [];
        }
      } else {
        assert x[..k] in f && (k > 0 ==> x[..k][..1] == x[..1]);
        NothingUnder(f, q, x[..k]);
      }
    }
  }

  lemma SkillGone(f: Tree, p: Path)
    requires WellFormed(f) && OnlySkillLinks(f) && p in f && Under(SKILLS, p) && p != SKILLS
    ensures Begun(f, map[], Without(f, p)) && OnlySkillLinks(Without(f, p))
  {
    forall q | q in f && Under(p, q) ensures q == p {
      assert q[..|p|] == p;
    }
    assert forall q :: q in Without(f, p) <==> q in f && q != p;
  }

  lemma SkillsGone(f: Tree)
    requires WellFormed(f) && OnlySkillLinks(f)
    ensures Begun(f, map[], Without(f, SKILLS))
  {
    hide Touchable;
    assert !Under(SKILLS, []);
    forall q, k | q in f && !Under(SKILLS, q) && 0 <= k < |q| ensures !Under(SKILLS, q[..k]) {
      assert k >= 2 ==> q[..k][..2] == q[..2];
    }
  }

  lemma NewDir(f: Tree, p: Path)
    requires p in f ==> f[p] == Dir
    requires WellFormed(f) && forall k :: 0 <= k < |p| && p[..k] in f ==> f[p[..k]] == Dir
    ensures Begun(f, map[], f + Spine(p))
    ensures forall q :: LeafOf(f + Spine(p), q) == LeafOf(f, q)
  {
    hide Touchable;
    var f2 := f + Spine(p);
    forall q | q in Spine(p) ensures q in f ==> f[q] == Dir {
      var k :| 0 <= k <= |p| && p[..k] == q;
      assert k == |p| ==> q == p;
    }
    assert p[..0] == [] && [] in Spine(p);
    forall q, k | q in f2 && 0 <= k < |q| ensures q[..k] in f2 && f2[q[..k]] == Dir {
      if q in Spine(p) {
        var j :| 0 <= j <= |p| && p[..j] == q;
        assert q[..k] == p[..k];
      }
    }
  }

  /** At the top nothing else is needed. */
  lemma TopLeaf(f: Tree, p: Path, node: Node)
    requires WellFormed(f) && |p| == 1
    ensures Grown(f, p, node) == f[p := node] && f + Above(p) == f && Reachable(f, p)
  {
    assert p[..0] == [] && p[..1] == p;
    assert Prefixes(p) == {[], p};
  }

  lemma Touched()
    ensures Touchable(AGENTS) && Touchable(CLAUDE) && Touchable(IGNORE) && Touchable(MARKER_FILE)
    ensures Touchable(SKILLS) && Touchable(GIT_EXCLUDE)
  {}

  const SKILL_NAMES: set<string> := {".agents", ".claude"}
  const HIDDEN_NAMES: set<string> := {".git", ".agents", ".claude", ".gitignore", ".coreman-workspace.json"}

  /** What is below these names is the same. */
  ghost predicate SameAt(t: Tree, f: Tree, names: set<string>) {
    forall p :: p != [] && p[0] in names ==> (p in f <==> p in t) && (p in f ==> f[p] == t[p])
  }

  /** Only what is below these names differs. */
  ghost predicate SameBut(t: Tree, f: Tree, names: set<string>) {
    forall p :: p != [] && p[0] !in names ==> (p in f <==> p in t) && (p in f ==> f[p] == t[p])
  }

  // ---- the code ----

  /** `instructions` */
  method Instructions(files: Folder, content: Bytes, power: Power) returns (outcome: Outcome)
    requires WellFormed(files.nodes)
    modifies files, power
    ensures Begun(old(files.nodes), map[], files.nodes)
    ensures outcome == Failed <==> Clash(old(files.nodes))
    ensures outcome == Failed ==> files.nodes == old(files.nodes)
    ensures outcome == Done ==> files.nodes == Instructed(old(files.nodes), content)
    ensures SameAt(old(files.nodes), files.nodes, HIDDEN_NAMES)
    ensures old(power.left) == None ==> outcome != Cut && power.left == None
  {
    hide Begun, WellFormed, Grown, Touchable, MovedTo, WithAlias, WithAgents;
    Touched();
    ghost var t := files.nodes;
    BegunSame(t, map[]);
    if AGENTS in files.nodes && files.nodes[AGENTS] == Link("CLAUDE.md")
       && CLAUDE in files.nodes && files.nodes[CLAUDE].File? {
      return Done;
    }
    if CLAUDE in files.nodes && files.nodes[CLAUDE].File? && AGENTS !in files.nodes {
      var cut := power.Fails();
      if cut {
        return Cut;
      }
      TopLeaf(t, AGENTS, Link("CLAUDE.md"));
      NewLeaf(t, AGENTS, Link("CLAUDE.md"));
      files.nodes := files.nodes[AGENTS := Link("CLAUDE.md")];
      return Done;
    }
    if AGENTS in files.nodes && files.nodes[AGENTS].Link? {
      return Failed;
    }
    if CLAUDE in files.nodes && !files.nodes[CLAUDE].Link? && AGENTS in files.nodes
       && !(files.nodes[CLAUDE].File? && files.nodes[CLAUDE] == files.nodes[AGENTS]) {
      return Failed;
    }
    var cut := OneFile(files, content, power);
    outcome := if cut then Cut else Done;
  }

  /** `AGENTS.md`, if there is none, and the link to it. */
  method OneFile(files: Folder, content: Bytes, power: Power) returns (cut: bool)
    requires WellFormed(files.nodes)
    modifies files, power
    ensures Begun(old(files.nodes), map[], files.nodes)
    ensures !cut ==> files.nodes == WithAlias(WithAgents(old(files.nodes), content))
    ensures SameAt(old(files.nodes), files.nodes, HIDDEN_NAMES)
    ensures old(power.left) == None ==> !cut && power.left == None
  {
    hide Begun, WellFormed, Grown, Touchable, MovedTo;
    Touched();
    ghost var t := files.nodes;
    BegunSame(t, map[]);
    if AGENTS !in files.nodes {
      cut := WriteNew(files, AGENTS, content, power);
      if cut {
        return;
      }
    }
    if CLAUDE in files.nodes && files.nodes[CLAUDE] == Link("AGENTS.md") {
      return false;
    }
    ghost var f := files.nodes;
    BegunTree(t, f);
    cut := MakeAlias(files, power);
    BegunOn(t, map[], f, files.nodes);
  }

  /** A new file at the top, made empty and then written. */
  method WriteNew(files: Folder, p: Path, data: Bytes, power: Power) returns (cut: bool)
    requires WellFormed(files.nodes) && |p| == 1 && p !in files.nodes && Touchable(p)
    modifies files, power
    ensures Begun(old(files.nodes), map[], files.nodes)
    ensures !cut ==> files.nodes == old(files.nodes)[p := File(data)]
    ensures SameBut(old(files.nodes), files.nodes, {p[0]})
    ensures old(power.left) == None ==> !cut && power.left == None
  {
    hide Begun, WellFormed, Grown, Touchable;
    ghost var t := files.nodes;
    BegunSame(t, map[]);
    cut := power.Fails();
    if cut {
      return;
    }
    TopLeaf(t, p, File([]));
    NewLeaf(t, p, File([]));
    files.nodes := files.nodes[p := File([])];
    cut := power.Fails();
    if cut {
      return;
    }
    TopLeaf(t, p, File(data));
    NewLeaf(t, p, File(data));
    assert t[p := File([])][p := File(data)] == t[p := File(data)];
    files.nodes := files.nodes[p := File(data)];
  }

  /** Whatever stands at `CLAUDE.md` is set aside, and the link made. */
  method MakeAlias(files: Folder, power: Power) returns (cut: bool)
    requires WellFormed(files.nodes) && !(CLAUDE in files.nodes && files.nodes[CLAUDE] == Link("AGENTS.md"))
    modifies files, power
    ensures Begun(old(files.nodes), map[], files.nodes)
    ensures !cut ==> files.nodes == WithAlias(old(files.nodes))
    ensures SameAt(old(files.nodes), files.nodes, HIDDEN_NAMES)
    ensures old(power.left) == None ==> !cut && power.left == None
  {
    hide Begun, WellFormed, Grown, Touchable, MovedTo, Preserved;
    Touched();
    ghost var t := files.nodes;
    BegunSame(t, map[]);
    if CLAUDE in files.nodes {
      var n := 1;
      while Preserved(n) in files.nodes
        invariant AllTaken(t, n) && files.nodes == t && power.left == old(power.left)
        decreases |t| + 1 - n
      {
        Crowded(t, n + 1);
        n := n + 1;
      }
      FreeOnce(t, n, FirstFree(t, 1));
      cut := power.Fails();
      if cut {
        return;
      }
      SetAside(t, n);
      AsideElsewhere(t, n);
      files.nodes := MovedTo(files.nodes, CLAUDE, Preserved(n));
      AsideGone(t, n);
    }
    cut := power.Fails();
    if cut {
      return;
    }
    ghost var f := files.nodes;
    assert WellFormed(f) by { BegunTree(t, f); }
    TopLeaf(f, CLAUDE, Link("AGENTS.md"));
    NewLeaf(f, CLAUDE, Link("AGENTS.md"));
    BegunOn(t, map[], f, f[CLAUDE := Link("AGENTS.md")]);
    files.nodes := files.nodes[CLAUDE := Link("AGENTS.md")];
  }

  lemma BegunTree(t: Tree, f: Tree)
    requires Begun(t, map[], f)
    ensures WellFormed(f)
  {}

  lemma AsideGone(f: Tree, n: nat)
    requires CLAUDE in f
    ensures CLAUDE !in MovedTo(f, CLAUDE, Preserved(n))
  {
    CarriedAt(f, CLAUDE, Preserved(n), CLAUDE);
    PreservedApart(n, n);
    assert CLAUDE[..1] == CLAUDE;
  }

  lemma AsideElsewhere(f: Tree, n: nat)
    ensures SameAt(f, MovedTo(f, CLAUDE, Preserved(n)), HIDDEN_NAMES)
  {
    forall p | p != [] && p[0] in HIDDEN_NAMES
      ensures p !in Carried(f, CLAUDE, Preserved(n)) && !Under(CLAUDE, p)
    {
      CarriedAt(f, CLAUDE, Preserved(n), p);
      assert p[0][0] == '.' && Preserved(n)[0][0] == 'C';
    }
  }

  /** `link_skills`. `leads`: where `.git` is a link, whether it leads anywhere. */
  method LinkSkills(files: Folder, leads: bool, power: Power) returns (cut: bool)
    requires WellFormed(files.nodes)
    modifies files, power
    ensures Begun(old(files.nodes), map[], files.nodes)
    ensures SameBut(old(files.nodes), files.nodes, SKILL_NAMES)
    ensures !cut && !(GIT in old(files.nodes) && old(files.nodes)[GIT].Link?) ==>
              files.nodes == Skilled(old(files.nodes))
    ensures old(power.left) == None ==> !cut && power.left == None
  {
    hide Begun, WellFormed, Grown, Touchable;
    ghost var t := files.nodes;
    BegunSame(t, map[]);
    cut := false;
    if GIT in files.nodes && (files.nodes[GIT].Link? ==> leads) {
      return;
    }
    if SKILLS in files.nodes && files.nodes[SKILLS].Link? {
      return;
    }
    if !SkillDirs(files.nodes) {
      return;
    }
    if SKILLS in files.nodes && !OnlySkillLinks(files.nodes) {
      return;
    }
    cut := ReplaceSkills(files, power);
  }

  /** Whatever links there are, the one link in their place. */
  method ReplaceSkills(files: Folder, power: Power) returns (cut: bool)
    requires WellFormed(files.nodes) && SkillDirs(files.nodes)
             && (SKILLS in files.nodes ==> OnlySkillLinks(files.nodes))
    modifies files, power
    ensures Begun(old(files.nodes), map[], files.nodes)
    ensures SameBut(old(files.nodes), files.nodes, SKILL_NAMES)
    ensures !cut ==> files.nodes == WithSkills(old(files.nodes))
    ensures old(power.left) == None ==> !cut && power.left == None
  {
    hide Begun, WellFormed, Touchable, OnlySkillLinks, SkillDirs, Spine, Above, LessSkills;
    ghost var t := files.nodes;
    BegunSame(t, map[]);
    SkillsSeen(t);
    if SKILLS in files.nodes {
      cut := RemoveSkills(files, power);
      SkillsLeft(t, files.nodes);
      if cut {
        return;
      }
    }
    ghost var f := files.nodes;
    BegunTree(t, f);
    cut := MakeSkills(files, power);
    BegunOn(t, map[], f, files.nodes);
  }

  lemma SkillsSeen(t: Tree)
    requires WellFormed(t)
    ensures SameBut(t, t, SKILL_NAMES) && SKILLS !in Without(t, SKILLS)
    ensures SKILLS !in t ==> Without(t, SKILLS) == t
  {
    WithoutNone(t);
    assert Under(SKILLS, SKILLS);
  }

  lemma SkillsLeft(t: Tree, f: Tree)
    requires SkillDirs(t)
    requires LessSkills(t, f)
    ensures SameBut(t, f, SKILL_NAMES) && SkillDirs(f)
  {
    forall p | Under(SKILLS, p) ensures p != [] && p[0] in SKILL_NAMES {
      assert p[0] == p[..2][0];
    }
  }

  lemma WithoutNone(t: Tree)
    requires WellFormed(t)
    ensures SKILLS !in t ==> Without(t, SKILLS) == t
  {
    forall q | q in t && Under(SKILLS, q) ensures SKILLS in t {
      assert |q| == 2 ==> q == SKILLS;
      assert q[..2] == SKILLS;
    }
  }

  /** The same, but for some of what is at and below the directory of links. */
  ghost predicate LessSkills(t: Tree, f: Tree) {
    && (forall p :: p in f ==> p in t && f[p] == t[p])
    && (forall p :: p in t && !Under(SKILLS, p) ==> p in f)
  }

  /** Each link, then the directory. */
  method RemoveSkills(files: Folder, power: Power) returns (cut: bool)
    requires WellFormed(files.nodes) && OnlySkillLinks(files.nodes)
    modifies files, power
    ensures Begun(old(files.nodes), map[], files.nodes)
    ensures LessSkills(old(files.nodes), files.nodes)
    ensures !cut ==> files.nodes == Without(old(files.nodes), SKILLS)
    ensures old(power.left) == None ==> !cut && power.left == None
  {
    hide Begun, WellFormed, Touchable, LessSkills, OnlySkillLinks;
    ghost var t := files.nodes;
    BegunSame(t, map[]);
    assert LessSkills(t, t) by { NoneGone(t); }
    var rest := set p | p in files.nodes && Under(SKILLS, p) && p != SKILLS;
    while rest != {}
      invariant Begun(t, map[], files.nodes) && WellFormed(files.nodes) && OnlySkillLinks(files.nodes)
      invariant rest == set p | p in files.nodes && Under(SKILLS, p) && p != SKILLS
      invariant LessSkills(t, files.nodes)
      invariant old(power.left) == None ==> power.left == None
      decreases |rest|
    {
      var p :| p in rest;
      cut := power.Fails();
      if cut {
        return;
      }
      ghost var f := files.nodes;
      SkillGone(f, p);
      OneGone(t, f, p);
      BegunOn(t, map[], f, Without(f, p));
      BegunTree(f, Without(f, p));
      files.Remove(p);
      rest := rest - {p};
    }
    cut := power.Fails();
    if cut {
      return;
    }
    SkillsGone(files.nodes);
    AllGone(t, files.nodes);
    BegunOn(t, map[], files.nodes, Without(files.nodes, SKILLS));
    files.Remove(SKILLS);
  }

  lemma OneGone(t: Tree, f: Tree, p: Path)
    requires WellFormed(f) && OnlySkillLinks(f) && p in f && Under(SKILLS, p) && p != SKILLS && LessSkills(t, f)
    ensures forall q :: q in Without(f, p) <==> q in f && q != p
    ensures LessSkills(t, Without(f, p))
  {
    forall q | q in f && Under(p, q) ensures q == p {
      assert q[..|p|] == p;
    }
  }

  lemma NoneGone(t: Tree)
    ensures LessSkills(t, t)
  {}

  lemma AllGone(t: Tree, f: Tree)
    requires LessSkills(t, f)
    ensures LessSkills(t, Without(f, SKILLS)) && Without(f, SKILLS) == Without(t, SKILLS)
  {}

  /** The two directories and the link. */
  method MakeSkills(files: Folder, power: Power) returns (cut: bool)
    requires WellFormed(files.nodes) && SKILLS !in files.nodes
    requires SkillDirs(files.nodes)
    modifies files, power
    ensures Begun(old(files.nodes), map[], files.nodes)
    ensures SameBut(old(files.nodes), files.nodes, SKILL_NAMES)
    ensures !cut ==>
              files.nodes
              == old(files.nodes) + Spine(CANONICAL) + Above(SKILLS) + map[SKILLS := Link("../.agents/skills")]
    ensures old(power.left) == None ==> !cut && power.left == None
  {
    hide *;
    ghost var t := files.nodes;
    BegunSame(t, map[]);
    SkillSteps(t);
    cut := power.Fails();
    if cut {
      return;
    }
    files.nodes := files.nodes + Spine(CANONICAL);
    cut := power.Fails();
    if cut {
      return;
    }
    files.nodes := files.nodes + Above(SKILLS);
    cut := power.Fails();
    if cut {
      return;
    }
    files.nodes := files.nodes[SKILLS := Link("../.agents/skills")];
  }

  lemma SkillSteps(t: Tree)
    requires WellFormed(t) && SKILLS !in t
    requires SkillDirs(t)
    ensures var a := t + Spine(CANONICAL);
            var b := a + Above(SKILLS);
            var c := b[SKILLS := Link("../.agents/skills")];
            && Begun(t, map[], a) && Begun(t, map[], b) && Begun(t, map[], c)
            && SameBut(t, t, SKILL_NAMES) && SameBut(t, a, SKILL_NAMES)
            && SameBut(t, b, SKILL_NAMES) && SameBut(t, c, SKILL_NAMES)
            && c == t + Spine(CANONICAL) + Above(SKILLS) + map[SKILLS := Link("../.agents/skills")]
  {
    var a := t + Spine(CANONICAL);
    SkillPaths(t);
    Touched();
    hide Begun, WellFormed, Touchable;
    SkillNames(t);
    NewDir(t, CANONICAL);
    BegunTree(t, a);
    NewLeaf(a, SKILLS, Link("../.agents/skills"));
    AddedLink(t, a);
    hide Reachable, Grown, Spine, Above;
    BegunOn(t, map[], a, a + Above(SKILLS));
    BegunOn(t, map[], a, Grown(a, SKILLS, Link("../.agents/skills")));
  }

  lemma AddedLink(t: Tree, a: Tree)
    requires a == t + Spine(CANONICAL)
    ensures (a + Above(SKILLS))[SKILLS := Link("../.agents/skills")] == Grown(a, SKILLS, Link("../.agents/skills"))
    ensures (a + Above(SKILLS))[SKILLS := Link("../.agents/skills")]
            == t + Spine(CANONICAL) + Above(SKILLS) + map[SKILLS := Link("../.agents/skills")]
  {
    hide Spine, Above;
  }

  lemma SkillNames(t: Tree)
    requires WellFormed(t)
    requires SkillDirs(t)
    ensures var a := t + Spine(CANONICAL);
            && SameBut(t, t, SKILL_NAMES) && SameBut(t, a, SKILL_NAMES) && SameBut(t, a + Above(SKILLS), SKILL_NAMES)
            && SameBut(t, (a + Above(SKILLS))[SKILLS := Link("../.agents/skills")], SKILL_NAMES)
  {
    SkillPaths(t);
  }

  lemma SkillPaths(t: Tree)
    requires WellFormed(t)
    requires SkillDirs(t)
    ensures Spine(CANONICAL) == map[[] := Dir, COMMON := Dir, CANONICAL := Dir]
    ensures Above(SKILLS) == map[[] := Dir, OWN := Dir]
    ensures forall k :: 0 <= k < |CANONICAL| && CANONICAL[..k] in t ==> t[CANONICAL[..k]] == Dir
    ensures Reachable(t + Spine(CANONICAL), SKILLS)
  {
    assert CANONICAL[..0] == [] && CANONICAL[..1] == COMMON && CANONICAL[..2] == CANONICAL;
    assert SKILLS[..0] == [] && SKILLS[..1] == OWN && SKILLS[..2] == SKILLS;
    assert Prefixes(CANONICAL) == {[], COMMON, CANONICAL};
    assert Prefixes(SKILLS) == {[], OWN, SKILLS};
  }

  /** `write_gitignore` */
  method WriteIgnore(files: Folder, text: Bytes, leads: bool, power: Power) returns (cut: bool)
    requires WellFormed(files.nodes)
    modifies files, power
    ensures Begun(old(files.nodes), map[], files.nodes)
    ensures SameBut(old(files.nodes), files.nodes, {".gitignore"})
    ensures !cut && !(GIT in old(files.nodes) && old(files.nodes)[GIT].Link?) ==>
              files.nodes == Ignored(old(files.nodes), text)
    ensures old(power.left) == None ==> !cut && power.left == None
  {
    hide Begun, WellFormed, Grown, Touchable;
    Touched();
    ghost var t := files.nodes;
    BegunSame(t, map[]);
    cut := false;
    if GIT in files.nodes && (files.nodes[GIT].Link? ==> leads) {
      return;
    }
    if IGNORE in files.nodes {
      return;
    }
    cut := power.Fails();
    if cut {
      return;
    }
    TopLeaf(t, IGNORE, File(text));
    NewLeaf(t, IGNORE, File(text));
    files.nodes := files.nodes[IGNORE := File(text)];
  }

  /** Some file is always written where there was none. */
  lemma ExtraOfNone()
    ensures Unix([]) == [] && Lines([]) == [] && Unlisted([]) == [] && Extra([]) != []
  {
    assert Code("/.coreman-memory/") + [LF] != [];
  }

  lemma ExcludePaths(t: Tree)
    requires WellFormed(t)
    ensures Above(GIT_EXCLUDE) == map[[] := Dir, GIT := Dir, INFO := Dir]
    ensures GIT_EXCLUDE in t ==> GIT in t && t[GIT] == Dir && INFO in t && t[INFO] == Dir && t + Above(GIT_EXCLUDE) == t
    ensures INFO in t ==> GIT in t && t[GIT] == Dir
    ensures GIT in t && t[GIT] == Dir && (INFO in t ==> t[INFO] == Dir) ==> Reachable(t, GIT_EXCLUDE)
  {
    assert GIT_EXCLUDE[..0] == [] && GIT_EXCLUDE[..1] == GIT && GIT_EXCLUDE[..2] == INFO
           && GIT_EXCLUDE[..3] == GIT_EXCLUDE;
    assert INFO[..0] == [] && INFO[..1] == GIT;
    assert Prefixes(GIT_EXCLUDE) == {[], GIT, INFO, GIT_EXCLUDE};
  }

  predicate IsLink(t: Tree, p: Path) {
    p in t && t[p].Link?
  }

  predicate GitLinked(t: Tree) {
    IsLink(t, GIT) || IsLink(t, INFO) || IsLink(t, GIT_EXCLUDE)
  }

  function WithUnlisted(t: Tree): Tree {
    if GIT_EXCLUDE in t && t[GIT_EXCLUDE].File? then t[GIT_EXCLUDE := File(Unlisted(t[GIT_EXCLUDE].data))] else t
  }

  /** `remove_legacy_instruction_excludes` */
  method Unlist(files: Folder, power: Power) returns (outcome: Outcome)
    requires WellFormed(files.nodes)
    modifies files, power
    ensures Begun(old(files.nodes), map[], files.nodes)
    ensures outcome == Failed <==> GitLinked(old(files.nodes))
    ensures files.nodes == old(files.nodes) || files.nodes == WithUnlisted(old(files.nodes))
    ensures outcome == Done ==> files.nodes == WithUnlisted(old(files.nodes))
    ensures old(power.left) == None ==> outcome != Cut && power.left == None
  {
    hide Begun, WellFormed, Unlisted;
    ghost var t := files.nodes;
    BegunSame(t, map[]);
    if IsLink(files.nodes, GIT) || IsLink(files.nodes, INFO) || IsLink(files.nodes, GIT_EXCLUDE) {
      return Failed;
    }
    if GIT_EXCLUDE in files.nodes && files.nodes[GIT_EXCLUDE].File? {
      var data := files.nodes[GIT_EXCLUDE].data;
      if Unlisted(data) != data {
        var cut := power.Fails();
        if cut {
          return Cut;
        }
        Overwritten(t, GIT_EXCLUDE, Unlisted(data));
        files.nodes := files.nodes[GIT_EXCLUDE := File(Unlisted(data))];
      }
    }
    outcome := Done;
  }

  /** What keeps the exclude file from being written. */
  predicate NoRoom(t: Tree) {
    GIT in t && t[GIT] == Dir && ((INFO in t && t[INFO] != Dir) || (GIT_EXCLUDE in t && t[GIT_EXCLUDE] == Dir))
  }

  function WithExtended(t: Tree): Tree {
    if GIT in t && t[GIT] == Dir
    then t + Above(GIT_EXCLUDE) + map[GIT_EXCLUDE := File(Extended(ExcludeText(t)))]
    else t
  }

  /** `exclude_private` */
  method Conceal(files: Folder, power: Power) returns (outcome: Outcome)
    requires WellFormed(files.nodes)
    modifies files, power
    ensures Begun(old(files.nodes), map[], files.nodes)
    ensures SameBut(old(files.nodes), files.nodes, {".git"})
    ensures outcome == Failed ==> NoRoom(old(files.nodes))
    ensures outcome == Done ==> !NoRoom(old(files.nodes)) && files.nodes == WithExtended(old(files.nodes))
    ensures old(power.left) == None ==> outcome != Cut && power.left == None
  {
    hide Begun, WellFormed, Touchable, Extended, Extra, Unix, Above, Reachable;
    ghost var t := files.nodes;
    BegunSame(t, map[]);
    ExcludePaths(t);
    ExtraOfNone();
    if GIT !in files.nodes || files.nodes[GIT] != Dir {
      return Done;
    }
    var data := ExcludeText(files.nodes);
    if Extra(Unix(data)) == [] {
      NothingToAdd(t, data);
      return Done;
    }
    if INFO in files.nodes && files.nodes[INFO] != Dir {
      return Failed;
    }
    AddExclude(t, Extended(data));
    var cut := power.Fails();
    if cut {
      return Cut;
    }
    files.nodes := files.nodes + Above(GIT_EXCLUDE);
    if GIT_EXCLUDE in files.nodes && files.nodes[GIT_EXCLUDE] == Dir {
      return Failed;
    }
    cut := power.Fails();
    if cut {
      return Cut;
    }
    files.nodes := files.nodes[GIT_EXCLUDE := File(Extended(data))];
    outcome := Done;
  }

  lemma NothingToAdd(t: Tree, data: Bytes)
    requires WellFormed(t) && data == ExcludeText(t) && Extra(Unix(data)) == []
    ensures GIT in t && t[GIT] == Dir ==> !NoRoom(t) && WithExtended(t) == t
  {
    ExtraOfNone();
    ExcludePaths(t);
    hide Unix, Extra, Above, WellFormed;
    assert data != [];
    assert GIT_EXCLUDE in t && t[GIT_EXCLUDE] == File(Extended(data));
  }

  lemma AddExclude(f: Tree, data: Bytes)
    requires WellFormed(f) && Reachable(f, GIT_EXCLUDE) && GIT in f && f[GIT] == Dir
    ensures Begun(f, map[], f + Above(GIT_EXCLUDE)) && SameBut(f, f + Above(GIT_EXCLUDE), {".git"})
    ensures GIT_EXCLUDE in f + Above(GIT_EXCLUDE) <==> GIT_EXCLUDE in f
    ensures GIT_EXCLUDE in f ==> (f + Above(GIT_EXCLUDE))[GIT_EXCLUDE] == f[GIT_EXCLUDE]
    ensures !(GIT_EXCLUDE in f && f[GIT_EXCLUDE] == Dir) ==>
              Begun(f, map[], (f + Above(GIT_EXCLUDE))[GIT_EXCLUDE := File(data)])
    ensures SameBut(f, (f + Above(GIT_EXCLUDE))[GIT_EXCLUDE := File(data)], {".git"})
    ensures (f + Above(GIT_EXCLUDE))[GIT_EXCLUDE := File(data)]
            == f + Above(GIT_EXCLUDE) + map[GIT_EXCLUDE := File(data)]
  {
    ExcludePaths(f);
    Touched();
    hide Begun, WellFormed, Touchable, Above, Reachable;
    BegunSame(f, map[]);
    if GIT_EXCLUDE in f {
      if f[GIT_EXCLUDE] != Dir {
        Overwritten(f, GIT_EXCLUDE, data);
      }
    } else {
      NewLeaf(f, GIT_EXCLUDE, File(data));
      assert (f + Above(GIT_EXCLUDE))[GIT_EXCLUDE := File(data)] == Grown(f, GIT_EXCLUDE, File(data));
    }
  }

  /** Both rewrites of Git's exclude file. */
  method Shield(files: Folder, power: Power) returns (outcome: Outcome)
    requires WellFormed(files.nodes)
    modifies files, power
    ensures Begun(old(files.nodes), map[], files.nodes)
    ensures SameBut(old(files.nodes), files.nodes, {".git"})
    ensures outcome == Failed ==> GitInTheWay(old(files.nodes))
    ensures outcome == Done ==> !GitInTheWay(old(files.nodes)) && files.nodes == Shielded(old(files.nodes))
    ensures old(power.left) == None ==> outcome != Cut && power.left == None
  {
    hide Begun, WellFormed, Unlisted, Extended, Above;
    ghost var t := files.nodes;
    outcome := Unlist(files, power);
    ghost var f := files.nodes;
    TwoRewrites(t);
    if outcome != Done {
      return;
    }
    BegunTree(t, f);
    outcome := Conceal(files, power);
    BegunOn(t, map[], f, files.nodes);
  }

  lemma TwoRewrites(t: Tree)
    requires WellFormed(t)
    ensures GitLinked(t) || NoRoom(WithUnlisted(t)) <==> GitInTheWay(t)
    ensures !GitInTheWay(t) ==> WithExtended(WithUnlisted(t)) == Shielded(t)
    ensures SameBut(t, t, {".git"}) && SameBut(t, WithUnlisted(t), {".git"})
  {
    hide *;
    TwoRefusals(t);
    TwoTexts(t);
    UnlistedNames(t);
  }

  lemma UnlistedNames(t: Tree)
    ensures SameBut(t, t, {".git"}) && SameBut(t, WithUnlisted(t), {".git"})
  {
    hide Unlisted;
  }

  /** The exclude file alone is rewritten. */
  lemma OnlyExclude(t: Tree)
    ensures var f := WithUnlisted(t);
            && f.Keys == t.Keys && (forall p :: p in t && p != GIT_EXCLUDE ==> f[p] == t[p])
            && (GIT_EXCLUDE in t ==>
                  && (f[GIT_EXCLUDE].File? <==> t[GIT_EXCLUDE].File?)
                  && (f[GIT_EXCLUDE] == Dir <==> t[GIT_EXCLUDE] == Dir))
            && ExcludeText(f) == if GIT_EXCLUDE in t && t[GIT_EXCLUDE].File? then Unlisted(ExcludeText(t)) else []
  {
    hide Unlisted;
  }

  lemma TwoRefusals(t: Tree)
    requires WellFormed(t)
    ensures GitLinked(t) || NoRoom(WithUnlisted(t)) <==> GitInTheWay(t)
  {
    OnlyExclude(t);
    ExcludePaths(t);
    hide WithUnlisted, Unlisted, ExcludeText, Above, WellFormed, Reachable;
  }

  lemma TwoTexts(t: Tree)
    requires WellFormed(t)
    ensures WithExtended(WithUnlisted(t)) == Shielded(t)
  {
    OnlyExclude(t);
    ExcludePaths(t);
    ExtraOfNone();
    hide WithUnlisted, Unlisted, Extended, Extra, Unix, Lines, Above, WellFormed, Reachable;
    var f := WithUnlisted(t);
    if GIT in t && t[GIT] == Dir {
      assert ExcludeText(f) == Unlisted(ExcludeText(t));
      SameWithExclude(t, f, File(Extended(ExcludeText(f))));
    } else {
      assert GIT_EXCLUDE !in t;
      assert f == t;
    }
  }

  lemma SameWithExclude(t: Tree, f: Tree, node: Node)
    requires f.Keys == t.Keys && forall p :: p in t && p != GIT_EXCLUDE ==> f[p] == t[p]
    ensures f + Above(GIT_EXCLUDE) + map[GIT_EXCLUDE := node] == t + Above(GIT_EXCLUDE) + map[GIT_EXCLUDE := node]
  {
    hide Above;
  }

  /** The marker, emptied or made, and then written. */
  method WriteMarker(files: Folder, mark: Bytes, power: Power) returns (cut: bool)
    requires WellFormed(files.nodes) && (MARKER_FILE in files.nodes ==> files.nodes[MARKER_FILE].File?)
    modifies files, power
    ensures Begun(old(files.nodes), map[], files.nodes)
    ensures !cut ==> files.nodes == old(files.nodes)[MARKER_FILE := File(mark)]
    ensures old(power.left) == None ==> !cut && power.left == None
  {
    hide Begun, WellFormed, Grown, Touchable;
    ghost var t := files.nodes;
    BegunSame(t, map[]);
    Touched();
    if MARKER_FILE !in files.nodes {
      cut := WriteNew(files, MARKER_FILE, mark, power);
      return;
    }
    cut := power.Fails();
    if cut {
      return;
    }
    Overwritten(t, MARKER_FILE, []);
    files.nodes := files.nodes[MARKER_FILE := File([])];
    cut := power.Fails();
    if cut {
      return;
    }
    Overwritten(t, MARKER_FILE, mark);
    assert t[MARKER_FILE := File([])][MARKER_FILE := File(mark)] == t[MARKER_FILE := File(mark)];
    files.nodes := files.nodes[MARKER_FILE := File(mark)];
  }

  /** `init`: refused exactly for the reasons of `Refuses`, though not always before a
      change; wherever it stops, only what `Begun` allows has happened. */
  method Init(files: Folder, x: Texts, owners: set<Bytes>, leads: bool, power: Power) returns (outcome: Outcome)
    requires WellFormed(files.nodes)
    modifies files, power
    ensures Begun(old(files.nodes), map[], files.nodes)
    ensures outcome == Failed ==> Refuses(old(files.nodes), owners)
    ensures Foreign(old(files.nodes), owners) ==> outcome == Failed && files.nodes == old(files.nodes)
    ensures outcome == Done ==> !Refuses(old(files.nodes), owners) && files.nodes == Initialised(old(files.nodes), x)
    ensures old(power.left) == None ==> outcome != Cut && power.left == None
  {
    hide Begun, WellFormed, Instructed, Skilled, Ignored, Shielded, Clash;
    ghost var t := files.nodes;
    BegunSame(t, map[]);
    if MARKER_FILE in files.nodes && !(files.nodes[MARKER_FILE].File? && files.nodes[MARKER_FILE].data in owners) {
      return Failed;
    }
    outcome := Instructions(files, x.content, power);
    ghost var f1 := files.nodes;
    BegunTree(t, f1);
    if outcome != Done {
      return;
    }
    var cut := LinkSkills(files, leads, power);
    ghost var f2 := files.nodes;
    BegunOn(t, map[], f1, f2);
    BegunTree(t, f2);
    if cut {
      return Cut;
    }
    cut := WriteIgnore(files, x.ignore, leads, power);
    ghost var f3 := files.nodes;
    BegunOn(t, map[], f2, f3);
    BegunTree(t, f3);
    if cut {
      return Cut;
    }
    outcome := Shield(files, power);
    ghost var f4 := files.nodes;
    BegunOn(t, map[], f3, f4);
    BegunTree(t, f4);
    GitSame(t, f1, f2, f3);
    if outcome != Done {
      return;
    }
    cut := WriteMarker(files, x.mark, power);
    BegunOn(t, map[], f4, files.nodes);
    outcome := if cut then Cut else Done;
  }

  /** Nothing before it has touched what Git's exclude file depends on. */
  lemma GitSame(t: Tree, f1: Tree, f2: Tree, f3: Tree)
    requires SameAt(t, f1, HIDDEN_NAMES) && SameBut(f1, f2, SKILL_NAMES) && SameBut(f2, f3, {".gitignore"})
    ensures GitInTheWay(f3) <==> GitInTheWay(t)
    ensures GIT in f1 <==> GIT in t
    ensures GIT in t ==> f1[GIT] == t[GIT] && GIT in f2 && f2[GIT] == t[GIT]
    ensures MARKER_FILE in f3 <==> MARKER_FILE in t
    ensures MARKER_FILE in t ==> f3[MARKER_FILE] == t[MARKER_FILE]
  {
    assert forall d :: d in {GIT, INFO, GIT_EXCLUDE, MARKER_FILE} ==>
      (d in f1 <==> d in t) && (d in t ==> f1[d] == t[d]);
    assert forall d :: d in {GIT, INFO, GIT_EXCLUDE, MARKER_FILE} ==>
      (d in f2 <==> d in f1) && (d in f1 ==> f2[d] == f1[d]);
    assert forall d :: d in {GIT, INFO, GIT_EXCLUDE, MARKER_FILE} ==>
      (d in f3 <==> d in f2) && (d in f2 ==> f3[d] == f2[d]);
  }

  // ---- what a finished `init` has changed ----

  /** `CLAUDE.md` becomes a link; what was there is set aside. */
  predicate MovesAside(t: Tree) {
    !Aliased(t) && !Alone(t) && !(CLAUDE in t && t[CLAUDE] == Link("AGENTS.md"))
  }

  ghost predicate InstructionsChange(t: Tree, content: Bytes, p: Path) {
    || (p == AGENTS && AGENTS !in t)
    || (MovesAside(t)
        && (|| p == CLAUDE
            || (Under(CLAUDE, p) && LeafOf(t, p).Some?)
            || (Under(Preserved(FirstFree(WithAgents(t, content), 1)), p) && LeafOf(t, CLAUDE + p[1..]).Some?)))
  }

  predicate SkillsChange(t: Tree, p: Path) {
    LinksSkills(t) && (p == SKILLS || (Under(SKILLS, p) && LeafOf(t, p).Some?))
  }

  predicate IgnoreChanges(t: Tree) {
    GIT !in t && IGNORE !in t
  }

  predicate ExcludeChanges(t: Tree) {
    GIT in t && t[GIT] == Dir && LeafOf(t, GIT_EXCLUDE) != Some(File(Extended(Unlisted(ExcludeText(t)))))
  }

  /** What stands at `p` is another leaf afterwards, or one where there was none, or
      none any more. */
  ghost predicate Rewritten(t: Tree, x: Texts, p: Path) {
    || InstructionsChange(t, x.content, p)
    || SkillsChange(t, p)
    || (p == IGNORE && IgnoreChanges(t))
    || (p == GIT_EXCLUDE && ExcludeChanges(t))
    || (p == MARKER_FILE && LeafOf(t, p) != Some(File(x.mark)))
  }

  lemma AsideAt(t: Tree, n: nat, p: Path)
    requires WellFormed(t) && CLAUDE in t && Preserved(n) !in t
    ensures var f := MovedTo(t, CLAUDE, Preserved(n))[CLAUDE := Link("AGENTS.md")];
            && (p == CLAUDE ==> LeafOf(f, p) == Some(Link("AGENTS.md")))
            && (Under(CLAUDE, p) && p != CLAUDE ==> LeafOf(f, p) == None)
            && (Under(Preserved(n), p) ==> LeafOf(f, p) == LeafOf(t, CLAUDE + p[1..]) && LeafOf(t, p) == None)
            && (!Under(CLAUDE, p) && !Under(Preserved(n), p) ==> LeafOf(f, p) == LeafOf(t, p))
  {
    PreservedApart(n, n);
    CarriedAt(t, CLAUDE, Preserved(n), p);
    if Under(Preserved(n), p) {
      if p in t {
        NothingUnder(t, Preserved(n), p);
      }
      assert !Under(CLAUDE, p) by {
        assert p[..1] == Preserved(n);
      }
    }
    hide Carried, Preserved, WellFormed;
  }

  lemma InstructedAt(t: Tree, content: Bytes, p: Path)
    requires WellFormed(t) && !Clash(t)
    ensures LeafOf(Instructed(t, content), p) != LeafOf(t, p) <==> InstructionsChange(t, content, p)
  {
    hide Preserved, MovedTo;
    if MovesAside(t) {
      var a := WithAgents(t, content);
      assert WellFormed(a) by {
        TopLeaf(t, AGENTS, File(content));
        if AGENTS !in t {
          GrownTree(t, AGENTS, File(content));
        }
      }
      var n := FirstFree(a, 1);
      PreservedApart(n, n);
      if p != [] {
        assert (CLAUDE + p[1..])[0] == "CLAUDE.md" && Under(CLAUDE, CLAUDE + p[1..]);
      }
      if CLAUDE in t {
        AsideAt(a, n, p);
      } else {
        forall q | q in t ensures !Under(CLAUDE, q) {
          NothingUnder(t, CLAUDE, q);
        }
      }
      hide WellFormed;
    }
  }

  lemma SkilledAt(t: Tree, p: Path)
    requires WellFormed(t)
    ensures LeafOf(Skilled(t), p) != LeafOf(t, p) <==> SkillsChange(t, p)
    ensures LeafOf(Skilled(t), p) == if !LinksSkills(t) || !Under(SKILLS, p) then LeafOf(t, p)
                                     else if p == SKILLS then Some(Link("../.agents/skills")) else None
    ensures LinksSkills(t) ==> CANONICAL in Skilled(t) && Skilled(t)[CANONICAL] == Dir
    ensures SameBut(t, Skilled(t), SKILL_NAMES)
  {
    if LinksSkills(t) {
      SkillsPut(t);
      NoLeafAtDirs(t);
      assert SkillPlace(CANONICAL) && CANONICAL != SKILLS;
      hide WellFormed, Skilled, LinksSkills, SkillPlace, Under, SKILLS, SKILL_NAMES;
      PutAt(t, Skilled(t), p);
      PutElsewhere(t, Skilled(t));
    }
  }

  lemma PutAt(t: Tree, f: Tree, p: Path)
    requires forall q :: q in f <==> (q in t && !Under(SKILLS, q)) || SkillPlace(q) || q == SKILLS
    requires forall q :: q in f ==>
               f[q] == if q == SKILLS then Link("../.agents/skills") else if SkillPlace(q) then Dir else t[q]
    requires LeafOf(t, SKILLS) == None && forall q :: SkillPlace(q) ==> LeafOf(t, q) == None && !Under(SKILLS, q)
    ensures LeafOf(f, p) != LeafOf(t, p) <==> p == SKILLS || (Under(SKILLS, p) && LeafOf(t, p).Some?)
    ensures Under(SKILLS, SKILLS) ==>
              LeafOf(f, p) == if p == SKILLS then Some(Link("../.agents/skills"))
                              else if Under(SKILLS, p) then None else LeafOf(t, p)
  {
    hide SkillPlace, Under, SKILLS;
  }

  lemma PutElsewhere(t: Tree, f: Tree)
    requires forall q :: q in f <==> (q in t && !Under(SKILLS, q)) || SkillPlace(q) || q == SKILLS
    requires forall q :: q in f ==>
               f[q] == if q == SKILLS then Link("../.agents/skills") else if SkillPlace(q) then Dir else t[q]
    requires Under(SKILLS, SKILLS) && forall q :: SkillPlace(q) || Under(SKILLS, q) ==> q == [] || q[0] in SKILL_NAMES
    ensures SameBut(t, f, SKILL_NAMES)
  {
    hide SkillPlace, Under, SKILLS, SKILL_NAMES;
  }

  /** A link with two directories below the top beside one that is above it. */
  lemma PutShape(t: Tree, top: Path, a: Path, b: Path, c: Path, link: Path, node: Node, up: Tree, down: Tree)
    requires up == map[top := Dir, a := Dir, b := Dir] && down == map[top := Dir, c := Dir]
    requires link != top && link != a && link != b && link != c
    ensures var f := Without(t, link) + up + down + map[link := node];
            && (forall q :: q in f <==>
                  (q in t && !Under(link, q)) || q == top || q == a || q == b || q == c || q == link)
            && (forall q :: q in f ==>
                  f[q] == if q == link then node else if q == top || q == a || q == b || q == c then Dir else t[q])
  {}

  predicate SkillPlace(q: Path) {
    q == [] || q == COMMON || q == CANONICAL || q == OWN
  }

  /** The tree with the link, path by path. */
  lemma SkillsPut(t: Tree)
    requires WellFormed(t) && LinksSkills(t)
    ensures forall q :: q in Skilled(t) <==> (q in t && !Under(SKILLS, q)) || SkillPlace(q) || q == SKILLS
    ensures forall q :: q in Skilled(t) ==>
              Skilled(t)[q] == if q == SKILLS then Link("../.agents/skills") else if SkillPlace(q) then Dir else t[q]
  {
    SkillPaths(t);
    PutShape(t, [], COMMON, CANONICAL, OWN, SKILLS, Link("../.agents/skills"), Spine(CANONICAL), Above(SKILLS));
    hide WellFormed, Spine, Above, Reachable, Without, Under, OnlySkillLinks, SkillDirs;
  }

  lemma NoLeafAtDirs(t: Tree)
    requires WellFormed(t) && LinksSkills(t)
    ensures forall q :: SkillPlace(q) ==> LeafOf(t, q) == None && !Under(SKILLS, q) && (q == [] || q[0] in SKILL_NAMES)
    ensures LeafOf(t, SKILLS) == None && Under(SKILLS, SKILLS)
    ensures forall q :: Under(SKILLS, q) ==> q != [] && q[0] in SKILL_NAMES
  {
    assert SKILLS[..2] == SKILLS && CANONICAL[..2] == CANONICAL;
    forall q | Under(SKILLS, q) ensures q[0] in SKILL_NAMES {
      assert q[0] == q[..2][0];
    }
  }

  lemma OthersAt(t: Tree, x: Texts, p: Path)
    requires WellFormed(t) && !GitInTheWay(t)
    ensures LeafOf(Ignored(t, x.ignore), p) != LeafOf(t, p) <==> p == IGNORE && IgnoreChanges(t)
    ensures LeafOf(Shielded(t), p) != LeafOf(t, p) <==> p == GIT_EXCLUDE && ExcludeChanges(t)
    ensures LeafOf(Ignored(t, x.ignore), p) == if p == IGNORE && IgnoreChanges(t) then Some(File(x.ignore))
                                               else LeafOf(t, p)
    ensures LeafOf(Shielded(t), p) == if p == GIT_EXCLUDE && GIT in t && t[GIT] == Dir
                                      then Some(File(Extended(Unlisted(ExcludeText(t))))) else LeafOf(t, p)
    ensures SameBut(t, Ignored(t, x.ignore), {".gitignore"}) && SameBut(t, Shielded(t), {".git"})
  {
    IgnoredElsewhere(t, x.ignore);
    ShieldedAt(t, p);
    hide SameBut, Shielded, GitInTheWay, ExcludeChanges;
  }

  lemma ShieldedAt(t: Tree, p: Path)
    requires WellFormed(t) && !GitInTheWay(t)
    ensures LeafOf(Shielded(t), p) != LeafOf(t, p) <==> p == GIT_EXCLUDE && ExcludeChanges(t)
    ensures LeafOf(Shielded(t), p) == if p == GIT_EXCLUDE && GIT in t && t[GIT] == Dir
                                      then Some(File(Extended(Unlisted(ExcludeText(t))))) else LeafOf(t, p)
    ensures SameBut(t, Shielded(t), {".git"})
  {
    ExcludePaths(t);
    hide WellFormed, Extended, Unlisted, ExcludeText, Above, Reachable, SameBut;
    if GIT in t && t[GIT] == Dir {
      ExcludeSpine(t);
      LeafOver(t, Above(GIT_EXCLUDE), GIT_EXCLUDE, File(Extended(Unlisted(ExcludeText(t)))), p);
    }
    ShieldedElsewhere(t);
  }

  lemma ShieldedElsewhere(t: Tree)
    requires WellFormed(t)
    ensures SameBut(t, Shielded(t), {".git"})
  {
    ExcludePaths(t);
    hide Extended, Unlisted, ExcludeText, Above, WellFormed;
  }

  lemma ExcludeSpine(t: Tree)
    requires WellFormed(t) && !GitInTheWay(t) && GIT in t && t[GIT] == Dir
    ensures GIT_EXCLUDE !in Above(GIT_EXCLUDE)
    ensures forall q :: q in Above(GIT_EXCLUDE) ==> Above(GIT_EXCLUDE)[q] == Dir && (q in t ==> t[q] == Dir)
  {
    ExcludePaths(t);
    assert t[[]] == Dir;
  }

  /** A leaf with directories that may be there already. */
  lemma LeafOver(t: Tree, above: Tree, at: Path, node: Node, p: Path)
    requires at !in above && node != Dir
    requires forall q :: q in above ==> above[q] == Dir && (q in t ==> t[q] == Dir)
    ensures LeafOf(t + above + map[at := node], p) == if p == at then Some(node) else LeafOf(t, p)
  {}

  lemma SetElsewhere(t: Tree, p: Path, node: Node)
    requires |p| == 1 && p[0] !in HIDDEN_NAMES
    ensures SameAt(t, t[p := node], HIDDEN_NAMES)
  {}

  lemma SameAtOn(a: Tree, b: Tree, c: Tree)
    requires SameAt(a, b, HIDDEN_NAMES) && SameAt(b, c, HIDDEN_NAMES)
    ensures SameAt(a, c, HIDDEN_NAMES)
  {}

  lemma InstructedElsewhere(t: Tree, content: Bytes)
    ensures SameAt(t, Instructed(t, content), HIDDEN_NAMES)
  {
    var a := WithAgents(t, content);
    SetElsewhere(t, AGENTS, File(content));
    SetElsewhere(t, AGENTS, Link("CLAUDE.md"));
    assert SameAt(t, t, HIDDEN_NAMES) && SameAt(t, a, HIDDEN_NAMES);
    AliasElsewhere(a);
    hide SameAt, WithAlias;
    SameAtOn(t, a, WithAlias(a));
  }

  lemma AliasElsewhere(a: Tree)
    ensures SameAt(a, WithAlias(a), HIDDEN_NAMES)
  {
    var n := FirstFree(a, 1);
    var f := MovedTo(a, CLAUDE, Preserved(n));
    AsideElsewhere(a, n);
    SetElsewhere(a, CLAUDE, Link("AGENTS.md"));
    SetElsewhere(f, CLAUDE, Link("AGENTS.md"));
    assert SameAt(a, a, HIDDEN_NAMES);
    hide SameAt, MovedTo, Preserved;
    SameAtOn(a, f, f[CLAUDE := Link("AGENTS.md")]);
  }

  lemma InstructedTree(t: Tree, content: Bytes)
    requires WellFormed(t) && !Clash(t)
    ensures WellFormed(Instructed(t, content))
  {
    var a := WithAgents(t, content);
    TopLeaf(t, AGENTS, File(content));
    TopLeaf(t, AGENTS, Link("CLAUDE.md"));
    Touched();
    hide Touchable, MovedTo, Grown, Preserved;
    if AGENTS !in t {
      NewLeaf(t, AGENTS, File(content));
      NewLeaf(t, AGENTS, Link("CLAUDE.md"));
    }
    hide WellFormed;
    if MovesAside(t) {
      AliasTree(a);
    }
  }

  lemma AliasTree(a: Tree)
    requires WellFormed(a)
    ensures WellFormed(WithAlias(a))
  {
    var f := a;
    Touched();
    hide MovedTo, Grown, Preserved, Touchable;
    if CLAUDE in a {
      SetAside(a, FirstFree(a, 1));
      AsideGone(a, FirstFree(a, 1));
      f := MovedTo(a, CLAUDE, Preserved(FirstFree(a, 1)));
    }
    TopLeaf(f, CLAUDE, Link("AGENTS.md"));
    if CLAUDE !in f {
      NewLeaf(f, CLAUDE, Link("AGENTS.md"));
    }
  }

  lemma SkilledTree(t: Tree)
    requires WellFormed(t)
    ensures WellFormed(Skilled(t))
  {
    if LinksSkills(t) {
      var f := Without(t, SKILLS);
      if SKILLS in t {
        SkillsGone(t);
      } else {
        WithoutNone(t);
      }
      assert SKILLS !in f by { assert Under(SKILLS, SKILLS); }
      SkillSteps(f);
    }
  }

  /** The same before and after the instructions are in place. */
  lemma SkillsIndependent(t: Tree, f: Tree, p: Path)
    requires WellFormed(t) && WellFormed(f) && SameAt(t, f, HIDDEN_NAMES)
    ensures p != [] && p[0] in SKILL_NAMES ==> (SkillsChange(f, p) <==> SkillsChange(t, p))
    ensures !(p != [] && p[0] in SKILL_NAMES) ==> !SkillsChange(t, p) && !SkillsChange(f, p)
  {
    assert forall d :: d in {GIT, COMMON, CANONICAL, OWN, SKILLS} ==> (d in f <==> d in t) && (d in t ==> f[d] == t[d]);
    forall q | Under(SKILLS, q) ensures q != [] && q[0] in HIDDEN_NAMES {}
    assert OnlySkillLinks(f) <==> OnlySkillLinks(t);
    hide WellFormed;
  }

  /** MAIN RESULT: a finished `init` has changed exactly these leaves. */
  lemma InitialisedAt(t: Tree, x: Texts, owners: set<Bytes>, p: Path)
    requires WellFormed(t) && !Refuses(t, owners)
    ensures LeafOf(Initialised(t, x), p) != LeafOf(t, p) <==> Rewritten(t, x, p)
  {
    var f1 := Instructed(t, x.content);
    var f2 := Skilled(f1);
    var f3 := Ignored(f2, x.ignore);
    StagesFit(t, x, owners);
    InstructedAt(t, x.content, p);
    SkilledAt(f1, p);
    SkillsIndependent(t, f1, p);
    OthersAt(f2, x, p);
    OthersAt(f3, x, p);
    LaterIndependent(t, f1, f2, f3);
    OnePlace(t, x.content, p);
    hide WellFormed, Instructed, Skilled, Ignored, Shielded, InstructionsChange, SkillsChange, IgnoreChanges,
         ExcludeChanges;
    hide Refuses, GitInTheWay, Clash, SameAt, SameBut;
  }

  // ---- what stands at each path afterwards ----

  /** `n` is the first number whose preserved name is free. */
  ghost predicate FreeAt(t: Tree, n: nat) {
    AllTaken(t, n) && Preserved(n) !in t
  }

  /** The leaf at `p` once the instructions are one file with a link. */
  function InstructionLeaf(t: Tree, content: Bytes, n: nat, p: Path): Option<Node> {
    if p == AGENTS && AGENTS !in t
    then Some(if CLAUDE in t && t[CLAUDE].File? then Link("CLAUDE.md") else File(content))
    else if CLAUDE in t
            && (|| t[CLAUDE] == Link("AGENTS.md")
                || (t[CLAUDE].File? && (AGENTS !in t || t[AGENTS] == Link("CLAUDE.md")))) then LeafOf(t, p)
    else if p == CLAUDE then Some(Link("AGENTS.md"))
    else if Under(CLAUDE, p) then None
    else if Under(Preserved(n), p) then LeafOf(t, CLAUDE + p[1..])
    else LeafOf(t, p)
  }

  /** The link to the skills can be made: outside a repository, and whatever is in its
      place or on the way to it is a directory, with nothing in it but links to the
      common skills of the same names. */
  ghost predicate SkillsToLink(t: Tree) {
    && [".git"] !in t
    && (forall p :: p in [[".agents"], [".agents", "skills"], [".claude"], SKILLS] && p in t ==> t[p] == Dir)
    && forall c: string :: SKILLS + [c] in t ==> t[SKILLS + [c]] == Link("../../.agents/skills/" + c)
  }

  lemma SkillsToLinkIs(t: Tree)
    requires WellFormed(t)
    ensures LinksSkills(t) <==> SkillsToLink(t)
  {
    var places := [[".agents"], [".agents", "skills"], [".claude"], SKILLS];
    assert places[0] == COMMON && places[1] == CANONICAL && places[2] == OWN && places[3] == SKILLS;
    if SkillsToLink(t) {
      assert forall d :: d in places && d in t ==> t[d] == Dir;
      if SKILLS in t {
        forall p | p in t && Under(SKILLS, p) && p != SKILLS ensures SkillLink(p, t[p]) {
          var q := p[..3];
          assert q == SKILLS + [p[2]];
          assert |p| == 3 ==> q == p;
          assert q in t;
        }
      }
    }
    if LinksSkills(t) {
      forall c: string | SKILLS + [c] in t ensures t[SKILLS + [c]] == Link("../../.agents/skills/" + c) {
        var p := SKILLS + [c];
        assert p[..2] == SKILLS && SKILLS in t && Under(SKILLS, p);
        assert SkillLink(p, t[p]);
      }
    }
  }

  /** What `init` goes through with. */
  lemma AcceptsWhen(t: Tree, owners: set<Bytes>)
    ensures !Refuses(t, owners)
            <==> && (MARKER_FILE in t ==> exists mark :: mark in owners && t[MARKER_FILE] == File(mark))
                 && (AGENTS in t ==>
                       if t[AGENTS].Link? then t[AGENTS].target == "CLAUDE.md" && CLAUDE in t && t[CLAUDE].File?
                       else CLAUDE in t ==> t[CLAUDE].Link? || (t[CLAUDE] == t[AGENTS] && t[AGENTS].File?))
                 && (GIT in t ==>
                       && !t[GIT].Link?
                       && (t[GIT] == Dir && INFO in t ==> t[INFO] == Dir)
                       && (t[GIT] == Dir && GIT_EXCLUDE in t ==> t[GIT_EXCLUDE].File? || t[GIT_EXCLUDE].Special?))
  {}

  /** The leaf at `p` after `init`. */
  ghost function LeafAfter(t: Tree, x: Texts, n: nat, p: Path): Option<Node> {
    if p == MARKER_FILE then Some(File(x.mark))
    else if p == GIT_EXCLUDE && GIT in t && t[GIT] == Dir then Some(File(Extended(Unlisted(ExcludeText(t)))))
    else if p == IGNORE && GIT !in t && IGNORE !in t then Some(File(x.ignore))
    else if SkillsToLink(t) && Under(SKILLS, p) then if p == SKILLS then Some(Link("../.agents/skills")) else None
    else InstructionLeaf(t, x.content, n, p)
  }

  lemma FreeWithAgents(t: Tree, content: Bytes, n: nat)
    requires FreeAt(t, n)
    ensures FirstFree(WithAgents(t, content), 1) == n
  {
    var a := WithAgents(t, content);
    forall k: nat ensures Preserved(k) in a <==> Preserved(k) in t {
      PreservedApart(k, k);
    }
    hide Preserved;
    FreeOnce(a, FirstFree(a, 1), n);
  }

  lemma InstructedLeaf(t: Tree, content: Bytes, n: nat, p: Path)
    requires WellFormed(t) && !Clash(t) && FreeAt(t, n)
    ensures LeafOf(Instructed(t, content), p) == InstructionLeaf(t, content, n, p)
  {
    PreservedApart(n, n);
    FreeWithAgents(t, content, n);
    var a := WithAgents(t, content);
    assert !Under(CLAUDE, AGENTS) && !Under(Preserved(n), AGENTS) by {
      assert AGENTS[..1] == AGENTS;
    }
    if MovesAside(t) {
      assert WellFormed(a) by {
        TopLeaf(t, AGENTS, File(content));
        if AGENTS !in t {
          GrownTree(t, AGENTS, File(content));
        }
      }
      if p != [] {
        assert (CLAUDE + p[1..])[0] == "CLAUDE.md";
      }
      if CLAUDE in t {
        hide Preserved, MovedTo, FreeAt, FirstFree;
        AsideAt(a, n, p);
      } else {
        forall q | q in t ensures !Under(CLAUDE, q) && !Under(Preserved(n), q) {
          NothingUnder(t, CLAUDE, q);
          NothingUnder(t, Preserved(n), q);
        }
        if Under(Preserved(n), p) {
          assert Under(CLAUDE, CLAUDE + p[1..]);
        }
      }
      hide WellFormed;
    }
  }

  /** MAIN RESULT: what stands at every path after a finished `init`: the new
      `AGENTS.md` has the content given, or is a link to the `CLAUDE.md` that was there
      alone; what was at `CLAUDE.md` is at the first free name; the others as said. */
  lemma InitialisedLeaf(t: Tree, x: Texts, owners: set<Bytes>, n: nat, p: Path)
    requires WellFormed(t) && !Refuses(t, owners) && FreeAt(t, n)
    ensures LeafOf(Initialised(t, x), p) == LeafAfter(t, x, n, p)
    ensures SkillsToLink(t) ==> CANONICAL in Initialised(t, x) && Initialised(t, x)[CANONICAL] == Dir
  {
    SkillsToLinkIs(t);
    hide SkillsToLink;
    var f1 := Instructed(t, x.content);
    var f2 := Skilled(f1);
    var f3 := Ignored(f2, x.ignore);
    StagesFit(t, x, owners);
    InstructedLeaf(t, x.content, n, p);
    SkilledAt(f1, p);
    SameHidden(t, f1, f2, f3);
    SkillsSame(t, f1);
    OthersAt(f2, x, p);
    OthersAt(f3, x, p);
    hide WellFormed, Instructed, Skilled, Ignored, Shielded, InstructionLeaf, LinksSkills, SkillsChange,
         IgnoreChanges, ExcludeChanges, ExcludeText;
    hide Refuses, GitInTheWay, Clash, FreeAt, Extended, Unlisted;
    if LinksSkills(t) {
      CanonicalKept(t, x, f2, f3);
    }
  }

  /** A new, empty workspace. */
  lemma FreshWorkspace(x: Texts, owners: set<Bytes>, p: Path)
    ensures var t: Tree := map[[] := Dir];
            && !Refuses(t, owners)
            && LeafOf(Initialised(t, x), p)
               == if p == ["AGENTS.md"] then Some(File(x.content))
                  else if p == ["CLAUDE.md"] then Some(Link("AGENTS.md"))
                  else if p == [".gitignore"] then Some(File(x.ignore))
                  else if p == [".claude", "skills"] then Some(Link("../.agents/skills"))
                  else if p == [".coreman-workspace.json"] then Some(File(x.mark))
                  else None
  {
    var t: Tree := map[[] := Dir];
    PreservedApart(1, 1);
    assert FreeAt(t, 1);
    hide Preserved, FreeAt, Initialised, AllTaken;
    InitialisedLeaf(t, x, owners, 1, p);
    assert SkillsToLink(t);
    assert Under(SKILLS, SKILLS);
  }

  lemma CanonicalKept(t: Tree, x: Texts, f2: Tree, f3: Tree)
    requires SameBut(f2, f3, {".gitignore"}) && SameBut(f3, Shielded(f3), {".git"})
    requires f2 == Skilled(Instructed(t, x.content)) && f3 == Ignored(f2, x.ignore)
    requires CANONICAL in f2 && f2[CANONICAL] == Dir
    ensures CANONICAL in Initialised(t, x) && Initialised(t, x)[CANONICAL] == Dir
  {
    hide Shielded, Skilled, Ignored, Instructed;
  }

  lemma SameHidden(t: Tree, f1: Tree, f2: Tree, f3: Tree)
    requires SameAt(t, f1, HIDDEN_NAMES) && SameBut(f1, f2, SKILL_NAMES) && SameBut(f2, f3, {".gitignore"})
    ensures IgnoreChanges(f2) <==> IgnoreChanges(t)
    ensures GIT in f3 <==> GIT in t
    ensures GIT in t ==> f3[GIT] == t[GIT]
    ensures ExcludeText(f3) == ExcludeText(t)
    ensures GIT in f1 <==> GIT in t
    ensures SameAt(t, f1, SKILL_NAMES)
  {
    assert forall d :: d in {GIT, GIT_EXCLUDE, IGNORE} ==> (d in f1 <==> d in t) && (d in t ==> f1[d] == t[d]);
    assert forall d :: d in {GIT, GIT_EXCLUDE, IGNORE} ==> (d in f2 <==> d in f1) && (d in f1 ==> f2[d] == f1[d]);
    assert forall d :: d in {GIT, GIT_EXCLUDE} ==> (d in f3 <==> d in f2) && (d in f2 ==> f3[d] == f2[d]);
  }

  lemma StagesFit(t: Tree, x: Texts, owners: set<Bytes>)
    requires WellFormed(t) && !Refuses(t, owners)
    ensures var f1 := Instructed(t, x.content);
            var f2 := Skilled(f1);
            var f3 := Ignored(f2, x.ignore);
            && WellFormed(f1) && WellFormed(f2) && WellFormed(f3)
            && SameAt(t, f1, HIDDEN_NAMES) && SameBut(f1, f2, SKILL_NAMES) && SameBut(f2, f3, {".gitignore"})
            && !GitInTheWay(f2) && !GitInTheWay(f3)
  {
    hide WellFormed, Instructed, Skilled, Ignored, Clash, GitInTheWay;
    var f1 := Instructed(t, x.content);
    var f2 := Skilled(f1);
    InstructedTree(t, x.content);
    InstructedElsewhere(t, x.content);
    SkilledTree(f1);
    SkilledAt(f1, []);
    IgnoredTree(f2, x.ignore);
    IgnoredElsewhere(f2, x.ignore);
    GitSame(t, f1, f2, Ignored(f2, x.ignore));
    GitSame(t, f1, f2, f2);
  }

  lemma IgnoredElsewhere(t: Tree, text: Bytes)
    ensures SameBut(t, Ignored(t, text), {".gitignore"}) && SameBut(t, t, {".gitignore"})
  {}

  lemma LaterIndependent(t: Tree, f1: Tree, f2: Tree, f3: Tree)
    requires SameAt(t, f1, HIDDEN_NAMES) && SameBut(f1, f2, SKILL_NAMES) && SameBut(f2, f3, {".gitignore"})
    ensures IgnoreChanges(f2) <==> IgnoreChanges(t)
    ensures ExcludeChanges(f3) <==> ExcludeChanges(t)
  {
    assert forall d :: d in {GIT, GIT_EXCLUDE, IGNORE} ==> (d in f1 <==> d in t) && (d in t ==> f1[d] == t[d]);
    assert forall d :: d in {GIT, GIT_EXCLUDE, IGNORE} ==> (d in f2 <==> d in f1) && (d in f1 ==> f2[d] == f1[d]);
    assert forall d :: d in {GIT, GIT_EXCLUDE} ==> (d in f3 <==> d in f2) && (d in f2 ==> f3[d] == f2[d]);
    hide Extended, Unlisted;
  }

  /** No two parts of `init` write to the same place. */
  lemma OnePlace(t: Tree, content: Bytes, p: Path)
    ensures InstructionsChange(t, content, p) ==> p !in {IGNORE, GIT_EXCLUDE, MARKER_FILE} && !SkillsChange(t, p)
    ensures SkillsChange(t, p) ==> p !in {IGNORE, GIT_EXCLUDE, MARKER_FILE}
  {
    if InstructionsChange(t, content, p) {
      assert p[0][0] == 'A' || p[0][0] == 'C';
    }
    if Under(SKILLS, p) {
      assert p[0] == p[..2][0];
    }
  }

  lemma IgnoredTree(t: Tree, text: Bytes)
    requires WellFormed(t)
    ensures WellFormed(Ignored(t, text))
  {
    TopLeaf(t, IGNORE, File(text));
    if IGNORE !in t {
      GrownTree(t, IGNORE, File(text));
    }
  }

  /** Away from the hidden names, the instructions decide. */
  lemma LaterSame(t: Tree, x: Texts, owners: set<Bytes>, p: Path)
    requires WellFormed(t) && !Refuses(t, owners) && p != [] && p[0] !in HIDDEN_NAMES
    ensures LeafOf(Initialised(t, x), p) == LeafOf(Instructed(t, x.content), p)
  {
    StagesFit(t, x, owners);
    OthersAt(Skilled(Instructed(t, x.content)), x, p);
    OthersAt(Ignored(Skilled(Instructed(t, x.content)), x.ignore), x, p);
    hide WellFormed, Instructed, Skilled, Ignored, Shielded, IgnoreChanges, ExcludeChanges, GitInTheWay, Refuses;
  }

  /** Two equal files of instructions: the second makes room for a link. */
  lemma SecondSetAside(t: Tree, x: Texts, owners: set<Bytes>)
    requires WellFormed(t) && !Refuses(t, owners)
    requires AGENTS in t && CLAUDE in t && t[AGENTS].File? && t[CLAUDE] == t[AGENTS]
    ensures var n := FirstFree(t, 1);
            && LeafOf(Initialised(t, x), CLAUDE) == Some(Link("AGENTS.md"))
            && LeafOf(Initialised(t, x), Preserved(n)) == Some(t[CLAUDE])
  {
    var n := FirstFree(t, 1);
    PreservedName(n);
    hide *;
    LaterSame(t, x, owners, CLAUDE);
    LaterSame(t, x, owners, Preserved(n));
    SecondInstructed(t, x.content, owners);
  }

  lemma PreservedName(n: nat)
    ensures CLAUDE != [] && Preserved(n) != [] && Preserved(n)[0] !in HIDDEN_NAMES && CLAUDE[0] !in HIDDEN_NAMES
    ensures Under(Preserved(n), Preserved(n)) && CLAUDE + Preserved(n)[1..] == CLAUDE && Under(CLAUDE, CLAUDE)
  {
    assert Preserved(n)[0][0] == 'C';
  }

  lemma SecondInstructed(t: Tree, content: Bytes, owners: set<Bytes>)
    requires WellFormed(t) && !Refuses(t, owners)
    requires AGENTS in t && CLAUDE in t && t[AGENTS].File? && t[CLAUDE] == t[AGENTS]
    ensures var n := FirstFree(t, 1);
            && LeafOf(Instructed(t, content), CLAUDE) == Some(Link("AGENTS.md"))
            && LeafOf(Instructed(t, content), Preserved(n)) == Some(t[CLAUDE])
  {
    var n := FirstFree(t, 1);
    PreservedName(n);
    hide WellFormed, Refuses, MovedTo, Preserved, Under;
    AsideAt(t, n, CLAUDE);
    AsideAt(t, n, Preserved(n));
  }

  // ---- a second `init` ----

  /** At the names that only the instructions touch, entry by entry. */
  lemma LaterNodes(t: Tree, x: Texts, owners: set<Bytes>, p: Path)
    requires WellFormed(t) && !Refuses(t, owners) && p != [] && p[0] !in HIDDEN_NAMES
    ensures var f, f1 := Initialised(t, x), Instructed(t, x.content);
            (p in f <==> p in f1) && (p in f ==> f[p] == f1[p])
  {
    StagesFit(t, x, owners);
    OthersAt(Ignored(Skilled(Instructed(t, x.content)), x.ignore), x, p);
    hide WellFormed, Instructed, Skilled, Ignored, Shielded, GitInTheWay, Refuses;
  }

  lemma InstructedTwice(t: Tree, content: Bytes)
    requires !Clash(t)
    ensures var f := Instructed(t, content);
            AGENTS in f && (Aliased(f) || (!f[AGENTS].Link? && CLAUDE in f && f[CLAUDE] == Link("AGENTS.md")))
  {
    var a := WithAgents(t, content);
    var n := FirstFree(a, 1);
    PreservedApart(n, n);
    CarriedAt(a, CLAUDE, Preserved(n), AGENTS);
    hide Carried, Preserved;
    assert !Under(CLAUDE, AGENTS) && !Under(Preserved(n), AGENTS) by {
      assert AGENTS[..1] == AGENTS;
    }
  }

  lemma SkilledTwice(t: Tree)
    ensures !LinksSkills(Skilled(t))
  {
    hide Spine, Above, Without, SkillDirs;
  }

  lemma SkillsSame(a: Tree, b: Tree)
    requires GIT in a <==> GIT in b
    requires SameAt(a, b, SKILL_NAMES)
    ensures LinksSkills(a) <==> LinksSkills(b)
  {
    forall q | Under(SKILLS, q) ensures q != [] && q[0] in SKILL_NAMES {
      assert q[0] == q[..2][0];
    }
  }

  lemma ShieldedTwice(t: Tree)
    requires WellFormed(t) && !GitInTheWay(t)
    ensures var f := Shielded(t);
            && WellFormed(f) && !GitInTheWay(f) && !ExcludeChanges(f) && (GIT in f <==> GIT in t)
  {
    ExcludePaths(t);
    ExcludeAgain(ExcludeText(t));
    hide Extended, Unlisted, Above, Reachable, WellFormed;
    if GIT in t && t[GIT] == Dir {
      AddExclude(t, Extended(Unlisted(ExcludeText(t))));
      BegunTree(t, Shielded(t));
      AboveThere(t);
    }
  }

  lemma AboveThere(t: Tree)
    requires WellFormed(t) && GIT in t && t[GIT] == Dir
    ensures var f := t + Above(GIT_EXCLUDE); GIT in f && f[GIT] == Dir && INFO in f && f[INFO] == Dir
  {
    ExcludePaths(t);
  }

  lemma MarkedTree(t: Tree, mark: Bytes)
    requires WellFormed(t) && (MARKER_FILE in t ==> t[MARKER_FILE].File?)
    ensures WellFormed(t[MARKER_FILE := File(mark)])
  {
    TopLeaf(t, MARKER_FILE, File(mark));
    if MARKER_FILE !in t {
      GrownTree(t, MARKER_FILE, File(mark));
    }
  }

  lemma MarkedTwice(f: Tree, x: Texts)
    requires WellFormed(f) && !LinksSkills(f) && !IgnoreChanges(f) && !ExcludeChanges(f) && !GitInTheWay(f)
    requires MARKER_FILE in f ==> f[MARKER_FILE].File?
    ensures var g := f[MARKER_FILE := File(x.mark)];
            && WellFormed(g) && !LinksSkills(g) && !IgnoreChanges(g) && !ExcludeChanges(g) && !GitInTheWay(g)
            && LeafOf(g, MARKER_FILE) == Some(File(x.mark))
  {
    MarkedTree(f, x.mark);
    hide WellFormed, LinksSkills;
    SkillsSame(f, f[MARKER_FILE := File(x.mark)]);
  }

  lemma HiddenTwice(t: Tree, x: Texts, owners: set<Bytes>)
    requires WellFormed(t) && !Refuses(t, owners)
    ensures var f := Initialised(t, x);
            && WellFormed(f) && !LinksSkills(f) && !IgnoreChanges(f) && !ExcludeChanges(f) && !GitInTheWay(f)
            && LeafOf(f, MARKER_FILE) == Some(File(x.mark))
  {
    var f1 := Instructed(t, x.content);
    var f2 := Skilled(f1);
    var f3 := Ignored(f2, x.ignore);
    StagesFit(t, x, owners);
    SkilledTwice(f1);
    OthersAt(f3, x, []);
    ShieldedTwice(f3);
    SkillsSame(f2, Shielded(f3));
    GitSame(t, f1, f2, f3);
    assert IGNORE in f3 || GIT in f3;
    hide WellFormed, Instructed, Skilled, Ignored, Shielded, LinksSkills;
    MarkedTwice(Shielded(f3), x);
  }

  /** A second `init` by the same bot is not refused and changes nothing. */
  lemma {:induction false} InitialisedTwice(t: Tree, x: Texts, owners: set<Bytes>, p: Path)
    requires WellFormed(t) && !Refuses(t, owners) && x.mark in owners
    ensures var f := Initialised(t, x);
            && WellFormed(f) && !Refuses(f, owners)
            && LeafOf(Initialised(f, x), p) == LeafOf(f, p)
  {
    var f := Initialised(t, x);
    HiddenTwice(t, x, owners);
    InstructedTwice(t, x.content);
    LaterNodes(t, x, owners, AGENTS);
    LaterNodes(t, x, owners, CLAUDE);
    hide WellFormed, Initialised, Instructed, GitInTheWay, LinksSkills, ExcludeChanges, Preserved, FirstFree;
    InitialisedAt(f, x, owners, p);
  }
}
