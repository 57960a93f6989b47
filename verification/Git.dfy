/** What Git answers about a working tree, and which paths a clone restores. */
module Git {
  import opened Trees

  /** A repository in the workspace. All paths are relative to the workspace
      root, so that `head` is also what a clone at the same place checks out.
      `renamed` are the paths of HEAD that Git's rename detection pairs with an
      added file; neither `--name-only` nor `--diff-filter=D` lists them. A repository
      inside, committed as such (a gitlink) and unchanged, is a path of `index` that
      `head` does not have and that is a directory on disk: Git lists it as tracked and
      as unchanged, and a clone makes an empty directory of it. */
  datatype Repo = Repo(head: Tree, index: set<Path>, renamed: set<Path>)

  /** Something Git could compare with a blob. */
  predicate OnDisk(s: Tree, p: Path) {
    p in s && s[p] != Dir
  }

  /** In HEAD, but gone from the index or from the disk. */
  function Missing(s: Tree, repo: Repo): set<Path> {
    set p | p in repo.head && !(p in repo.index && OnDisk(s, p))
  }

  /** `git diff --name-only HEAD` */
  function Changed(s: Tree, repo: Repo): set<Path> {
    set p | p in repo.head.Keys + repo.index
            && p !in repo.renamed
            && (if p in repo.index && OnDisk(s, p) then !(p in repo.head && repo.head[p] == s[p]) else p in repo.head)
  }

  /** `git diff --name-only --diff-filter=D HEAD` */
  function Deleted(s: Tree, repo: Repo): set<Path> {
    Missing(s, repo) - repo.renamed
  }

  /** Tracked and not changed: what the export leaves to the clone. */
  function Clean(s: Tree, repo: Repo): set<Path> {
    repo.index - Changed(s, repo)
  }

  /** What Git guarantees of a repository at `root`. */
  ghost predicate Coherent(s: Tree, root: Path, repo: Repo) {
    && (forall p :: p in repo.head.Keys + repo.index ==> Under(root, p) && p != root)
    && (forall p :: p in repo.head.Keys + repo.index ==> p[|root|] != ".git")
    && (forall p :: p in repo.head ==> repo.head[p].File? || repo.head[p].Link?)
    && (forall p, k :: p in repo.head && 0 <= k < |p| ==> p[..k] !in repo.head)
    && (forall p, k :: p in repo.index && 0 <= k < |p| ==> p[..k] !in repo.index)
    && repo.renamed <= Missing(s, repo)
  }

  /** A clean path that is a leaf on disk has HEAD's entry there. */
  lemma CleanLeaf(s: Tree, root: Path, repo: Repo, p: Path)
    requires Coherent(s, root, repo) && p in Clean(s, repo) && OnDisk(s, p)
    ensures p in repo.head && repo.head[p] == s[p] && p !in Missing(s, repo)
  {}

  /** `clean_in_repo`: only the innermost repository above `p` is asked. */
  function CleanInRepo(p: Path, repos: map<Path, set<Path>>): bool {
    CleanFrom(p, |p| - 1, repos)
  }

  function CleanFrom(p: Path, i: int, repos: map<Path, set<Path>>): bool
    requires i < |p|
    decreases i
  {
    if i < 0 then false
    else if p[..i] in repos then p in repos[p[..i]]
    else CleanFrom(p, i - 1, repos)
  }

  /** `r` is the innermost of `roots` properly above `p`. */
  ghost predicate Innermost(roots: set<Path>, r: Path, p: Path) {
    && r in roots && Under(r, p) && r != p
    && forall k :: |r| < k < |p| ==> p[..k] !in roots
  }

  lemma {:induction false} CleanFromInnermost(p: Path, i: int, repos: map<Path, set<Path>>) returns (r: Path)
    requires i < |p| && CleanFrom(p, i, repos)
    requires forall k :: i < k < |p| ==> p[..k] !in repos
    ensures Innermost(repos.Keys, r, p) && p in repos[r]
    decreases i
  {
    if p[..i] in repos {
      r := p[..i];
    } else {
      r := CleanFromInnermost(p, i - 1, repos);
    }
  }

  lemma {:induction false} InnermostCleanFrom(p: Path, i: int, repos: map<Path, set<Path>>, r: Path)
    requires |r| <= i < |p| && Innermost(repos.Keys, r, p) && p in repos[r]
    ensures CleanFrom(p, i, repos)
    decreases i
  {
    if i > |r| {
      InnermostCleanFrom(p, i - 1, repos, r);
    }
  }

  /** A path is clean exactly when its innermost repository lists it. */
  lemma CleanIffInnermost(p: Path, repos: map<Path, set<Path>>)
    ensures CleanInRepo(p, repos) <==> exists r :: Innermost(repos.Keys, r, p) && p in repos[r]
  {
    if CleanInRepo(p, repos) {
      var r := CleanFromInnermost(p, |p| - 1, repos);
    }
    forall r | Innermost(repos.Keys, r, p) && p in repos[r] ensures CleanInRepo(p, repos) {
      InnermostCleanFrom(p, |p| - 1, repos, r);
    }
  }

  /** Only the repositories above `p` matter. */
  lemma {:induction false} CleanFromLocal(p: Path, i: int, a: map<Path, set<Path>>, b: map<Path, set<Path>>)
    requires i < |p|
    requires forall k :: 0 <= k < |p| ==> (p[..k] in a <==> p[..k] in b) && (p[..k] in a ==> a[p[..k]] == b[p[..k]])
    ensures CleanFrom(p, i, a) == CleanFrom(p, i, b)
    decreases i
  {
    if i >= 0 && p[..i] !in a {
      CleanFromLocal(p, i - 1, a, b);
    }
  }
}
