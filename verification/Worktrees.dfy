/** A worktree and a branch per session: created on demand, removed once merged. */
module Worktrees {
  import opened Wrappers

  type Commit = nat
  type Branch = string
  type Session = string

  const BRANCH_PREFIX: string := "coreman/session-"

  // ---- commits ----

  /** For each commit all commits it contains, itself among them. */
  type History = map<Commit, set<Commit>>

  ghost predicate Closed(h: History) {
    forall c :: c in h ==> c in h[c] && forall d :: d in h[c] ==> d in h && h[d] <= h[c]
  }

  predicate Contains(h: History, c: Commit, d: Commit) {
    c == d || (c in h && d in h[c])
  }

  // ---- the repository ----

  datatype Head = On(branch: Branch) | Detached(commit: Commit)

  /** Local branches, remote branches as last fetched, the main checkout, and for
      each worktree the branch it is on, if any. `originHead`: what
      `refs/remotes/origin/HEAD` names. */
  datatype Repo = Repo(heads: map<Branch, Commit>, remotes: map<string, Commit>, head: Head,
                       trees: map<Session, Option<Branch>>, originHead: Option<string>)

  function SessionBranch(s: Session): Branch {
    BRANCH_PREFIX + s
  }

  predicate IsSessionBranch(b: Branch) {
    BRANCH_PREFIX <= b
  }

  function DefaultBranch(r: Repo): Option<string> {
    if r.originHead.Some? then r.originHead
    else if "main" in r.remotes then Some("main")
    else if "master" in r.remotes then Some("master")
    else None
  }

  /** What the remote has; `None`: it cannot be reached. */
  function Fetched(r: Repo, remote: Option<map<string, Commit>>): Repo {
    if remote.Some? then r.(remotes := remote.value) else r
  }

  datatype Outcome = Done | Failed

  /** `git merge --ff-only` of the default branch into the main checkout. */
  function FastForwarded(h: History, r: Repo, clean: bool): (Repo, Outcome) {
    var base := DefaultBranch(r);
    if base.None? || r.head != On(base.value) || !clean then (r, Done)
    else if base.value !in r.remotes || base.value !in r.heads then (r, Failed)
    else
      var here, there := r.heads[base.value], r.remotes[base.value];
      if Contains(h, here, there) then (r, Done)
      else if Contains(h, there, here) then (r.(heads := r.heads[base.value := there]), Done)
      else (r, Failed)
  }

  predicate Merged(h: History, r: Repo, b: Branch) {
    var base := DefaultBranch(r);
    base.Some? && base.value in r.remotes && b in r.heads && Contains(h, r.remotes[base.value], r.heads[b])
  }

  predicate Prunable(h: History, r: Repo, s: Session, clean: bool) {
    && s in r.trees && r.trees[s].Some? && IsSessionBranch(r.trees[s].value)
    && clean && Merged(h, r, r.trees[s].value)
  }

  /** `prune`. */
  function Pruned(h: History, r: Repo, s: Session, clean: bool): Repo {
    if Prunable(h, r, s, clean)
    then r.(trees := r.trees - {s}, heads := r.heads - {r.trees[s].value})
    else r
  }

  function AllPruned(h: History, r: Repo, idle: seq<Session>, clean: set<Session>): Repo {
    if idle == [] then r
    else Pruned(h, AllPruned(h, r, idle[..|idle| - 1], clean), idle[|idle| - 1], idle[|idle| - 1] in clean)
  }

  /** `refresh`: `idle` are the worktrees unused for a week, in order; `clean` those
      without changes. */
  function Refreshed(h: History, r: Repo, remote: Option<map<string, Commit>>, mainClean: bool,
                     idle: seq<Session>, clean: set<Session>): (Repo, Outcome)
  {
    var (after, outcome) := FastForwarded(h, Fetched(r, remote), mainClean);
    if outcome == Failed then (after, Failed) else (AllPruned(h, after, idle, clean), Done)
  }

  function HeadCommit(r: Repo): Option<Commit> {
    match r.head
    case On(b) => if b in r.heads then Some(r.heads[b]) else None
    case Detached(c) => Some(c)
  }

  predicate CheckedOut(r: Repo, b: Branch) {
    r.head == On(b) || exists s :: s in r.trees && r.trees[s] == Some(b)
  }

  /** `ensure` for a valid session of a repository. `vacant`: nothing else is where
      the worktree goes. */
  function Ensured(r: Repo, s: Session, vacant: bool, remote: Option<map<string, Commit>>): (Repo, Outcome) {
    if s in r.trees then (r, Done)
    else if !vacant then (r, Failed)
    else
      var b := SessionBranch(s);
      if b in r.heads then
        if CheckedOut(r, b) then (r, Failed) else (r.(trees := r.trees[s := Some(b)]), Done)
      else
        var f := Fetched(r, remote);
        var base := DefaultBranch(f);
        var start := if base.None? then HeadCommit(f)
                     else if base.value in f.remotes then Some(f.remotes[base.value]) else None;
        if start.None? then (f, Failed)
        else (f.(trees := f.trees[s := Some(b)], heads := f.heads[b := start.value]), Done)
  }

  // ---- what each of them does ----

  /** The remote's default branch: what its HEAD names, or else `main` or else `master`. */
  predicate IsDefault(r: Repo, name: string) {
    || r.originHead == Some(name)
    || (r.originHead.None? && name in r.remotes && (name == "main" || (name == "master" && "main" !in r.remotes)))
  }

  lemma DefaultIs(r: Repo, name: string)
    ensures DefaultBranch(r) == Some(name) <==> IsDefault(r, name)
    ensures DefaultBranch(r).None? ==> !IsDefault(r, name)
  {}

  /** Where a new branch would start: at the remote's default branch, or at the commit
      checked out if there is none. */
  ghost predicate StartsAt(r: Repo, c: Commit) {
    || (exists name :: IsDefault(r, name) && name in r.remotes && r.remotes[name] == c)
    || ((forall name :: !IsDefault(r, name))
        && (r.head == Detached(c) || exists b :: r.head == On(b) && b in r.heads && r.heads[b] == c))
  }

  lemma StartIs(r: Repo, c: Commit)
    ensures var base := DefaultBranch(r);
            var start := if base.None? then HeadCommit(r)
                         else if base.value in r.remotes then Some(r.remotes[base.value]) else None;
            start == Some(c) <==> StartsAt(r, c)
  {
    var base := DefaultBranch(r);
    if base.Some? {
      DefaultIs(r, base.value);
      forall name | IsDefault(r, name) ensures name == base.value {
        DefaultIs(r, name);
      }
    } else {
      forall name ensures !IsDefault(r, name) {
        DefaultIs(r, name);
      }
    }
    hide DefaultBranch, IsDefault;
  }

  /** Somewhere this branch is checked out. */
  ghost predicate Taken(r: Repo, b: Branch) {
    r.head == On(b) || exists s :: s in r.trees && r.trees[s] == Some(b)
  }

  /** MAIN RESULT (ensure): a session has its worktree afterwards exactly if it had one, or
      its place is free and its branch is there and not checked out elsewhere, or can be
      started. A branch that is there is taken up as it is; a new one starts where the
      remote, as just fetched, is. Nothing else changes but what was fetched. */
  lemma EnsuredWhen(r: Repo, s: Session, vacant: bool, remote: Option<map<string, Commit>>)
    ensures var (after, outcome) := Ensured(r, s, vacant, remote);
            var b := "coreman/session-" + s;
            var f := r.(remotes := if remote.Some? then remote.value else r.remotes);
            && (outcome == Done <==>
                  s in r.trees || (vacant && if b in r.heads then !Taken(r, b) else exists c :: StartsAt(f, c)))
            && (if s in r.trees || !vacant then after == r
                else if b in r.heads
                then after == if Taken(r, b) then r else r.(trees := r.trees[s := Some(b)])
                else if outcome == Failed then after == f
                else exists c :: StartsAt(f, c)
                                 && after == f.(trees := f.trees[s := Some(b)], heads := f.heads[b := c]))
  {
    var b, f := SessionBranch(s), Fetched(r, remote);
    assert f == r.(remotes := if remote.Some? then remote.value else r.remotes);
    var base := DefaultBranch(f);
    var start := if base.None? then HeadCommit(f)
                 else if base.value in f.remotes then Some(f.remotes[base.value]) else None;
    forall c: Commit ensures start == Some(c) <==> StartsAt(f, c) {
      StartIs(f, c);
    }
    assert start.Some? ==> StartsAt(f, start.value);
    assert Taken(r, b) <==> CheckedOut(r, b);
    assert s in r.trees ==> Ensured(r, s, vacant, remote) == (r, Done);
    hide StartsAt, DefaultBranch, HeadCommit, Taken, CheckedOut;
  }

  /** The main checkout is clean and on the remote's default branch. */
  predicate Follows(r: Repo, name: string, clean: bool) {
    IsDefault(r, name) && r.head == On(name) && clean
  }

  /** Here and there, and one contains the other. */
  predicate Ordered(h: History, r: Repo, name: string) {
    && name in r.remotes && name in r.heads
    && (Contains(h, r.heads[name], r.remotes[name]) || Contains(h, r.remotes[name], r.heads[name]))
  }

  /** A refresh moves the main checkout along exactly if it follows the remote's default
      branch and that contains it, and fails exactly if it follows it and the two have
      parted or one of them is missing. */
  lemma FastForwardWhen(h: History, r: Repo, clean: bool)
    ensures var (after, outcome) := FastForwarded(h, r, clean);
            && (outcome == Failed <==> exists name :: Follows(r, name, clean) && !Ordered(h, r, name))
            && after == r.(heads := after.heads) && after.heads.Keys == r.heads.Keys
            && forall b :: b in r.heads ==>
                 after.heads[b] == if Follows(r, b, clean) && b in r.remotes && Contains(h, r.remotes[b], r.heads[b])
                                      && !Contains(h, r.heads[b], r.remotes[b])
                                   then r.remotes[b] else r.heads[b]
  {
    var base := DefaultBranch(r);
    forall name ensures IsDefault(r, name) <==> base == Some(name) {
      DefaultIs(r, name);
    }
    assert base.Some? && r.head == On(base.value) && clean ==> Follows(r, base.value, clean);
    hide DefaultBranch, IsDefault, Contains;
  }

  // ---- a refresh loses no commit ----

  /** Some local or remote branch contains it. */
  ghost predicate Reachable(h: History, r: Repo, c: Commit) {
    || (exists b :: b in r.heads && Contains(h, r.heads[b], c))
    || (exists b :: b in r.remotes && Contains(h, r.remotes[b], c))
  }

  ghost predicate SameReach(h: History, r: Repo, k: Repo) {
    forall c :: Reachable(h, r, c) <==> Reachable(h, k, c)
  }

  lemma FastForwardKeeps(h: History, r: Repo, clean: bool)
    requires Closed(h)
    ensures var (after, _) := FastForwarded(h, r, clean);
            SameReach(h, r, after) && after == r.(heads := after.heads) && after.heads.Keys == r.heads.Keys
  {
    var (after, _) := FastForwarded(h, r, clean);
    if after != r {
      var b := DefaultBranch(r).value;
      var here, there := r.heads[b], r.remotes[b];
      assert after.heads == r.heads[b := there];
      forall c ensures Reachable(h, r, c) <==> Reachable(h, after, c) {
        assert Contains(h, there, c) ==> b in r.remotes && Contains(h, r.remotes[b], c);
        assert Contains(h, here, c) ==> Contains(h, after.heads[b], c);
        assert forall x :: x in r.heads && x != b ==> after.heads[x] == r.heads[x];
      }
    }
  }

  lemma PruneKeeps(h: History, r: Repo, s: Session, clean: bool)
    requires Closed(h)
    ensures SameReach(h, r, Pruned(h, r, s, clean))
  {
    var after := Pruned(h, r, s, clean);
    if Prunable(h, r, s, clean) {
      var b := r.trees[s].value;
      var base := DefaultBranch(r).value;
      assert forall x :: x in r.heads && x != b ==> x in after.heads && after.heads[x] == r.heads[x];
      forall c ensures Reachable(h, r, c) <==> Reachable(h, after, c) {
        assert Contains(h, r.heads[b], c) ==> Contains(h, after.remotes[base], c);
      }
    }
  }

  lemma {:induction false} AllPrunedKeeps(h: History, r: Repo, idle: seq<Session>, clean: set<Session>)
    requires Closed(h)
    ensures var after := AllPruned(h, r, idle, clean);
            SameReach(h, r, after) && after == r.(trees := after.trees, heads := after.heads)
  {
    hide SameReach, Prunable;
    if idle == [] {
      Same(h, r);
    } else {
      var n := |idle| - 1;
      AllPrunedKeeps(h, r, idle[..n], clean);
      var before := AllPruned(h, r, idle[..n], clean);
      PruneKeeps(h, before, idle[n], idle[n] in clean);
      SameTransitive(h, r, before, AllPruned(h, r, idle, clean));
    }
  }

  lemma Same(h: History, r: Repo)
    ensures SameReach(h, r, r)
  {}

  lemma SameTransitive(h: History, r: Repo, k: Repo, m: Repo)
    requires SameReach(h, r, k) && SameReach(h, k, m)
    ensures SameReach(h, r, m)
  {}

  /** MAIN RESULT: after its fetch, a refresh changes nothing about which commits
      are reachable, whether it succeeds or not. */
  lemma RefreshKeepsHistory(h: History, r: Repo, remote: Option<map<string, Commit>>, mainClean: bool,
                            idle: seq<Session>, clean: set<Session>)
    requires Closed(h)
    ensures SameReach(h, Fetched(r, remote), Refreshed(h, r, remote, mainClean, idle, clean).0)
  {
    var f := Fetched(r, remote);
    var (after, _) := FastForwarded(h, f, mainClean);
    hide SameReach, FastForwarded, Fetched, AllPruned;
    FastForwardKeeps(h, f, mainClean);
    AllPrunedKeeps(h, after, idle, clean);
    SameTransitive(h, f, after, AllPruned(h, after, idle, clean));
  }

  /** Git keeps a branch to one checkout. */
  ghost predicate Apart(r: Repo) {
    && (forall s, t :: s in r.trees && t in r.trees && r.trees[s].Some? && r.trees[s] == r.trees[t] ==> s == t)
    && (forall s :: s in r.trees && r.trees[s].Some? ==> r.head != On(r.trees[s].value))
  }

  lemma PruneOthers(h: History, r: Repo, s: Session, clean: bool, t: Session, tidy: bool)
    requires Apart(r) && t != s
    ensures var after := Pruned(h, r, s, clean);
            && Apart(after) && (t in after.trees <==> t in r.trees)
            && (Prunable(h, after, t, tidy) <==> Prunable(h, r, t, tidy))
  {}

  /** A refresh removes exactly the worktrees that are idle, clean, on a session
      branch, and merged into the remote's default branch. */
  lemma {:induction false} RemovedExactly(h: History, r: Repo, idle: seq<Session>, clean: set<Session>, t: Session)
    requires Apart(r) && t in r.trees
    ensures var after := AllPruned(h, r, idle, clean);
            && Apart(after)
            && (t !in after.trees <==> t in idle && Prunable(h, r, t, t in clean))
            && (t in after.trees ==> (Prunable(h, after, t, t in clean) <==> Prunable(h, r, t, t in clean)))
  {
    if idle != [] {
      var n := |idle| - 1;
      var s, before := idle[n], AllPruned(h, r, idle[..n], clean);
      RemovedExactly(h, r, idle[..n], clean, t);
      assert idle == idle[..n] + [s];
      hide Merged, AllPruned;
      if s == t {
        ApartLess(h, before, s, s in clean);
      } else {
        PruneOthers(h, before, s, s in clean, t, t in clean);
      }
      assert AllPruned(h, r, idle, clean) == Pruned(h, before, s, s in clean) by {
        PrunedLast(h, r, idle, clean);
      }
    }
  }

  lemma PrunedLast(h: History, r: Repo, idle: seq<Session>, clean: set<Session>)
    requires idle != []
    ensures AllPruned(h, r, idle, clean)
            == Pruned(h, AllPruned(h, r, idle[..|idle| - 1], clean), idle[|idle| - 1], idle[|idle| - 1] in clean)
  {}

  lemma ApartLess(h: History, r: Repo, s: Session, clean: bool)
    requires Apart(r)
    ensures Apart(Pruned(h, r, s, clean))
  {}

  /** The branch of a worktree that is gone is gone too, and no other. */
  lemma {:induction false} HeadsRemoved(h: History, r: Repo, idle: seq<Session>, clean: set<Session>, b: Branch)
    requires Apart(r)
    ensures var after := AllPruned(h, r, idle, clean);
            && Apart(after)
            && (forall t :: t in after.trees ==> t in r.trees && after.trees[t] == r.trees[t])
            && (b in after.heads <==>
                  b in r.heads && forall t :: t in r.trees && r.trees[t] == Some(b) ==> t in after.trees)
            && (b in after.heads ==> after.heads[b] == r.heads[b])
  {
    if idle != [] {
      var n := |idle| - 1;
      var s, before := idle[n], AllPruned(h, r, idle[..n], clean);
      HeadsRemoved(h, r, idle[..n], clean, b);
      PrunedLast(h, r, idle, clean);
      hide AllPruned;
      PruneHeads(h, before, s, s in clean, b);
      hide Prunable, Pruned;
    }
  }

  lemma PruneHeads(h: History, r: Repo, s: Session, clean: bool, b: Branch)
    requires Apart(r)
    ensures var after := Pruned(h, r, s, clean);
            && Apart(after)
            && (forall t :: t in after.trees ==> t in r.trees && after.trees[t] == r.trees[t])
            && (forall t :: t in r.trees && t !in after.trees ==> t == s)
            && (b in after.heads <==> b in r.heads && !(s in r.trees && s !in after.trees && r.trees[s] == Some(b)))
            && (b in after.heads ==> after.heads[b] == r.heads[b])
            && (s in r.trees && s !in after.trees ==> r.trees[s].Some? && r.trees[s].value in r.heads)
  {
    ApartLess(h, r, s, clean);
    hide Merged;
  }

  /** Idle, clean, on a session branch, and merged into the remote's default branch. */
  predicate Disposable(h: History, f: Repo, idle: seq<Session>, clean: set<Session>, t: Session, name: string)
    requires t in f.trees
  {
    && t in idle && t in clean && f.trees[t].Some? && "coreman/session-" <= f.trees[t].value
    && f.trees[t].value in f.heads && IsDefault(f, name) && name in f.remotes
    && Contains(h, f.remotes[name], f.heads[f.trees[t].value])
  }

  lemma DisposableIs(h: History, f: Repo, idle: seq<Session>, clean: set<Session>, t: Session)
    requires t in f.trees
    ensures t in idle && Prunable(h, f, t, t in clean) <==> exists name :: Disposable(h, f, idle, clean, t, name)
  {
    var base := DefaultBranch(f);
    forall name ensures IsDefault(f, name) <==> base == Some(name) {
      DefaultIs(f, name);
    }
    hide DefaultBranch, IsDefault, Contains;
    if t in idle && Prunable(h, f, t, t in clean) {
      assert Disposable(h, f, idle, clean, t, base.value);
    }
  }

  /** MAIN RESULT (refresh): a refresh that does not fail at its fast-forward removes
      exactly the worktrees that are idle, clean, on a session branch, and merged into the
      remote's default branch as just fetched, and with them their branches. */
  lemma RefreshRemovesExactly(h: History, r: Repo, remote: Option<map<string, Commit>>, mainClean: bool,
                              idle: seq<Session>, clean: set<Session>, t: Session, b: Branch)
    requires Closed(h) && Apart(r) && t in r.trees
    ensures var f := r.(remotes := if remote.Some? then remote.value else r.remotes);
            var (after, outcome) := Refreshed(h, r, remote, mainClean, idle, clean);
            && outcome == FastForwarded(h, f, mainClean).1
            && (t !in after.trees <==> outcome == Done && exists name :: Disposable(h, f, idle, clean, t, name))
            && (t in after.trees ==> after.trees[t] == r.trees[t])
            && (b in after.heads <==>
                  b in r.heads && forall s :: s in r.trees && r.trees[s] == Some(b) ==> s in after.trees)
            && (b in after.heads ==> after.heads[b] == FastForwarded(h, f, mainClean).0.heads[b])
            && (after.remotes, after.head, after.originHead) == (f.remotes, r.head, r.originHead)
  {
    var f := Fetched(r, remote);
    var k := FastForwarded(h, f, mainClean).0;
    FastForwardKeeps(h, f, mainClean);
    FastForwardWhen(h, f, mainClean);
    assert k.trees == r.trees && k.head == r.head && k.heads.Keys == r.heads.Keys;
    assert r.trees[t].Some? && r.trees[t].value in r.heads ==> k.heads[r.trees[t].value] == r.heads[r.trees[t].value];
    DisposableIs(h, f, idle, clean, t);
    assert Prunable(h, k, t, t in clean) <==> Prunable(h, f, t, t in clean);
    RemovedExactly(h, k, idle, clean, t);
    HeadsRemoved(h, k, idle, clean, b);
    AllPrunedKeeps(h, k, idle, clean);
    hide Prunable, AllPruned, FastForwarded, Disposable, SameReach, Apart;
  }

  // ---- a session keeps its commits ----

  /** `last`: for each session the commit its branch was last seen at. */
  datatype World = World(repo: Repo, last: map<Session, Commit>)

  /** `Commit`: work in a session; `Move`: anything done to the other branches. */
  datatype Event =
    | Ensure(session: Session, vacant: bool, remote: Option<map<string, Commit>>)
    | Refresh(remote: Option<map<string, Commit>>, mainClean: bool, idle: seq<Session>, clean: set<Session>)
    | Commit(session: Session, commit: Commit)
    | Move(branch: Branch, commit: Commit)

  /** The remote's default branch keeps its name and only moves forward. */
  predicate Forward(h: History, r: Repo, remote: Option<map<string, Commit>>) {
    var base := DefaultBranch(r);
    base.Some? && base.value in r.remotes ==>
      var f := Fetched(r, remote);
      DefaultBranch(f) == base && base.value in f.remotes && Contains(h, f.remotes[base.value], r.remotes[base.value])
  }

  predicate Enabled(h: History, w: World, e: Event) {
    match e
    case Ensure(_, _, remote) => Forward(h, w.repo, remote)
    case Refresh(remote, _, _, _) => Forward(h, w.repo, remote)
    case Commit(s, c) => s in w.last && SessionBranch(s) in w.repo.heads
        && Contains(h, c, w.repo.heads[SessionBranch(s)])
    case Move(b, c) => !IsSessionBranch(b)
  }

  function Step(h: History, w: World, e: Event): World {
    match e
    case Ensure(s, vacant, remote) =>
      var (after, outcome) := Ensured(w.repo, s, vacant, remote);
      var b := SessionBranch(s);
      World(after, if outcome == Done && s !in w.repo.trees && b in after.heads then w.last[s := after.heads[b]]
                   else w.last)
    case Refresh(remote, mainClean, idle, clean) => w.(repo := Refreshed(h, w.repo, remote, mainClean, idle, clean).0)
    case Commit(s, c) => World(w.repo.(heads := w.repo.heads[SessionBranch(s) := c]), w.last[s := c])
    case Move(b, c) => w.(repo := w.repo.(heads := w.repo.heads[b := c]))
  }

  function Run(h: History, r: Repo, es: seq<Event>): World {
    if es == [] then World(r, map[]) else Step(h, Run(h, r, es[..|es| - 1]), es[|es| - 1])
  }

  ghost predicate Possible(h: History, r: Repo, es: seq<Event>) {
    forall i :: 0 <= i < |es| ==> Enabled(h, Run(h, r, es[..i]), es[i])
  }

  /** The commit is on the session's branch or, when that is gone, on the remote's
      default branch. */
  ghost predicate Held(h: History, r: Repo, s: Session, c: Commit) {
    var b := SessionBranch(s);
    if b in r.heads then Contains(h, r.heads[b], c)
    else
      var base := DefaultBranch(r);
      base.Some? && base.value in r.remotes && Contains(h, r.remotes[base.value], c)
  }

  ghost predicate AllHeld(h: History, w: World) {
    forall s :: s in w.last ==> Held(h, w.repo, s, w.last[s])
  }

  lemma FetchHolds(h: History, r: Repo, remote: Option<map<string, Commit>>, s: Session, c: Commit)
    requires Closed(h) && Held(h, r, s, c) && Forward(h, r, remote)
    ensures Held(h, Fetched(r, remote), s, c)
  {}

  lemma FastForwardHolds(h: History, r: Repo, clean: bool, s: Session, c: Commit)
    requires Closed(h) && Held(h, r, s, c)
    ensures Held(h, FastForwarded(h, r, clean).0, s, c)
  {}

  lemma PruneHolds(h: History, r: Repo, t: Session, clean: bool, s: Session, c: Commit)
    requires Closed(h) && Held(h, r, s, c)
    ensures Held(h, Pruned(h, r, t, clean), s, c)
  {}

  lemma {:induction false} AllPrunedHolds(h: History, r: Repo, idle: seq<Session>, clean: set<Session>, s: Session,
                                          c: Commit)
    requires Closed(h) && Held(h, r, s, c)
    ensures Held(h, AllPruned(h, r, idle, clean), s, c)
  {
    hide Held, Pruned, Closed;
    if idle != [] {
      var n := |idle| - 1;
      AllPrunedHolds(h, r, idle[..n], clean, s, c);
      PruneHolds(h, AllPruned(h, r, idle[..n], clean), idle[n], idle[n] in clean, s, c);
    }
  }

  lemma RefreshHolds(h: History, r: Repo, e: Event, s: Session, c: Commit)
    requires Closed(h) && Held(h, r, s, c) && e.Refresh? && Forward(h, r, e.remote)
    ensures Held(h, Refreshed(h, r, e.remote, e.mainClean, e.idle, e.clean).0, s, c)
  {
    FetchHolds(h, r, e.remote, s, c);
    FastForwardHolds(h, Fetched(r, e.remote), e.mainClean, s, c);
    AllPrunedHolds(h, FastForwarded(h, Fetched(r, e.remote), e.mainClean).0, e.idle, e.clean, s, c);
    hide Held, Fetched, FastForwarded, AllPruned, Closed, Forward;
  }

  lemma BranchesApart(s: Session, t: Session)
    ensures SessionBranch(s) == SessionBranch(t) ==> s == t
  {
    assert SessionBranch(s)[|BRANCH_PREFIX|..] == s && SessionBranch(t)[|BRANCH_PREFIX|..] == t;
  }

  lemma EnsureHolds(h: History, r: Repo, e: Event, s: Session, c: Commit)
    requires Closed(h) && Held(h, r, s, c) && e.Ensure? && Forward(h, r, e.remote)
    ensures Held(h, Ensured(r, e.session, e.vacant, e.remote).0, s, c)
  {}

  lemma StepHolds(h: History, w: World, e: Event)
    requires Closed(h) && AllHeld(h, w) && Enabled(h, w, e)
    ensures AllHeld(h, Step(h, w, e))
  {
    var after := Step(h, w, e);
    forall s | s in after.last ensures Held(h, after.repo, s, after.last[s]) {
      match e
      case Ensure(t, vacant, remote) =>
        if s in w.last {
          EnsureHolds(h, w.repo, e, s, w.last[s]);
        }
      case Refresh(remote, mainClean, idle, clean) =>
        hide Held, Refreshed;
        RefreshHolds(h, w.repo, e, s, w.last[s]);
      case Commit(t, c) =>
        BranchesApart(s, t);
      case Move(b, c) =>
        assert IsSessionBranch(SessionBranch(s));
    }
  }

  lemma {:induction false} RunHolds(h: History, r: Repo, es: seq<Event>)
    requires Closed(h) && Possible(h, r, es)
    ensures AllHeld(h, Run(h, r, es))
  {
    hide Enabled, Step, Held, Closed;
    if es != [] {
      var n := |es| - 1;
      assert forall i :: 0 <= i < n ==> es[..n][..i] == es[..i];
      RunHolds(h, r, es[..n]);
      StepHolds(h, Run(h, r, es[..n]), es[n]);
    }
  }

  /** MAIN RESULT: over every run in which the remote's default branch only moves
      forward, a session that comes back, pruned or not, starts from a commit that
      contains all its earlier ones. */
  lemma SessionKeepsCommits(h: History, r: Repo, es: seq<Event>, e: Event)
    requires Closed(h) && Possible(h, r, es) && e.Ensure? && Enabled(h, Run(h, r, es), e)
    requires var w := Run(h, r, es); e.session in w.last && e.session !in w.repo.trees
    ensures var w := Run(h, r, es);
            var (after, outcome) := Ensured(w.repo, e.session, e.vacant, e.remote);
            outcome == Done ==>
              && after.trees[e.session] == Some(SessionBranch(e.session))
              && SessionBranch(e.session) in after.heads
              && forall c :: Contains(h, w.last[e.session], c) ==> Contains(h, after.heads[SessionBranch(e.session)], c)
  {
    RunHolds(h, r, es);
    var w := Run(h, r, es);
    EnsureHolds(h, w.repo, e, e.session, w.last[e.session]);
    hide Run, Fetched, CheckedOut, Forward;
  }

  // ---- the code ----

  class WorkingCopy {
    const history: History
    var heads: map<Branch, Commit>
    var remotes: map<string, Commit>
    var head: Head
    var trees: map<Session, Option<Branch>>
    const originHead: Option<string>

    function State(): Repo
      reads this
    {
      Repo(heads, remotes, head, trees, originHead)
    }

    constructor (h: History, r: Repo)
      ensures State() == r && history == h
    {
      history, heads, remotes, head, trees, originHead := h, r.heads, r.remotes, r.head, r.trees, r.originHead;
    }

    method Fetch(remote: Option<map<string, Commit>>) returns (base: Option<string>)
      modifies this`remotes
      ensures State() == Fetched(old(State()), remote) && base == DefaultBranch(State())
    {
      if remote.Some? {
        remotes := remote.value;
      }
      if originHead.Some? {
        return originHead;
      }
      if "main" in remotes {
        return Some("main");
      }
      if "master" in remotes {
        return Some("master");
      }
      base := None;
    }

    method Prune(s: Session, clean: bool, base: Option<string>)
      requires base == DefaultBranch(State())
      modifies this`trees, this`heads
      ensures State() == Pruned(history, old(State()), s, clean)
    {
      if s !in trees || base.None? || trees[s].None? || !IsSessionBranch(trees[s].value) || !clean {
        return;
      }
      var branch := trees[s].value;
      if branch !in heads || base.value !in remotes || !Contains(history, remotes[base.value], heads[branch]) {
        return;
      }
      trees := trees - {s};
      heads := heads - {branch};
    }

    method Refresh(remote: Option<map<string, Commit>>, mainClean: bool, idle: seq<Session>, clean: set<Session>)
      returns (outcome: Outcome)
      modifies this
      ensures (State(), outcome) == Refreshed(history, old(State()), remote, mainClean, idle, clean)
    {
      var base := Fetch(remote);
      if base.Some? && head == On(base.value) && mainClean {
        if base.value !in remotes || base.value !in heads {
          return Failed;
        }
        var here, there := heads[base.value], remotes[base.value];
        if !Contains(history, here, there) {
          if !Contains(history, there, here) {
            return Failed;
          }
          heads := heads[base.value := there];
        }
      }
      ghost var f := State();
      assert (f, Done) == FastForwarded(history, Fetched(old(State()), remote), mainClean);
      hide FastForwarded, Pruned;
      for i := 0 to |idle|
        invariant State() == AllPruned(history, f, idle[..i], clean)
        invariant base == DefaultBranch(State())
      {
        assert idle[..i + 1][..i] == idle[..i];
        PruneKeepsBase(history, State(), idle[i], idle[i] in clean);
        Prune(idle[i], idle[i] in clean, base);
      }
      assert idle[..|idle|] == idle;
      outcome := Done;
    }

    method Ensure(s: Session, vacant: bool, remote: Option<map<string, Commit>>) returns (outcome: Outcome)
      modifies this
      ensures (State(), outcome) == Ensured(old(State()), s, vacant, remote)
    {
      if s in trees {
        return Done;
      }
      if !vacant {
        return Failed;
      }
      var branch := SessionBranch(s);
      if branch in heads {
        if CheckedOut(State(), branch) {
          return Failed;
        }
        trees := trees[s := Some(branch)];
        return Done;
      }
      var base := Fetch(remote);
      var start := None;
      if base.None? {
        start := HeadCommit(State());
      } else if base.value in remotes {
        start := Some(remotes[base.value]);
      }
      if start.None? {
        return Failed;
      }
      trees, heads := trees[s := Some(branch)], heads[branch := start.value];
      outcome := Done;
    }
  }

  lemma PruneKeepsBase(h: History, r: Repo, s: Session, clean: bool)
    ensures DefaultBranch(Pruned(h, r, s, clean)) == DefaultBranch(r)
  {}
}
