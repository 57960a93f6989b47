/** Path names as strings, the way `PurePosixPath` reads them, and the names
    that never travel. */
module Names {
  import opened Trees

  /** A part `PurePosixPath` keeps; it drops empty parts and ".". */
  predicate Component(c: string) {
    c != "" && c != "." && '/' !in c
  }

  predicate Proper(p: Path) {
    forall c :: c in p ==> Component(c)
  }

  function Split(s: string): (parts: seq<string>)
    ensures |parts| > 0
    ensures forall c :: c in parts ==> '/' !in c
  {
    if s == "" then [""]
    else
      var rest := Split(s[1..]);
      if s[0] == '/' then [""] + rest else [[s[0]] + rest[0]] + rest[1..]
  }

  function Kept(parts: seq<string>): (p: Path)
    ensures (forall c :: c in parts ==> '/' !in c) ==> Proper(p)
  {
    if parts == [] then []
    else if parts[0] == "" || parts[0] == "." then Kept(parts[1..])
    else [parts[0]] + Kept(parts[1..])
  }

  /** The components of a relative name, as `PurePosixPath` splits it. */
  function Parts(s: string): (p: Path)
    ensures Proper(p)
  {
    Kept(Split(s))
  }

  function Joined(p: Path): string {
    if p == [] then "" else if |p| == 1 then p[0] else p[0] + "/" + Joined(p[1..])
  }

  /** How `PurePosixPath` shows a relative name with these components. */
  function Shown(p: Path): string {
    if p == [] then "." else Joined(p)
  }

  lemma {:induction false} SplitComponent(c: string)
    requires '/' !in c
    ensures Split(c) == [c]
  {
    if c != "" {
      SplitComponent(c[1..]);
      assert [c[0]] + c[1..] == c;
    }
  }

  lemma {:induction false} SplitSlash(c: string, rest: string)
    requires '/' !in c
    ensures Split(c + "/" + rest) == [c] + Split(rest)
  {
    var s := c + "/" + rest;
    if c == "" {
      assert s[1..] == rest;
    } else {
      SplitSlash(c[1..], rest);
      assert s[1..] == c[1..] + "/" + rest;
      assert [c[0]] + c[1..] == c;
    }
  }

  /** Joining parts and reading the result back gives the parts. */
  lemma {:induction false} JoinedParts(p: Path)
    requires Proper(p)
    ensures Parts(Joined(p)) == p
  {
    if p != [] {
      assert p[0] in p && Component(p[0]);
    }
    if |p| == 1 {
      SplitComponent(p[0]);
      assert Kept([p[0]]) == [p[0]] + Kept([p[0]][1..]);
    } else if |p| > 1 {
      SplitSlash(p[0], Joined(p[1..]));
      JoinedParts(p[1..]);
      assert ([p[0]] + Split(Joined(p[1..])))[1..] == Split(Joined(p[1..]));
    }
  }

  lemma JoinedNormal(p: Path)
    requires Proper(p) && p != []
    ensures Joined(p) != "" && Joined(p)[0] != '/' && Shown(Parts(Joined(p))) == Joined(p)
  {
    JoinedParts(p);
    assert p[0] in p;
  }

  // ---- names that never travel ----

  const EXCLUDED: set<string> := {
    ".git", ".ssh", ".aws", ".config", ".cache", "node_modules", "__pycache__", ".venv", "venv",
    ".codex", ".coreman-workspace.json"
  }

  const PRIVATE_SUFFIXES: seq<string> := [".pem", ".key", ".p12", ".pfx"]

  const PRIVATE_NAMES: set<string> := {
    "credentials.json", "auth.json", "id_rsa", "id_ed25519", ".netrc", ".npmrc", ".pypirc"
  }

  function Lower(s: string): string {
    seq(|s|, i requires 0 <= i < |s| =>
      if 'A' <= s[i] <= 'Z' then (s[i] as int + 32) as char else s[i])
  }

  predicate EndsWith(s: string, suffix: string) {
    |suffix| <= |s| && s[|s| - |suffix|..] == suffix
  }

  predicate ForbiddenPart(c: string, transfer: bool) {
    || (c in EXCLUDED && !(transfer && c == ".git"))
    || ".env" <= c
    || ".coreman-" <= c
    || (exists i :: 0 <= i < |PRIVATE_SUFFIXES| && EndsWith(Lower(c), PRIVATE_SUFFIXES[i]))
    || Lower(c) in PRIVATE_NAMES
  }

  predicate Forbidden(p: Path, transfer: bool) {
    exists i :: 0 <= i < |p| && ForbiddenPart(p[i], transfer)
  }

  /** Whatever lies below a forbidden name is forbidden too. */
  lemma ForbiddenBelow(p: Path, k: nat, transfer: bool)
    requires k <= |p| && !Forbidden(p, transfer)
    ensures !Forbidden(p[..k], transfer)
  {}

  lemma GitTravels()
    ensures !ForbiddenPart(".git", true)
  {
    assert Lower(".git") == ".git";
    assert forall c :: c in PRIVATE_NAMES ==> |c| > 4;
    assert ".git"[1] != ".env"[1];
    forall i | 0 <= i < |PRIVATE_SUFFIXES| ensures !EndsWith(".git", PRIVATE_SUFFIXES[i]) {
      assert |PRIVATE_SUFFIXES[i]| == 4 && PRIVATE_SUFFIXES[i] != ".git";
    }
  }
}
