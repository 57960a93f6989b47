/** Accounts ("seats") of one provider, and the variable that selects one of them. */
module Seats {
  import opened Wrappers

  type Seat = string

  const DEFAULT: Seat := "default"
  const MAX_SEATS: nat := 20

  /** `active` as the configuration has it, the seats besides the default one, the
      variable in the process's environment, and what the service set it to. */
  datatype Book = Book(active: Seat, items: set<Seat>, env: Option<string>, base: Option<string>)

  function Ids(b: Book): set<Seat> {
    {DEFAULT} + b.items
  }

  function Active(b: Book): (seat: Seat)
    ensures seat in Ids(b)
  {
    if b.active in Ids(b) then b.active else DEFAULT
  }

  function Directory(seat: Seat): string {
    "seats/" + seat
  }

  /** The variable for a CLI that runs as `seat`; an empty value is no value. */
  function Value(base: Option<string>, seat: Seat): Option<string> {
    if seat != DEFAULT then Some(Directory(seat))
    else if base == Some("") then None
    else base
  }

  function Applied(b: Book): Book {
    b.(env := Value(b.base, Active(b)))
  }

  function Created(b: Book, id: Seat): Book {
    if |b.items| < MAX_SEATS then b.(items := b.items + {id}) else b
  }

  /** `saved`: otherwise the configuration cannot be written, and the exception
      leaves the new choice in memory but not in the environment. */
  function Activated(b: Book, seat: Seat, saved: bool): Book {
    if saved then Applied(b.(active := seat)) else b.(active := seat)
  }

  function Removed(b: Book, seat: Seat): Book {
    if seat == DEFAULT || seat == Active(b) then b else b.(items := b.items - {seat})
  }

  /** The environment is that of the active seat. */
  predicate Coherent(b: Book) {
    b.env == Value(b.base, Active(b))
  }

  datatype Change = Create(id: Seat) | Activate(seat: Seat) | Remove(seat: Seat)

  function Changed(b: Book, c: Change): Book {
    match c
    case Create(id) => Created(b, id)
    case Activate(seat) => Activated(b, seat, true)
    case Remove(seat) => Removed(b, seat)
  }

  function AllChanged(b: Book, cs: seq<Change>): Book {
    if cs == [] then b else Changed(AllChanged(b, cs[..|cs| - 1]), cs[|cs| - 1])
  }

  /** Ids are drawn at random; none is drawn that is in use or stale. */
  ghost predicate FreshIds(b: Book, cs: seq<Change>) {
    forall i :: 0 <= i < |cs| && cs[i].Create? ==>
      cs[i].id !in Ids(AllChanged(b, cs[..i])) && cs[i].id != AllChanged(b, cs[..i]).active
  }

  lemma ChangeKeeps(b: Book, c: Change)
    requires Coherent(b) && |b.items| <= MAX_SEATS
    requires c.Create? ==> c.id !in Ids(b) && c.id != b.active
    ensures Coherent(Changed(b, c)) && |Changed(b, c).items| <= MAX_SEATS && Changed(b, c).base == b.base
    ensures !c.Activate? ==> Active(Changed(b, c)) == Active(b) && Changed(b, c).env == b.env
  {
    match c
    case Create(_) =>
    case Activate(_) =>
    case Remove(_) =>
  }

  /** Over every run of changes the environment is that of the active seat, which
      exists. */
  lemma {:induction false} EnvironmentFollows(b: Book, cs: seq<Change>)
    requires Coherent(b) && |b.items| <= MAX_SEATS && FreshIds(b, cs)
    ensures Coherent(AllChanged(b, cs)) && |AllChanged(b, cs).items| <= MAX_SEATS
    ensures AllChanged(b, cs).base == b.base
  {
    if cs != [] {
      hide Coherent, Changed, Ids;
      var n := |cs| - 1;
      assert forall i :: 0 <= i < n ==> cs[..n][..i] == cs[..i];
      EnvironmentFollows(b, cs[..n]);
      ChangeKeeps(AllChanged(b, cs[..n]), cs[n]);
    }
  }

  function RunOf(b: Book): seq<Change> -> Book {
    (cs: seq<Change>) => AllChanged(b, cs)
  }

  ghost function Adds(id: Seat): (Book, Change) -> bool {
    (b: Book, c: Change) => c == Create(id) && |b.items| < MAX_SEATS
  }

  /** Neither the default seat nor the one in use can be removed. */
  ghost function Drops(id: Seat): (Book, Change) -> bool {
    (b: Book, c: Change) => c == Remove(id) && id != DEFAULT && !(b.active == id && id in b.items)
  }

  ghost function Chooses(seat: Seat): (Book, Change) -> bool {
    (b: Book, c: Change) => c == Activate(seat)
  }

  ghost function ChoosesElse(seat: Seat): (Book, Change) -> bool {
    (b: Book, c: Change) => c.Activate? && c != Activate(seat)
  }

  lemma ChangeFollows(b: Book, c: Change, seat: Seat)
    ensures var k := Changed(b, c);
            && (seat in k.items <==> Adds(seat)(b, c) || (seat in b.items && !Drops(seat)(b, c)))
            && (k.active == seat <==> Chooses(seat)(b, c) || (b.active == seat && !ChoosesElse(seat)(b, c)))
            && k.base == b.base
  {}

  /** MAIN RESULT (seats): over every run a seat exists since it was created, or from the
      start, until it is removed while not in use, and the choice is the last one made. */
  lemma {:induction false} SeatsFollow(b: Book, cs: seq<Change>, seat: Seat)
    ensures var k := AllChanged(b, cs);
            && (seat in k.items <==> Lasting(seat in b.items, RunOf(b), cs, Adds(seat), Drops(seat)))
            && (k.active == seat <==> Lasting(b.active == seat, RunOf(b), cs, Chooses(seat), ChoosesElse(seat)))
            && k.base == b.base
  {
    if cs != [] {
      var n := |cs| - 1;
      var run := RunOf(b);
      SeatsFollow(b, cs[..n], seat);
      assert cs == cs[..n] + [cs[n]];
      ChangeFollows(AllChanged(b, cs[..n]), cs[n], seat);
      hide Lasting, Changed, Adds, Drops, Chooses, ChoosesElse;
      LastingMore(seat in b.items, run, cs[..n], cs[n], Adds(seat), Drops(seat));
      LastingMore(b.active == seat, run, cs[..n], cs[n], Chooses(seat), ChoosesElse(seat));
    }
  }

  /** The variable names the directory of the seat chosen, if that exists and is not the
      default one, and is otherwise what the service had set, an empty value being none. */
  lemma VariableFollows(b: Book, cs: seq<Change>)
    requires Coherent(b) && |b.items| <= MAX_SEATS && FreshIds(b, cs)
    ensures var k := AllChanged(b, cs);
            k.env == if k.active != "default" && k.active in k.items then Some("seats/" + k.active)
                     else if b.base == Some("") then None else b.base
  {
    EnvironmentFollows(b, cs);
    hide AllChanged;
  }

  /** Back on the default seat the variable is what the service had set, unless
      that was the empty string: then it is gone. */
  lemma DefaultRestores(b: Book, cs: seq<Change>)
    requires Coherent(b) && |b.items| <= MAX_SEATS && FreshIds(b, cs + [Activate(DEFAULT)])
    ensures AllChanged(b, cs + [Activate(DEFAULT)]).env == b.base <==> b.base != Some("")
  {
    EnvironmentFollows(b, cs + [Activate(DEFAULT)]);
    assert (cs + [Activate(DEFAULT)])[..|cs|] == cs;
  }

  /** Two seats never share a directory. */
  lemma DirectoriesApart(a: Seat, b: Seat)
    requires a != b
    ensures Directory(a) != Directory(b)
  {
    assert Directory(a)[6..] == a && Directory(b)[6..] == b;
  }

  /** Two seats mean the same environment exactly if they are the same, or one is the
      default whose own variable names the directory of the other. */
  lemma SameEnvironment(base: Option<string>, a: Seat, b: Seat)
    ensures Value(base, a) == Value(base, b)
            <==> || a == b
                 || (a == DEFAULT && base == Some(Directory(b)))
                 || (b == DEFAULT && base == Some(Directory(a)))
  {
    if a != b {
      DirectoriesApart(a, b);
    }
  }

  datatype Outcome = Done | Refused

  class SeatBook {
    var active: Seat
    var items: set<Seat>
    var env: Option<string>
    const base: Option<string>

    function State(): Book
      reads this
    {
      Book(active, items, env, base)
    }

    /** At start: `environment` is what the service set. */
    constructor (active: Seat, items: set<Seat>, environment: Option<string>)
      ensures State() == Applied(Book(active, items, environment, environment))
      ensures Coherent(State())
    {
      this.active, this.items, this.base := active, items, environment;
      this.env := Value(environment, if active in {DEFAULT} + items then active else DEFAULT);
    }

    method ApplyEnv()
      modifies this`env
      ensures State() == Applied(old(State()))
    {
      var seat := Active(State());
      var value := if seat != DEFAULT then Some(Directory(seat)) else base;
      if value.Some? && value.value != "" {
        env := value;
      } else {
        env := None;
      }
    }

    method Create(id: Seat) returns (outcome: Outcome)
      modifies this`items
      ensures State() == Created(old(State()), id)
      ensures outcome == Refused <==> |old(items)| >= MAX_SEATS
    {
      if |items| >= MAX_SEATS {
        return Refused;
      }
      items := items + {id};
      outcome := Done;
    }

    method Activate(seat: Seat, saved: bool) returns (outcome: Outcome)
      modifies this`active, this`env
      ensures State() == Activated(old(State()), seat, saved)
      ensures outcome == Done <==> saved
    {
      active := seat;
      if !saved {
        return Refused;
      }
      ApplyEnv();
      outcome := Done;
    }

    method Remove(seat: Seat) returns (outcome: Outcome)
      modifies this`items
      ensures State() == Removed(old(State()), seat)
      ensures outcome == Refused <==> seat == DEFAULT || seat == Active(old(State()))
    {
      if seat == DEFAULT || seat == Active(State()) {
        return Refused;
      }
      items := items - {seat};
      outcome := Done;
    }
  }
}
