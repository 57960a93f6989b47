/** Driver processes of one provider: start, rotation, reaping, healing. */
module Drivers {
  import opened Wrappers
  import opened Seats

  type Id = nat
  type Pid = nat

  const SOCKET_FAILURE_LIMIT: nat := 2
  const HEAL_DEFER_ROUNDS: nat := 30

  /** A process: its generation, the variable it was started with, whether it
      lives, whether it was told to terminate. */
  datatype Proc = Proc(gen: nat, env: Option<string>, alive: bool, told: bool)

  /** Where the discovery round stands; between any two points others may run. */
  datatype Phase = Resting | Stopping | Stopped | Looked | Probing

  /** `requests`: for each running request the generation of the driver that
      serves it, if any. `procs`: every process ever started. */
  datatype Host = Host(book: Book, gen: nat, current: Option<Pid>, retired: seq<(nat, Pid)>, tags: map<nat, Seat>,
                       procs: seq<Proc>, requests: map<Id, Option<nat>>, failures: nat, deferrals: nat, phase: Phase)

  predicate Lives(procs: seq<Proc>, p: Pid) {
    p < |procs| && procs[p].alive
  }

  predicate Serving(h: Host) {
    h.current.Some? && Lives(h.procs, h.current.value)
  }

  /** `_start_driver`. The tag is written before it is known that a process is
      needed. `spawned`: otherwise the binary cannot be started. */
  function Launched(h: Host, spawned: bool): Host {
    var tagged := h.(tags := h.tags[h.gen := Active(h.book)]);
    if Serving(h) || !spawned then tagged
    else tagged.(procs := h.procs + [Proc(h.gen, h.book.env, true, false)], current := Some(|h.procs|),
                 failures := 0, deferrals := 0)
  }

  predicate Busy(requests: map<Id, Option<nat>>, gen: nat) {
    exists id :: id in requests && requests[id] == Some(gen)
  }

  predicate Keep(h: Host, e: (nat, Pid)) {
    Busy(h.requests, e.0) && Lives(h.procs, e.1)
  }

  function Kept(h: Host, es: seq<(nat, Pid)>): seq<(nat, Pid)> {
    if es == [] then []
    else Kept(h, es[..|es| - 1]) + (if Keep(h, es[|es| - 1]) then [es[|es| - 1]] else [])
  }

  function Tell(procs: seq<Proc>, p: Pid): seq<Proc> {
    if Lives(procs, p) then procs[p := procs[p].(told := true)] else procs
  }

  function Told(h: Host, es: seq<(nat, Pid)>): seq<Proc> {
    if es == [] then h.procs
    else
      var before := Told(h, es[..|es| - 1]);
      if Keep(h, es[|es| - 1]) then before else Tell(before, es[|es| - 1].1)
  }

  /** `reap_retired`. */
  function Reaped(h: Host): Host {
    h.(retired := Kept(h, h.retired), procs := Told(h, h.retired))
  }

  /** The first half of `rotate_driver`: the running driver is put aside. */
  function PutAside(h: Host): Host {
    h.(current := None, retired := if Serving(h) then h.retired + [(h.gen, h.current.value)] else h.retired,
       gen := h.gen + 1)
  }

  /** `rotate_driver`; when the new driver cannot be started, an exception. */
  function Rotated(h: Host, spawned: bool): Host {
    var after := Launched(PutAside(h), spawned);
    if spawned then Reaped(after.(failures := 0)) else after
  }

  /** `driver_fault`. */
  predicate Faulty(h: Host, socket: bool) {
    Serving(h) && (!socket || h.failures >= SOCKET_FAILURE_LIMIT)
  }

  /** `heal_driver` up to the point where it stops the driver in a thread. */
  function Examined(h: Host, socket: bool): Host {
    if !Faulty(h, socket) then h.(phase := Looked)
    else if |h.requests| > 0 && h.deferrals < HEAL_DEFER_ROUNDS then h.(deferrals := h.deferrals + 1, phase := Looked)
    else h.(phase := Stopping)
  }

  /** `stop_driver`: it looks the driver up again. */
  function Halted(h: Host): Host {
    if Serving(h)
    then h.(procs := h.procs[h.current.value := h.procs[h.current.value].(alive := false, told := true)],
        phase := Stopped)
    else h.(phase := Stopped)
  }

  datatype Probe = Reached | Unreachable | Unusable

  function Probed(h: Host, probe: Probe): Host {
    var failures := match probe case Reached => 0 case Unreachable => h.failures + 1 case Unusable => h.failures;
    h.(failures := failures, phase := Resting)
  }

  datatype Event =
    | Create(seat: Seat)
    | Activate(seat: Seat, saved: bool, spawned: bool)
    | Remove(seat: Seat)
    | Begin(id: Id, viaDriver: bool)
    | End(id: Id)
    | Die(p: Pid)
    | Look(socket: bool)
    | Halt
    | Launch(spawned: bool)
    | Result(probe: Probe)

  predicate Enabled(h: Host, e: Event) {
    match e
    case Create(seat) => seat !in Ids(h.book) && seat != h.book.active
    case Begin(id, _) => id !in h.requests
    case End(id) => id in h.requests
    case Look(_) => h.phase == Resting
    case Halt => h.phase == Stopping
    case Launch(_) => h.phase == Looked || h.phase == Stopped
    case Result(_) => h.phase == Probing
    case _ => true
  }

  /** `execute` when it ends. */
  function Ended(h: Host, id: Id): Host {
    var after := h.(requests := h.requests - {id});
    if after.retired != [] then Reaped(after) else after
  }

  function Step(h: Host, e: Event): Host {
    match e
    case Create(seat) => h.(book := Created(h.book, seat))
    case Activate(seat, saved, spawned) =>
      var after := h.(book := Activated(h.book, seat, saved));
      if saved then Rotated(after, spawned) else after
    case Remove(seat) => h.(book := Removed(h.book, seat))
    case Begin(id, viaDriver) => h.(requests := h.requests[id := if viaDriver then Some(h.gen) else None])
    case End(id) => Ended(h, id)
    case Die(p) => if p < |h.procs| then h.(procs := h.procs[p := h.procs[p].(alive := false)]) else h
    case Look(socket) => Examined(h, socket)
    case Halt => Halted(h)
    case Launch(spawned) => Launched(h, spawned).(phase := if spawned || Serving(h) then Probing else Resting)
    case Result(probe) => Probed(h, probe)
  }

  function Start(book: Book): Host {
    Host(Applied(book), 0, None, [], map[], [], map[], 0, 0, Resting)
  }

  function Run(book: Book, es: seq<Event>): Host {
    if es == [] then Start(book) else Step(Run(book, es[..|es| - 1]), es[|es| - 1])
  }

  ghost predicate Possible(book: Book, es: seq<Event>) {
    forall i :: 0 <= i < |es| ==> Enabled(Run(book, es[..i]), es[i])
  }

  // ---- sockets ----

  function SocketPath(provider: string, gen: nat): string {
    provider + (if gen > 0 then "-" + Decimal(gen) else "") + ".sock"
  }

  /** Drivers of different generations never share a socket, nor do those of
      different providers. */
  lemma SocketsApart(p: string, q: string, g: nat, k: nat)
    requires p in ["claude", "codex", "opencode"] && q in ["claude", "codex", "opencode"]
    requires SocketPath(p, g) == SocketPath(q, k)
    ensures p == q && g == k
  {
    var s := SocketPath(p, g);
    assert s[1] == p[1] && s[1] == q[1];
    var n := |p|;
    assert s[n..|s| - 5] == if g > 0 then "-" + Decimal(g) else "";
    assert s[n..|s| - 5] == if k > 0 then "-" + Decimal(k) else "";
    if g > 0 && k > 0 {
      assert s[n..|s| - 5][1..] == Decimal(g) && s[n..|s| - 5][1..] == Decimal(k);
      DecimalInjective(g, k);
    }
  }

  // ---- processes and generations ----

  ghost predicate Listed(h: Host, p: Pid) {
    exists e :: e in h.retired && e.1 == p
  }

  /** Each process is the current one, retired, told to terminate, or dead; the
      generations of the retired drivers are distinct and past; at most one
      process of a generation lives. */
  ghost predicate Sound(h: Host) {
    && (h.current.Some? ==> h.current.value < |h.procs| && h.procs[h.current.value].gen == h.gen)
    && (Serving(h) ==> !h.procs[h.current.value].told)
    && (forall e :: e in h.retired ==>
          e.0 < h.gen && e.1 < |h.procs| && h.procs[e.1].gen == e.0 && !h.procs[e.1].told)
    && (forall i, j :: 0 <= i < j < |h.retired| ==> h.retired[i].0 < h.retired[j].0)
    && (forall p :: 0 <= p < |h.procs| ==>
          h.procs[p].gen <= h.gen
          && (h.procs[p].alive && h.procs[p].told ==> h.procs[p].gen < h.gen)
          && (!h.procs[p].alive || h.procs[p].told || h.current == Some(p) || Listed(h, p)))
    && (forall p, q :: 0 <= p < q < |h.procs| && h.procs[p].gen == h.procs[q].gen ==> !h.procs[p].alive)
  }

  /** Each driver runs with the environment of the seat its generation is tagged with. */
  ghost predicate Attributed(h: Host) {
    && Coherent(h.book)
    && (forall p :: 0 <= p < |h.procs| ==>
          h.procs[p].gen in h.tags && h.procs[p].env == Value(h.book.base, h.tags[h.procs[p].gen]))
    && (forall g :: g in h.tags ==> g <= h.gen)
    && (h.gen in h.tags ==> h.tags[h.gen] == Active(h.book))
  }

  lemma {:induction false} KeptExactly(h: Host, es: seq<(nat, Pid)>)
    ensures forall e :: e in Kept(h, es) <==> e in es && Keep(h, e)
    ensures (forall i, j :: 0 <= i < j < |es| ==> es[i].0 < es[j].0) ==>
              forall i, j :: 0 <= i < j < |Kept(h, es)| ==> Kept(h, es)[i].0 < Kept(h, es)[j].0
  {
    hide Keep;
    if es != [] {
      var n := |es| - 1;
      KeptExactly(h, es[..n]);
      assert es == es[..n] + [es[n]];
      var kept := Kept(h, es[..n]);
      assert forall i :: 0 <= i < |kept| ==> kept[i] in kept && kept[i] in es[..n];
      assert forall e :: e in es[..n] ==> exists i :: 0 <= i < n && es[i] == e;
    }
  }

  /** The same processes, some of them told to terminate. */
  ghost predicate OnlyTold(before: seq<Proc>, after: seq<Proc>) {
    && |after| == |before|
    && forall p :: 0 <= p < |before| ==>
         after[p] == before[p] || (before[p].alive && after[p] == before[p].(told := true))
  }

  lemma {:induction false} ToldExactly(h: Host, es: seq<(nat, Pid)>)
    ensures OnlyTold(h.procs, Told(h, es))
    ensures forall p :: 0 <= p < |h.procs| ==>
              (Told(h, es)[p].told
               <==> h.procs[p].told || (h.procs[p].alive && exists e :: e in es && e.1 == p && !Keep(h, e)))
  {
    hide Keep;
    if es != [] {
      var n := |es| - 1;
      ToldExactly(h, es[..n]);
      assert es == es[..n] + [es[n]];
      var before, after := Told(h, es[..n]), Told(h, es);
      forall p | 0 <= p < |h.procs|
        ensures after[p].told
                <==> h.procs[p].told || (h.procs[p].alive && exists e :: e in es && e.1 == p && !Keep(h, e))
      {
        if es[n].1 == p && !Keep(h, es[n]) {
          assert es[n] in es;
        }
      }
    }
  }

  /** MAIN RESULT (reaping): a retired driver stays exactly when it lives and still
      serves a request of its own generation; only the others are told to
      terminate. */
  lemma ReapedExactly(h: Host)
    requires Sound(h)
    ensures var after := Reaped(h);
            && Sound(after) && |after.procs| == |h.procs|
            && (forall e :: e in after.retired <==> e in h.retired && Busy(h.requests, e.0) && h.procs[e.1].alive)
            && (forall p :: 0 <= p < |h.procs| && after.procs[p].told && !h.procs[p].told ==>
                  !Busy(h.requests, h.procs[p].gen))
  {
    KeptExactly(h, h.retired);
    ToldExactly(h, h.retired);
    hide Kept, Told, Busy;
    var after := Reaped(h);
    forall p | 0 <= p < |h.procs|
      ensures !after.procs[p].alive || after.procs[p].told || after.current == Some(p) || Listed(after, p)
    {
      if h.procs[p].alive && !h.procs[p].told && h.current != Some(p) {
        var e :| e in h.retired && e.1 == p;
        assert Keep(h, e) ==> e in after.retired;
      }
    }
  }

  lemma LaunchedSound(h: Host, spawned: bool)
    requires Sound(h)
    ensures Sound(Launched(h, spawned))
  {}

  lemma PutAsideSound(h: Host)
    requires Sound(h)
    ensures Sound(PutAside(h))
  {
    var after := PutAside(h);
    if Serving(h) {
      assert after.retired[|h.retired|] == (h.gen, h.current.value);
      assert forall i :: 0 <= i < |h.retired| ==> after.retired[i] == h.retired[i];
    }
    forall p | 0 <= p < |h.procs| && h.procs[p].alive && !h.procs[p].told ensures Listed(after, p) {
      PutAsideListed(h, p);
    }
    hide Listed;
  }

  lemma PutAsideListed(h: Host, p: Pid)
    requires Listed(h, p) || (Serving(h) && h.current == Some(p) && p < |h.procs| && h.procs[p].gen == h.gen)
    ensures Listed(PutAside(h), p)
  {}

  lemma RotatedSound(h: Host, spawned: bool)
    requires Sound(h)
    ensures Sound(Rotated(h, spawned))
  {
    PutAsideSound(h);
    hide Sound, Launched;
    LaunchedSound(PutAside(h), spawned);
    var after := Launched(PutAside(h), spawned);
    SoundIgnores(after, after.(failures := 0));
    if spawned {
      ReapedExactly(after.(failures := 0));
    }
  }

  lemma SoundIgnores(h: Host, k: Host)
    requires Sound(h)
    requires (k.gen, k.current, k.retired, k.procs) == (h.gen, h.current, h.retired, h.procs)
    ensures Sound(k)
  {}

  lemma KilledSound(h: Host, p: Pid, told: bool)
    requires Sound(h) && p < |h.procs|
    requires told ==> h.current == Some(p)
    ensures Sound(h.(procs := h.procs[p := h.procs[p].(alive := false, told := h.procs[p].told || told)]))
  {}

  lemma StepSound(h: Host, e: Event)
    requires Sound(h) && Enabled(h, e)
    ensures Sound(Step(h, e))
  {
    hide Sound, Launched, Rotated, Reaped, Created, Activated, Removed;
    match e
    case Activate(seat, saved, spawned) =>
      var after := h.(book := Activated(h.book, seat, saved));
      SoundIgnores(h, after);
      if saved {
        RotatedSound(after, spawned);
      }
    case End(id) =>
      var after := h.(requests := h.requests - {id});
      SoundIgnores(h, after);
      ReapedExactly(after);
    case Launch(spawned) =>
      LaunchedSound(h, spawned);
      SoundIgnores(Launched(h, spawned), Step(h, e));
    case Die(p) =>
      if p < |h.procs| {
        KilledSound(h, p, false);
      }
    case Halt =>
      if Serving(h) {
        KilledSound(h, h.current.value, true);
        SoundIgnores(h.(procs := Step(h, e).procs), Step(h, e));
      } else {
        SoundIgnores(h, Step(h, e));
      }
    case _ => SoundIgnores(h, Step(h, e));
  }

  // ---- whose account a request runs on ----

  predicate Saved(e: Event) {
    e.Activate? ==> e.saved
  }

  lemma LaunchedAttributed(h: Host, spawned: bool)
    requires Attributed(h) && Sound(h)
    ensures Attributed(Launched(h, spawned))
  {}

  lemma ReapedAttributed(h: Host)
    requires Attributed(h)
    ensures Attributed(Reaped(h))
  {
    ToldExactly(h, h.retired);
    hide Kept, Told;
  }

  lemma AttributedIgnores(h: Host, k: Host)
    requires Attributed(h) && OnlyKilled(h.procs, k.procs)
    requires (k.gen, k.book, k.tags) == (h.gen, h.book, h.tags)
    ensures Attributed(k)
  {}

  ghost predicate OnlyKilled(before: seq<Proc>, after: seq<Proc>) {
    && |after| == |before|
    && forall p :: 0 <= p < |before| ==> (after[p].gen, after[p].env) == (before[p].gen, before[p].env)
  }

  lemma StepAttributed(h: Host, e: Event)
    requires Attributed(h) && Sound(h) && Enabled(h, e) && Saved(e)
    ensures Attributed(Step(h, e))
  {
    match e
    case Activate(seat, saved, spawned) =>
      var after := PutAside(h.(book := Activated(h.book, seat, saved)));
      assert Attributed(after);
      SoundIgnores(h, h.(book := after.book));
      PutAsideSound(h.(book := after.book));
      hide Sound, Launched, Reaped, Attributed;
      LaunchedAttributed(after, spawned);
      var l := Launched(after, spawned);
      AttributedIgnores(l, l.(failures := 0));
      ReapedAttributed(l.(failures := 0));
    case Create(seat) => assert h.book.items + {seat} >= h.book.items;
    case Remove(seat) =>
    case End(id) =>
      hide Sound, Reaped, Attributed;
      AttributedIgnores(h, h.(requests := h.requests - {id}));
      ReapedAttributed(h.(requests := h.requests - {id}));
    case Launch(spawned) =>
      LaunchedAttributed(h, spawned);
      hide Sound, Launched, Attributed;
      AttributedIgnores(Launched(h, spawned), Step(h, e));
    case _ =>
      hide Sound, Attributed;
      AttributedIgnores(h, Step(h, e));
  }

  /** The seat named in the stream of a request that generation `gen` serves. */
  function SeatTag(h: Host, gen: nat): Seat {
    if gen in h.tags then h.tags[gen] else Active(h.book)
  }

  ghost predicate AllSaved(es: seq<Event>) {
    forall e :: e in es ==> Saved(e)
  }

  lemma StartSound(book: Book)
    ensures Sound(Start(book)) && Attributed(Start(book)) && Patient(Start(book), 0)
  {}

  lemma Shorter(book: Book, es: seq<Event>)
    requires Possible(book, es) && es != []
    ensures Possible(book, es[..|es| - 1]) && Enabled(Run(book, es[..|es| - 1]), es[|es| - 1])
  {
    hide Enabled, Step;
    var n := |es| - 1;
    assert forall i :: 0 <= i < n ==> es[..n][..i] == es[..i];
  }

  lemma {:induction false} RunSound(book: Book, es: seq<Event>)
    requires Possible(book, es)
    ensures Sound(Run(book, es))
    ensures AllSaved(es) ==> Attributed(Run(book, es))
  {
    hide Step, Enabled, Saved, Sound, Attributed, Possible, Start;
    if es == [] {
      StartSound(book);
    } else {
      var n := |es| - 1;
      Shorter(book, es);
      RunSound(book, es[..n]);
      StepSound(Run(book, es[..n]), es[n]);
      if AllSaved(es) {
        assert forall e :: e in es[..n] ==> e in es;
        StepAttributed(Run(book, es[..n]), es[n]);
      }
    }
  }

  /** MAIN RESULT (generations): over every run, each process ever started is the
      current one, retired, told to terminate, or dead; retired drivers live under
      distinct past generations; no two processes of one generation live, so a
      request is served by the driver it was counted for. */
  lemma {:induction false} ProcessesAccountedFor(book: Book, es: seq<Event>, p: Pid)
    requires Possible(book, es) && Lives(Run(book, es).procs, p)
    ensures var h := Run(book, es);
            && (h.current == Some(p) || (h.procs[p].gen, p) in h.retired || h.procs[p].told)
            && (h.procs[p].gen == h.gen <==> h.current == Some(p))
            && (forall q: Pid :: q != p && Lives(h.procs, q) ==> h.procs[q].gen != h.procs[p].gen)
  {
    RunSound(book, es);
    hide Run, Possible, Attributed;
    var h := Run(book, es);
    if Listed(h, p) {
      var e :| e in h.retired && e.1 == p;
      assert e == (h.procs[p].gen, p);
    }
    forall q: Pid | q != p && Lives(h.procs, q) ensures h.procs[q].gen != h.procs[p].gen {}
  }

  /** MAIN RESULT (attribution): while the configuration can be saved, the seat
      named for a request is the one whose environment its driver was started with. */
  lemma {:induction false} SeatOfRequest(book: Book, es: seq<Event>, id: Id, p: Pid)
    requires Possible(book, es) && AllSaved(es)
    requires var h := Run(book, es);
             p < |h.procs| && id in h.requests && h.requests[id] == Some(h.procs[p].gen)
    ensures var h := Run(book, es);
            h.procs[p].env == Value(h.book.base, SeatTag(h, h.procs[p].gen))
    ensures Run(book, es).book.env == Value(Run(book, es).book.base, Active(Run(book, es).book))
  {
    RunSound(book, es);
    hide Run;
  }

  /** When the switch cannot be saved: the next round labels the driver that is
      already running with the seat that was asked for, rightly only if both
      seats mean the same environment. */
  lemma UnsavedSwitch(h: Host, seat: Seat)
    requires Sound(h) && Attributed(h) && Serving(h) && seat in Ids(h.book)
    ensures var after := Launched(Step(h, Event.Activate(seat, false, false)), true);
            && Serving(after) && after.current == h.current && after.gen == h.gen
            && (after.procs[after.current.value].env == Value(h.book.base, SeatTag(after, h.gen))
                <==> Value(h.book.base, seat) == Value(h.book.base, Active(h.book)))
            && (after.procs[after.current.value].env == Value(h.book.base, SeatTag(after, h.gen))
                <==> || seat == Active(h.book)
                     || (seat == DEFAULT && h.book.base == Some(Directory(Active(h.book))))
                     || (Active(h.book) == DEFAULT && h.book.base == Some(Directory(seat))))
  {
    SameEnvironment(h.book.base, seat, Active(h.book));
  }

  // ---- requests and generations, by the events alone ----

  function RunOf(book: Book): seq<Event> -> Host {
    es => Run(book, es)
  }

  predicate Rotates(e: Event) {
    e.Activate? && e.saved
  }

  /** How often the seat has been switched. */
  function Switches(es: seq<Event>): nat {
    if es == [] then 0
    else Switches(es[..|es| - 1]) + if Rotates(es[|es| - 1]) then 1 else 0
  }

  lemma GenAfter(h: Host, e: Event)
    ensures Step(h, e).gen == h.gen + if Rotates(e) then 1 else 0
  {
    hide Reaped, Activated, Created, Removed;
    match e
    case Activate(seat, saved, spawned) =>
      ReapedSame(Launched(PutAside(h.(book := Activated(h.book, seat, saved))), spawned).(failures := 0));
    case End(id) => ReapedSame(h.(requests := h.requests - {id}));
    case _ =>
  }

  lemma {:induction false} GenFollows(book: Book, es: seq<Event>)
    ensures Run(book, es).gen == Switches(es)
  {
    if es != [] {
      var n := |es| - 1;
      GenFollows(book, es[..n]);
      GenAfter(Run(book, es[..n]), es[n]);
      hide Step;
    }
  }

  /** Request `id` begins, on a driver of generation `g` or without one. */
  function Begins(id: Id, g: Option<nat>): (Host, Event) -> bool {
    (h: Host, e: Event) => e.Begin? && e.id == id && g == if e.viaDriver then Some(h.gen) else None
  }

  function Ends(id: Id): (Host, Event) -> bool {
    (h: Host, e: Event) => e == End(id)
  }

  /** Request `id` has begun like this and has not ended. */
  ghost predicate OpenOn(book: Book, es: seq<Event>, id: Id, g: Option<nat>) {
    Since(RunOf(book), es, Begins(id, g), Ends(id))
  }

  lemma SinceLast(book: Book, es: seq<Event>, opens: (Host, Event) -> bool, closes: (Host, Event) -> bool)
    requires es != []
    ensures var n := |es| - 1;
            Since(RunOf(book), es, opens, closes)
            <==> || opens(Run(book, es[..n]), es[n])
                 || (Since(RunOf(book), es[..n], opens, closes) && !closes(Run(book, es[..n]), es[n]))
  {
    hide Since, Run;
    var n := |es| - 1;
    assert es == es[..n] + [es[n]];
    SinceMore(RunOf(book), es[..n], es[n], opens, closes);
  }

  lemma RequestStep(h: Host, e: Event, id: Id, g: Option<nat>)
    requires Enabled(h, e)
    ensures var after := Step(h, e).requests;
            id in after && after[id] == g
            <==> Begins(id, g)(h, e) || (id in h.requests && h.requests[id] == g && !Ends(id)(h, e))
  {
    hide Reaped, Created, Removed, Activated;
    match e
    case Activate(seat, saved, spawned) =>
      ReapedSame(Launched(PutAside(h.(book := Activated(h.book, seat, saved))), spawned).(failures := 0));
    case End(other) => ReapedSame(h.(requests := h.requests - {other}));
    case _ =>
  }

  /** MAIN RESULT (requests): the table holds exactly the requests that have begun and
      not ended, each with the generation that was current when it began. */
  lemma {:induction false} RequestsFollow(book: Book, es: seq<Event>, id: Id, g: Option<nat>)
    requires Possible(book, es)
    ensures var h := Run(book, es); id in h.requests && h.requests[id] == g <==> OpenOn(book, es, id, g)
  {
    assert es == [] ==> !OpenOn(book, es, id, g);
    hide Since, Step, Enabled, Possible, Begins, Ends, RunOf;
    if es != [] {
      var n := |es| - 1;
      Shorter(book, es);
      RequestsFollow(book, es[..n], id, g);
      SinceLast(book, es, Begins(id, g), Ends(id));
      RequestStep(Run(book, es[..n]), es[n], id, g);
    }
  }

  /** A request that has begun on generation `g` is still running. */
  ghost predicate InUse(book: Book, es: seq<Event>, g: nat) {
    exists id :: OpenOn(book, es, id, Some(g))
  }

  lemma InUseIs(book: Book, es: seq<Event>, g: nat)
    requires Possible(book, es)
    ensures Busy(Run(book, es).requests, g) <==> InUse(book, es, g)
  {
    var h := Run(book, es);
    forall id ensures id in h.requests && h.requests[id] == Some(g) <==> OpenOn(book, es, id, Some(g)) {
      RequestsFollow(book, es, id, Some(g));
    }
    hide OpenOn, Possible, Run;
  }

  /** After every rotation and every request's end the retired drivers are exactly
      those that live and that a running request was begun on. */
  lemma {:induction false} RetiredAreBusy(book: Book, es: seq<Event>, e: Event)
    requires Possible(book, es + [e])
    requires e.End? || (e.Activate? && e.saved && e.spawned)
    ensures var h, after := Run(book, es), Run(book, es + [e]);
            && (forall r :: r in after.retired ==> InUse(book, es + [e], r.0) && Lives(after.procs, r.1))
            && (forall r ::
                  && (r in h.retired || (e.Activate? && Serving(h) && r == (h.gen, h.current.value)))
                  && InUse(book, es + [e], r.0) && Lives(h.procs, r.1) ==>
                    r in after.retired)
  {
    forall g: nat ensures Busy(Run(book, es + [e]).requests, g) <==> InUse(book, es + [e], g) {
      InUseIs(book, es + [e], g);
    }
    LastStep(book, es, e);
    RunSound(book, es);
    hide Run, InUse, Possible;
    ReapedAfter(Run(book, es), e);
  }

  lemma LastStep(book: Book, es: seq<Event>, e: Event)
    requires Possible(book, es + [e])
    ensures Possible(book, es) && Enabled(Run(book, es), e) && Run(book, es + [e]) == Step(Run(book, es), e)
  {
    hide Step, Enabled;
    Shorter(book, es + [e]);
    assert (es + [e])[..|es|] == es;
  }

  lemma ReapedAfter(h: Host, e: Event)
    requires Sound(h) && Enabled(h, e) && (e.End? || (e.Activate? && e.saved && e.spawned))
    ensures var after := Step(h, e);
            && (forall r :: r in after.retired ==> Busy(after.requests, r.0) && Lives(after.procs, r.1))
            && (forall r ::
                  && (r in h.retired || (e.Activate? && Serving(h) && r == (h.gen, h.current.value)))
                  && Busy(after.requests, r.0) && Lives(h.procs, r.1) ==>
                    r in after.retired)
  {
    if e.End? {
      var k := h.(requests := h.requests - {e.id});
      SoundIgnores(h, k);
      ReapedBusy(k);
    } else {
      var b := h.(book := Activated(h.book, e.seat, true));
      var k := PutAside(b);
      hide Sound, Activated, Busy;
      SoundIgnores(h, b);
      PutAsideSound(b);
      LaunchedSound(k, true);
      SoundIgnores(Launched(k, true), Launched(k, true).(failures := 0));
      ReapedBusy(Launched(k, true).(failures := 0));
    }
  }

  lemma ReapedBusy(h: Host)
    requires Sound(h)
    ensures forall r :: r in Reaped(h).retired ==> Busy(h.requests, r.0) && Lives(Reaped(h).procs, r.1)
    ensures forall r :: r in h.retired && Busy(h.requests, r.0) && Lives(h.procs, r.1) ==> r in Reaped(h).retired
  {
    ReapedExactly(h);
    ToldExactly(h, h.retired);
    hide Kept, Told, Busy;
  }

  // ---- what each event does to the processes ----

  /** A process is started. */
  predicate Starts(h: Host, e: Event) {
    (e == Launch(true) && !Serving(h)) || (Rotates(e) && e.spawned)
  }

  /** What becomes of `p` when `e` happens; `inUse`: a running request was begun on its
      generation. */
  predicate Dies(h: Host, e: Event, p: Pid) {
    e == Die(p) || (e == Halt && h.current == Some(p))
  }

  predicate IsTold(h: Host, e: Event, p: Pid, inUse: bool)
    requires p < |h.procs|
  {
    && h.procs[p].alive
    && (|| (e == Halt && h.current == Some(p))
        || ((e.End? || (Rotates(e) && e.spawned)) && !inUse
            && (|| (exists r :: r in h.retired && r.1 == p)
                || (Rotates(e) && h.current == Some(p)))))
  }

  lemma ReapedProcs(h: Host, p: Pid)
    requires Sound(h) && p < |h.procs|
    ensures var after := Reaped(h).procs;
            && |after| == |h.procs|
            && (after[p].gen, after[p].env, after[p].alive) == (h.procs[p].gen, h.procs[p].env, h.procs[p].alive)
            && (after[p].told
                <==> h.procs[p].told || (h.procs[p].alive && Listed(h, p) && !Busy(h.requests, h.procs[p].gen)))
  {
    ToldExactly(h, h.retired);
    hide Told, Busy, Kept;
    if Listed(h, p) {
      var r :| r in h.retired && r.1 == p;
    }
  }

  lemma ProcsAfter(h: Host, e: Event, p: Pid)
    requires Sound(h) && Enabled(h, e) && p < |h.procs|
    ensures var after := Step(h, e);
            && p < |after.procs|
            && (after.procs[p].gen, after.procs[p].env) == (h.procs[p].gen, h.procs[p].env)
            && (after.procs[p].alive <==> h.procs[p].alive && !Dies(h, e, p))
            && (after.procs[p].told
                <==> h.procs[p].told || IsTold(h, e, p, Busy(after.requests, h.procs[p].gen)))
  {
    match e
    case End(id) =>
      var k := h.(requests := h.requests - {id});
      SoundIgnores(h, k);
      ReapedProcs(k, p);
      ReapedSame(k);
      hide Sound, Busy, Reaped;
    case Activate(seat, saved, spawned) =>
      if saved && spawned {
        RotatedProcs(h, h.(book := Activated(h.book, seat, saved)), p);
      }
      hide Sound, Busy, Reaped, Activated;
    case _ => hide Sound, Busy, Reaped, Created, Removed;
  }

  lemma RotatedProcs(h: Host, b: Host, p: Pid)
    requires Sound(h) && p < |h.procs| && b == h.(book := b.book)
    ensures var after := Rotated(b, true);
            && after.requests == h.requests && |after.procs| == |h.procs| + 1
            && (after.procs[p].gen, after.procs[p].env, after.procs[p].alive)
               == (h.procs[p].gen, h.procs[p].env, h.procs[p].alive)
            && (after.procs[p].told
                <==> || h.procs[p].told
                     || (h.procs[p].alive && !Busy(h.requests, h.procs[p].gen)
                         && (Listed(h, p) || h.current == Some(p))))
            && after.procs[|h.procs|] == Proc(h.gen + 1, b.book.env, true, false) && after.current == Some(|h.procs|)
  {
    SoundIgnores(h, b);
    PutAsideSound(b);
    var k := Launched(PutAside(b), true);
    var l := k.(failures := 0);
    LaunchedSound(PutAside(b), true);
    SoundIgnores(k, l);
    ReapedProcs(l, p);
    ReapedProcs(l, |h.procs|);
    ReapedSame(l);
    assert Serving(h) && h.current == Some(p) ==> PutAside(b).retired[|h.retired|] == (h.gen, p);
    assert Listed(l, p) <==> Listed(h, p) || (Serving(h) && h.current == Some(p)) by {
      if Listed(h, p) {
        var r :| r in h.retired && r.1 == p;
        assert r in l.retired;
      }
    }
    assert !Listed(l, |h.procs|);
    hide Reaped, Busy;
  }

  /** MAIN RESULT (processes): what every event of every run does. A process is started
      with the environment and generation of that moment, exactly by a launch when none
      serves or by a switch; one dies by itself or when healing stops it; one is told to
      terminate exactly then, or when it has been retired and no running request was
      begun on its generation. */
  lemma {:induction false} ProcessesFollow(book: Book, es: seq<Event>, e: Event)
    requires Possible(book, es + [e])
    ensures var h, after := Run(book, es), Run(book, es + [e]);
            && |after.procs| == |h.procs| + (if Starts(h, e) then 1 else 0)
            && (if Starts(h, e)
                then && after.current == Some(|h.procs|)
                     && after.procs[|h.procs|] == Proc(Switches(es + [e]), after.book.env, true, false)
                else after.current == if Rotates(e) then None else h.current)
            && forall p :: 0 <= p < |h.procs| ==>
                 && after.procs[p].gen == h.procs[p].gen && after.procs[p].env == h.procs[p].env
                 && (after.procs[p].alive <==> h.procs[p].alive && !Dies(h, e, p))
                 && (after.procs[p].told
                     <==> h.procs[p].told || IsTold(h, e, p, InUse(book, es + [e], h.procs[p].gen)))
  {
    forall g: nat ensures Busy(Run(book, es + [e]).requests, g) <==> InUse(book, es + [e], g) {
      InUseIs(book, es + [e], g);
    }
    GenFollows(book, es + [e]);
    LastStep(book, es, e);
    RunSound(book, es);
    var h := Run(book, es);
    StartAfter(h, e);
    forall p | 0 <= p < |h.procs|
      ensures var after := Step(h, e);
              && p < |after.procs|
              && after.procs[p].gen == h.procs[p].gen && after.procs[p].env == h.procs[p].env
              && (after.procs[p].alive <==> h.procs[p].alive && !Dies(h, e, p))
              && (after.procs[p].told
                  <==> h.procs[p].told || IsTold(h, e, p, Busy(after.requests, h.procs[p].gen)))
    {
      ProcsAfter(h, e, p);
    }
    hide Run, Step, InUse, Busy, Possible, Sound, Switches, IsTold, Dies, Starts;
  }

  lemma StartAfter(h: Host, e: Event)
    requires Sound(h) && Enabled(h, e)
    ensures var after := Step(h, e);
            && |after.procs| == |h.procs| + (if Starts(h, e) then 1 else 0)
            && (if Starts(h, e)
                then && after.current == Some(|h.procs|)
                     && after.procs[|h.procs|] == Proc(after.gen, after.book.env, true, false)
                else after.current == if Rotates(e) then None else h.current)
  {
    match e
    case End(id) =>
      ReapedSame(h.(requests := h.requests - {id}));
      hide Sound, Reaped;
    case Activate(seat, saved, spawned) =>
      if saved && spawned {
        var b := h.(book := Activated(h.book, seat, saved));
        SoundIgnores(h, b);
        PutAsideSound(b);
        var k := Launched(PutAside(b), true);
        var l := k.(failures := 0);
        LaunchedSound(PutAside(b), true);
        SoundIgnores(k, l);
        ReapedProcs(l, |h.procs|);
        ReapedSame(l);
        assert !Listed(l, |h.procs|);
      }
      hide Sound, Reaped, Activated;
    case _ => hide Sound, Reaped, Created, Removed;
  }

  /** The round and the tags: healing goes from looking to stopping or launching, to a
      probe if a driver serves, and back to rest; a generation is tagged with the active
      seat at each launch and each switch. */
  lemma {:induction false} RoundFollows(book: Book, es: seq<Event>, e: Event)
    requires Possible(book, es + [e])
    ensures var h, after := Run(book, es), Run(book, es + [e]);
            && after.phase == (match e
                 case Look(socket) =>
                   if AtFault(book, es, socket) && (h.requests == map[] || Waited(book, es) >= HEAL_DEFER_ROUNDS)
                   then Stopping else Looked
                 case Halt => Stopped
                 case Launch(spawned) => if Serving(after) then Probing else Resting
                 case Result(_) => Resting
                 case _ => h.phase)
            && after.tags == if e.Launch? || Rotates(e) then h.tags[Switches(es + [e]) := Active(after.book)]
                             else h.tags
  {
    LastStep(book, es, e);
    GenFollows(book, es + [e]);
    Counted(book, es);
    var h := Run(book, es);
    hide Run, Switches, Possible, Waited, Failed;
    PhaseAfter(h, e);
  }

  function BookOf(b: Book, e: Event): Book {
    match e
    case Create(id) => Created(b, id)
    case Remove(seat) => Removed(b, seat)
    case Activate(seat, saved, _) => Activated(b, seat, saved)
    case _ => b
  }

  lemma BookAfter(h: Host, e: Event)
    requires Enabled(h, e)
    ensures Step(h, e).book == BookOf(h.book, e)
  {
    hide Reaped, Created, Removed, Activated;
    match e
    case Activate(seat, saved, spawned) =>
      ReapedSame(Launched(PutAside(h.(book := Activated(h.book, seat, saved))), spawned).(failures := 0));
    case End(id) => ReapedSame(h.(requests := h.requests - {id}));
    case _ =>
  }

  lemma ItemsAfter(b: Book, e: Event, s: Seat)
    ensures s in BookOf(b, e).items
            <==> (e == Event.Create(s) && |b.items| < MAX_SEATS)
                 || (s in b.items && !(e == Event.Remove(s) && s != DEFAULT && b.active != s))
  {}

  lemma ChoiceAfter(b: Book, e: Event)
    ensures var after := BookOf(b, e);
            && after.active == (if e.Activate? then e.seat else b.active) && after.base == b.base
            && after.env == if !Rotates(e) then b.env
                            else if e.seat != "default" && e.seat in b.items then Some("seats/" + e.seat)
                            else if b.base == Some("") then None else b.base
  {}

  /** The seats: which of them exist and which is chosen changes as asked, whether or not
      the choice can be saved; the variable follows when it can, and not before. */
  lemma BookFollows(book: Book, es: seq<Event>, e: Event, s: Seat)
    requires Possible(book, es + [e])
    ensures var b, after := Run(book, es).book, Run(book, es + [e]).book;
            && after.active == (if e.Activate? then e.seat else b.active) && after.base == b.base
            && (s in after.items
                <==> (e == Event.Create(s) && |b.items| < MAX_SEATS)
                     || (s in b.items && !(e == Event.Remove(s) && s != DEFAULT && b.active != s)))
            && after.env == if !Rotates(e) then b.env
                            else if e.seat != "default" && e.seat in b.items then Some("seats/" + e.seat)
                            else if b.base == Some("") then None else b.base
  {
    LastStep(book, es, e);
    BookAfter(Run(book, es), e);
    ItemsAfter(Run(book, es).book, e, s);
    ChoiceAfter(Run(book, es).book, e);
    hide Run, Possible, Step, BookOf;
  }

  lemma PhaseAfter(h: Host, e: Event)
    requires Enabled(h, e)
    ensures var after := Step(h, e);
            && after.phase == (match e
                 case Look(socket) =>
                   if Faulty(h, socket) && (h.requests == map[] || h.deferrals >= HEAL_DEFER_ROUNDS)
                   then Stopping else Looked
                 case Halt => Stopped
                 case Launch(spawned) => if Serving(after) then Probing else Resting
                 case Result(_) => Resting
                 case _ => h.phase)
            && after.tags == (if e.Launch? || Rotates(e) then h.tags[after.gen := Active(after.book)] else h.tags)
  {
    hide Reaped;
    match e
    case Activate(seat, saved, spawned) =>
      ReapedSame(Launched(PutAside(h.(book := Activated(h.book, seat, saved))), spawned).(failures := 0));
      hide Activated;
    case End(id) => ReapedSame(h.(requests := h.requests - {id}));
    case _ => hide Created, Removed;
  }

  // ---- healing ----

  /** How many probes in a row could not connect since a process was last started. */
  function Streak(book: Book, es: seq<Event>): nat {
    if es == [] then 0
    else
      var n := |es| - 1;
      var before, e := Run(book, es[..n]), es[n];
      if |Step(before, e).procs| > |before.procs| then 0
      else if e == Result(Unreachable) then Streak(book, es[..n]) + 1
      else if e.Result? then 0
      else Streak(book, es[..n])
  }

  ghost predicate Patient(h: Host, streak: nat) {
    var extra := if h.failures >= SOCKET_FAILURE_LIMIT
                    && (h.phase == Probing || (h.phase == Looked && Serving(h))) then 1 else 0;
    var counted := if h.failures < SOCKET_FAILURE_LIMIT then h.failures else SOCKET_FAILURE_LIMIT;
    && h.deferrals <= HEAL_DEFER_ROUNDS
    && streak + extra <= counted + h.deferrals
    && (h.phase == Stopped && Serving(h) ==> h.failures < SOCKET_FAILURE_LIMIT)
  }

  lemma ReapedSame(h: Host)
    ensures var after := Reaped(h);
            && |after.procs| == |h.procs| && (Serving(after) <==> Serving(h))
            && after == h.(retired := after.retired, procs := after.procs)
  {
    ToldExactly(h, h.retired);
    hide Told, Kept;
  }

  lemma StepPatient(h: Host, e: Event, streak: nat)
    requires Enabled(h, e) && Patient(h, streak)
    ensures var after := Step(h, e);
            Patient(after,
              if |after.procs| > |h.procs| then 0
              else if e == Result(Unreachable) then streak + 1
              else if e.Result? then 0
              else streak)
  {
    hide Reaped;
    match e
    case Activate(seat, saved, spawned) =>
      ReapedSame(Launched(PutAside(h.(book := Activated(h.book, seat, saved))), spawned).(failures := 0));
      hide Activated;
    case End(id) => ReapedSame(h.(requests := h.requests - {id}));
    case _ => hide Created, Removed;
  }

  /** MAIN RESULT (healing): whatever requests, seat switches and crashes do in
      between, a driver that cannot be reached is replaced before the 33rd failed
      probe, and no restart is put off more than 30 times. */
  lemma {:induction false} RestartInTime(book: Book, es: seq<Event>)
    requires Possible(book, es)
    ensures Streak(book, es) <= SOCKET_FAILURE_LIMIT + HEAL_DEFER_ROUNDS
    ensures Run(book, es).deferrals <= HEAL_DEFER_ROUNDS
  {
    RunPatient(book, es);
    hide Run, Streak, Possible;
  }

  lemma {:induction false} RunPatient(book: Book, es: seq<Event>)
    requires Possible(book, es)
    ensures Patient(Run(book, es), Streak(book, es))
  {
    hide Step, Enabled, Possible, Patient, Start;
    if es == [] {
      StartSound(book);
    } else {
      var n := |es| - 1;
      Shorter(book, es);
      RunPatient(book, es[..n]);
      StepPatient(Run(book, es[..n]), es[n], Streak(book, es[..n]));
    }
  }

  predicate Started(h: Host, e: Event) {
    |Step(h, e).procs| > |h.procs|
  }

  /** How many probes have failed since a process was started or one answered. */
  function Failed(book: Book, es: seq<Event>): nat {
    if es == [] then 0
    else
      var n := |es| - 1;
      if Started(Run(book, es[..n]), es[n]) || es[n] == Result(Reached) then 0
      else Failed(book, es[..n]) + if es[n] == Result(Unreachable) then 1 else 0
  }

  /** A live driver without a socket, or with two failed probes. */
  predicate AtFault(book: Book, es: seq<Event>, socket: bool) {
    Serving(Run(book, es)) && (!socket || Failed(book, es) >= SOCKET_FAILURE_LIMIT)
  }

  /** How many rounds since then have found it at fault and busy, up to 30. */
  function Waited(book: Book, es: seq<Event>): nat {
    if es == [] then 0
    else
      var n := |es| - 1;
      var before, waited := Run(book, es[..n]), Waited(book, es[..n]);
      if Started(before, es[n]) then 0
      else if es[n].Look? && AtFault(book, es[..n], es[n].socket)
              && before.requests != map[] && waited < HEAL_DEFER_ROUNDS
      then waited + 1
      else waited
  }

  lemma CountsAfter(h: Host, e: Event)
    ensures var after := Step(h, e);
            && after.failures == (if Started(h, e) || e == Result(Reached) then 0
                                  else if e == Result(Unreachable) then h.failures + 1 else h.failures)
            && after.deferrals == (if Started(h, e) then 0
                                   else if e.Look? && Faulty(h, e.socket)
                                           && h.requests != map[] && h.deferrals < HEAL_DEFER_ROUNDS
                                   then h.deferrals + 1 else h.deferrals)
  {
    hide Reaped;
    match e
    case Activate(seat, saved, spawned) =>
      ReapedSame(Launched(PutAside(h.(book := Activated(h.book, seat, saved))), spawned).(failures := 0));
      hide Activated;
    case End(id) => ReapedSame(h.(requests := h.requests - {id}));
    case _ => hide Created, Removed;
  }

  lemma {:induction false} Counted(book: Book, es: seq<Event>)
    ensures Run(book, es).failures == Failed(book, es) && Run(book, es).deferrals == Waited(book, es)
  {
    hide Step, Started;
    if es != [] {
      var n := |es| - 1;
      Counted(book, es[..n]);
      CountsAfter(Run(book, es[..n]), es[n]);
    }
  }

  /** Over every run: a round decides to stop the driver exactly when it is at fault
      and either nothing runs or 30 rounds were waited. */
  lemma {:induction false} CondemnedWhen(book: Book, es: seq<Event>, socket: bool)
    requires Enabled(Run(book, es), Look(socket))
    ensures Run(book, es + [Look(socket)]).phase == Stopping
            <==> AtFault(book, es, socket)
                 && (Run(book, es).requests == map[] || Waited(book, es) >= HEAL_DEFER_ROUNDS)
  {
    Counted(book, es);
    assert (es + [Look(socket)])[..|es|] == es;
  }

  /** How many rounds have found the driver at fault since a process was started. */
  function FaultRounds(book: Book, es: seq<Event>): nat {
    if es == [] then 0
    else
      var n := |es| - 1;
      if Started(Run(book, es[..n]), es[n]) then 0
      else FaultRounds(book, es[..n]) + if es[n].Look? && AtFault(book, es[..n], es[n].socket) then 1 else 0
  }

  /** The last round that found a fault was the one that stops the driver, or has. */
  predicate Condemned(h: Host) {
    h.phase == Stopping || !Serving(h)
  }

  lemma StillCondemned(h: Host, e: Event)
    requires Enabled(h, e) && Condemned(h) && !Started(h, e) && !(e.Look? && Faulty(h, e.socket))
    ensures Condemned(Step(h, e))
  {
    hide Reaped;
    match e
    case Activate(seat, saved, spawned) =>
      ReapedSame(Launched(PutAside(h.(book := Activated(h.book, seat, saved))), spawned).(failures := 0));
      hide Activated;
    case End(id) => ReapedSame(h.(requests := h.requests - {id}));
    case _ => hide Created, Removed;
  }

  lemma FaultStep(h: Host, e: Event, rounds: nat)
    requires Enabled(h, e) && !Started(h, e)
    requires rounds <= h.deferrals || (Condemned(h) && rounds <= h.deferrals + 1)
    ensures var now := rounds + if e.Look? && Faulty(h, e.socket) then 1 else 0;
            now <= Step(h, e).deferrals || (Condemned(Step(h, e)) && now <= Step(h, e).deferrals + 1)
  {
    CountsAfter(h, e);
    if e.Look? && Faulty(h, e.socket) {
    } else if Condemned(h) {
      StillCondemned(h, e);
    }
    if !e.Look? {
      hide Step;
    }
  }

  /** MAIN RESULT (rounds): whatever the fault is and whatever probes say in between,
      at most 31 rounds find a driver at fault before a process is started. */
  lemma {:induction false} FaultsInTime(book: Book, es: seq<Event>)
    requires Possible(book, es)
    ensures FaultRounds(book, es) <= HEAL_DEFER_ROUNDS + 1
  {
    RestartInTime(book, es);
    FaultsCounted(book, es);
    hide Run, FaultRounds, Possible, Condemned;
  }

  lemma {:induction false} FaultsCounted(book: Book, es: seq<Event>)
    requires Possible(book, es)
    ensures var h, rounds := Run(book, es), FaultRounds(book, es);
            rounds <= h.deferrals || (Condemned(h) && rounds <= h.deferrals + 1)
  {
    hide Step, Started, Condemned, Possible, Enabled;
    if es != [] {
      var n := |es| - 1;
      Shorter(book, es);
      FaultsCounted(book, es[..n]);
      Counted(book, es[..n]);
      if !Started(Run(book, es[..n]), es[n]) {
        FaultStep(Run(book, es[..n]), es[n], FaultRounds(book, es[..n]));
      }
    }
  }

  function RunFrom(h: Host, es: seq<Event>): Host {
    if es == [] then h else Step(RunFrom(h, es[..|es| - 1]), es[|es| - 1])
  }

  ghost predicate PossibleFrom(h: Host, es: seq<Event>) {
    forall i :: 0 <= i < |es| ==> Enabled(RunFrom(h, es[..i]), es[i])
  }

  ghost predicate Switched(mid: seq<Event>) {
    exists e :: e in mid && Rotates(e)
  }

  /** The stop itself happens in a thread, which looks the driver up again: it
      hits the faulty driver exactly when no seat switch came in between. */
  lemma {:induction false} HealHitsTheFaulty(h: Host, mid: seq<Event>)
    requires Sound(h) && h.phase == Stopping && Serving(h)
    requires PossibleFrom(h, mid) && Serving(RunFrom(h, mid)) && Halt !in mid
    ensures RunFrom(h, mid).current == h.current <==> !Switched(mid)
  {
    CurrentLater(h, mid);
  }

  ghost predicate Later(h: Host, after: Host, switched: bool) {
    && after.phase == Stopping && |after.procs| >= |h.procs|
    && (if switched then after.current == None || after.current.value >= |h.procs| else after.current == h.current)
  }

  lemma {:induction false} CurrentLater(h: Host, mid: seq<Event>)
    requires h.phase == Stopping && PossibleFrom(h, mid) && Halt !in mid
    ensures Later(h, RunFrom(h, mid), Switched(mid))
  {
    hide Step, Enabled, Switched, Rotates;
    if mid == [] {
      NotSwitched();
    } else {
      var n := |mid| - 1;
      assert forall i :: 0 <= i < n ==> mid[..n][..i] == mid[..i];
      CurrentLater(h, mid[..n]);
      SwitchedMore(mid[..n], mid[n]);
      assert mid == mid[..n] + [mid[n]];
      CurrentAfter(RunFrom(h, mid[..n]), mid[n]);
    }
  }

  lemma NotSwitched()
    ensures !Switched([])
  {}

  lemma SwitchedMore(mid: seq<Event>, e: Event)
    ensures Switched(mid + [e]) <==> Switched(mid) || Rotates(e)
  {}

  lemma CurrentAfter(h: Host, e: Event)
    requires h.phase == Stopping && Enabled(h, e) && e != Halt
    ensures var after := Step(h, e);
            && after.phase == Stopping && |after.procs| >= |h.procs|
            && (if Rotates(e) then after.current == None || after.current == Some(|h.procs|)
                else after.current == h.current)
  {
    hide Reaped;
    match e
    case Activate(seat, saved, spawned) =>
      ReapedSame(Launched(PutAside(h.(book := Activated(h.book, seat, saved))), spawned).(failures := 0));
    case End(id) => ReapedSame(h.(requests := h.requests - {id}));
    case _ =>
  }

  lemma {:induction false} RunSplit(book: Book, a: seq<Event>, b: seq<Event>)
    ensures Run(book, a + b) == RunFrom(Run(book, a), b)
  {
    hide Step;
    if b == [] {
      assert a + b == a;
    } else {
      var n := |b| - 1;
      RunSplit(book, a, b[..n]);
      assert (a + b)[..|a + b| - 1] == a + b[..n];
    }
  }

  /** The round that looked at `es[j]` condemned the driver, and none has looked since. */
  ghost predicate Condemns(book: Book, es: seq<Event>, j: nat) {
    && j < |es| && es[j].Look? && Halt !in es[j + 1..]
    && Run(book, es[..j + 1]).phase == Stopping
  }

  lemma CondemnsMore(book: Book, es: seq<Event>, e: Event, j: nat)
    requires Condemns(book, es, j) && e != Halt
    ensures Condemns(book, es + [e], j)
  {
    hide Run;
    assert (es + [e])[..j + 1] == es[..j + 1];
    assert (es + [e])[j + 1..] == es[j + 1..] + [e];
  }

  lemma {:induction false} StoppingSince(book: Book, es: seq<Event>) returns (j: nat)
    requires Possible(book, es) && Run(book, es).phase == Stopping
    ensures Condemns(book, es, j)
  {
    hide Enabled, Possible, Step;
    var n := |es| - 1;
    Shorter(book, es);
    assert es == es[..n] + [es[n]];
    if es[n].Look? {
      j := n;
      assert es[..n + 1] == es;
    } else {
      StillStopping(Run(book, es[..n]), es[n]);
      hide Run, Condemns;
      j := StoppingSince(book, es[..n]);
      CondemnsMore(book, es[..n], es[n], j);
    }
  }

  lemma StillStopping(h: Host, e: Event)
    requires Enabled(h, e) && Step(h, e).phase == Stopping && !e.Look?
    ensures h.phase == Stopping && e != Halt
  {
    hide Reaped;
    match e
    case Activate(seat, saved, spawned) =>
      ReapedSame(Launched(PutAside(h.(book := Activated(h.book, seat, saved))), spawned).(failures := 0));
    case End(id) => ReapedSame(h.(requests := h.requests - {id}));
    case _ =>
  }

  /** The stopped process was found at fault by `es[j]`, or a seat switch since then
      has put another one in its place. */
  ghost predicate Cause(book: Book, es: seq<Event>, j: nat) {
    && j < |es| && es[j].Look? && Halt !in es[j + 1..]
    && AtFault(book, es[..j], es[j].socket)
    && (Run(book, es[..j]).requests == map[] || Waited(book, es[..j]) >= HEAL_DEFER_ROUNDS)
    && (Run(book, es).current == Run(book, es[..j]).current <==> !Switched(es[j + 1..]))
  }

  /** MAIN RESULT (stops): over every run healing stops no process without cause: a
      round has found a driver at fault, with nothing running or 30 rounds waited,
      and it is that driver that stops exactly if no seat was switched since. */
  lemma {:induction false} StoppedForCause(book: Book, es: seq<Event>)
    requires Possible(book, es) && Enabled(Run(book, es), Halt) && Serving(Run(book, es))
    ensures exists j: nat :: Cause(book, es, j)
  {
    hide *;
    HaltStops(Run(book, es));
    var j := StoppingSince(book, es);
    CauseOf(book, es, j);
  }

  lemma CauseOf(book: Book, es: seq<Event>, j: nat)
    requires Possible(book, es) && Serving(Run(book, es)) && Condemns(book, es, j)
    ensures Cause(book, es, j)
  {
    hide Run, Possible, Switched, Serving, Waited, Failed, Enabled;
    assert es[..j + 1] == es[..j] + [es[j]];
    PossiblePrefix(book, es, j);
    assert es[j] == Look(es[j].socket);
    CondemnedWhen(book, es[..j], es[j].socket);
    HitsTheFaulty(book, es, j);
  }

  lemma HitsTheFaulty(book: Book, es: seq<Event>, j: nat)
    requires Possible(book, es) && Serving(Run(book, es)) && Condemns(book, es, j) && Serving(Run(book, es[..j]))
    ensures Run(book, es).current == Run(book, es[..j]).current <==> !Switched(es[j + 1..])
  {
    hide Run, RunFrom, Possible, PossibleFrom, Sound, Switched, Enabled;
    var mid := es[j + 1..];
    assert es == es[..j + 1] + mid && es[..j + 1] == es[..j] + [es[j]];
    PossiblePrefix(book, es, j);
    PossibleAfter(book, es, j + 1);
    RunSplit(book, es[..j + 1], mid);
    RunSound(book, es[..j + 1]);
    LookKeeps(book, es[..j], es[j]);
    HealHitsTheFaulty(Run(book, es[..j + 1]), mid);
  }

  lemma HaltStops(h: Host)
    requires Enabled(h, Halt)
    ensures h.phase == Stopping
  {}

  lemma PossiblePrefix(book: Book, es: seq<Event>, j: nat)
    requires Possible(book, es) && j < |es|
    ensures Possible(book, es[..j]) && Possible(book, es[..j + 1]) && Enabled(Run(book, es[..j]), es[j])
  {
    hide Enabled, Run;
    assert forall i :: 0 <= i < j ==> es[..j][..i] == es[..i];
    assert forall i :: 0 <= i < j + 1 ==> es[..j + 1][..i] == es[..i];
  }

  lemma PossibleAfter(book: Book, es: seq<Event>, j: nat)
    requires Possible(book, es) && j <= |es|
    ensures PossibleFrom(Run(book, es[..j]), es[j..])
  {
    hide Enabled, Run, RunFrom;
    var mid := es[j..];
    forall i | 0 <= i < |mid| ensures Enabled(RunFrom(Run(book, es[..j]), mid[..i]), mid[i]) {
      RunSplit(book, es[..j], mid[..i]);
      assert es[..j] + mid[..i] == es[..j + i];
    }
  }

  lemma LookKeeps(book: Book, es: seq<Event>, e: Event)
    requires e.Look?
    ensures var h, after := Run(book, es), Run(book, es + [e]); after.current == h.current && after.procs == h.procs
  {
    assert (es + [e])[..|es|] == es;
  }

  // ---- the code ----

  class Daemon {
    var book: Book
    var gen: nat
    var current: Option<Pid>
    var retired: seq<(nat, Pid)>
    var tags: map<nat, Seat>
    var procs: seq<Proc>
    var requests: map<Id, Option<nat>>
    var failures: nat
    var deferrals: nat
    var phase: Phase

    function State(): Host
      reads this
    {
      Host(book, gen, current, retired, tags, procs, requests, failures, deferrals, phase)
    }

    constructor (book: Book)
      ensures State() == Start(book)
    {
      this.book, gen, current, retired, tags := Applied(book), 0, None, [], map[];
      procs, requests, failures, deferrals, phase := [], map[], 0, 0, Resting;
    }

    /** `_start_driver`. */
    method StartDriver(spawned: bool)
      modifies this
      ensures State() == Launched(old(State()), spawned)
    {
      tags := tags[gen := Active(book)];
      if current.Some? && Lives(procs, current.value) {
        return;
      }
      if spawned {
        current := Some(|procs|);
        procs := procs + [Proc(gen, book.env, true, false)];
        failures, deferrals := 0, 0;
      }
    }

    /** `reap_retired`. */
    method ReapRetired()
      modifies this
      ensures State() == Reaped(old(State()))
    {
      ghost var was := State();
      var busy := set id | id in requests :: requests[id];
      var keep: seq<(nat, Pid)> := [];
      for i := 0 to |retired|
        invariant State() == was.(procs := procs)
        invariant keep == Kept(was, was.retired[..i])
        invariant procs == Told(was, was.retired[..i])
      {
        ToldExactly(was, retired[..i]);
        assert retired[..i + 1][..i] == retired[..i];
        if Some(retired[i].0) in busy && Lives(procs, retired[i].1) {
          keep := keep + [retired[i]];
        } else {
          procs := Tell(procs, retired[i].1);
        }
      }
      assert retired[..|retired|] == retired;
      retired := keep;
    }

    /** `rotate_driver`, inside a seat switch. */
    method RotateDriver(spawned: bool)
      modifies this
      ensures State() == Rotated(old(State()), spawned)
    {
      hide Reaped;
      if current.Some? && Lives(procs, current.value) {
        retired := retired + [(gen, current.value)];
      }
      current := None;
      gen := gen + 1;
      StartDriver(spawned);
      if spawned {
        failures := 0;
        ReapRetired();
      }
    }

    method SwitchSeat(seat: Seat, saved: bool, spawned: bool)
      modifies this
      ensures State() == Step(old(State()), Event.Activate(seat, saved, spawned))
    {
      hide Rotated;
      book := Activated(book, seat, saved);
      if saved {
        RotateDriver(spawned);
      }
    }

    /** The end of `execute`. */
    method Finish(id: Id)
      modifies this
      ensures State() == Ended(old(State()), id)
    {
      hide Reaped;
      requests := requests - {id};
      if retired != [] {
        ReapRetired();
      }
    }

    /** `heal_driver`, as far as it decides. */
    method Heal(socket: bool) returns (stop: bool)
      modifies this
      ensures State() == Examined(old(State()), socket)
      ensures stop <==> phase == Stopping
    {
      var alive := current.Some? && Lives(procs, current.value);
      if !alive || (socket && failures < SOCKET_FAILURE_LIMIT) {
        phase := Looked;
        return false;
      }
      if |requests| > 0 && deferrals < HEAL_DEFER_ROUNDS {
        deferrals := deferrals + 1;
        phase := Looked;
        return false;
      }
      phase := Stopping;
      stop := true;
    }

    /** `stop_driver`. */
    method StopDriver()
      modifies this
      ensures State() == Halted(old(State()))
    {
      phase := Stopped;
      if current.Some? && Lives(procs, current.value) {
        procs := procs[current.value := procs[current.value].(alive := false, told := true)];
      }
    }
  }
}
