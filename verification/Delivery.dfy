/** From the batcher to the receiver: retries, batches, an older replica. */
module Delivery {
  import opened Wrappers
  import opened Frames

  const MAX_RESPONSE: nat := 128 * 1024 * 1024

  // ---- the receiving side ----

  datatype Status = Running | Done | Failed | Cancelled

  /** One call's row: the sequence number it waits for is the number of frames
      it has. */
  datatype Row = Row(stored: seq<Frame>, status: Status, header: Option<int>)

  function FreshOf(frames: seq<Frame>, next: nat): seq<Frame> {
    if frames == [] then []
    else if frames[0].number >= next then [frames[0]] + FreshOf(frames[1..], next)
    else FreshOf(frames[1..], next)
  }

  predicate Misnumbered(frames: seq<Frame>, next: nat) {
    exists i :: 0 <= i < |frames| && frames[i].number != next + i
  }

  predicate EndsEarly(frames: seq<Frame>) {
    exists i :: 0 <= i < |frames| - 1 && (frames[i].done || frames[i].error)
  }

  predicate Oversized(frames: seq<Frame>) {
    exists i :: 0 <= i < |frames| && |frames[i].data| > CHUNK_SIZE
  }

  predicate HasData(frames: seq<Frame>) {
    exists i :: 0 <= i < |frames| && frames[i].data != []
  }

  predicate HeaderClash(header: Option<int>, frames: seq<Frame>) {
    exists i :: 0 <= i < |frames| && frames[i].header.Some?
                && ((header.Some? && frames[i].header != header)
                    || exists j :: 0 <= j < i && frames[j].header.Some? && frames[j].header != frames[i].header)
  }

  function LastHeader(header: Option<int>, frames: seq<Frame>): Option<int> {
    if frames == [] then header
    else if frames[|frames| - 1].header.Some? then frames[|frames| - 1].header
    else LastHeader(header, frames[..|frames| - 1])
  }

  function StatusAfter(frames: seq<Frame>): (status: Status)
    requires frames != []
    ensures status != Cancelled
  {
    var last := frames[|frames| - 1];
    if last.error then Failed else if last.done then Done else Running
  }

  /** The `frames` endpoint. `crowded`: the consumer has too many chunks waiting. */
  function Accept(row: Row, frames: seq<Frame>, crowded: bool): (Row, int) {
    if row.status == Cancelled then (row, 410)
    else
      var next := FreshOf(frames, |row.stored|);
      if next == [] then (row, 200)
      else if row.status != Running || Misnumbered(next, |row.stored|) || EndsEarly(next) then (row, 409)
      else if Oversized(next) || |Join(row.stored)| + |Join(next)| > MAX_RESPONSE then (row, 413)
      else if HasData(next) && crowded then (row, 429)
      else if HeaderClash(row.header, next) then (row, 409)
      else (Row(row.stored + next, StatusAfter(next), LastHeader(row.header, next)), 200)
  }

  // ---- the road between ----

  /** What becomes of one request: it gets lost (or a gateway answers for the
      server), its answer gets lost, it is answered, or an older replica that
      does not know batches answers 422. Between two of them the server may serve a
      request that had been given up (`Elsewhere`), or the call is cancelled. */
  datatype Attempt =
    | Dropped
    | ReplyLost(crowded: bool)
    | Answered(crowded: bool)
    | OldReplica
    | Elsewhere(others: seq<Frame>, crowded: bool)
    | Withdrawn

  datatype Verdict = Ok | Refused(code: int) | GaveUp

  /** `api` with retries, as long as the script of attempts lasts. */
  function Api(row: Row, frames: seq<Frame>, batch: bool, script: seq<Attempt>): (Row, Verdict, seq<Attempt>)
    decreases |script|
  {
    if script == [] then (row, GaveUp, [])
    else match script[0]
      case Dropped => Api(row, frames, batch, script[1..])
      case ReplyLost(crowded) => Api(Accept(row, frames, crowded).0, frames, batch, script[1..])
      case Elsewhere(others, crowded) => Api(Accept(row, others, crowded).0, frames, batch, script[1..])
      case Withdrawn => Api(row.(status := Cancelled), frames, batch, script[1..])
      case OldReplica =>
        if batch then (row, Refused(422), script[1..]) else Api(row, frames, batch, script[1..])
      case Answered(crowded) =>
        var (after, code) := Accept(row, frames, crowded);
        if code == 200 then (after, Ok, script[1..])
        else if code == 429 then Api(after, frames, batch, script[1..])
        else (after, Refused(code), script[1..])
  }

  /** Frames in slices of at most `width`, until one is not accepted. */
  function InSlices(row: Row, frames: seq<Frame>, width: nat, script: seq<Attempt>): (Row, Verdict, seq<Attempt>)
    requires width > 0
    decreases |frames|
  {
    if frames == [] then (row, Ok, script)
    else
      var n := if width <= |frames| then width else |frames|;
      var (after, verdict, rest) := Api(row, frames[..n], width > 1, script);
      if verdict == Ok then InSlices(after, frames[n..], width, rest) else (after, verdict, rest)
  }

  /** `send_frames`: in batches, or frame by frame once a 422 has shown that the
      server does not take batches. */
  function Send(row: Row, protocol: int, frames: seq<Frame>, script: seq<Attempt>): (Row, int, Verdict) {
    if protocol >= 2 then
      var (after, verdict, rest) := InSlices(row, frames, MAX_BATCH_FRAMES, script);
      if verdict == Refused(422) then
        var (later, second, _) := InSlices(after, frames, 1, rest);
        (later, 1, second)
      else (after, protocol, verdict)
    else
      var (after, verdict, _) := InSlices(row, frames, 1, script);
      (after, protocol, verdict)
  }

  // ---- slices of what was made ----

  /** Requests that had been given up hold frames that were made. */
  ghost predicate Honest(made: seq<Frame>, script: seq<Attempt>) {
    forall x :: x in script && x.Elsewhere? ==> exists a, b :: 0 <= a <= b <= |made| && x.others == made[a..b]
  }

  lemma {:induction false} ApiRest(row: Row, frames: seq<Frame>, batch: bool, script: seq<Attempt>)
    ensures forall x :: x in Api(row, frames, batch, script).2 ==> x in script
    decreases |script|
  {
    hide Accept;
    if script != [] {
      ApiRest(row, frames, batch, script[1..]);
      match script[0]
      case ReplyLost(crowded) => ApiRest(Accept(row, frames, crowded).0, frames, batch, script[1..]);
      case Answered(crowded) => ApiRest(Accept(row, frames, crowded).0, frames, batch, script[1..]);
      case Elsewhere(others, crowded) => ApiRest(Accept(row, others, crowded).0, frames, batch, script[1..]);
      case Withdrawn => ApiRest(row.(status := Cancelled), frames, batch, script[1..]);
      case _ =>
    }
  }

  lemma {:induction false} SlicesRest(row: Row, frames: seq<Frame>, width: nat, script: seq<Attempt>)
    requires width > 0
    ensures forall x :: x in InSlices(row, frames, width, script).2 ==> x in script
    decreases |frames|
  {
    hide Api;
    if frames != [] {
      var n := if width <= |frames| then width else |frames|;
      ApiRest(row, frames[..n], width > 1, script);
      var (after, verdict, rest) := Api(row, frames[..n], width > 1, script);
      SlicesRest(after, frames[n..], width, rest);
    }
  }

  ghost predicate Numbered(made: seq<Frame>) {
    forall i :: 0 <= i < |made| ==> made[i].number == i
  }

  /** What the receiver has is the beginning of what was made, and nothing
      follows an end mark. */
  ghost predicate Received(row: Row, made: seq<Frame>) {
    && row.stored <= made
    && (forall i :: 0 <= i < |row.stored| - 1 ==> !row.stored[i].done && !row.stored[i].error)
    && (row.status == Running ==> forall f :: f in row.stored ==> !f.done && !f.error)
    && (row.status == Done || row.status == Failed ==>
          row.stored != [] && row.status == StatusAfter(row.stored))
  }

  lemma {:induction false} FreshSlice(made: seq<Frame>, a: nat, b: nat, next: nat)
    requires Numbered(made) && a <= b <= |made|
    ensures FreshOf(made[a..b], next) == if next <= a then made[a..b] else if next < b then made[next..b] else []
    decreases b - a
  {
    if a < b {
      assert made[a..b][1..] == made[a + 1..b];
      FreshSlice(made, a + 1, b, next);
      assert made[a..b] == [made[a]] + made[a + 1..b];
    }
  }

  lemma FreshTail(made: seq<Frame>, a: nat, b: nat, m: nat)
    requires Numbered(made) && a <= m && a <= b <= |made|
    ensures FreshOf(made[a..b], m) == if m < b then made[m..b] else []
  {
    FreshSlice(made, a, b, m);
  }

  lemma Lengthened(made: seq<Frame>, stored: seq<Frame>, b: nat)
    requires stored <= made && |stored| <= b <= |made|
    ensures stored + made[|stored|..b] == made[..b]
  {}

  lemma AcceptShape(row: Row, frames: seq<Frame>, crowded: bool)
    ensures var ((after, code), next) := (Accept(row, frames, crowded), FreshOf(frames, |row.stored|));
            && (code != 200 || next == [] ==> after == row)
            && (code == 200 && next != [] ==>
                  && row.status == Running && !EndsEarly(next)
                  && after.stored == row.stored + next && after.status == StatusAfter(next))
  {
    hide FreshOf, Join, LastHeader, HeaderClash, Oversized, HasData, Misnumbered, EndsEarly, StatusAfter;
  }

  lemma AcceptSlice(row: Row, made: seq<Frame>, a: nat, b: nat, crowded: bool)
    requires Numbered(made) && Received(row, made)
    requires a <= |row.stored| && a <= b <= |made|
    ensures var (after, code) := Accept(row, made[a..b], crowded);
            && Received(after, made) && |row.stored| <= |after.stored|
            && (code == 200 ==> b <= |after.stored|)
            && (code != 200 ==> after == row)
  {
    var m := |row.stored|;
    assert row.stored <= made;
    hide Accept, FreshOf, Numbered, EndsEarly, StatusAfter, Received;
    FreshTail(made, a, b, m);
    AcceptShape(row, made[a..b], crowded);
    var (after, code) := Accept(row, made[a..b], crowded);
    if m < b && code == 200 {
      Lengthened(made, row.stored, b);
      StoredMore(row, made[m..b], made, b, after);
    }
  }

  /** A request from any time: what is missing before it keeps it out. */
  lemma LateSlice(row: Row, made: seq<Frame>, a: nat, b: nat, crowded: bool)
    requires Numbered(made) && Received(row, made) && a <= b <= |made|
    ensures var after := Accept(row, made[a..b], crowded).0;
            Received(after, made) && |row.stored| <= |after.stored|
    ensures a > |row.stored| ==> Accept(row, made[a..b], crowded).0 == row
  {
    if a <= |row.stored| {
      AcceptSlice(row, made, a, b, crowded);
    } else {
      FreshSlice(made, a, b, |row.stored|);
      hide FreshOf, Join, LastHeader, HeaderClash, Oversized, HasData, EndsEarly;
      assert made[a..b] != [] ==> made[a..b][0].number != |row.stored| + 0;
    }
  }

  lemma StoredMore(row: Row, next: seq<Frame>, made: seq<Frame>, b: nat, after: Row)
    requires Received(row, made) && row.status == Running && b <= |made|
    requires next != [] && row.stored + next == made[..b] && !EndsEarly(next)
    requires after.stored == row.stored + next && after.status == StatusAfter(next)
    ensures Received(after, made)
  {}

  /** Whatever becomes of the requests, the row only grows along `made`; `Ok`
      means that the slice has arrived. */
  ghost predicate Advanced(row: Row, after: Row, made: seq<Frame>, b: nat, verdict: Verdict) {
    && Received(after, made) && |row.stored| <= |after.stored|
    && (verdict == Ok ==> b <= |after.stored|)
  }

  lemma {:induction false} ApiSlice(row: Row, made: seq<Frame>, a: nat, b: nat, batch: bool, script: seq<Attempt>)
    requires Numbered(made) && Received(row, made) && Honest(made, script)
    requires a <= |row.stored| && a <= b <= |made|
    ensures var (after, verdict, _) := Api(row, made[a..b], batch, script);
            Advanced(row, after, made, b, verdict)
    decreases |script|
  {
    hide Accept, Received, Numbered;
    if script != [] {
      assert forall x :: x in script[1..] ==> x in script;
      match script[0]
      case Dropped => ApiSlice(row, made, a, b, batch, script[1..]);
      case OldReplica => if !batch { ApiSlice(row, made, a, b, batch, script[1..]); }
      case ReplyLost(crowded) =>
        AcceptSlice(row, made, a, b, crowded);
        ApiSlice(Accept(row, made[a..b], crowded).0, made, a, b, batch, script[1..]);
      case Elsewhere(others, crowded) =>
        assert script[0] in script;
        var c, d :| 0 <= c <= d <= |made| && others == made[c..d];
        LateSlice(row, made, c, d, crowded);
        ApiSlice(Accept(row, others, crowded).0, made, a, b, batch, script[1..]);
      case Withdrawn =>
        StillReceived(row, made);
        ApiSlice(row.(status := Cancelled), made, a, b, batch, script[1..]);
      case Answered(crowded) =>
        AcceptSlice(row, made, a, b, crowded);
        if Accept(row, made[a..b], crowded).1 == 429 {
          ApiSlice(row, made, a, b, batch, script[1..]);
        }
    }
  }

  lemma StillReceived(row: Row, made: seq<Frame>)
    requires Received(row, made)
    ensures Received(row.(status := Cancelled), made)
  {}

  lemma {:induction false} SlicesAdvance(row: Row, made: seq<Frame>, a: nat, width: nat, script: seq<Attempt>)
    requires Numbered(made) && Received(row, made) && width > 0 && Honest(made, script)
    requires a <= |row.stored| && a <= |made|
    ensures var (after, verdict, _) := InSlices(row, made[a..], width, script);
            Advanced(row, after, made, |made|, verdict)
    decreases |made| - a
  {
    hide Api, Received, Numbered, Honest;
    var frames := made[a..];
    if frames != [] {
      var n := if width <= |frames| then width else |frames|;
      assert frames[..n] == made[a..a + n] && frames[n..] == made[a + n..];
      ApiSlice(row, made, a, a + n, width > 1, script);
      var (after, verdict, rest) := Api(row, frames[..n], width > 1, script);
      ApiRest(row, frames[..n], width > 1, script);
      StillHonest(made, script, rest);
      if verdict == Ok {
        SlicesAdvance(after, made, a + n, width, rest);
      }
    }
  }

  lemma StillHonest(made: seq<Frame>, script: seq<Attempt>, rest: seq<Attempt>)
    requires Honest(made, script) && forall x :: x in rest ==> x in script
    ensures Honest(made, rest)
  {}

  lemma SendAdvances(row: Row, made: seq<Frame>, a: nat, protocol: int, script: seq<Attempt>)
    requires Numbered(made) && Received(row, made) && a <= |row.stored| && a <= |made| && Honest(made, script)
    ensures var (after, _, verdict) := Send(row, protocol, made[a..], script);
            Advanced(row, after, made, |made|, verdict)
  {
    hide InSlices, Received, Numbered, Honest;
    SlicesAdvance(row, made, a, 1, script);
    SlicesAdvance(row, made, a, MAX_BATCH_FRAMES, script);
    var (after, verdict, rest) := InSlices(row, made[a..], MAX_BATCH_FRAMES, script);
    SlicesRest(row, made[a..], MAX_BATCH_FRAMES, script);
    StillHonest(made, script, rest);
    SlicesAdvance(after, made, a, 1, rest);
  }

  // ---- a whole response ----

  /** The node and the server, with what has happened so far: `given` are the
      bytes passed to `add`, `made` the frames cut from them. */
  datatype World = World(client: Client, sending: bool, protocol: int, row: Row, given: Bytes, made: seq<Frame>)

  /** Between two awaits of the event loop. `Begin` and `End` are the two parts of
      one `flush`, under its lock; only `Add`, the server and the poll loop can
      come between them. `End` may be cut short at any attempt. `Cancel`: by the
      consumer, or because the deadline of the call has passed. `Late(a, b, ..)`: a
      request with frames `a` to `b`, which the client has given up on, is served
      after all, whatever was sent since. */
  datatype Event =
    | Add(data: Bytes, status: Option<int>)
    | Begin(final: Option<Final>)
    | End(script: seq<Attempt>)
    | Late(a: nat, b: nat, crowded: bool)
    | Cancel
    | Poll(protocol: int)

  ghost predicate Enabled(w: World, e: Event) {
    match e
    case Begin(_) => !w.sending
    case End(script) => w.sending && Honest(w.made, script)
    case Late(a, b, _) => a <= b <= |w.made|
    case _ => true
  }

  function Step(w: World, e: Event): World {
    match e
    case Add(data, status) => w.(client := Added(w.client, data, status), given := w.given + data)
    case Begin(final) =>
      w.(client := Cut(w.client, final), sending := true, made := w.made + NewFrames(w.client, final))
    case End(script) =>
      var (after, protocol, verdict) := Send(w.row, w.protocol, w.client.unsent, script);
      World(if verdict == Ok then w.client.(unsent := []) else w.client, false, protocol, after, w.given, w.made)
    case Late(a, b, crowded) => if a <= b <= |w.made| then w.(row := Accept(w.row, w.made[a..b], crowded).0) else w
    case Cancel => w.(row := w.row.(status := Cancelled))
    case Poll(protocol) => w.(protocol := protocol)
  }

  function Start(protocol: int): World {
    World(Client([], None, [], 0), false, protocol, Row([], Running, None), [], [])
  }

  function Run(w: World, es: seq<Event>): World {
    if es == [] then w else Step(Run(w, es[..|es| - 1]), es[|es| - 1])
  }

  ghost predicate Possible(w: World, es: seq<Event>) {
    forall i :: 0 <= i < |es| ==> Enabled(Run(w, es[..i]), es[i])
  }

  /** Everything given is in a frame or still in the buffer; the frames are
      numbered from 0; those not known to have arrived are kept. */
  ghost predicate Inv(w: World) {
    && Numbered(w.made) && w.client.next == |w.made|
    && (forall f :: f in w.made ==> |f.data| <= CHUNK_SIZE)
    && Join(w.made) + w.client.buffer == w.given
    && |w.client.unsent| <= |w.made| && w.client.unsent == w.made[|w.made| - |w.client.unsent|..]
    && Received(w.row, w.made)
    && |w.made| - |w.client.unsent| <= |w.row.stored|
  }

  lemma JoinMore(a: seq<Frame>, b: seq<Frame>)
    ensures Join(a + b) == Join(a) + Join(b)
  {
    JoinSplit(a + b, |a|);
    assert (a + b)[..|a|] == a && (a + b)[|a|..] == b;
  }

  lemma NewFramesWhole(c: Client, final: Option<Final>)
    ensures Join(NewFrames(c, final)) == c.buffer
    ensures forall i :: 0 <= i < |NewFrames(c, final)| ==> NewFrames(c, final)[i].number == c.next + i
    ensures forall f :: f in NewFrames(c, final) ==> |f.data| <= CHUNK_SIZE
  {
    PiecesWhole(c.buffer, c.next, c.header, final);
    var pieces := Pieces(c.buffer);
    forall f | f in NewFrames(c, final) ensures |f.data| <= CHUNK_SIZE {
      var i :| 0 <= i < |pieces| && NewFrames(c, final)[i] == f;
      assert pieces[i] in pieces;
    }
  }

  lemma BeginKeeps(w: World, final: Option<Final>)
    requires Inv(w) && !w.sending
    ensures Inv(Step(w, Begin(final)))
  {
    var more := NewFrames(w.client, final);
    NewFramesWhole(w.client, final);
    JoinMore(w.made, more);
    hide Join, NewFrames;
    var after := Step(w, Begin(final));
    var k := |w.made| - |w.client.unsent|;
    assert after.made[k..] == w.made[k..] + more;
  }

  lemma EndKeeps(w: World, script: seq<Attempt>)
    requires Inv(w) && Enabled(w, End(script))
    ensures Inv(Step(w, End(script)))
    ensures var (after, _, verdict) := Send(w.row, w.protocol, w.client.unsent, script);
            verdict == Ok ==> after.stored == w.made
  {
    hide Join, Send, Honest;
    SendAdvances(w.row, w.made, |w.made| - |w.client.unsent|, w.protocol, script);
    assert w.made[|w.made|..] == [];
  }

  lemma StepKeeps(w: World, e: Event)
    requires Inv(w) && Enabled(w, e)
    ensures Inv(Step(w, e))
  {
    match e
    case Begin(final) => BeginKeeps(w, final);
    case End(script) => EndKeeps(w, script);
    case Late(a, b, crowded) => LateSlice(w.row, w.made, a, b, crowded);
    case Add(data, status) =>
      hide Join;
      assert Join(w.made) + w.client.buffer + data == Join(w.made) + (w.client.buffer + data);
    case _ =>
  }

  lemma {:induction false} RunKeeps(protocol: int, es: seq<Event>)
    requires Possible(Start(protocol), es)
    ensures Inv(Run(Start(protocol), es))
  {
    hide Inv, Enabled, Step;
    if es == [] {
      StartInv(protocol);
    } else {
      var n := |es| - 1;
      forall i | 0 <= i < n ensures Enabled(Run(Start(protocol), es[..n][..i]), es[..n][i]) {
        assert es[..n][..i] == es[..i];
      }
      RunKeeps(protocol, es[..n]);
      StepKeeps(Run(Start(protocol), es[..n]), es[n]);
    }
  }

  lemma StartInv(protocol: int)
    ensures Inv(Start(protocol))
  {}

  /** The bytes passed to `add`, in order. */
  function Given(es: seq<Event>): Bytes {
    if es == [] then []
    else Given(es[..|es| - 1]) + if es[|es| - 1].Add? then es[|es| - 1].data else []
  }

  lemma {:induction false} GivenIs(protocol: int, es: seq<Event>)
    ensures Run(Start(protocol), es).given == Given(es)
  {
    if es != [] {
      GivenIs(protocol, es[..|es| - 1]);
      hide Send, Accept, NewFrames;
    }
  }

  /** MAIN RESULT: over every interleaving, loss and repetition, the receiver has
      a beginning of the bytes given, in frames 0, 1, 2, ... of at most 48 KiB,
      and none after an end mark. */
  lemma {:induction false} StoredIsPrefix(protocol: int, es: seq<Event>)
    requires Possible(Start(protocol), es)
    ensures var w := Run(Start(protocol), es);
            && Join(w.row.stored) <= Given(es)
            && (forall i :: 0 <= i < |w.row.stored| ==>
                  w.row.stored[i].number == i && |w.row.stored[i].data| <= CHUNK_SIZE)
            && (forall i :: 0 <= i < |w.row.stored| - 1 ==> !w.row.stored[i].done)
  {
    RunKeeps(protocol, es);
    GivenIs(protocol, es);
    var w := Run(Start(protocol), es);
    hide Run;
    var m := |w.row.stored|;
    JoinSplit(w.made, m);
    assert w.made[..m] == w.row.stored;
    assert forall i :: 0 <= i < m ==> w.row.stored[i] == w.made[i] && w.made[i] in w.made;
  }

  /** MAIN RESULT: a `finish` whose sends are accepted has delivered everything
      given, once and in order, with the end mark last. */
  lemma {:induction false} FinishDeliversAll(protocol: int, es: seq<Event>, final: Final, script: seq<Attempt>)
    requires Possible(Start(protocol), es) && !Run(Start(protocol), es).sending
    requires Enabled(Step(Run(Start(protocol), es), Begin(Some(final))), End(script))
    ensures var w := Step(Run(Start(protocol), es), Begin(Some(final)));
            var (after, _, verdict) := Send(w.row, w.protocol, w.client.unsent, script);
            verdict == Ok ==>
              && Join(after.stored) == Given(es)
              && after.stored == w.made && after.stored != []
              && after.stored[|after.stored| - 1].done
              && after.stored[|after.stored| - 1].error == final.error
  {
    hide *;
    RunKeeps(protocol, es);
    GivenIs(protocol, es);
    FinishStores(Run(Start(protocol), es), final, script);
  }

  lemma FinishStores(before: World, final: Final, script: seq<Attempt>)
    requires Inv(before) && !before.sending && Enabled(Step(before, Begin(Some(final))), End(script))
    ensures var w := Step(before, Begin(Some(final)));
            var (after, _, verdict) := Send(w.row, w.protocol, w.client.unsent, script);
            verdict == Ok ==>
              && Join(after.stored) == before.given
              && after.stored == w.made && after.stored != []
              && after.stored[|after.stored| - 1].done
              && after.stored[|after.stored| - 1].error == final.error
  {
    hide Send, Join, Pieces, Received;
    BeginKeeps(before, Some(final));
    var w := Step(before, Begin(Some(final)));
    EndKeeps(w, script);
    assert w.client.buffer == [];
    var more := NewFrames(before.client, Some(final));
    assert more[|more| - 1].done && w.made[|w.made| - 1] == more[|more| - 1];
    assert Join(w.made) + [] == w.given;
  }

  /** Once a frame with an end mark is followed by another, nothing that is sent
      later can succeed: a second `finish`, after one that failed, is refused. */
  lemma SecondFinishFails(w: World, d: nat, script: seq<Attempt>)
    requires Inv(w) && Enabled(w, End(script)) && d < |w.made| - 1 && w.made[d].done
    ensures Send(w.row, w.protocol, w.client.unsent, script).2 != Ok
  {
    EndKeeps(w, script);
    hide Send, Join;
  }

  lemma TwoEndsRefused(row: Row, made: seq<Frame>, a: nat, d: nat, crowded: bool)
    requires Numbered(made) && Received(row, made) && a <= |row.stored| <= d < |made| - 1 && made[d].done
    ensures Accept(row, made[a..], crowded).0 == row
    ensures Accept(row, made[a..], crowded).1 == 409 || Accept(row, made[a..], crowded).1 == 410
  {
    FreshSlice(made, a, |made|, |row.stored|);
    hide Join, FreshOf, Oversized, HasData, HeaderClash, LastHeader, Misnumbered;
    assert made[a..] == made[a..|made|];
    var next := made[|row.stored|..|made|];
    assert next[d - |row.stored|] == made[d] && EndsEarly(next);
  }

  /** Nothing but this flush's own requests reaches the server, and no older replica. */
  predicate Undisturbed(script: seq<Attempt>) {
    forall x :: x in script ==> x.Dropped? || x.ReplyLost? || x.Answered?
  }

  /** Worse, while batches are in use and the first end mark has not arrived,
      nothing of the batch that holds both is stored, so the call stays open. */
  lemma {:induction false} TwoEndsStoreNothing(row: Row, made: seq<Frame>, a: nat, d: nat, script: seq<Attempt>)
    requires Numbered(made) && Received(row, made) && a <= |row.stored| <= d < |made| - 1 && made[d].done
    requires Undisturbed(script)
    ensures var (after, verdict, _) := Api(row, made[a..], true, script);
            after == row && verdict != Ok && verdict != Refused(422)
    decreases |script|
  {
    hide Accept, Received, Numbered;
    if script != [] {
      TwoEndsRefused(row, made, a, d, true);
      TwoEndsRefused(row, made, a, d, false);
      assert script[0] in script;
      TwoEndsStoreNothing(row, made, a, d, script[1..]);
    }
  }

  lemma SecondFinishStoresNothing(w: World, d: nat, script: seq<Attempt>)
    requires Inv(w) && w.sending && w.protocol >= 2 && |w.client.unsent| <= MAX_BATCH_FRAMES
    requires |w.row.stored| <= d < |w.made| - 1 && w.made[d].done && Undisturbed(script)
    ensures Step(w, End(script)).row == w.row
  {
    var a := |w.made| - |w.client.unsent|;
    hide Join, Api;
    assert w.client.unsent[..|w.client.unsent|] == w.client.unsent;
    TwoEndsStoreNothing(w.row, w.made, a, d, script);
  }

  // ---- when the road is clear ----

  /** How many requests are answered while the consumer has room. */
  function Answers(script: seq<Attempt>): nat {
    if script == [] then 0 else Answers(script[1..]) + if script[0] == Answered(false) then 1 else 0
  }

  /** Anything may happen but a cancellation. */
  ghost predicate Fair(made: seq<Frame>, script: seq<Attempt>) {
    Honest(made, script) && Withdrawn !in script
  }

  /** One header, and room for all the data. */
  ghost predicate Fits(row: Row, made: seq<Frame>) {
    && |Join(made)| <= MAX_RESPONSE
    && (forall f :: f in made ==> |f.data| <= CHUNK_SIZE)
    && (forall f, g :: f in made && g in made && f.header.Some? && g.header.Some? ==> f.header == g.header)
    && (forall f :: f in made && f.header.Some? && row.header.Some? ==> f.header == row.header)
  }

  ghost predicate EndsOnce(made: seq<Frame>) {
    forall i :: 0 <= i < |made| - 1 ==> !made[i].done && !made[i].error
  }

  lemma {:induction false} LastHeaderOf(header: Option<int>, frames: seq<Frame>)
    ensures LastHeader(header, frames) == header || exists f :: f in frames && f.header == LastHeader(header, frames)
  {
    if frames != [] {
      var last := frames[|frames| - 1];
      assert last in frames;
      if last.header == None {
        LastHeaderOf(header, frames[..|frames| - 1]);
      }
    }
  }

  lemma {:induction false} HeadersAgree(header: Option<int>, frames: seq<Frame>)
    requires !HeaderClash(header, frames)
    ensures header.Some? ==> LastHeader(header, frames) == header
    ensures forall f :: f in frames && f.header.Some? ==> LastHeader(header, frames) == f.header
  {
    if frames != [] {
      var n := |frames| - 1;
      assert forall j :: 0 <= j < n ==> frames[..n][j] == frames[j];
      HeadersAgree(header, frames[..n]);
      LastHeaderOf(header, frames[..n]);
    }
  }

  lemma {:induction false} JoinPrefix(made: seq<Frame>, b: nat)
    requires b <= |made|
    ensures |Join(made[..b])| <= |Join(made)|
  {
    JoinSplit(made, b);
  }

  lemma StillRunning(row: Row, made: seq<Frame>)
    requires Received(row, made) && EndsOnce(made)
    requires row.status != Cancelled && |row.stored| < |made|
    ensures row.status == Running
  {}

  lemma FitsAfter(row: Row, made: seq<Frame>, next: seq<Frame>, after: Row)
    requires Fits(row, made) && forall f :: f in next ==> f in made
    requires after.header == LastHeader(row.header, next)
    ensures Fits(after, made)
  {}

  /** A slice that reaches past what is stored is taken whole. */
  lemma AcceptClear(row: Row, made: seq<Frame>, a: nat, b: nat)
    requires Numbered(made) && Received(row, made) && Fits(row, made) && EndsOnce(made)
    requires row.status != Cancelled && a <= |row.stored| && a <= b <= |made|
    ensures var (after, code) := Accept(row, made[a..b], false);
            code == 200 && Fits(after, made) && after.status != Cancelled
  {
    var m := |row.stored|;
    FreshTail(made, a, b, m);
    if m < b {
      NextFits(row, made, b);
      hide Received, Fits, EndsOnce, Numbered, StatusAfter, Accept, FreshOf, Join, LastHeader, HeaderClash,
           Oversized, HasData, Misnumbered, EndsEarly;
      TakenWhole(row, made[a..b], made[m..b]);
    } else {
      hide Received, Fits, EndsOnce, Numbered, FreshOf;
    }
  }

  lemma NextFits(row: Row, made: seq<Frame>, b: nat)
    requires Numbered(made) && Received(row, made) && Fits(row, made) && EndsOnce(made)
    requires row.status != Cancelled && |row.stored| < b <= |made|
    ensures var next := made[|row.stored|..b];
            && row.status == Running && |Join(row.stored)| + |Join(next)| <= MAX_RESPONSE
            && !Misnumbered(next, |row.stored|) && !EndsEarly(next) && !Oversized(next)
            && !HeaderClash(row.header, next)
            && Fits(Row(row.stored + next, StatusAfter(next), LastHeader(row.header, next)), made)
  {
    var m := |row.stored|;
    var next := made[m..b];
    assert row.stored <= made && |Join(made)| <= MAX_RESPONSE;
    hide Join, LastHeader, HeaderClash, Oversized, Misnumbered, EndsEarly;
    hide Received, Fits, EndsOnce, Numbered, StatusAfter;
    RoomFor(row, made, b);
    SliceFits(row, made, m, b);
    StillRunning(row, made);
    assert forall f :: f in next ==> f in made;
    FitsAfter(row, made, next, Row(row.stored + next, StatusAfter(next), LastHeader(row.header, next)));
  }

  lemma TakenWhole(row: Row, frames: seq<Frame>, next: seq<Frame>)
    requires row.status == Running && next != [] && FreshOf(frames, |row.stored|) == next
    requires !Misnumbered(next, |row.stored|) && !EndsEarly(next) && !Oversized(next) && !HeaderClash(row.header, next)
    requires |Join(row.stored)| + |Join(next)| <= MAX_RESPONSE
    ensures Accept(row, frames, false)
            == (Row(row.stored + next, StatusAfter(next), LastHeader(row.header, next)), 200)
  {
    hide Join, FreshOf, LastHeader, HeaderClash, Oversized, Misnumbered, EndsEarly, HasData, StatusAfter;
  }

  lemma RoomFor(row: Row, made: seq<Frame>, b: nat)
    requires row.stored <= made && |row.stored| < b <= |made| && |Join(made)| <= MAX_RESPONSE
    ensures |Join(row.stored)| + |Join(made[|row.stored|..b])| <= MAX_RESPONSE
  {
    var m := |row.stored|;
    assert row.stored == made[..m] && made[..m] + made[m..b] == made[..b];
    JoinMore(made[..m], made[m..b]);
    JoinPrefix(made, b);
  }

  lemma SliceFits(row: Row, made: seq<Frame>, m: nat, b: nat)
    requires Numbered(made) && Fits(row, made) && EndsOnce(made) && m < b <= |made|
    ensures var next := made[m..b];
            !Misnumbered(next, m) && !EndsEarly(next) && !Oversized(next) && !HeaderClash(row.header, next)
  {}

  /** A row that can still take everything. */
  ghost predicate Open(row: Row, made: seq<Frame>) {
    Received(row, made) && Fits(row, made) && row.status != Cancelled
  }

  lemma CrowdedSame(row: Row, frames: seq<Frame>)
    ensures Accept(row, frames, true) == (row, 429) || Accept(row, frames, true) == Accept(row, frames, false)
  {
    hide FreshOf, Join, LastHeader, HeaderClash, Oversized, HasData, Misnumbered, EndsEarly, StatusAfter;
  }

  /** A request with frames that were made, from any time. */
  lemma AnySlice(row: Row, made: seq<Frame>, a: nat, b: nat, crowded: bool)
    requires Numbered(made) && EndsOnce(made) && Open(row, made) && a <= b <= |made|
    ensures var (after, code) := Accept(row, made[a..b], crowded);
            && Open(after, made) && |row.stored| <= |after.stored|
            && (a <= |row.stored| ==>
                  && (if crowded then code == 200 || (code == 429 && after == row) else code == 200)
                  && (code == 200 ==> b <= |after.stored|))
  {
    hide Accept, Received, Numbered, Fits, EndsOnce;
    LateSlice(row, made, a, b, crowded);
    if a <= |row.stored| {
      AcceptClear(row, made, a, b);
      AcceptSlice(row, made, a, b, crowded);
      CrowdedSame(row, made[a..b]);
    }
  }

  ghost predicate Passed(row: Row, after: Row, made: seq<Frame>, b: nat, verdict: Verdict) {
    && Open(after, made) && |row.stored| <= |after.stored|
    && (verdict == Ok ==> b <= |after.stored|)
  }

  lemma {:induction false} ApiClear(row: Row, made: seq<Frame>, a: nat, b: nat, batch: bool, script: seq<Attempt>)
    requires Numbered(made) && EndsOnce(made) && Open(row, made) && a <= |row.stored| && a <= b <= |made|
    requires Fair(made, script) && Answers(script) >= 1
    ensures var (after, verdict, rest) := Api(row, made[a..b], batch, script);
            && Passed(row, after, made, b, verdict)
            && (verdict == Ok || (batch && verdict == Refused(422)))
            && Answers(rest) + 1 >= Answers(script)
    decreases |script|
  {
    hide Accept, Numbered, EndsOnce, Open;
    FairTail(made, script);
    var frames := made[a..b];
    match script[0]
    case Dropped => ApiClear(row, made, a, b, batch, script[1..]);
    case OldReplica => if !batch { ApiClear(row, made, a, b, batch, script[1..]); }
    case ReplyLost(crowded) =>
      AnySlice(row, made, a, b, crowded);
      ApiClear(Accept(row, frames, crowded).0, made, a, b, batch, script[1..]);
    case Elsewhere(others, crowded) =>
      var c, d :| 0 <= c <= d <= |made| && others == made[c..d];
      AnySlice(row, made, c, d, crowded);
      ApiClear(Accept(row, others, crowded).0, made, a, b, batch, script[1..]);
    case Answered(crowded) =>
      AnySlice(row, made, a, b, crowded);
      if Accept(row, frames, crowded).1 == 429 {
        ApiClear(row, made, a, b, batch, script[1..]);
      }
    case Withdrawn => assert false;
  }

  lemma FairTail(made: seq<Frame>, script: seq<Attempt>)
    requires Fair(made, script) && script != []
    ensures Fair(made, script[1..]) && script[0] != Withdrawn
    ensures script[0].Elsewhere? ==> exists a, b :: 0 <= a <= b <= |made| && script[0].others == made[a..b]
  {
    assert script[0] in script && forall x :: x in script[1..] ==> x in script;
  }

  lemma FairRest(made: seq<Frame>, script: seq<Attempt>, rest: seq<Attempt>)
    requires Fair(made, script) && forall x :: x in rest ==> x in script
    ensures Fair(made, rest)
  {}

  lemma {:induction false} SlicesClear(row: Row, made: seq<Frame>, a: nat, width: nat, script: seq<Attempt>)
    requires Numbered(made) && EndsOnce(made) && Open(row, made) && a <= |row.stored| && a <= |made| && width > 0
    requires Fair(made, script) && Answers(script) >= |made| - a
    ensures var (after, verdict, rest) := InSlices(row, made[a..], width, script);
            && Passed(row, after, made, |made|, verdict)
            && (verdict == Ok || (width > 1 && verdict == Refused(422)))
            && Answers(rest) + (|made| - a) >= Answers(script)
    decreases |made| - a
  {
    hide Api, Numbered, EndsOnce, Open, Fair, Answers;
    var frames := made[a..];
    if frames != [] {
      var n := if width <= |frames| then width else |frames|;
      assert frames[..n] == made[a..a + n] && frames[n..] == made[a + n..];
      ApiClear(row, made, a, a + n, width > 1, script);
      ApiRest(row, frames[..n], width > 1, script);
      var (after, verdict, rest) := Api(row, frames[..n], width > 1, script);
      FairRest(made, script, rest);
      if verdict == Ok {
        SlicesClear(after, made, a + n, width, rest);
      }
    }
  }

  /** MAIN RESULT (progress): whatever is lost, served late or answered by an older
      replica that does not know batches, with enough requests answered for all frames
      to be sent twice a flush succeeds exactly when nothing follows an end mark: the
      retry of a lost reply is harmless, a second `finish` is not. */
  lemma ClearRoad(w: World, script: seq<Attempt>)
    requires Inv(w) && w.sending && w.row.status != Cancelled && Fits(w.row, w.made)
    requires Fair(w.made, script) && Answers(script) >= 2 * |w.client.unsent|
    ensures Send(w.row, w.protocol, w.client.unsent, script).2 == Ok <==> EndsOnce(w.made)
  {
    if EndsOnce(w.made) {
      hide Send, Join, Received, Numbered, Fits, EndsOnce, Fair, Answers;
      SendClear(w.row, w.protocol, w.made, |w.made| - |w.client.unsent|, script);
    } else {
      EndKeeps(w, script);
      hide Send, Join;
    }
  }

  lemma SendClear(row: Row, protocol: int, made: seq<Frame>, a: nat, script: seq<Attempt>)
    requires Numbered(made) && EndsOnce(made) && Open(row, made) && a <= |row.stored| && a <= |made|
    requires Fair(made, script) && Answers(script) >= 2 * (|made| - a)
    ensures Send(row, protocol, made[a..], script).2 == Ok
  {
    hide InSlices, Numbered, EndsOnce, Fair, Open, Answers;
    SlicesClear(row, made, a, 1, script);
    SlicesClear(row, made, a, MAX_BATCH_FRAMES, script);
    var (after, verdict, rest) := InSlices(row, made[a..], MAX_BATCH_FRAMES, script);
    SlicesRest(row, made[a..], MAX_BATCH_FRAMES, script);
    FairRest(made, script, rest);
    if verdict == Refused(422) {
      SlicesClear(after, made, a, 1, rest);
    }
  }

  // ---- the downgrade ----

  /** `rest` is what is left of `script`; a 422 came back exactly if an attempt spent on
      batches met an older replica, and it was the last one. */
  predicate Spent(script: seq<Attempt>, rest: seq<Attempt>, batch: bool, verdict: Verdict) {
    && |rest| <= |script| && rest == script[|script| - |rest|..]
    && (verdict == Refused(422) <==> batch && OldReplica in script[..|script| - |rest|])
    && (verdict == Refused(422) ==> script[|script| - |rest| - 1] == OldReplica)
  }

  lemma SpentFirst(script: seq<Attempt>, rest: seq<Attempt>, batch: bool, verdict: Verdict)
    requires script != [] && Spent(script[1..], rest, batch, verdict) && (batch ==> script[0] != OldReplica)
    ensures Spent(script, rest, batch, verdict)
  {
    var k := |script| - |rest|;
    assert script[..k] == [script[0]] + script[1..][..k - 1];
  }

  lemma SpentOne(script: seq<Attempt>, batch: bool, verdict: Verdict)
    requires script != [] && (verdict == Refused(422) <==> batch && script[0] == OldReplica)
    ensures Spent(script, script[1..], batch, verdict)
  {
    assert script[..1] == [script[0]];
  }

  lemma SpentTwice(script: seq<Attempt>, rest: seq<Attempt>, last: seq<Attempt>, batch: bool, verdict: Verdict)
    requires Spent(script, rest, batch, Ok) && Spent(rest, last, batch, verdict)
    ensures Spent(script, last, batch, verdict)
  {
    assert script[..|script| - |last|] == script[..|script| - |rest|] + rest[..|rest| - |last|];
  }

  lemma Codes(row: Row, frames: seq<Frame>)
    ensures Accept(row, frames, true).1 != 422 && Accept(row, frames, false).1 != 422
  {
    hide FreshOf, Join, LastHeader, HeaderClash, Oversized, HasData, Misnumbered, EndsEarly, StatusAfter;
  }

  /** The row after one attempt. */
  function After(row: Row, frames: seq<Frame>, attempt: Attempt): Row {
    match attempt
    case Dropped => row
    case OldReplica => row
    case ReplyLost(crowded) => Accept(row, frames, crowded).0
    case Elsewhere(others, crowded) => Accept(row, others, crowded).0
    case Withdrawn => row.(status := Cancelled)
    case Answered(crowded) => Accept(row, frames, crowded).0
  }

  /** The last attempt is one that is answered for good, or a batch that meets an older
      replica. */
  lemma ApiFirst(row: Row, frames: seq<Frame>, batch: bool, script: seq<Attempt>)
    requires script != []
    ensures var x, api := script[0], Api(row, frames, batch, script);
            if x == OldReplica && batch then api == (row, Refused(422), script[1..])
            else if x.Answered? && Accept(row, frames, x.crowded).1 != 429
            then api.0 == After(row, frames, x) && api.2 == script[1..] && api.1 != Refused(422)
            else api == Api(After(row, frames, x), frames, batch, script[1..])
  {
    Codes(row, frames);
    hide Accept;
  }

  lemma {:induction false} ApiSpends(row: Row, frames: seq<Frame>, batch: bool, script: seq<Attempt>)
    ensures var (_, verdict, rest) := Api(row, frames, batch, script); Spent(script, rest, batch, verdict)
    decreases |script|
  {
    if script != [] {
      hide Accept, Spent;
      var (_, verdict, rest) := Api(row, frames, batch, script);
      ApiFirst(row, frames, batch, script);
      hide Api;
      if script[0] == OldReplica && batch {
        SpentOne(script, batch, verdict);
      } else if script[0].Answered? && Accept(row, frames, script[0].crowded).1 != 429 {
        SpentOne(script, batch, verdict);
      } else {
        ApiSpends(After(row, frames, script[0]), frames, batch, script[1..]);
        SpentFirst(script, rest, batch, verdict);
      }
    }
  }

  lemma {:induction false} SlicesSpend(row: Row, frames: seq<Frame>, width: nat, script: seq<Attempt>)
    requires width > 0
    ensures var (_, verdict, rest) := InSlices(row, frames, width, script); Spent(script, rest, width > 1, verdict)
    decreases |frames|
  {
    if frames == [] {
      assert script[..0] == [];
    } else {
      hide Api, Spent;
      var n := if width <= |frames| then width else |frames|;
      ApiSpends(row, frames[..n], width > 1, script);
      var (after, verdict, rest) := Api(row, frames[..n], width > 1, script);
      if verdict == Ok {
        SlicesSpend(after, frames[n..], width, rest);
        var (_, v, last) := InSlices(after, frames[n..], width, rest);
        SpentTwice(script, rest, last, width > 1, v);
      }
    }
  }

  /** MAIN RESULT (downgrade): a flush gives up batches, and for good, exactly if one of
      them met an older replica; otherwise the protocol stays what it was. All frames
      are then sent one by one, whatever the batches had brought over. */
  lemma Downgrades(row: Row, protocol: int, frames: seq<Frame>, script: seq<Attempt>)
    ensures |InSlices(row, frames, MAX_BATCH_FRAMES, script).2| <= |script|
    ensures var (batched, first, rest) := InSlices(row, frames, MAX_BATCH_FRAMES, script);
            var (after, later, verdict) := Send(row, protocol, frames, script);
            var met := protocol >= 2 && OldReplica in script[..|script| - |rest|];
            && later == (if met then 1 else protocol)
            && (met ==>
                  var singly := InSlices(batched, frames, 1, rest); (after, verdict) == (singly.0, singly.1))
  {
    hide InSlices;
    SlicesSpend(row, frames, MAX_BATCH_FRAMES, script);
  }

  // ---- what the endpoint answers ----

  /** Of frames `m` to `b`, one but the last has an end mark. */
  ghost predicate EndsWithin(made: seq<Frame>, m: nat, b: nat)
    requires m < b <= |made|
  {
    exists i :: m <= i < b - 1 && (made[i].done || made[i].error)
  }

  ghost predicate TooLong(made: seq<Frame>, m: nat, b: nat)
    requires m < b <= |made|
  {
    (exists i :: m <= i < b && |made[i].data| > CHUNK_SIZE) || |Join(made[..b])| > MAX_RESPONSE
  }

  ghost predicate Carries(made: seq<Frame>, m: nat, b: nat)
    requires m < b <= |made|
  {
    exists i :: m <= i < b && made[i].data != []
  }

  /** A header of theirs differs from the one known, or from another of theirs. */
  ghost predicate Clashes(header: Option<int>, made: seq<Frame>, m: nat, b: nat)
    requires m < b <= |made|
  {
    || (header.Some? && exists i :: m <= i < b && made[i].header.Some? && made[i].header != header)
    || exists i, j :: m <= i < j < b && made[i].header.Some? && made[j].header.Some? && made[i].header != made[j].header
  }

  /** The header after them: the one known, or theirs, if there is one. */
  ghost predicate HeaderAfter(header: Option<int>, made: seq<Frame>, m: nat, b: nat, after: Option<int>)
    requires m < b <= |made|
  {
    && (header.Some? ==> after == header)
    && (after != header ==> exists i :: m <= i < b && made[i].header == after)
    && (forall i :: m <= i < b && made[i].header.Some? ==> after == made[i].header)
  }

  /** What a request with frames `a` to `b` is answered. */
  ghost function Answer(row: Row, made: seq<Frame>, a: nat, b: nat, crowded: bool): int
    requires a <= b <= |made|
  {
    var m := |row.stored|;
    if row.status == Cancelled then 410
    else if a == b || b <= m then 200
    else if row.status != Running || m < a || EndsWithin(made, m, b) then 409
    else if TooLong(made, m, b) then 413
    else if crowded && Carries(made, m, b) then 429
    else if Clashes(row.header, made, m, b) then 409
    else 200
  }

  lemma Shifted(made: seq<Frame>, m: nat, b: nat)
    requires m < b <= |made|
    ensures forall i :: m <= i < b ==> made[m..b][i - m] == made[i]
    ensures forall i :: 0 <= i < b - m ==> made[m..b][i] == made[m + i]
  {}

  lemma EndsWithinIs(made: seq<Frame>, m: nat, b: nat)
    requires m < b <= |made|
    ensures EndsEarly(made[m..b]) <==> EndsWithin(made, m, b)
  {
    Shifted(made, m, b);
    if EndsEarly(made[m..b]) {
      var i :| 0 <= i < b - m - 1 && (made[m..b][i].done || made[m..b][i].error);
      assert made[m + i].done || made[m + i].error;
    }
  }

  lemma TooLongIs(row: Row, made: seq<Frame>, m: nat, b: nat)
    requires row.stored <= made && m == |row.stored| < b <= |made|
    ensures TooLong(made, m, b)
            <==> Oversized(made[m..b]) || |Join(row.stored)| + |Join(made[m..b])| > MAX_RESPONSE
    ensures row.stored + made[m..b] == made[..b]
  {
    Shifted(made, m, b);
    assert made[..b] == row.stored + made[m..b];
    JoinMore(row.stored, made[m..b]);
    hide Join;
    if Oversized(made[m..b]) {
      var i :| 0 <= i < b - m && |made[m..b][i].data| > CHUNK_SIZE;
      assert |made[m + i].data| > CHUNK_SIZE;
    }
  }

  lemma CarriesIs(made: seq<Frame>, m: nat, b: nat)
    requires m < b <= |made|
    ensures HasData(made[m..b]) <==> Carries(made, m, b)
  {
    Shifted(made, m, b);
    if HasData(made[m..b]) {
      var i :| 0 <= i < b - m && made[m..b][i].data != [];
      assert made[m + i].data != [];
    }
  }

  lemma ClashesIs(header: Option<int>, made: seq<Frame>, m: nat, b: nat)
    requires m < b <= |made|
    ensures HeaderClash(header, made[m..b]) <==> Clashes(header, made, m, b)
  {
    var next := made[m..b];
    Shifted(made, m, b);
    if HeaderClash(header, next) {
      var i :| 0 <= i < |next| && next[i].header.Some?
               && ((header.Some? && next[i].header != header)
                   || exists j :: 0 <= j < i && next[j].header.Some? && next[j].header != next[i].header);
      if !(header.Some? && next[i].header != header) {
        var j :| 0 <= j < i && next[j].header.Some? && next[j].header != next[i].header;
        assert made[m + j].header.Some? && made[m + i].header.Some? && made[m + j].header != made[m + i].header;
      }
    }
  }

  lemma HeaderAfterIs(header: Option<int>, made: seq<Frame>, m: nat, b: nat)
    requires m < b <= |made| && !HeaderClash(header, made[m..b])
    ensures HeaderAfter(header, made, m, b, LastHeader(header, made[m..b]))
  {
    var next := made[m..b];
    HeadersAgree(header, next);
    LastHeaderOf(header, next);
    var after := LastHeader(header, next);
    hide HeaderClash, LastHeader;
    forall i | m <= i < b ensures made[i] in next {
      assert made[i] == next[i - m];
    }
    if after != header {
      var f :| f in next && f.header == after;
      var i :| 0 <= i < |next| && next[i] == f;
      assert made[m + i].header == after;
    }
  }

  /** What the new frames leave. */
  ghost predicate Stores(row: Row, made: seq<Frame>, b: nat, after: Row)
    requires |row.stored| < b <= |made|
  {
    && after.stored == made[..b]
    && after.status == (if made[b - 1].error then Failed else if made[b - 1].done then Done else Running)
    && HeaderAfter(row.header, made, |row.stored|, b, after.header)
  }

  lemma FreshAccepted(row: Row, frames: seq<Frame>, next: seq<Frame>, crowded: bool)
    requires FreshOf(frames, |row.stored|) == next != [] && row.status == Running && !Misnumbered(next, |row.stored|)
    ensures Accept(row, frames, crowded)
            == if EndsEarly(next) then (row, 409)
               else if Oversized(next) || |Join(row.stored)| + |Join(next)| > MAX_RESPONSE then (row, 413)
               else if HasData(next) && crowded then (row, 429)
               else if HeaderClash(row.header, next) then (row, 409)
               else (Row(row.stored + next, StatusAfter(next), LastHeader(row.header, next)), 200)
  {
    hide FreshOf, Join, LastHeader, HeaderClash, Oversized, HasData, EndsEarly, Misnumbered, StatusAfter;
  }

  lemma NewAccepted(row: Row, made: seq<Frame>, frames: seq<Frame>, b: nat, crowded: bool)
    requires Numbered(made) && row.stored <= made && |row.stored| < b <= |made|
    requires FreshOf(frames, |row.stored|) == made[|row.stored|..b] && row.status == Running
    ensures var ((after, code), m) := (Accept(row, frames, crowded), |row.stored|);
            && code == Answer(row, made, m, b, crowded)
            && (if code == 200 then Stores(row, made, b, after) else after == row)
  {
    var m := |row.stored|;
    var next := made[m..b];
    assert !Misnumbered(next, m) && next[|next| - 1] == made[b - 1];
    hide FreshOf, Join, LastHeader, HeaderClash, Oversized, HasData, EndsEarly, Misnumbered, Numbered, Clashes,
         EndsWithin, TooLong, Carries, HeaderAfter, Accept;
    EndsWithinIs(made, m, b);
    TooLongIs(row, made, m, b);
    CarriesIs(made, m, b);
    ClashesIs(row.header, made, m, b);
    FreshAccepted(row, frames, next, crowded);
    if Accept(row, frames, crowded).1 == 200 {
      HeaderAfterIs(row.header, made, m, b);
    }
  }

  lemma NothingNew(row: Row, made: seq<Frame>, a: nat, b: nat, crowded: bool)
    requires Numbered(made) && a <= b <= |made|
    requires var m := |row.stored|; row.status != Running || a == b || b <= m || m < a
    ensures Accept(row, made[a..b], crowded) == (row, Answer(row, made, a, b, crowded))
  {
    var m := |row.stored|;
    FreshSlice(made, a, b, m);
    if a < b && m < a {
      assert made[a..b][0].number == a;
      assert Misnumbered(made[a..b], m);
    }
    hide FreshOf, Join, LastHeader, HeaderClash, Oversized, HasData, EndsEarly, Misnumbered, Numbered, Clashes,
         EndsWithin, TooLong, Carries, StatusAfter;
  }

  /** MAIN RESULT (endpoint): what the endpoint answers to frames `a` to `b` of the
      response, and that it stores all that is new of them if that is 200, and nothing
      otherwise. */
  lemma AcceptExactly(row: Row, made: seq<Frame>, a: nat, b: nat, crowded: bool)
    requires Numbered(made) && row.stored <= made && a <= b <= |made|
    ensures var ((after, code), m) := (Accept(row, made[a..b], crowded), |row.stored|);
            && code == Answer(row, made, a, b, crowded)
            && (if code == 200 && a < b && m < b then Stores(row, made, b, after) else after == row)
  {
    var m := |row.stored|;
    if row.status == Running && a <= m < b && a < b {
      FreshTail(made, a, b, m);
      NewAccepted(row, made, made[a..b], b, crowded);
      hide Accept, FreshOf, Clashes, EndsWithin, TooLong, Carries, Stores;
    } else {
      NothingNew(row, made, a, b, crowded);
      hide Accept, FreshOf, Clashes, EndsWithin, TooLong, Carries, Stores;
    }
  }

  // ---- the header ----

  function RunOf(w: World): seq<Event> -> World {
    (es: seq<Event>) => Run(w, es)
  }

  ghost function Gives(status: int): (World, Event) -> bool {
    (w: World, e: Event) => e.Add? && e.status == Some(status)
  }

  /** Another status is given, or a flush has taken it. */
  ghost function Replaces(status: int): (World, Event) -> bool {
    (w: World, e: Event) => e.Begin? || (e.Add? && e.status.Some? && e.status != Some(status))
  }

  lemma HeaderStep(w: World, e: Event, status: int)
    ensures Step(w, e).client.header == Some(status)
            <==> Gives(status)(w, e) || (w.client.header == Some(status) && !Replaces(status)(w, e))
  {
    hide Send, NewFrames, Accept;
  }

  lemma {:induction false} HeaderFollows(w: World, es: seq<Event>, status: int)
    requires w.client.header == None
    ensures Run(w, es).client.header == Some(status) <==> Since(RunOf(w), es, Gives(status), Replaces(status))
  {
    if es != [] {
      var n := |es| - 1;
      HeaderFollows(w, es[..n], status);
      assert es == es[..n] + [es[n]];
      HeaderStep(Run(w, es[..n]), es[n], status);
      hide Since, Step, Gives, Replaces;
      SinceMore(RunOf(w), es[..n], es[n], Gives(status), Replaces(status));
    }
  }

  /** MAIN RESULT (status): the first frame that a flush makes carries a status exactly if
      that is the last one given since the flush before, with bytes or without, and no
      other frame of the flush carries any. */
  lemma StatusTravels(w: World, es: seq<Event>, final: Option<Final>, status: int)
    requires w.client.header == None
    ensures var (before, after) := (Run(w, es).made, Run(w, es + [Begin(final)]).made);
            && before <= after
            && (Since(RunOf(w), es, Gives(status), Replaces(status))
                <==> |before| < |after| && after[|before|].header == Some(status))
            && forall i :: |before| < i < |after| ==> after[i].header == None
  {
    HeaderFollows(w, es, status);
    var k := Run(w, es);
    assert (es + [Begin(final)])[..|es|] == es;
    CutIs(k.client, final);
    hide Since, Join;
    var more := NewFrames(k.client, final);
    assert Cut(k.client, final).unsent[|k.client.unsent|..] == more;
    hide NewFrames;
    assert Run(w, es + [Begin(final)]).made == k.made + more;
  }

  /** The header of a row is the one its frames carry. */
  ghost predicate Headed(row: Row) {
    && (row.header.Some? ==> exists f :: f in row.stored && f.header == row.header)
    && forall f :: f in row.stored && f.header.Some? ==> f.header == row.header
  }

  lemma AcceptHeads(row: Row, frames: seq<Frame>, crowded: bool)
    requires Headed(row)
    ensures Headed(Accept(row, frames, crowded).0)
  {
    var next := FreshOf(frames, |row.stored|);
    var after := Accept(row, frames, crowded).0;
    hide FreshOf, Join, Oversized, HasData, Misnumbered, EndsEarly, StatusAfter;
    if after != row {
      assert after.stored == row.stored + next && after.header == LastHeader(row.header, next);
      assert !HeaderClash(row.header, next);
      hide Accept, HeaderClash, LastHeader;
      HeadersAgree(row.header, next);
      LastHeaderOf(row.header, next);
      if after.header.Some? && after.header != row.header {
        var f :| f in next && f.header == after.header;
        assert f in after.stored;
      } else if after.header.Some? {
        var f :| f in row.stored && f.header == row.header;
        assert f in after.stored;
      }
    }
  }

  lemma {:induction false} ApiHeads(row: Row, frames: seq<Frame>, batch: bool, script: seq<Attempt>)
    requires Headed(row)
    ensures Headed(Api(row, frames, batch, script).0)
    decreases |script|
  {
    if script != [] {
      ApiFirst(row, frames, batch, script);
      AfterHeads(row, frames, script[0]);
      hide Accept, Api, Headed, After;
      ApiHeads(After(row, frames, script[0]), frames, batch, script[1..]);
    }
  }

  lemma AfterHeads(row: Row, frames: seq<Frame>, attempt: Attempt)
    requires Headed(row)
    ensures Headed(After(row, frames, attempt))
  {
    hide Accept;
    match attempt
    case ReplyLost(crowded) => AcceptHeads(row, frames, crowded);
    case Elsewhere(others, crowded) => AcceptHeads(row, others, crowded);
    case Answered(crowded) => AcceptHeads(row, frames, crowded);
    case _ =>
  }

  lemma {:induction false} SlicesHead(row: Row, frames: seq<Frame>, width: nat, script: seq<Attempt>)
    requires Headed(row) && width > 0
    ensures Headed(InSlices(row, frames, width, script).0)
    decreases |frames|
  {
    hide Api, Headed;
    if frames != [] {
      var n := if width <= |frames| then width else |frames|;
      ApiHeads(row, frames[..n], width > 1, script);
      var (after, verdict, rest) := Api(row, frames[..n], width > 1, script);
      SlicesHead(after, frames[n..], width, rest);
    }
  }

  lemma SendHeads(row: Row, protocol: int, frames: seq<Frame>, script: seq<Attempt>)
    requires Headed(row)
    ensures Headed(Send(row, protocol, frames, script).0)
  {
    hide InSlices, Headed;
    SlicesHead(row, frames, 1, script);
    SlicesHead(row, frames, MAX_BATCH_FRAMES, script);
    var (after, verdict, rest) := InSlices(row, frames, MAX_BATCH_FRAMES, script);
    SlicesHead(after, frames, 1, rest);
  }

  /** Over every run the status of the row is the one that the stored frames carry, and
      they carry no other. */
  lemma {:induction false} StatusArrives(protocol: int, es: seq<Event>)
    ensures Headed(Run(Start(protocol), es).row)
  {
    if es != [] {
      var n := |es| - 1;
      var w := Run(Start(protocol), es[..n]);
      StatusArrives(protocol, es[..n]);
      hide Send, Accept, Headed, NewFrames, Run;
      match es[n]
      case End(script) => SendHeads(w.row, w.protocol, w.client.unsent, script);
      case Late(a, b, crowded) => if a <= b <= |w.made| { AcceptHeads(w.row, w.made[a..b], crowded); }
      case Cancel => CancelHeads(w.row);
      case _ =>
    }
  }

  lemma CancelHeads(row: Row)
    requires Headed(row)
    ensures Headed(row.(status := Cancelled))
  {}

  // ---- the code ----

  lemma ClashMore(header: Option<int>, next: seq<Frame>, i: nat)
    requires i < |next| && !HeaderClash(header, next[..i])
    ensures LastHeader(header, next[..i + 1])
            == if next[i].header.Some? then next[i].header else LastHeader(header, next[..i])
    ensures HeaderClash(header, next[..i + 1])
            <==> next[i].header.Some? && LastHeader(header, next[..i]).Some?
                 && LastHeader(header, next[..i]) != next[i].header
    ensures HeaderClash(header, next[..i + 1]) ==> HeaderClash(header, next)
  {
    var before, after := next[..i], next[..i + 1];
    assert after[..i] == before && after[i] == next[i];
    assert forall j :: 0 <= j < i ==> before[j] == after[j] == next[j];
    HeadersAgree(header, before);
    LastHeaderOf(header, before);
  }

  lemma NotEarly(next: seq<Frame>, i: nat)
    requires 0 < i < |next| && !EndsEarly(next)
    ensures StatusAfter(next[..i]) == Running
  {}

  class Receiver {
    var stored: seq<Frame>
    var status: Status
    var header: Option<int>

    function State(): Row
      reads this
    {
      Row(stored, status, header)
    }

    constructor ()
      ensures State() == Row([], Running, None)
    {
      stored, status, header := [], Running, None;
    }

    method Cancel()
      modifies this
      ensures State() == old(State()).(status := Cancelled)
    {
      status := Cancelled;
    }

    /** The endpoint. Nothing is kept unless the whole batch is (one transaction). */
    method Post(frames: seq<Frame>, crowded: bool) returns (code: int)
      modifies this
      ensures (State(), code) == Accept(old(State()), frames, crowded)
    {
      if status == Cancelled {
        return 410;
      }
      var next := FreshOf(frames, |stored|);
      if next == [] {
        return 200;
      }
      if status != Running || Misnumbered(next, |stored|) || EndsEarly(next) {
        return 409;
      }
      if Oversized(next) || |Join(stored)| + |Join(next)| > MAX_RESPONSE {
        return 413;
      }
      if HasData(next) && crowded {
        return 429;
      }
      var seen, taken := header, status;
      for i := 0 to |next|
        invariant seen == LastHeader(header, next[..i])
        invariant !HeaderClash(header, next[..i])
        invariant taken == if i == 0 then Running else StatusAfter(next[..i])
        invariant State() == old(State())
      {
        var item := next[i];
        ClashMore(header, next, i);
        if item.header.Some? {
          if seen.Some? && seen != item.header {
            return 409;
          }
          seen := item.header;
        }
        if i > 0 {
          NotEarly(next, i);
        }
        if item.done || item.error {
          taken := if item.error then Failed else Done;
        }
      }
      assert next[..|next|] == next;
      stored, header, status := stored + next, seen, taken;
      code := 200;
    }
  }

  class Sender {
    var protocol: int
    const server: Receiver

    constructor (server: Receiver, protocol: int)
      ensures this.server == server && this.protocol == protocol
    {
      this.server := server;
      this.protocol := protocol;
    }

    method Request(frames: seq<Frame>, batch: bool, script: seq<Attempt>)
      returns (verdict: Verdict, rest: seq<Attempt>)
      modifies server
      ensures (server.State(), verdict, rest) == Api(old(server.State()), frames, batch, script)
    {
      hide Accept;
      rest := script;
      while rest != []
        invariant Api(server.State(), frames, batch, rest) == Api(old(server.State()), frames, batch, script)
        decreases |rest|
      {
        var attempt := rest[0];
        match attempt {
          case Dropped =>
          case ReplyLost(crowded) =>
            var _ := server.Post(frames, crowded);
          case Elsewhere(others, crowded) =>
            var _ := server.Post(others, crowded);
          case Withdrawn =>
            server.Cancel();
          case OldReplica =>
            if batch {
              return Refused(422), rest[1..];
            }
          case Answered(crowded) =>
            var code := server.Post(frames, crowded);
            if code == 200 {
              return Ok, rest[1..];
            } else if code != 429 {
              return Refused(code), rest[1..];
            }
        }
        rest := rest[1..];
      }
      verdict := GaveUp;
    }

    method SendSlices(frames: seq<Frame>, width: nat, script: seq<Attempt>)
      returns (verdict: Verdict, rest: seq<Attempt>)
      requires width > 0
      modifies server
      ensures (server.State(), verdict, rest) == InSlices(old(server.State()), frames, width, script)
    {
      hide Api;
      rest := script;
      var start := 0;
      while start < |frames|
        invariant 0 <= start <= |frames|
        invariant InSlices(server.State(), frames[start..], width, rest)
                  == InSlices(old(server.State()), frames, width, script)
      {
        var end := if start + width <= |frames| then start + width else |frames|;
        assert frames[start..][..end - start] == frames[start..end];
        assert frames[start..][end - start..] == frames[end..];
        verdict, rest := Request(frames[start..end], width > 1, rest);
        if verdict != Ok {
          return;
        }
        start := end;
      }
      verdict := Ok;
    }

    /** `send_frames`. */
    method SendFrames(frames: seq<Frame>, script: seq<Attempt>) returns (verdict: Verdict)
      modifies this`protocol, server
      ensures (server.State(), protocol, verdict) == Send(old(server.State()), old(protocol), frames, script)
    {
      hide InSlices;
      var rest := script;
      if protocol >= 2 {
        verdict, rest := SendSlices(frames, MAX_BATCH_FRAMES, rest);
        if verdict != Refused(422) {
          return;
        }
        protocol := 1;
      }
      verdict, rest := SendSlices(frames, 1, rest);
    }
  }
}
