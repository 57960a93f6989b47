/** Stored attachments: files on disk, rows in the database, signed links. */
module Objects {
  import opened Wrappers

  type Bytes = seq<int>
  type Id = nat

  /** Microseconds. */
  type Time = int

  const SECOND: int := 1_000_000
  const LINK_TTL: int := 86400 * SECOND
  const ORPHAN_AGE: int := LINK_TTL + 3600 * SECOND
  const UPLOAD_BUDGET: int := 180 * SECOND
  const MAX_SIZE: nat := 100 * 1024 * 1024
  const BATCH: nat := 500

  datatype File = File(data: Bytes, mtime: Time)

  /** Size and digest of the object are those of `data`. */
  datatype Row = Row(data: Bytes, expires: Time)

  // ---- links ----

  /** A keyed digest of identity and expiry that nobody else can make. */
  datatype Token = Token(identity: Id, expires: int)

  /** A link carries whole seconds. */
  function ExpirySeconds(row: Row): int {
    row.expires / SECOND
  }

  predicate LinkValid(identity: Id, expires: int, signature: Token, now: Time) {
    && 0 < expires * SECOND - now <= LINK_TTL + 60 * SECOND
    && signature == Token(identity, expires)
  }

  // ---- uploads ----

  /** A piece of an upload, and how long it took to come. */
  datatype Chunk = Chunk(delay: nat, data: Bytes)

  function Joined(chunks: seq<Chunk>): Bytes {
    if chunks == [] then [] else Joined(chunks[..|chunks| - 1]) + chunks[|chunks| - 1].data
  }

  lemma {:induction false} JoinedGrows(chunks: seq<Chunk>, n: nat)
    requires n <= |chunks|
    ensures |Joined(chunks[..n])| <= |Joined(chunks)|
    decreases |chunks|
  {
    if n == |chunks| {
      assert chunks[..n] == chunks;
    } else {
      JoinedGrows(chunks[..|chunks| - 1], n);
      assert chunks[..|chunks| - 1][..n] == chunks[..n];
    }
  }

  lemma JoinedOne(c: Chunk)
    ensures Joined([c]) == c.data
  {
    assert [c][..0] == [];
  }

  /** The bytes of the chunks, in their order. */
  lemma {:induction false} JoinedSplit(a: seq<Chunk>, b: seq<Chunk>)
    ensures Joined(a + b) == Joined(a) + Joined(b)
    decreases |b|
  {
    if b == [] {
      assert a + b == a;
    } else {
      var n := |b| - 1;
      JoinedSplit(a, b[..n]);
      assert a + b == (a + b[..n]) + [b[n]];
      var x, y, z := Joined(a), Joined(b[..n]), b[n].data;
      assert Joined(b) == y + z;
      JoinedLast(a + b[..n], b[n]);
      hide Joined;
      assert x + (y + z) == x + y + z;
    }
  }

  lemma JoinedLast(a: seq<Chunk>, c: Chunk)
    ensures Joined(a + [c]) == Joined(a) + c.data
  {
    assert (a + [c])[..|a|] == a;
  }

  /** An upload between its start and its commit; `placed`: the file is in place. */
  datatype Upload = Upload(start: Time, data: Bytes, placed: bool)

  /** `doomed`: files that a cleanup has listed as orphans and may still unlink.
      `used`: identities ever drawn. */
  datatype World = World(now: Time, files: map<Id, File>, rows: map<Id, Row>, uploads: map<Id, Upload>,
                         doomed: set<Id>, used: set<Id>)

  /** `Place`: the rename, of a file last written at `mtime`. `Drop`: an upload fails or
      its process dies, before or after the file is in place. `Unlink` and `Delete` are
      one row's part of a cleanup, whose transaction may never commit. `Doom` and `Reap`
      are its part for orphans. */
  datatype Event =
    | Tick(step: nat)
    | Begin(id: Id)
    | Write(id: Id, chunk: Bytes)
    | Place(id: Id, mtime: Time)
    | Commit(id: Id)
    | Drop(id: Id)
    | Unlink(id: Id)
    | Delete(id: Id)
    | Doom(id: Id)
    | Reap(id: Id)

  predicate Enabled(w: World, e: Event) {
    match e
    case Tick(_) => true
    case Begin(id) => id !in w.used
    case Write(id, chunk) => id in w.uploads && !w.uploads[id].placed && |w.uploads[id].data| + |chunk| <= MAX_SIZE
    case Place(id, mtime) => id in w.uploads && !w.uploads[id].placed && w.uploads[id].start <= mtime <= w.now
    case Commit(id) => id in w.uploads && w.uploads[id].placed && w.now <= w.uploads[id].start + UPLOAD_BUDGET
    case Drop(id) => id in w.uploads
    case Unlink(id) => id in w.rows && w.rows[id].expires <= w.now
    case Delete(id) => id in w.rows && w.rows[id].expires <= w.now
    case Doom(id) => id in w.files && w.files[id].mtime < w.now - ORPHAN_AGE && id !in w.rows
    case Reap(id) => id in w.doomed
  }

  function Step(w: World, e: Event): World
    requires Enabled(w, e)
  {
    match e
    case Tick(step) => w.(now := w.now + step)
    case Begin(id) => w.(uploads := w.uploads[id := Upload(w.now, [], false)], used := w.used + {id})
    case Write(id, chunk) => w.(uploads := w.uploads[id := w.uploads[id].(data := w.uploads[id].data + chunk)])
    case Place(id, mtime) =>
      w.(files := w.files[id := File(w.uploads[id].data, mtime)],
          uploads := w.uploads[id := w.uploads[id].(placed := true)])
    case Commit(id) =>
      var u := w.uploads[id];
      w.(rows := w.rows[id := Row(u.data, u.start + LINK_TTL)], uploads := w.uploads - {id})
    case Drop(id) => w.(uploads := w.uploads - {id})
    case Unlink(id) => w.(files := w.files - {id})
    case Delete(id) => w.(rows := w.rows - {id})
    case Doom(id) => w.(doomed := w.doomed + {id})
    case Reap(id) => w.(files := w.files - {id}, doomed := w.doomed - {id})
  }

  /** The file of an object is there, whole. */
  ghost predicate Stored(w: World, id: Id, data: Bytes) {
    id in w.files && w.files[id].data == data
  }

  predicate Late(w: World, u: Upload) {
    u.start + UPLOAD_BUDGET < w.now
  }

  ghost predicate Good(w: World, id: Id) {
    && (id in w.rows || id in w.uploads || id in w.files || id in w.doomed ==> id in w.used)
    && (id in w.rows ==>
          id !in w.uploads && w.rows[id].expires <= w.now + LINK_TTL
          && (w.now < w.rows[id].expires ==> Stored(w, id, w.rows[id].data) && id !in w.doomed))
    && (id in w.uploads ==>
          var u := w.uploads[id];
          && u.start <= w.now
          && (id in w.files || id in w.doomed ==> u.placed)
          && (u.placed ==> Late(w, u) || (Stored(w, id, u.data) && u.start <= w.files[id].mtime && id !in w.doomed)))
    && (id in w.files ==> w.files[id].mtime <= w.now)
  }

  ghost predicate Inv(w: World) {
    forall id :: Good(w, id)
  }

  lemma StepGood(w: World, e: Event, id: Id)
    requires Good(w, id) && Enabled(w, e)
    ensures Good(Step(w, e), id)
  {}

  lemma StepKeeps(w: World, e: Event)
    requires Inv(w) && Enabled(w, e)
    ensures Inv(Step(w, e))
  {
    hide Good;
    forall id ensures Good(Step(w, e), id) {
      StepGood(w, e, id);
    }
  }

  function Start(now: Time): World {
    World(now, map[], map[], map[], {}, {})
  }

  /** The worlds that events lead to. */
  ghost predicate Leads(w: World, es: seq<Event>, k: World)
    decreases |es|
  {
    if es == [] then k == w
    else Enabled(w, es[0]) && Leads(Step(w, es[0]), es[1..], k)
  }

  lemma {:induction false} RunKeeps(w: World, es: seq<Event>, k: World)
    requires Inv(w) && Leads(w, es, k)
    ensures Inv(k) && k.now >= w.now
    ensures forall id :: id in w.rows && k.now < w.rows[id].expires ==> id in k.rows && k.rows[id] == w.rows[id]
    decreases |es|
  {
    hide Inv;
    if es != [] {
      StepKeeps(w, es[0]);
      StepRows(w, es[0]);
      hide Step, Enabled;
      RunKeeps(Step(w, es[0]), es[1..], k);
    }
  }

  lemma StepRows(w: World, e: Event)
    requires Inv(w) && Enabled(w, e)
    ensures var k := Step(w, e);
            k.now >= w.now
            && forall id :: id in w.rows && k.now < w.rows[id].expires ==> id in k.rows && k.rows[id] == w.rows[id]
  {
    assert forall id :: id in w.rows ==> Good(w, id);
  }

  /** MAIN RESULT: over every run of uploads, crashes, and cleanups, committed or
      not, an object that has not expired has its whole file; and a link to it,
      once minted, is accepted for this object and with this expiry alone, exactly
      until the second in which it expires. */
  lemma LinkHonoured(start: Time, es: seq<Event>, w: World, more: seq<Event>, k: World, id: Id)
    requires Leads(Start(start), es, w) && id in w.rows && Leads(w, more, k)
    ensures var e := ExpirySeconds(w.rows[id]);
            && (forall other, expires ::
                  LinkValid(other, expires, Token(id, e), k.now) <==> other == id && expires == e && k.now < e * SECOND)
            && (k.now < w.rows[id].expires ==>
                  id in k.rows && k.rows[id] == w.rows[id] && Stored(k, id, w.rows[id].data))
            && (LinkValid(id, e, Token(id, e), k.now) ==> k.now < w.rows[id].expires)
  {
    RunKeeps(Start(start), es, w);
    RunKeeps(w, more, k);
    hide Leads;
    assert Good(k, id);
  }

  // ---- how long cleaning up takes ----

  function Expired(rows: map<Id, Row>, now: Time): set<Id> {
    set id | id in rows && rows[id].expires <= now
  }

  /** What one round selects: the oldest expired rows, at most 500. */
  ghost predicate Oldest(rows: map<Id, Row>, now: Time, taken: set<Id>) {
    var due := Expired(rows, now);
    && taken <= due
    && |taken| == (if |due| <= BATCH then |due| else BATCH)
    && forall a, b :: a in taken && b in due - taken ==> rows[a].expires <= rows[b].expires
  }

  /** No row of `later` that had expired by `now` is new. */
  ghost predicate NoneAged(rows: map<Id, Row>, later: map<Id, Row>, now: Time) {
    forall id :: id in later && later[id].expires <= now ==> id in rows && rows[id] == later[id]
  }

  /** Committed rounds from `now` on: `at[i]` are the rows before round `i`, and
      `taken[i]` what it removes; in between, other tasks may do anything. */
  ghost predicate Rounds(now: Time, at: seq<map<Id, Row>>, times: seq<Time>, taken: seq<set<Id>>) {
    && |at| == |taken| + 1 && |times| == |taken|
    && forall i :: 0 <= i < |taken| ==>
         && times[i] >= now
         && Oldest(at[i], times[i], taken[i])
         && NoneAged(at[i] - taken[i], at[i + 1], now)
  }

  function Less(n: nat, k: nat): nat {
    if n <= k then 0 else n - k
  }

  /** One round takes 500 of those that had expired by `now`, or all that are left. */
  lemma OneRound(rows: map<Id, Row>, now: Time, at: Time, taken: set<Id>, later: map<Id, Row>)
    requires at >= now && Oldest(rows, at, taken) && NoneAged(rows - taken, later, now)
    ensures |Expired(later, now)| <= Less(|Expired(rows, now)|, BATCH)
  {
    var due, stale := Expired(rows, at), Expired(rows, now);
    assert stale <= due;
    SubsetSize(Expired(later, now), stale - taken);
    if stale <= taken {
      assert stale - taken == {};
    } else {
      var b :| b in stale && b !in taken;
      assert b in due - taken;
      assert |due| <= BATCH ==> due - taken == {} by {
        Sizes(due, taken);
      }
      forall a | a in taken ensures a in stale {
        assert rows[a].expires <= rows[b].expires;
      }
      Sizes(stale, taken);
    }
  }

  lemma Sizes(a: set<Id>, b: set<Id>)
    requires b <= a
    ensures |a - b| == |a| - |b|
    ensures |a| == |b| ==> a - b == {}
  {}

  /** MAIN RESULT: `n` expired rows are gone after `n / 500` committed rounds,
      rounded up, whatever else is uploaded or expires meanwhile. */
  lemma {:induction false} GoneAfter(now: Time, at: seq<map<Id, Row>>, times: seq<Time>, taken: seq<set<Id>>)
    requires Rounds(now, at, times, taken)
    ensures |Expired(at[|taken|], now)| <= Less(|Expired(at[0], now)|, BATCH * |taken|)
    decreases |taken|
  {
    if taken != [] {
      var n := |taken| - 1;
      GoneAfter(now, at[..n + 1], times[..n], taken[..n]);
      OneRound(at[n], now, times[n], taken[n], at[n + 1]);
    }
  }

  /** In no run does a row appear that has expired already. */
  lemma {:induction false} RunAges(w: World, es: seq<Event>, k: World, now: Time)
    requires Inv(w) && Leads(w, es, k) && now <= w.now
    ensures NoneAged(w.rows, k.rows, now)
    decreases |es|
  {
    hide Inv;
    if es != [] {
      StepKeeps(w, es[0]);
      StepAges(w, es[0], now);
      StepRows(w, es[0]);
      hide Step, Enabled;
      RunAges(Step(w, es[0]), es[1..], k, now);
    }
  }

  lemma StepAges(w: World, e: Event, now: Time)
    requires Inv(w) && Enabled(w, e) && now <= w.now
    ensures NoneAged(w.rows, Step(w, e).rows, now)
  {
    assert forall id :: id in w.uploads ==> Good(w, id);
  }

  // ---- the code ----

  lemma Everywhere(w: World, id: Id)
    requires Inv(w)
    ensures Good(w, id)
  {}

  lemma {:induction false} LeadsOn(w: World, a: seq<Event>, k: World, b: seq<Event>, z: World)
    requires Leads(w, a, k) && Leads(k, b, z)
    ensures Leads(w, a + b, z)
    decreases |a|
  {
    if a == [] {
      assert a + b == b;
    } else {
      LeadsOn(Step(w, a[0]), a[1..], k, b, z);
      assert (a + b)[0] == a[0] && (a + b)[1..] == a[1..] + b;
    }
  }

  lemma LeadsOne(w: World, a: seq<Event>, k: World, e: Event)
    requires Leads(w, a, k) && Enabled(k, e)
    ensures Leads(w, a + [e], Step(k, e))
  {
    assert Leads(Step(k, e), [e][1..], Step(k, e));
    LeadsOn(w, a, k, [e], Step(k, e));
  }

  lemma LeadsFirst(w: World, e: Event)
    requires Enabled(w, e)
    ensures Leads(w, [e], Step(w, e))
  {
    assert Leads(Step(w, e), [e][1..], Step(w, e));
  }

  /** The chunks of an upload, as they are written. */
  function Writes(id: Id, chunks: seq<Chunk>): seq<Event> {
    if chunks == [] then []
    else
      var last := chunks[|chunks| - 1];
      Writes(id, chunks[..|chunks| - 1]) + [Tick(last.delay)] + [Write(id, last.data)]
  }

  lemma OneMore(id: Id, chunks: seq<Chunk>, i: nat)
    requires i < |chunks|
    ensures Joined(chunks[..i + 1]) == Joined(chunks[..i]) + chunks[i].data
    ensures Writes(id, chunks[..i + 1])
            == Writes(id, chunks[..i]) + [Tick(chunks[i].delay)] + [Write(id, chunks[i].data)]
  {
    assert chunks[..i + 1][..i] == chunks[..i];
  }

  function Unlinks(ids: seq<Id>): seq<Event> {
    seq(|ids|, i requires 0 <= i < |ids| => Unlink(ids[i]))
  }

  function Deletes(ids: seq<Id>): seq<Event> {
    seq(|ids|, i requires 0 <= i < |ids| => Delete(ids[i]))
  }

  lemma {:induction false} DeletesLead(w: World, ids: seq<Id>)
    requires Distinct(ids) && forall id :: id in ids ==> id in w.rows && w.rows[id].expires <= w.now
    ensures Leads(w, Deletes(ids), w.(rows := w.rows - SetOf(ids)))
  {
    if ids == [] {
      assert w.rows - SetOf(ids) == w.rows;
    } else {
      var first, rest := ids[..|ids| - 1], ids[|ids| - 1];
      DeletesLead(w, first);
      assert Deletes(ids) == Deletes(first) + [Delete(rest)];
      LeadsOne(w, Deletes(first), w.(rows := w.rows - SetOf(first)), Delete(rest));
      assert ids == first + [rest];
      assert w.rows - SetOf(ids) == w.rows - SetOf(first) - {rest};
    }
  }

  function Reaps(ids: seq<Id>): seq<Event> {
    if ids == [] then [] else Reaps(ids[..|ids| - 1]) + [Doom(ids[|ids| - 1])] + [Reap(ids[|ids| - 1])]
  }

  lemma NothingReaped(w: World)
    ensures Leads(w, Reaps([]), w)
  {}

  lemma ReapsMore(w: World, ids: seq<Id>, k: World, id: Id)
    requires Leads(w, Reaps(ids), k) && Old(k.files, k.now, id) && id !in k.rows
    ensures Leads(w, Reaps(ids + [id]), k.(files := k.files - {id}, doomed := k.doomed - {id}))
    ensures SetOf(ids + [id]) == SetOf(ids) + {id}
  {
    var doom := Step(k, Doom(id));
    LeadsOne(w, Reaps(ids), k, Doom(id));
    LeadsOne(w, Reaps(ids) + [Doom(id)], doom, Reap(id));
    assert (ids + [id])[..|ids|] == ids;
    assert k.doomed + {id} - {id} == k.doomed - {id};
  }

  function SetOf(ids: seq<Id>): set<Id> {
    set id | id in ids
  }

  predicate Distinct(ids: seq<Id>) {
    forall i, j :: 0 <= i < j < |ids| ==> ids[i] != ids[j]
  }

  /** In order, and before all of the pool. */
  ghost predicate InOrder(rows: map<Id, Row>, pool: set<Id>, due: seq<Id>) {
    && (forall i :: 0 <= i < |due| ==> due[i] in rows)
    && (forall i, j :: 0 <= i < j < |due| ==> rows[due[i]].expires <= rows[due[j]].expires)
    && (forall a, b :: a in due && b in pool && b in rows ==> rows[a].expires <= rows[b].expires)
  }

  /** The earliest of `all` are in `due`, in order, the others in `pool`. */
  ghost predicate Picked(rows: map<Id, Row>, all: set<Id>, pool: set<Id>, due: seq<Id>) {
    && all <= rows.Keys && pool <= all
    && SetOf(due) == all - pool && Distinct(due) && |due| == |all| - |pool| <= BATCH
    && InOrder(rows, pool, due)
  }

  lemma OrderMore(rows: map<Id, Row>, pool: set<Id>, due: seq<Id>, id: Id)
    requires InOrder(rows, pool, due) && id in pool && pool <= rows.Keys
    requires forall b :: b in pool ==> rows[id].expires <= rows[b].expires
    ensures InOrder(rows, pool - {id}, due + [id])
  {}

  lemma PickedMore(rows: map<Id, Row>, all: set<Id>, pool: set<Id>, due: seq<Id>, id: Id)
    requires Picked(rows, all, pool, due) && |due| < BATCH
    requires id in pool && forall b :: b in pool ==> rows[id].expires <= rows[b].expires
    ensures Picked(rows, all, pool - {id}, due + [id])
  {
    OrderMore(rows, pool, due, id);
    InSetOf(due);
    SetOfMore(due, id);
    assert SetOf(due) + {id} == all - (pool - {id});
    hide SetOf, InOrder;
    DistinctMore(due, id);
    hide Distinct;
  }

  lemma InSetOf(due: seq<Id>)
    ensures forall x :: x in due <==> x in SetOf(due)
  {}

  lemma SetOfMore(due: seq<Id>, id: Id)
    ensures SetOf(due + [id]) == SetOf(due) + {id}
    ensures forall x :: x in due + [id] <==> x in due || x == id
  {
    assert forall x :: x in due + [id] <==> x in due || x == id;
  }

  lemma DistinctMore(due: seq<Id>, id: Id)
    requires Distinct(due) && id !in due
    ensures Distinct(due + [id])
  {}

  lemma PickedOldest(rows: map<Id, Row>, locked: set<Id>, now: Time, pool: set<Id>, due: seq<Id>)
    requires Picked(rows, Expired(rows - locked, now), pool, due) && (pool == {} || |due| == BATCH)
    ensures Oldest(rows - locked, now, SetOf(due))
  {
    var all := Expired(rows - locked, now);
    Sizes(all, pool);
    assert all - SetOf(due) == pool;
  }

  predicate Old(files: map<Id, File>, now: Time, id: Id) {
    id in files && files[id].mtime < now - ORPHAN_AGE
  }

  datatype Answer = Body(data: Bytes) | Refused | Gone

  class Store {
    var now: Time
    var files: map<Id, File>
    var rows: map<Id, Row>
    var uploads: map<Id, Upload>
    var doomed: set<Id>
    var used: set<Id>

    function State(): World
      reads this
    {
      World(now, files, rows, uploads, doomed, used)
    }

    /** Some run has led here. */
    ghost predicate Valid()
      reads this
    {
      exists start, es :: Leads(Start(start), es, State())
    }

    constructor (start: Time)
      ensures Valid() && State() == Start(start)
    {
      now, files, rows, uploads, doomed, used := start, map[], map[], map[], {}, {};
      new;
      assert Leads(Start(start), [], State());
    }

    twostate lemma StillValid(es: seq<Event>)
      requires old(Valid()) && Leads(old(State()), es, State())
      ensures Valid()
    {
      var start, before :| Leads(Start(start), before, old(State()));
      LeadsOn(Start(start), before, old(State()), es, State());
    }

    /** The writing loop of `put`, into the temporary file: all chunks, unless they
        are too many bytes. `n`: how many were written. */
    method Receive(id: Id, chunks: seq<Chunk>) returns (stored: bool, n: nat)
      requires id in uploads && !uploads[id].placed && uploads[id].data == []
      modifies this`now, this`uploads
      ensures old(now) <= now
      ensures n <= |chunks| && (stored <==> n == |chunks|)
      ensures stored <==> |Joined(chunks)| <= MAX_SIZE
      ensures !stored ==> |Joined(chunks[..n])| <= MAX_SIZE < |Joined(chunks[..n + 1])|
      ensures uploads == old(uploads)[id := old(uploads)[id].(data := Joined(chunks[..n]))]
      ensures Leads(old(State()), Writes(id, chunks[..n]) + (if stored then [] else [Tick(chunks[n].delay)]), State())
    {
      for i := 0 to |chunks|
        invariant uploads == old(uploads)[id := old(uploads)[id].(data := Joined(chunks[..i]))]
        invariant |Joined(chunks[..i])| <= MAX_SIZE && old(now) <= now
        invariant Leads(old(State()), Writes(id, chunks[..i]), State())
      {
        hide Leads, Inv, Joined, Writes;
        JoinedGrows(chunks, i + 1);
        OneMore(id, chunks, i);
        LeadsOne(old(State()), Writes(id, chunks[..i]), State(), Tick(chunks[i].delay));
        now := now + chunks[i].delay;
        if |uploads[id].data| + |chunks[i].data| > MAX_SIZE {
          return false, i;
        }
        LeadsOne(old(State()), Writes(id, chunks[..i]) + [Tick(chunks[i].delay)], State(), Write(id, chunks[i].data));
        uploads := uploads[id := uploads[id].(data := uploads[id].data + chunks[i].data)];
      }
      assert chunks[..|chunks|] == chunks;
      assert Writes(id, chunks) + [] == Writes(id, chunks);
      stored, n := true, |chunks|;
    }

    /** `put`, up to the transaction that its caller commits. An upload that is too
        large leaves nothing. `rest`: for how long the file has not been written when it
        is renamed. */
    method Put(id: Id, chunks: seq<Chunk>, rest: nat) returns (stored: bool, ghost es: seq<Event>)
      requires Valid() && id !in used
      modifies this
      ensures Valid() && Leads(old(State()), es, State())
      ensures stored <==> |Joined(chunks)| <= MAX_SIZE
      ensures stored ==> id in files && old(now) <= files[id].mtime <= now
      ensures stored ==> es == [Begin(id)] + Writes(id, chunks) + [Place(id, files[id].mtime)]
      ensures !stored ==> exists n ::
                0 <= n < |chunks| && es == [Begin(id)] + Writes(id, chunks[..n]) + [Tick(chunks[n].delay)] + [Drop(id)]
      ensures rows == old(rows)
      ensures stored ==>
                && files == old(files)[id := File(Joined(chunks), files[id].mtime)]
                && uploads == old(uploads)[id := Upload(old(now), Joined(chunks), true)]
      ensures !stored ==> files == old(files) && uploads == old(uploads)
    {
      hide Leads, Inv, Writes, Joined, Valid;
      Sound();
      ghost var w0 := State();
      assert Good(w0, id) by {
        Everywhere(w0, id);
      }
      LeadsFirst(w0, Begin(id));
      uploads, used := uploads[id := Upload(now, [], false)], used + {id};
      ghost var w1 := State();
      var n;
      stored, n := Receive(id, chunks);
      ghost var w2, writes := State(), Writes(id, chunks[..n]) + (if stored then [] else [Tick(chunks[n].delay)]);
      LeadsOn(w0, [Begin(id)], w1, writes, w2);
      assert chunks[..|chunks|] == chunks;
      if stored {
        var mtime := if now - rest < uploads[id].start then uploads[id].start else now - rest;
        es := [Begin(id)] + Writes(id, chunks) + [Place(id, mtime)];
        assert [Begin(id)] + writes == [Begin(id)] + Writes(id, chunks);
        LeadsOne(w0, [Begin(id)] + writes, w2, Place(id, mtime));
        files, uploads := files[id := File(uploads[id].data, mtime)], uploads[id := uploads[id].(placed := true)];
      } else {
        es := [Begin(id)] + Writes(id, chunks[..n]) + [Tick(chunks[n].delay)] + [Drop(id)];
        assert [Begin(id)] + writes == [Begin(id)] + Writes(id, chunks[..n]) + [Tick(chunks[n].delay)];
        LeadsOne(w0, [Begin(id)] + writes, w2, Drop(id));
        uploads := uploads - {id};
      }
      StillValid(es);
    }

    lemma Sound()
      requires Valid()
      ensures Inv(State())
    {
      var start, es :| Leads(Start(start), es, State());
      RunKeeps(Start(start), es, State());
    }

    /** The caller's commit; an upload over its 180 seconds has been cancelled. */
    method Commit(id: Id) returns (committed: bool)
      requires Valid() && id in uploads && uploads[id].placed
      modifies this
      ensures Valid() && Leads(old(State()), [if committed then Event.Commit(id) else Drop(id)], State())
      ensures committed <==> old(now) <= old(uploads[id]).start + UPLOAD_BUDGET
      ensures files == old(files) && uploads == old(uploads) - {id}
      ensures rows == if committed
                      then old(rows)[id := Row(old(uploads[id]).data, old(uploads[id]).start + LINK_TTL)]
                      else old(rows)
    {
      committed := now <= uploads[id].start + UPLOAD_BUDGET;
      ghost var e := if committed then Event.Commit(id) else Drop(id);
      LeadsFirst(State(), e);
      if committed {
        rows := rows[id := Row(uploads[id].data, uploads[id].start + LINK_TTL)];
      }
      uploads := uploads - {id};
      StillValid([e]);
    }

    /** The earliest of some rows. */
    method Earliest(pool: set<Id>) returns (first: Id)
      requires pool != {} && pool <= rows.Keys
      ensures first in pool && forall id :: id in pool ==> rows[first].expires <= rows[id].expires
    {
      first :| first in pool;
      var rest := pool - {first};
      while rest != {}
        invariant rest <= pool && first in pool
        invariant forall id :: id in pool - rest ==> rows[first].expires <= rows[id].expires
        decreases |rest|
      {
        var id :| id in rest;
        if rows[id].expires < rows[first].expires {
          first := id;
        }
        rest := rest - {id};
      }
    }

    /** The query of `cleanup`: rows that have expired, by expiry, at most 500; those
        locked by someone else are skipped. */
    method SelectDue(locked: set<Id>) returns (due: seq<Id>)
      ensures Oldest(rows - locked, now, SetOf(due)) && Distinct(due)
      ensures forall i :: 0 <= i < |due| ==> due[i] in rows
      ensures forall i, j :: 0 <= i < j < |due| ==> rows[due[i]].expires <= rows[due[j]].expires
    {
      ghost var all := Expired(rows - locked, now);
      var pool := Expired(rows - locked, now);
      due := [];
      while pool != {} && |due| < BATCH
        invariant pool <= all && Picked(rows, all, pool, due)
        decreases |pool|
      {
        var id := Earliest(pool);
        PickedMore(rows, all, pool, due, id);
        due := due + [id];
        pool := pool - {id};
      }
      PickedOldest(rows, locked, now, pool, due);
    }

    /** The scan for old files; it stops at 500. */
    method FindOld() returns (found: seq<Id>)
      ensures Distinct(found) && |found| <= BATCH
      ensures forall id :: id in found ==> Old(files, now, id)
      ensures |found| < BATCH ==> forall id :: Old(files, now, id) ==> id in found
    {
      found := [];
      var rest := files.Keys;
      while rest != {}
        invariant rest <= files.Keys && Distinct(found) && |found| < BATCH
        invariant forall id :: id in found ==> Old(files, now, id) && id !in rest
        invariant forall id :: Old(files, now, id) ==> id in found || id in rest
        decreases |rest|
      {
        var id :| id in rest;
        rest := rest - {id};
        if files[id].mtime < now - ORPHAN_AGE {
          found := found + [id];
          if |found| >= BATCH {
            break;
          }
        }
      }
    }

    /** The rows' files go first. */
    method UnlinkAll(due: seq<Id>)
      requires forall id :: id in due ==> id in rows && rows[id].expires <= now
      modifies this`files
      ensures files == old(files) - SetOf(due)
      ensures Leads(old(State()), Unlinks(due), State())
    {
      for i := 0 to |due|
        invariant files == old(files) - SetOf(due[..i])
        invariant Leads(old(State()), Unlinks(due[..i]), State())
      {
        assert SetOf(due[..i + 1]) == SetOf(due[..i]) + {due[i]};
        assert Unlinks(due[..i + 1]) == Unlinks(due[..i]) + [Unlink(due[i])];
        LeadsOne(old(State()), Unlinks(due[..i]), State(), Unlink(due[i]));
        files := files - {due[i]};
      }
      assert due[..|due|] == due;
    }

    /** Each old file that has no row. */
    method ReapOrphans(found: seq<Id>) returns (count: nat, ghost orphans: seq<Id>)
      requires Distinct(found) && forall id :: id in found ==> Old(files, now, id)
      modifies this`files, this`doomed
      ensures files == old(files) - (SetOf(found) - rows.Keys) && doomed == old(doomed) - (SetOf(found) - rows.Keys)
      ensures SetOf(orphans) == SetOf(found) - rows.Keys && count == |orphans|
      ensures Leads(old(State()), Reaps(orphans), State())
    {
      hide Leads, Reaps;
      count, orphans := 0, [];
      assert Leads(old(State()), Reaps([]), State()) by {
        NothingReaped(State());
      }
      for i := 0 to |found|
        invariant rows == old(rows) && now == old(now)
        invariant files == old(files) - SetOf(orphans) && doomed == old(doomed) - SetOf(orphans)
        invariant SetOf(orphans) == SetOf(found[..i]) - rows.Keys && count == |orphans|
        invariant Leads(old(State()), Reaps(orphans), State())
      {
        assert SetOf(found[..i + 1]) == SetOf(found[..i]) + {found[i]};
        if found[i] !in rows {
          assert found[i] in found && found[i] !in SetOf(found[..i]);
          ReapsMore(old(State()), orphans, State(), found[i]);
          orphans := orphans + [found[i]];
          files, doomed := files - {found[i]}, doomed - {found[i]};
          count := count + 1;
        }
      }
      assert found[..|found|] == found;
    }

    /** `cleanup`, and the commit after it if that succeeds. `due`: the rows it takes;
        `orphans`: the old files without a row. */
    method Cleanup(locked: set<Id>, commits: bool) returns (count: nat, due: seq<Id>, ghost orphans: seq<Id>)
      requires Valid()
      modifies this
      ensures Valid() && now == old(now)
      ensures Leads(old(State()), Unlinks(due) + Reaps(orphans) + (if commits then Deletes(due) else []), State())
      ensures Oldest(old(rows) - locked, now, SetOf(due))
      ensures forall id :: id in orphans ==> Old(old(files), now, id) && id !in old(rows)
      ensures rows == if commits then old(rows) - SetOf(due) else old(rows)
      ensures files == old(files) - SetOf(due) - SetOf(orphans)
      ensures count == |due| + |orphans|
    {
      hide Leads, Unlinks, Reaps, Deletes, Valid;
      ghost var w0 := State();
      due := SelectDue(locked);
      assert forall id :: id in due ==> id in SetOf(due);
      UnlinkAll(due);
      ghost var w1 := State();
      var found := FindOld();
      var more;
      more, orphans := ReapOrphans(found);
      count := |due| + more;
      assert forall id :: id in orphans ==> id in SetOf(orphans);
      ghost var es := Unlinks(due) + Reaps(orphans);
      LeadsOn(w0, Unlinks(due), w1, Reaps(orphans), State());
      if commits {
        DeletesLead(State(), due);
        LeadsOn(w0, es, State(), Deletes(due), State().(rows := rows - SetOf(due)));
        es := es + Deletes(due);
        rows := rows - SetOf(due);
      }
      assert Unlinks(due) + Reaps(orphans) + [] == Unlinks(due) + Reaps(orphans);
      StillValid(es);
    }

    /** The download endpoint. */
    method Download(id: Id, expires: int, signature: Token) returns (answer: Answer)
      requires Valid()
      ensures answer == if !LinkValid(id, expires, signature, now) then Refused
                        else if id !in rows || rows[id].expires <= now then Gone
                        else Body(rows[id].data)
      ensures answer.Body? ==>
                && signature.identity == id && signature.expires == expires
                && now < expires * SECOND <= now + LINK_TTL + 60 * SECOND
                && id in rows && now < rows[id].expires && answer.data == rows[id].data
      ensures id in rows ==>
                var e := ExpirySeconds(rows[id]);
                expires == e && signature == Token(id, e) ==>
                    answer == if now < e * SECOND then Body(rows[id].data) else Refused
    {
      Sound();
      Everywhere(State(), id);
      hide Inv, Valid;
      if !LinkValid(id, expires, signature, now) {
        return Refused;
      }
      if id !in rows || rows[id].expires <= now {
        return Gone;
      }
      answer := Body(files[id].data);
    }

    /** What other tasks do between two rounds; what is not possible does not happen. */
    method Meanwhile(es: seq<Event>) returns (ghost done: seq<Event>)
      requires Valid()
      modifies this
      ensures Valid() && Leads(old(State()), done, State())
    {
      done := [];
      assert Leads(old(State()), done, State());
      for i := 0 to |es|
        invariant Leads(old(State()), done, State())
      {
        var w := State();
        if Enabled(w, es[i]) {
          LeadsOne(old(State()), done, w, es[i]);
          done := done + [es[i]];
          var k := Step(w, es[i]);
          now, files, rows, uploads, doomed, used := k.now, k.files, k.rows, k.uploads, k.doomed, k.used;
        }
      }
      StillValid(done);
    }
  }

  /** A round of the loop that cleans up: whether it could be committed, and what
      other tasks do before the next. */
  datatype Turn = Turn(commits: bool, meanwhile: seq<Event>)

  function Committed(turns: seq<Turn>): nat {
    if turns == [] then 0 else Committed(turns[..|turns| - 1]) + if turns[|turns| - 1].commits then 1 else 0
  }

  /** One round and what follows it. */
  lemma TurnAges(w: World, commits: bool, due: set<Id>, k: World, es: seq<Event>, z: World, now: Time)
    requires Inv(k) && Leads(k, es, z) && now <= w.now && k.now == w.now
    requires Oldest(w.rows, w.now, due) && k.rows == if commits then w.rows - due else w.rows
    ensures |Expired(z.rows, now)| <= Less(|Expired(w.rows, now)|, if commits then BATCH else 0)
  {
    RunAges(k, es, z, now);
    hide Inv, Leads, Oldest, Expired;
    if commits {
      OneRound(w.rows, now, w.now, due, z.rows);
    } else {
      NoneMore(w.rows, z.rows, now);
    }
  }

  lemma NoneMore(rows: map<Id, Row>, later: map<Id, Row>, now: Time)
    requires NoneAged(rows, later, now)
    ensures |Expired(later, now)| <= |Expired(rows, now)|
  {
    SubsetSize(Expired(later, now), Expired(rows, now));
  }

  /** The loop over `cleanup`: of the rows that have expired by now, each committed
      round takes 500, whatever happens between the rounds. */
  method CleanUp(store: Store, turns: seq<Turn>)
    requires store.Valid()
    modifies store
    ensures store.Valid() && store.now >= old(store.now)
    ensures |Expired(store.rows, old(store.now))|
            <= Less(|Expired(old(store.rows), old(store.now))|, BATCH * Committed(turns))
  {
    hide Leads, Inv, Store.Valid, Expired, Oldest, NoneAged;
    ghost var w0 := store.State();
    for i := 0 to |turns|
      invariant store.Valid() && store.now >= w0.now
      invariant |Expired(store.rows, w0.now)| <= Less(|Expired(w0.rows, w0.now)|, BATCH * Committed(turns[..i]))
    {
      assert turns[..i + 1][..i] == turns[..i];
      ghost var w1 := store.State();
      assert w1.rows - {} == w1.rows;
      var count, due;
      ghost var orphans, meanwhile;
      count, due, orphans := store.Cleanup({}, turns[i].commits);
      ghost var w2 := store.State();
      store.Sound();
      meanwhile := store.Meanwhile(turns[i].meanwhile);
      TurnAges(w1, turns[i].commits, SetOf(due), w2, meanwhile, store.State(), w0.now);
      RunKeeps(w2, meanwhile, store.State());
    }
    assert turns[..|turns|] == turns;
  }
}
