/** Session files move in chunks to a part file that replaces the target whole. */
module Sessions {
  import opened Wrappers

  const SESSION_CHUNK: nat := 2 * 1024 * 1024
  const SESSION_TOTAL: nat := 512 * 1024 * 1024

  type Data = seq<int>
  /** One `session-import` request. Digests are free of collisions: a digest is
      the content it stands for, or `None` where the text is no digest. */
  datatype Chunk = Chunk(transfer: string, size: int, hash: Option<Data>, offset: int, raw: Data)

  datatype Reply = Rejected | Mismatch | Received(count: nat) | Installed(count: nat)

  /** The target file and the part files beside it, one for each transfer. */
  datatype Disk = Disk(target: Option<Data>, parts: map<string, Data>)

  predicate TransferId(s: string) {
    && 16 <= |s| <= 64
    && forall c :: c in s ==> '0' <= c <= '9' || 'a' <= c <= 'f' || 'A' <= c <= 'F' || c == '-'
  }

  function PartOf(d: Disk, transfer: string): Data {
    if transfer in d.parts then d.parts[transfer] else []
  }

  class SessionFile {
    var target: Option<Data>
    var parts: map<string, Data>

    function State(): Disk
      reads this
    {
      Disk(target, parts)
    }

    constructor (target: Option<Data>)
      ensures State() == Disk(target, map[])
    {
      this.target := target;
      parts := map[];
    }

    method Import(c: Chunk) returns (reply: Reply)
      modifies this
      ensures (State(), reply) == Imported(old(State()), c)
    {
      if !TransferId(c.transfer) || !(0 <= c.size <= SESSION_TOTAL) || c.hash == None {
        return Rejected;
      }
      var received := if c.transfer in parts then |parts[c.transfer]| else 0;
      if |c.raw| > SESSION_CHUNK || c.offset != received || received + |c.raw| > c.size {
        return Rejected;
      }
      var part := if c.transfer in parts then parts[c.transfer] else [];
      parts := parts[c.transfer := part + c.raw];
      received := received + |c.raw|;
      if received < c.size {
        return Received(received);
      }
      if parts[c.transfer] != c.hash.value {
        assert parts - {c.transfer} == old(parts) - {c.transfer};
        parts := parts - {c.transfer};
        return Mismatch;
      }
      assert parts - {c.transfer} == old(parts) - {c.transfer};
      target := Some(parts[c.transfer]);
      parts := parts - {c.transfer};
      reply := Installed(received);
    }
  }

  function Imported(d: Disk, c: Chunk): (Disk, Reply) {
    var part := PartOf(d, c.transfer);
    if !TransferId(c.transfer) || !(0 <= c.size <= SESSION_TOTAL) || c.hash == None
       || |c.raw| > SESSION_CHUNK || c.offset != |part| || |part| + |c.raw| > c.size then (d, Rejected)
    else
      var whole := part + c.raw;
      if |whole| < c.size then (d.(parts := d.parts[c.transfer := whole]), Received(|whole|))
      else if whole != c.hash.value then (d.(parts := d.parts - {c.transfer}), Mismatch)
      else (Disk(Some(whole), d.parts - {c.transfer}), Installed(|whole|))
  }

  /** A request that tells the truth about the file `source`. */
  ghost predicate Honest(c: Chunk, source: Data) {
    && c.size == |source| && c.hash == Some(source)
    && (0 <= c.offset <= c.offset + |c.raw| <= |source| ==> c.raw == source[c.offset..c.offset + |c.raw|])
  }

  /** Every part file is a beginning of `source`. */
  ghost predicate Beginnings(d: Disk, source: Data) {
    forall t :: t in d.parts ==> d.parts[t] <= source
  }

  /** `Crash(c, n)`: the agent stops while it works off `c`, with `n` of its bytes
      written and the part file not yet put in place. */
  datatype Event = Sent(chunk: Chunk) | Crash(chunk: Chunk, n: nat)

  predicate Taken(d: Disk, c: Chunk) {
    && TransferId(c.transfer) && 0 <= c.size <= SESSION_TOTAL && c.hash.Some?
    && |c.raw| <= SESSION_CHUNK && c.offset == |PartOf(d, c.transfer)| && c.offset + |c.raw| <= c.size
  }

  function Crashed(d: Disk, c: Chunk, n: nat): Disk {
    if Taken(d, c) && n <= |c.raw| then d.(parts := d.parts[c.transfer := PartOf(d, c.transfer) + c.raw[..n]]) else d
  }

  function After(d: Disk, e: Event): Disk {
    match e
    case Sent(c) => Imported(d, c).0
    case Crash(c, n) => Crashed(d, c, n)
  }

  /** One request, true or not: it is refused exactly if it may not be taken, and then
      nothing changes; otherwise its bytes join the part file, and once that has the size
      asked for it is gone, put in place of the target exactly if it has the digest. */
  lemma ImportedWhen(d: Disk, c: Chunk)
    ensures var ((k, reply), whole) := (Imported(d, c), PartOf(d, c.transfer) + c.raw);
            && k.parts - {c.transfer} == d.parts - {c.transfer}
            && (if !Taken(d, c) then reply == Rejected && k == d
                else if |whole| < c.size
                then reply == Received(|whole|) && k.target == d.target && PartOf(k, c.transfer) == whole
                else
                  && |whole| == c.size && c.transfer !in k.parts
                  && (if c.hash == Some(whole) then reply == Installed(c.size) && k.target == Some(whole)
                      else reply == Mismatch && k.target == d.target))
  {
    var part := PartOf(d, c.transfer);
    assert d.parts[c.transfer := part + c.raw] - {c.transfer} == d.parts - {c.transfer};
    assert d.parts - {c.transfer} - {c.transfer} == d.parts - {c.transfer};
  }

  lemma HonestStep(d: Disk, c: Chunk, source: Data)
    requires Beginnings(d, source) && Honest(c, source)
    ensures var (d', reply) := Imported(d, c);
            && Beginnings(d', source)
            && reply != Mismatch
            && (if reply.Installed? then d'.target == Some(source) else d'.target == d.target)
            && (reply.Rejected? <==> !Taken(d, c)) && (reply.Rejected? ==> d' == d)
            && (reply.Received? ==> PartOf(d', c.transfer) == source[..reply.count])
  {}

  function Run(d: Disk, es: seq<Event>): Disk
    decreases |es|
  {
    if es == [] then d else Run(After(d, es[0]), es[1..])
  }

  lemma CrashKeeps(d: Disk, c: Chunk, n: nat, source: Data)
    requires Beginnings(d, source) && Honest(c, source)
    ensures Beginnings(Crashed(d, c, n), source) && Crashed(d, c, n).target == d.target
  {
    if Taken(d, c) && n <= |c.raw| {
      var part := PartOf(d, c.transfer);
      assert part + c.raw[..n] == source[..|part| + n];
    }
  }

  /** Whatever honest requests arrive, lost, repeated or out of order, wherever the
      agent crashes and however many transfers overlap, the target is the old file
      or the source's, and the part files stay beginnings of the source's. */
  lemma {:induction false} TargetIsWhole(d: Disk, es: seq<Event>, source: Data)
    requires Beginnings(d, source) && forall e :: e in es ==> Honest(e.chunk, source)
    ensures Beginnings(Run(d, es), source)
    ensures Run(d, es).target == d.target || Run(d, es).target == Some(source)
    decreases |es|
  {
    if es != [] {
      assert es[0] in es;
      match es[0] {
        case Sent(c) => HonestStep(d, c, source);
        case Crash(c, n) => CrashKeeps(d, c, n, source);
      }
      TargetIsWhole(After(d, es[0]), es[1..], source);
    }
  }

  /** Requests that lie can do no more than fill their own part file: the target
      only ever takes content with the digest that was asked for. */
  lemma TargetHasDigest(d: Disk, e: Event)
    ensures After(d, e).target != d.target ==> e.Sent? && e.chunk.hash.Some? && After(d, e).target == e.chunk.hash
    ensures forall t :: t != e.chunk.transfer ==> PartOf(After(d, e), t) == PartOf(d, t)
  {}

  /** The chunks a sender makes of `source` from `offset` on. */
  function Chunks(transfer: string, source: Data, offset: nat): seq<Event>
    requires offset <= |source|
    decreases |source| - offset
  {
    var end := if offset + SESSION_CHUNK < |source| then offset + SESSION_CHUNK else |source|;
    [Sent(Chunk(transfer, |source|, Some(source), offset, source[offset..end]))]
    + (if end < |source| then Chunks(transfer, source, end) else [])
  }

  /** Sending the rest in order installs the file, from whatever point the transfer had
      reached, even with nothing left to send. */
  lemma {:induction false} ChunksInstall(d: Disk, transfer: string, source: Data, offset: nat)
    requires TransferId(transfer) && |source| <= SESSION_TOTAL
    requires offset <= |source| && PartOf(d, transfer) == source[..offset]
    ensures Run(d, Chunks(transfer, source, offset)).target == Some(source)
    decreases |source| - offset
  {
    var end := if offset + SESSION_CHUNK < |source| then offset + SESSION_CHUNK else |source|;
    var cs := Chunks(transfer, source, offset);
    assert source[..offset] + source[offset..end] == source[..end];
    assert end == |source| ==> source[..end] == source;
    var next := After(d, cs[0]);
    if end < |source| {
      assert cs[1..] == Chunks(transfer, source, end);
      ChunksInstall(next, transfer, source, end);
    } else {
      assert cs[1..] == [];
      assert Run(next, []) == next;
    }
  }
}
