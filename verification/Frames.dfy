/** Frames of one response: what the batcher makes, what a receiver accepts. */
module Frames {
  import opened Wrappers

  const CHUNK_SIZE: nat := 48 * 1024
  const MAX_BYTES: nat := 16 * 1024
  const MAX_BATCH_FRAMES: nat := 32

  type Bytes = seq<int>
  /** `header` is the status line of the response; it travels once. */
  datatype Frame = Frame(number: nat, data: Bytes, header: Option<int>, done: bool, error: bool)

  /** The arguments of `finish`. */
  datatype Final = Final(error: bool)

  function Join(frames: seq<Frame>): Bytes {
    if frames == [] then [] else Join(frames[..|frames| - 1]) + frames[|frames| - 1].data
  }

  lemma {:induction false} JoinSplit(frames: seq<Frame>, k: nat)
    requires k <= |frames|
    ensures Join(frames) == Join(frames[..k]) + Join(frames[k..])
    decreases |frames|
  {
    if k == |frames| {
      assert frames[..k] == frames && frames[k..] == [];
    } else {
      var rest := frames[..|frames| - 1];
      JoinSplit(rest, k);
      assert rest[..k] == frames[..k];
      assert frames[k..][..|frames[k..]| - 1] == rest[k..];
    }
  }

  // ---- the sending side ----

  datatype Client = Client(buffer: Bytes, header: Option<int>, unsent: seq<Frame>, next: nat)

  /** Slices of at most `CHUNK_SIZE` bytes; one empty slice when there is no data. */
  function Pieces(data: Bytes): (pieces: seq<Bytes>)
    ensures |pieces| > 0
  {
    if |data| <= CHUNK_SIZE then [data] else [data[..CHUNK_SIZE]] + Pieces(data[CHUNK_SIZE..])
  }

  /** The header goes on the first frame, the end mark on the last. */
  function Framed(pieces: seq<Bytes>, next: nat, header: Option<int>, final: Option<Final>): seq<Frame> {
    seq(|pieces|, i requires 0 <= i < |pieces| =>
      Frame(next + i, pieces[i], if i == 0 then header else None,
            i == |pieces| - 1 && final.Some?, i == |pieces| - 1 && final.Some? && final.value.error))
  }

  function NewFrames(c: Client, final: Option<Final>): seq<Frame> {
    if c.buffer != [] || c.header.Some? || final.Some?
    then Framed(Pieces(c.buffer), c.next, c.header, final)
    else []
  }

  /** The first half of `flush`: the buffer becomes frames. */
  function Cut(c: Client, final: Option<Final>): Client {
    var made := NewFrames(c, final);
    Client([], None, c.unsent + made, c.next + |made|)
  }

  lemma {:induction false} PiecesWhole(data: Bytes, next: nat, header: Option<int>, final: Option<Final>)
    ensures Join(Framed(Pieces(data), next, header, final)) == data
    ensures forall p :: p in Pieces(data) ==> |p| <= CHUNK_SIZE
  {
    var pieces := Pieces(data);
    var frames := Framed(pieces, next, header, final);
    if |data| <= CHUNK_SIZE {
      assert frames[..0] == [];
    } else {
      var first, rest := data[..CHUNK_SIZE], data[CHUNK_SIZE..];
      PiecesWhole(rest, next + 1, None, final);
      FirstPiece(first, Pieces(rest), next, header, final);
      assert first + rest == data;
    }
  }

  lemma FirstPiece(first: Bytes, others: seq<Bytes>, next: nat, header: Option<int>, final: Option<Final>)
    requires others != []
    ensures Join(Framed([first] + others, next, header, final)) == first + Join(Framed(others, next + 1, None, final))
  {
    var frames := Framed([first] + others, next, header, final);
    JoinFirst(frames);
    hide Join;
    assert frames[1..] == Framed(others, next + 1, None, final);
  }

  lemma JoinFirst(frames: seq<Frame>)
    requires frames != []
    ensures Join(frames) == frames[0].data + Join(frames[1..])
  {
    JoinSplit(frames, 1);
    assert frames[..1][..0] == [];
  }

  lemma EmptyPiece()
    ensures Pieces([]) == [[]]
  {}

  lemma {:induction false} PiecesFull(data: Bytes)
    ensures forall i :: 0 <= i < |Pieces(data)| - 1 ==> |Pieces(data)[i]| == CHUNK_SIZE
    ensures data == [] || Pieces(data)[|Pieces(data)| - 1] != []
    ensures |Pieces(data)[|Pieces(data)| - 1]| <= CHUNK_SIZE
  {
    if |data| > CHUNK_SIZE {
      PiecesFull(data[CHUNK_SIZE..]);
    }
  }

  /** The first half of a flush: the buffer, in pieces that are full but for the last,
      becomes numbered frames after those not sent yet. The header is on the first of
      them alone and the end mark on the last; without bytes there is one frame if there
      is a header or an end mark, and none otherwise. */
  lemma CutIs(c: Client, final: Option<Final>)
    ensures var after := Cut(c, final);
            && after.buffer == [] && after.header == None && c.unsent <= after.unsent
            && var more := after.unsent[|c.unsent|..];
            && Join(more) == c.buffer && after.next == c.next + |more|
            && (more == [] <==> c.buffer == [] && c.header.None? && final.None?)
            && (c.buffer == [] ==> |more| <= 1)
            && forall i :: 0 <= i < |more| ==>
                 && more[i].number == c.next + i && |more[i].data| <= CHUNK_SIZE
                 && (i < |more| - 1 ==> |more[i].data| == CHUNK_SIZE) && (c.buffer != [] ==> more[i].data != [])
                 && more[i].header == (if i == 0 then c.header else None)
                 && (more[i].done <==> i == |more| - 1 && final.Some?)
                 && (more[i].error <==> i == |more| - 1 && final.Some? && final.value.error)
  {
    var more := NewFrames(c, final);
    PiecesFull(c.buffer);
    if more == [] {
      assert Join([]) == [];
    } else {
      PiecesWhole(c.buffer, c.next, c.header, final);
    }
    assert Join(more) == c.buffer;
    hide Join;
    assert Cut(c, final).unsent[|c.unsent|..] == more;
    if c.buffer == [] {
      EmptyPiece();
    }
    hide Pieces;
  }

  lemma PiecesStep(data: Bytes, pos: nat)
    requires pos < |data|
    ensures Pieces(data[pos..]) ==
            if pos + CHUNK_SIZE < |data| then [data[pos..pos + CHUNK_SIZE]] + Pieces(data[pos + CHUNK_SIZE..])
            else [data[pos..]]
  {
    var rest := data[pos..];
    if pos + CHUNK_SIZE < |data| {
      assert rest[..CHUNK_SIZE] == data[pos..pos + CHUNK_SIZE];
      assert rest[CHUNK_SIZE..] == data[pos + CHUNK_SIZE..];
    }
  }

  /** The slicing inside `flush`. */
  method Slices(data: Bytes) returns (pieces: seq<Bytes>)
    ensures pieces == Pieces(data)
  {
    hide Pieces;
    if data == [] {
      EmptyPiece();
      return [[]];
    }
    pieces := [];
    var pos := 0;
    assert data[0..] == data;
    while pos < |data|
      invariant 0 <= pos <= |data|
      invariant Pieces(data) == if pos < |data| then pieces + Pieces(data[pos..]) else pieces
      decreases |data| - pos
    {
      PiecesStep(data, pos);
      var end := if pos + CHUNK_SIZE <= |data| then pos + CHUNK_SIZE else |data|;
      assert end == |data| ==> data[pos..end] == data[pos..];
      assert end < |data| ==>
               pieces + ([data[pos..end]] + Pieces(data[end..])) == (pieces + [data[pos..end]]) + Pieces(data[end..]);
      pieces := pieces + [data[pos..end]];
      pos := end;
    }
  }

  class FrameBatcher {
    var buffer: Bytes
    var header: Option<int>
    var unsent: seq<Frame>
    var next: nat
    var error: bool

    function State(): Client
      reads this
    {
      Client(buffer, header, unsent, next)
    }

    constructor ()
      ensures State() == Client([], None, [], 0) && !error
    {
      buffer, header, unsent, next, error := [], None, [], 0, false;
    }

    /** `raised`: the failure of an earlier timed flush comes to light here, and
        the data is not taken. `full`: the caller flushes at once. */
    method Add(data: Bytes, status: Option<int>) returns (raised: bool, full: bool)
      modifies this
      ensures raised == old(error) && !error
      ensures raised ==> State() == old(State()) && !full
      ensures !raised ==> State() == Added(old(State()), data, status) && full == (|buffer| >= MAX_BYTES)
    {
      if error {
        error := false;
        return true, false;
      }
      if status.Some? {
        header := status;
      }
      buffer := buffer + data;
      return false, |buffer| >= MAX_BYTES;
    }

    /** `flush`, up to the point where it waits for `send`. The lock is held from
        here until `Settle`; in between only `Add` can run. */
    method Begin(final: Option<Final>)
      modifies this
      ensures State() == Cut(old(State()), final)
      ensures error == old(error)
    {
      var data, meta := buffer, header;
      buffer, header := [], None;
      if data != [] || meta.Some? || final.Some? {
        var pieces := Slices(data);
        ghost var all := Framed(pieces, next, meta, final);
        for index := 0 to |pieces|
          invariant unsent == old(unsent) + all[..index]
          invariant next == old(next) + index
          invariant buffer == [] && header == None && error == old(error)
        {
          var last := index == |pieces| - 1;
          var frame := Frame(next, pieces[index], if index == 0 then meta else None,
                             last && final.Some?, last && final.Some? && final.value.error);
          assert all[index] == frame && all[..index + 1] == all[..index] + [frame];
          unsent := unsent + [frame];
          next := next + 1;
        }
        assert all[..|pieces|] == all;
      }
    }

    /** The rest of `flush`. A timed flush that failed leaves its error to `Add`. */
    method Settle(ok: bool, timed: bool)
      modifies this
      ensures State() == if ok then old(State()).(unsent := []) else old(State())
      ensures error == (old(error) || (!ok && timed))
    {
      if ok {
        unsent := [];
      } else if timed {
        error := true;
      }
    }
  }

  function Added(c: Client, data: Bytes, status: Option<int>): Client {
    c.(buffer := c.buffer + data, header := if status.Some? then status else c.header)
  }
}
