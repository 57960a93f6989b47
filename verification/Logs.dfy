/** Copy-truncate rotation of a log that another process appends to. */
module Logs {
  type Bytes = seq<int>

  /** The numbered backups of one log. */
  type Files = map<nat, Bytes>

  datatype Log = Log(live: Bytes, files: Files)

  function Moved(files: Files, i: nat): Files {
    if i in files then (files - {i})[i + 1 := files[i]] else files
  }

  /** Backups `i`, `i - 1`, ..., 1 move up by one, in this order. */
  function Shifted(files: Files, i: nat): Files
    decreases i
  {
    if i == 0 then files else Shifted(Moved(files, i), i - 1)
  }

  /** What the backups hold, from number `n`, the oldest, to number 1. */
  function Chain(files: Files, n: nat): Bytes {
    if n == 0 then [] else (if n in files then files[n] else []) + Chain(files, n - 1)
  }

  function Content(log: Log, backups: nat): Bytes {
    Chain(log.files, backups) + log.live
  }

  /** `rotate_copytruncate`; what is written meanwhile is cut off with the rest. */
  function Rotated(log: Log, limit: nat, backups: nat): Log {
    if |log.live| <= limit then log
    else if backups == 0 then Log([], log.files)
    else Log([], Shifted(log.files, backups - 1)[1 := log.live])
  }

  /** The same, when copying stops after `n` bytes: nothing is cut off. */
  function Torn(log: Log, limit: nat, backups: nat, n: nat): Log
    requires n <= |log.live|
  {
    if |log.live| <= limit || backups == 0 then log
    else Log(log.live, Shifted(log.files, backups - 1)[1 := log.live[..n]])
  }

  ghost predicate Within(files: Files, backups: nat) {
    forall k :: k in files ==> 1 <= k <= backups
  }

  ghost predicate Suffix(a: Bytes, b: Bytes) {
    |a| <= |b| && a == b[|b| - |a|..]
  }

  lemma {:induction false} ChainSame(a: Files, b: Files, n: nat)
    requires forall k :: 1 <= k <= n ==> (k in a <==> k in b) && (k in a ==> a[k] == b[k])
    ensures Chain(a, n) == Chain(b, n)
  {
    if n > 0 {
      ChainSame(a, b, n - 1);
    }
  }

  /** Into a free number: the chain stays as it is. */
  lemma {:induction false} MovedChain(files: Files, i: nat, n: nat)
    requires 1 <= i < n && i + 1 !in files
    ensures Chain(Moved(files, i), n) == Chain(files, n)
    decreases n
  {
    var after := Moved(files, i);
    if n == i + 1 {
      ChainSame(after, files, i - 1);
      assert Chain(files, n) == [] + Chain(files, i);
    } else {
      MovedChain(files, i, n - 1);
    }
  }

  lemma {:induction false} ShiftedChain(files: Files, i: nat, n: nat)
    requires i < n && Within(files, n) && (i > 0 ==> i + 1 !in files)
    ensures Chain(Shifted(files, i), n) == Chain(files, n)
    ensures Within(Shifted(files, i), n) && (i > 0 ==> 1 !in Shifted(files, i))
    ensures i == 0 ==> Shifted(files, i) == files
    decreases i
  {
    if i > 0 {
      MovedChain(files, i, n);
      ShiftedChain(Moved(files, i), i - 1, n);
    }
  }

  /** Only the oldest backup can go, and it goes exactly when the number below it
      is in use too (or there is no number below). */
  function Remaining(files: Files, backups: nat): Files
    requires backups > 0
  {
    if backups == 1 || backups - 1 in files then files - {backups} else files
  }

  lemma MovedOver(files: Files, i: nat)
    requires i in files
    ensures Moved(files, i) == Moved(files - {i + 1}, i)
  {}

  /** MAIN RESULT: a rotation appends the live file to the chain of backups and
      drops at most the oldest one, gaps in the numbering or not. */
  lemma RotatedContent(log: Log, limit: nat, backups: nat)
    requires Within(log.files, backups) && |log.live| > limit && backups > 0
    ensures var after := Rotated(log, limit, backups);
            && after.live == [] && Within(after.files, backups) && |after.files| <= backups
            && Content(after, backups) == Chain(Remaining(log.files, backups), backups) + log.live
            && Suffix(Content(after, backups), Content(log, backups))
  {
    hide Chain, Shifted, Remaining, Suffix, Within;
    var up := Shifted(log.files, backups - 1);
    var left := Chain(Remaining(log.files, backups), backups);
    ShiftedKept(log.files, backups);
    CopyContent(up, log.live, backups);
    RemainingSuffix(log.files, backups);
    CopyWithin(up, log.live, backups);
    FewFiles(up[1 := log.live], backups);
    SuffixMore(left, Chain(log.files, backups), log.live);
    assert left + log.live + [] == left + log.live;
  }

  lemma CopyWithin(up: Files, data: Bytes, backups: nat)
    requires Within(up, backups) && backups > 0
    ensures Within(up[1 := data], backups)
  {}

  lemma ShiftedKept(files: Files, backups: nat)
    requires Within(files, backups) && backups > 0
    ensures var up := Shifted(files, backups - 1);
            && Within(up, backups)
            && (backups > 1 ==> 1 !in up && Chain(up, backups) == Chain(Remaining(files, backups), backups))
            && (backups == 1 ==> up == files)
  {
    if backups > 1 {
      var i := backups - 1;
      if i in files {
        MovedOver(files, i);
        assert Shifted(files, i) == Shifted(Moved(files, i), i - 1);
        assert Shifted(files - {backups}, i) == Shifted(Moved(files, i), i - 1);
        ShiftedChain(files - {backups}, i, backups);
      } else {
        assert Moved(files, i) == files;
        ShiftedFrom(files, i, backups);
      }
    }
  }

  lemma ShiftedFrom(files: Files, i: nat, n: nat)
    requires 1 <= i < n && Within(files, n) && i !in files
    ensures Chain(Shifted(files, i), n) == Chain(files, n) && Within(Shifted(files, i), n) && 1 !in Shifted(files, i)
  {
    ShiftedChain(files, i - 1, n);
  }

  /** The files up to number `i` are each one number higher. */
  lemma {:induction false} ShiftedAt(files: Files, i: nat, k: nat)
    requires 0 !in files && k > 0
    ensures k in Shifted(files, i) <==> if k <= i + 1 then k - 1 in files || (k == i + 1 && k in files) else k in files
    ensures k in Shifted(files, i) ==>
              Shifted(files, i)[k] == if k <= i + 1 && k - 1 in files then files[k - 1] else files[k]
    decreases i
  {
    if i > 0 {
      ShiftedAt(Moved(files, i), i - 1, k);
    }
  }

  /** MAIN RESULT (rotation): a log is left alone exactly while it is not over the limit;
      over it, the live file is empty and number 1 what it was, every other backup has
      moved up by one number, and the oldest stays only if there was none to take its
      place. */
  lemma RotatedFiles(log: Log, limit: nat, backups: nat, k: nat)
    requires Within(log.files, backups)
    ensures var after := Rotated(log, limit, backups);
            && (after == log <==> |log.live| <= limit)
            && (|log.live| > limit ==>
                  && after.live == []
                  && (k in after.files <==>
                        1 <= k <= backups && (k == 1 || k - 1 in log.files || (k == backups && k in log.files)))
                  && (k in after.files ==> after.files[k] == if k == 1 then log.live
                                                             else if k - 1 in log.files then log.files[k - 1]
                                                             else log.files[k]))
  {
    if backups > 0 {
      if k > 0 {
        ShiftedAt(log.files, backups - 1, k);
      } else {
        ShiftedKept(log.files, backups);
      }
    }
    hide Shifted;
  }

  lemma Regroup(a: Bytes, b: Bytes, c: Bytes)
    ensures a + (b + c) == a + b + c
  {}

  /** The copy goes to number 1, which is free or the only one. */
  lemma {:induction false} CopyContent(up: Files, data: Bytes, n: nat)
    requires n > 0 && (1 !in up || n == 1)
    ensures Chain(up[1 := data], n) == (if n == 1 then [] else Chain(up, n)) + data
  {
    var copied := up[1 := data];
    if n == 1 {
      assert Chain(copied, 0) == [];
      assert data + [] == data == [] + data;
    } else {
      var oldest := if n in up then up[n] else [];
      assert Chain(copied, n) == oldest + Chain(copied, n - 1);
      assert Chain(up, n) == oldest + Chain(up, n - 1);
      CopyContent(up, data, n - 1);
      if n == 2 {
        assert Chain(up, 1) == [] + [];
      }
      assert Chain(copied, n - 1) == Chain(up, n - 1) + data;
      Regroup(oldest, Chain(up, n - 1), data);
    }
  }

  lemma RemainingSuffix(files: Files, backups: nat)
    requires Within(files, backups) && backups > 0
    ensures Suffix(Chain(Remaining(files, backups), backups), Chain(files, backups))
    ensures backups == 1 ==> Chain(Remaining(files, backups), backups) == []
  {
    ChainSame(files - {backups}, files, backups - 1);
  }

  lemma FewFiles(files: Files, backups: nat)
    requires Within(files, backups)
    ensures |files| <= backups
  {
    Few(files.Keys, backups);
    assert |files| == |files.Keys|;
  }

  lemma Few(numbers: set<nat>, n: nat)
    requires forall k :: k in numbers ==> 1 <= k <= n
    ensures |numbers| <= n
  {
    if n > 0 {
      Few(numbers - {n}, n - 1);
    }
  }

  lemma SuffixMore(a: Bytes, b: Bytes, c: Bytes)
    requires Suffix(a, b)
    ensures Suffix(a + c, b + c)
  {}

  /** When copying stops early, what was copied is there twice from then on. */
  lemma TornContent(log: Log, limit: nat, backups: nat, n: nat)
    requires Within(log.files, backups) && |log.live| > limit && backups > 0 && n <= |log.live|
    ensures var after := Torn(log, limit, backups, n);
            && Within(after.files, backups) && |after.files| <= backups && after.live == log.live
            && Content(after, backups) == Chain(Remaining(log.files, backups), backups) + log.live[..n] + log.live
  {
    hide Chain, Shifted, Remaining, Suffix, Within;
    var up, data := Shifted(log.files, backups - 1), log.live[..n];
    ShiftedKept(log.files, backups);
    CopyContent(up, data, backups);
    RemainingSuffix(log.files, backups);
    CopyWithin(up, data, backups);
    FewFiles(up[1 := data], backups);
  }

  /** The shift, when it stops above number `stop`. */
  function PartShifted(files: Files, i: nat, stop: nat): Files
    decreases i
  {
    if i <= stop then files else PartShifted(Moved(files, i), i - 1, stop)
  }

  lemma {:induction false} PartChain(files: Files, i: nat, stop: nat, n: nat)
    requires i < n && Within(files, n) && (i > stop ==> i + 1 !in files)
    ensures Chain(PartShifted(files, i, stop), n) == Chain(files, n) && Within(PartShifted(files, i, stop), n)
    decreases i
  {
    if i > stop {
      MovedChain(files, i, n);
      PartChain(Moved(files, i), i - 1, stop, n);
    }
  }

  /** The oldest backup may go, the others stay, and in their order. */
  lemma StallKept(files: Files, backups: nat, stop: nat)
    requires Within(files, backups) && backups > 0
    ensures var after := PartShifted(files, backups - 1, stop);
            && Within(after, backups)
            && (Chain(after, backups) == Chain(files, backups)
                 || Chain(after, backups) == Chain(Remaining(files, backups), backups))
  {
    var i := backups - 1;
    if i > stop {
      if i in files {
        MovedOver(files, i);
        PartChain(files - {backups}, i, stop, backups);
      } else {
        assert Moved(files, i) == files;
        PartChain(files, i - 1, stop, backups);
      }
    }
  }

  // ---- runs ----

  /** A byte is told apart by its place among all that was written. */
  function Places(from: nat, size: nat): (data: Bytes)
    ensures |data| == size && forall k :: 0 <= k < size ==> data[k] == from + k
  {
    seq(size, k requires 0 <= k < size => from + k)
  }

  /** `Rotate(during)`: so many bytes are written between the copy and the cut.
      `Tear(n)`: a rotation that fails after `n` bytes are copied. `Stall(stop)`: one
      that fails before, when the backups down to `stop + 1` have moved up. */
  datatype Event = Append(size: nat) | Rotate(during: nat) | Tear(n: nat) | Stall(stop: nat)

  /** `older`: everything that was ever copied off the live file; `written`: how
      many bytes were written. */
  datatype World = World(log: Log, older: Bytes, written: nat)

  /** What there would be if no backup were ever dropped. */
  function Archive(w: World): Bytes {
    w.older + w.log.live
  }

  function Appended(w: World, size: nat): World {
    w.(log := w.log.(live := w.log.live + Places(w.written, size)), written := w.written + size)
  }

  function Copied(log: Log, n: nat): Bytes {
    if n <= |log.live| then log.live[..n] else log.live
  }

  function Step(w: World, e: Event, limit: nat, backups: nat): World {
    match e
    case Append(size) => Appended(w, size)
    case Rotate(during) =>
      if |w.log.live| <= limit then Appended(w, during)
      else World(Rotated(w.log, limit, backups), w.older + w.log.live, w.written + during)
    case Tear(n) =>
      if |w.log.live| <= limit || backups == 0 then w
      else World(Torn(w.log, limit, backups, |Copied(w.log, n)|), w.older + Copied(w.log, n), w.written)
    case Stall(stop) =>
      if |w.log.live| <= limit || backups == 0 then w
      else w.(log := w.log.(files := PartShifted(w.log.files, backups - 1, stop)))
  }

  function Run(es: seq<Event>, limit: nat, backups: nat): World {
    if es == [] then World(Log([], map[]), [], 0)
    else Step(Run(es[..|es| - 1], limit, backups), es[|es| - 1], limit, backups)
  }

  /** Bytes that a rotation cut off without having copied them. */
  function Lost(es: seq<Event>, limit: nat, backups: nat): nat {
    if es == [] then 0
    else
      var n := |es| - 1;
      Lost(es[..n], limit, backups)
      + if es[n].Rotate? && |Run(es[..n], limit, backups).log.live| > limit then es[n].during else 0
  }

  /** Bytes that were copied by a rotation that then did not cut them off. */
  function Repeated(es: seq<Event>, limit: nat, backups: nat): nat {
    if es == [] then 0
    else
      var n := |es| - 1;
      var log := Run(es[..n], limit, backups).log;
      Repeated(es[..n], limit, backups)
      + if es[n].Tear? && |log.live| > limit && backups > 0 then |Copied(log, es[n].n)| else 0
  }

  /** The backups are the end of what was copied off, and no byte comes from nowhere. */
  ghost predicate Inv(w: World, backups: nat) {
    && Within(w.log.files, backups)
    && Suffix(Chain(w.log.files, backups), w.older)
    && forall k :: 0 <= k < |Archive(w)| ==> 0 <= Archive(w)[k] < w.written
  }

  /** Every byte comes after those written before it, and once. */
  ghost predicate Increasing(data: Bytes) {
    forall i, j :: 0 <= i < j < |data| ==> data[i] < data[j]
  }

  lemma SuffixChain(a: Bytes, b: Bytes, c: Bytes)
    requires Suffix(a, b) && Suffix(b, c)
    ensures Suffix(a, c)
  {}

  lemma AppendKeeps(w: World, size: nat, backups: nat)
    requires Inv(w, backups)
    ensures Inv(Appended(w, size), backups)
    ensures Archive(Appended(w, size)) == Archive(w) + Places(w.written, size)
    ensures Increasing(Archive(Appended(w, size))) <==> Increasing(Archive(w))
  {
    hide Chain, Suffix, Places;
    var a, b := Archive(w), Archive(Appended(w, size));
    assert b == a + Places(w.written, size);
    if Increasing(b) {
      assert forall i :: 0 <= i < |a| ==> a[i] == b[i];
    }
  }

  /** The oldest backup may go, the copy is added: still an end of all copies. */
  lemma CopyKeeps(log: Log, older: Bytes, data: Bytes, backups: nat)
    requires Within(log.files, backups) && backups > 0 && Suffix(Chain(log.files, backups), older)
    ensures var files := Shifted(log.files, backups - 1)[1 := data];
            Within(files, backups) && Suffix(Chain(files, backups), older + data)
  {
    var up := Shifted(log.files, backups - 1);
    var left := Chain(Remaining(log.files, backups), backups);
    ShiftedKept(log.files, backups);
    CopyContent(up, data, backups);
    RemainingSuffix(log.files, backups);
    CopyWithin(up, data, backups);
    hide Chain, Remaining, Shifted, Within, Suffix;
    SuffixChain(left, Chain(log.files, backups), older);
    SuffixMore(left, older, data);
  }

  lemma RotateKeeps(w: World, during: nat, limit: nat, backups: nat)
    requires Inv(w, backups) && |w.log.live| > limit
    ensures var after := Step(w, Rotate(during), limit, backups);
            Inv(after, backups) && Archive(after) == Archive(w)
  {
    if backups > 0 {
      CopyKeeps(w.log, w.older, w.log.live, backups);
    } else {
      assert Suffix(Chain(w.log.files, 0), w.older + w.log.live);
    }
    hide Chain, Shifted, Suffix, Within;
    assert Archive(Step(w, Rotate(during), limit, backups)) == Archive(w);
  }

  lemma TearKeeps(w: World, n: nat, limit: nat, backups: nat)
    requires Inv(w, backups) && |w.log.live| > limit && backups > 0
    ensures var after := Step(w, Tear(n), limit, backups);
            && Inv(after, backups)
            && |Archive(after)| == |Archive(w)| + |Copied(w.log, n)|
            && (Copied(w.log, n) == [] ==> Archive(after) == Archive(w))
            && (Copied(w.log, n) != [] ==> !Increasing(Archive(after)))
  {
    hide Chain, Shifted, Suffix, Within, Increasing;
    var data, after := Copied(w.log, n), Step(w, Tear(n), limit, backups);
    assert w.log.live[..|data|] == data;
    assert Archive(w) == w.older + w.log.live;
    assert Archive(after) == w.older + data + w.log.live;
    CopyKeeps(w.log, w.older, data, backups);
    CopyTwice(w.older, w.log.live, data, w.written);
  }

  /** The archive after a copy of the beginning `data` of the live file. */
  lemma CopyTwice(older: Bytes, live: Bytes, data: Bytes, written: nat)
    requires data <= live && forall k :: 0 <= k < |older + live| ==> 0 <= (older + live)[k] < written
    ensures var after := older + data + live;
            && (forall k :: 0 <= k < |after| ==> 0 <= after[k] < written)
            && (data == [] ==> after == older + live)
            && (data != [] ==> !Increasing(after))
  {
    var before, after := older + live, older + data + live;
    forall k | 0 <= k < |after| ensures 0 <= after[k] < written {
      if k < |older| + |data| {
        assert after[k] == before[k];
      } else {
        assert after[k] == before[k - |data|];
      }
    }
    if data == [] {
      assert older + [] == older;
    } else {
      var i, j := |older|, |older| + |data|;
      assert live[0] == data[0];
      assert after[i] == data[0] && after[j] == live[0];
    }
  }

  /** MAIN RESULT: over every run the backups, oldest first, and the live file are the
      end of the archive, in at most `backups` files; and the archive is everything
      written, once and in order, exactly if no rotation lost a byte between copy and
      cut and none copied a byte without cutting it off. */
  lemma {:induction false} LogIsSuffix(es: seq<Event>, limit: nat, backups: nat)
    ensures var w := Run(es, limit, backups);
            && Inv(w, backups) && |w.log.files| <= backups
            && Suffix(Content(w.log, backups), Archive(w))
            && |Archive(w)| + Lost(es, limit, backups) == w.written + Repeated(es, limit, backups)
            && (Increasing(Archive(w)) <==> Repeated(es, limit, backups) == 0)
            && (Archive(w) == Places(0, w.written) <==>
                  Lost(es, limit, backups) == 0 && Repeated(es, limit, backups) == 0)
  {
    var w := Run(es, limit, backups);
    Totals(es, limit, backups);
    InvFew(w, backups);
    if Lost(es, limit, backups) == 0 && Repeated(es, limit, backups) == 0 {
      EachOnce(Archive(w), w.written);
    }
    hide Content, Suffix;
    if Archive(w) == Places(0, w.written) {
      assert Increasing(Archive(w));
    }
  }

  lemma {:induction false} Totals(es: seq<Event>, limit: nat, backups: nat)
    ensures var w := Run(es, limit, backups);
            && Inv(w, backups)
            && |Archive(w)| + Lost(es, limit, backups) == w.written + Repeated(es, limit, backups)
            && (Increasing(Archive(w)) <==> Repeated(es, limit, backups) == 0)
  {
    if es == [] {
      NoFiles(backups);
    } else {
      var n := |es| - 1;
      hide Inv, Rotated, Torn, Suffix, Increasing, Places, Copied, Archive, Step;
      Totals(es[..n], limit, backups);
      StepKeeps(Run(es[..n], limit, backups), es[n], limit, backups);
    }
  }

  /** As many increasing places as there are: all of them. */
  lemma {:induction false} EachOnce(data: Bytes, n: nat)
    requires Increasing(data) && |data| == n && forall k :: 0 <= k < n ==> 0 <= data[k] < n
    ensures data == Places(0, n)
  {
    if n > 0 {
      var rest := data[..n - 1];
      assert forall k :: 0 <= k < n - 1 ==> rest[k] < data[n - 1];
      EachOnce(rest, n - 1);
      assert n > 1 ==> rest[n - 2] == n - 2;
      assert data == rest + [data[n - 1]];
    }
  }

  lemma StepKeeps(w: World, e: Event, limit: nat, backups: nat)
    requires Inv(w, backups)
    ensures var after, cuts := Step(w, e, limit, backups), |w.log.live| > limit;
            && Inv(after, backups)
            && |Archive(after)| == |Archive(w)| + (match e
                 case Append(size) => size
                 case Rotate(during) => if cuts then 0 else during
                 case Tear(n) => if cuts && backups > 0 then |Copied(w.log, n)| else 0
                 case Stall(_) => 0)
            && after.written == w.written + (match e
                 case Append(size) => size
                 case Rotate(during) => during
                 case _ => 0)
            && (Increasing(Archive(after)) <==>
                  Increasing(Archive(w)) && !(e.Tear? && cuts && backups > 0 && Copied(w.log, e.n) != []))
  {
    hide Inv, Rotated, Torn, Archive, Increasing, Copied;
    match e
    case Append(size) => AppendKeeps(w, size, backups);
    case Rotate(during) =>
      if |w.log.live| > limit {
        RotateKeeps(w, during, limit, backups);
      } else {
        AppendKeeps(w, during, backups);
      }
    case Tear(n) =>
      if |w.log.live| > limit && backups > 0 {
        TearKeeps(w, n, limit, backups);
      }
    case Stall(stop) =>
      if |w.log.live| > limit && backups > 0 {
        StallKeeps(w, stop, limit, backups);
      }
  }

  lemma StallKeeps(w: World, stop: nat, limit: nat, backups: nat)
    requires Inv(w, backups) && |w.log.live| > limit && backups > 0
    ensures var after := Step(w, Stall(stop), limit, backups);
            Inv(after, backups) && Archive(after) == Archive(w) && after.written == w.written
  {
    hide Chain, Remaining, PartShifted, Within, Suffix;
    StallKept(w.log.files, backups, stop);
    RemainingSuffix(w.log.files, backups);
    SuffixChain(Chain(Remaining(w.log.files, backups), backups), Chain(w.log.files, backups), w.older);
    var after := Step(w, Stall(stop), limit, backups);
    assert after.log.files == PartShifted(w.log.files, backups - 1, stop);
    assert Archive(after) == Archive(w);
  }

  lemma NoFiles(n: nat)
    ensures Chain(map[], n) == []
  {}

  lemma InvFew(w: World, backups: nat)
    requires Inv(w, backups)
    ensures |w.log.files| <= backups && Suffix(Content(w.log, backups), Archive(w))
  {
    FewFiles(w.log.files, backups);
    SuffixMore(Chain(w.log.files, backups), w.older, w.log.live);
  }

  /** Bytes written between copy and cut leave a hole. */
  lemma LostInTheWindow()
    ensures var w := Run([Append(1), Rotate(1), Append(1)], 0, 1);
            w.written == 3 && Content(w.log, 1) == [0, 2] && !Suffix(Content(w.log, 1), Places(0, 3))
  {
    var a, b, c := [Append(1)], [Append(1), Rotate(1)], [Append(1), Rotate(1), Append(1)];
    assert c[..2] == b && b[..1] == a && a[..0] == [];
    assert Places(0, 1) == [0] && Places(2, 1) == [2];
    assert Run(a, 0, 1) == World(Log([0], map[]), [], 1);
    assert Run(b, 0, 1) == World(Log([], map[1 := [0]]), [0], 2);
    assert Run(c, 0, 1).log == Log([2], map[1 := [0]]);
    assert Chain(map[1 := [0]], 1) == [0];
    assert Content(Run(c, 0, 1).log, 1)[0] == 0 && Places(0, 3)[1..][0] == 1;
  }

  /** A copy that fails half-way is there twice. */
  lemma RepeatedAfterFailure()
    ensures var w := Run([Append(2), Tear(1)], 0, 1);
            w.written == 2 && Content(w.log, 1) == [0, 0, 1] && !Suffix(Content(w.log, 1), Places(0, 2))
  {
    var a, b := [Append(2)], [Append(2), Tear(1)];
    assert b[..1] == a && a[..0] == [];
    assert Places(0, 2) == [0, 1];
    assert Run(a, 0, 1) == World(Log([0, 1], map[]), [], 2);
    assert Copied(Log([0, 1], map[]), 1) == [0];
    assert Run(b, 0, 1).log == Log([0, 1], map[1 := [0]]);
    assert Chain(map[1 := [0]], 1) == [0];
  }

  // ---- the code ----

  class LogFile {
    var live: Bytes
    var files: Files

    function State(): Log
      reads this
    {
      Log(live, files)
    }

    constructor ()
      ensures State() == Log([], map[])
    {
      live, files := [], map[];
    }

    /** `rotate_copytruncate`. */
    method Rotate(limit: nat, backups: nat) returns (rotated: bool)
      modifies this
      ensures State() == Rotated(old(State()), limit, backups)
      ensures rotated <==> |old(live)| > limit
    {
      if |live| <= limit {
        return false;
      }
      if backups > 0 {
        var index := backups - 1;
        while index > 0
          invariant index >= 0 && live == old(live)
          invariant Shifted(files, index) == Shifted(old(files), backups - 1)
        {
          if index in files {
            var older := files[index];
            files := (files - {index})[index + 1 := older];
          }
          index := index - 1;
        }
        files := files[1 := live];
      }
      live := [];
      rotated := true;
    }
  }
}
