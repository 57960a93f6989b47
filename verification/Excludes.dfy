/** The text of Git's own exclude file, which `init` rewrites. */
module Excludes {
  type Bytes = seq<int>

  const LF: int := 10
  const CR: int := 13

  const MARKER_LINE: string := "/.coreman-workspace.json"
  const MEMORY_LINE: string := "/.coreman-memory/"

  function Code(s: string): Bytes {
    seq(|s|, i requires 0 <= i < |s| => s[i] as int)
  }

  /** Reading as text: every line ends in a line feed. */
  function Unix(data: Bytes): Bytes {
    if data == [] then []
    else if data[0] == CR then [LF] + Unix(if |data| > 1 && data[1] == LF then data[2..] else data[1..])
    else [data[0]] + Unix(data[1..])
  }

  function LineLength(data: Bytes): (n: nat)
    requires data != []
    ensures 0 < n <= |data|
  {
    if data[0] == LF || |data| == 1 then 1 else 1 + LineLength(data[1..])
  }

  function Lines(data: Bytes): seq<Bytes> {
    if data == [] then [] else [data[..LineLength(data)]] + Lines(data[LineLength(data)..])
  }

  /** A line without its end. */
  function Bare(line: Bytes): Bytes {
    if line != [] && line[|line| - 1] == LF then line[..|line| - 1] else line
  }

  predicate Barred(text: Bytes) {
    text == Code("/AGENTS.md") || text == Code("AGENTS.md")
  }

  function WithoutLegacy(lines: seq<Bytes>): Bytes {
    if lines == [] then []
    else (if Barred(Bare(lines[0])) then [] else lines[0]) + WithoutLegacy(lines[1..])
  }

  /** `remove_legacy_instruction_excludes` */
  function Unlisted(data: Bytes): Bytes {
    var text := WithoutLegacy(Lines(Unix(data)));
    if text != Unix(data) then text else data
  }

  predicate HasLine(data: Bytes, line: string) {
    exists i :: 0 <= i < |Lines(data)| && Bare(Lines(data)[i]) == Code(line)
  }

  function Extra(data: Bytes): Bytes {
    (if HasLine(data, MARKER_LINE) then [] else Code(MARKER_LINE) + [LF])
    + (if HasLine(data, MEMORY_LINE) then [] else Code(MEMORY_LINE) + [LF])
  }

  /** `exclude_private` */
  function Extended(data: Bytes): Bytes {
    var text := Unix(data);
    if Extra(text) == [] then data
    else text + (if text != [] && text[|text| - 1] != LF then [LF] else []) + Extra(text)
  }

  // ---- what a reader sees ----

  function Bares(lines: seq<Bytes>): (texts: seq<Bytes>)
    ensures |texts| == |lines| && forall i :: 0 <= i < |lines| ==> texts[i] == Bare(lines[i])
  {
    if lines == [] then [] else [Bare(lines[0])] + Bares(lines[1..])
  }

  /** The lines of the file, without their ends. */
  function Read(data: Bytes): seq<Bytes> {
    Bares(Lines(Unix(data)))
  }

  function Allowed(texts: seq<Bytes>): (kept: seq<Bytes>)
    ensures forall t :: t in kept <==> t in texts && !Barred(t)
  {
    if texts == [] then [] else (if Barred(texts[0]) then [] else [texts[0]]) + Allowed(texts[1..])
  }

  function Lacking(texts: seq<Bytes>): seq<Bytes> {
    (if Code(MARKER_LINE) in texts then [] else [Code(MARKER_LINE)])
    + (if Code(MEMORY_LINE) in texts then [] else [Code(MEMORY_LINE)])
  }

  // ---- lines and their text ----

  function TextOf(lines: seq<Bytes>): Bytes {
    if lines == [] then [] else lines[0] + TextOf(lines[1..])
  }

  predicate IsLine(line: Bytes) {
    line != [] && forall k :: 0 <= k < |line| - 1 ==> line[k] != LF
  }

  predicate Closed(line: Bytes) {
    line != [] && line[|line| - 1] == LF
  }

  ghost predicate Shaped(lines: seq<Bytes>) {
    forall i :: 0 <= i < |lines| ==> IsLine(lines[i]) && (i < |lines| - 1 ==> Closed(lines[i]))
  }

  lemma {:induction false} UnixClean(data: Bytes)
    ensures CR !in Unix(data)
  {
    if data != [] {
      if data[0] == CR {
        UnixClean(if |data| > 1 && data[1] == LF then data[2..] else data[1..]);
      } else {
        UnixClean(data[1..]);
      }
    }
  }

  lemma {:induction false} UnixFixed(data: Bytes)
    requires CR !in data
    ensures Unix(data) == data
  {
    if data != [] {
      assert data[0] in data && forall x :: x in data[1..] ==> x in data;
      UnixFixed(data[1..]);
    }
  }

  lemma {:induction false} LineEnds(line: Bytes, rest: Bytes)
    requires IsLine(line) && (Closed(line) || rest == [])
    ensures LineLength(line + rest) == |line|
    decreases |line|
  {
    if |line| > 1 {
      assert line[0] != LF && (line + rest)[1..] == line[1..] + rest;
      LineEnds(line[1..], rest);
    }
  }

  lemma {:induction false} FirstLine(data: Bytes)
    requires data != []
    ensures var n := LineLength(data); IsLine(data[..n]) && (n < |data| ==> Closed(data[..n]))
  {
    if !(data[0] == LF || |data| == 1) {
      var n := LineLength(data[1..]);
      FirstLine(data[1..]);
      var line, rest := data[..n + 1], data[1..][..n];
      assert line == [data[0]] + rest;
    }
  }

  lemma {:induction false} LinesShaped(data: Bytes)
    ensures Shaped(Lines(data)) && TextOf(Lines(data)) == data
  {
    if data != [] {
      var n := LineLength(data);
      FirstLine(data);
      LinesShaped(data[n..]);
      assert Lines(data)[1..] == Lines(data[n..]);
      assert data[..n] + data[n..] == data;
    }
  }

  lemma {:induction false} LinesOf(lines: seq<Bytes>)
    requires Shaped(lines)
    ensures Lines(TextOf(lines)) == lines
  {
    if lines != [] {
      var line, rest := lines[0], TextOf(lines[1..]);
      assert |lines| > 1 ==> Closed(line);
      assert |lines| == 1 ==> rest == [];
      LineEnds(line, rest);
      assert (line + rest)[..|line|] == line && (line + rest)[|line|..] == rest;
      LinesOf(lines[1..]);
    }
  }

  lemma {:induction false} JoinedMore(lines: seq<Bytes>, line: Bytes)
    ensures TextOf(lines + [line]) == TextOf(lines) + line
    ensures Bares(lines + [line]) == Bares(lines) + [Bare(line)]
  {
    if lines == [] {
      assert TextOf([line]) == line + [];
    } else {
      assert (lines + [line])[1..] == lines[1..] + [line];
      JoinedMore(lines[1..], line);
    }
  }

  // ---- the lines that go ----

  function Spared(lines: seq<Bytes>): seq<Bytes> {
    if lines == [] then [] else (if Barred(Bare(lines[0])) then [] else [lines[0]]) + Spared(lines[1..])
  }

  lemma {:induction false} SparedShaped(lines: seq<Bytes>)
    requires Shaped(lines)
    ensures Shaped(Spared(lines))
  {
    hide Barred, Bare, IsLine, Closed;
    if lines != [] {
      SparedShaped(lines[1..]);
      assert |lines| == 1 ==> Spared(lines[1..]) == [];
    }
  }

  lemma {:induction false} SparedText(lines: seq<Bytes>)
    ensures TextOf(Spared(lines)) == WithoutLegacy(lines)
    ensures forall x :: x in WithoutLegacy(lines) ==> x in TextOf(lines)
  {
    hide Barred, Bare;
    if lines != [] {
      var rest := Spared(lines[1..]);
      SparedText(lines[1..]);
      assert [] + WithoutLegacy(lines[1..]) == WithoutLegacy(lines[1..]);
      assert [] + rest == rest && ([lines[0]] + rest)[1..] == rest;
    }
  }

  lemma {:induction false} SparedBares(lines: seq<Bytes>)
    ensures Bares(Spared(lines)) == Allowed(Bares(lines))
  {
    hide Barred, Bare;
    if lines != [] {
      var rest := Spared(lines[1..]);
      SparedBares(lines[1..]);
      assert Bares(lines)[1..] == Bares(lines[1..]);
      assert [] + rest == rest && ([lines[0]] + rest)[1..] == rest;
      assert [] + Allowed(Bares(lines[1..])) == Allowed(Bares(lines[1..]));
    }
  }

  lemma UnlistedRead(data: Bytes)
    ensures Read(Unlisted(data)) == Allowed(Read(data))
  {
    var u := Unix(data);
    UnixClean(data);
    LinesShaped(u);
    SparedShaped(Lines(u));
    SparedText(Lines(u));
    SparedBares(Lines(u));
    UnixFixed(WithoutLegacy(Lines(u)));
    LinesOf(Spared(Lines(u)));
  }

  // ---- the lines that come ----

  ghost predicate AllClosed(lines: seq<Bytes>) {
    Shaped(lines) && forall i :: 0 <= i < |lines| ==> Closed(lines[i])
  }

  lemma CloseLast(lines: seq<Bytes>) returns (closed: seq<Bytes>)
    requires Shaped(lines)
    ensures AllClosed(closed) && Bares(closed) == Bares(lines)
    ensures TextOf(closed) == TextOf(lines) + (if TextOf(lines) != [] && !Closed(TextOf(lines)) then [LF] else [])
  {
    if lines == [] {
      closed := lines;
    } else {
      var n := |lines| - 1;
      var front, last := lines[..n], lines[n];
      assert lines == front + [last];
      hide TextOf, Bares, Bare, IsLine, Closed;
      var end := if Closed(last) then last else last + [LF];
      closed := front + [end];
      LastLine(TextOf(front), last);
      ClosedLines(front, last, end);
      JoinedMore(front, last);
      JoinedMore(front, end);
    }
  }

  lemma ClosedLines(front: seq<Bytes>, last: Bytes, end: Bytes)
    requires Shaped(front + [last]) && IsLine(end) && Closed(end)
    ensures AllClosed(front + [end])
  {
    hide IsLine, Closed;
    forall i | 0 <= i < |front| ensures IsLine(front[i]) && Closed(front[i]) {
      assert (front + [last])[i] == front[i];
    }
  }

  lemma LastLine(before: Bytes, last: Bytes)
    requires IsLine(last)
    ensures before + last != [] && (Closed(before + last) <==> Closed(last))
    ensures before + (last + [LF]) == before + last + [LF]
    ensures IsLine(last) && !Closed(last) ==>
              IsLine(last + [LF]) && Closed(last + [LF]) && Bare(last + [LF]) == Bare(last)
  {
    var data := before + last;
    assert data[|data| - 1] == last[|last| - 1];
    if !Closed(last) {
      assert (last + [LF])[..|last|] == last;
    }
  }

  lemma Added(lines: seq<Bytes>, text: Bytes)
    requires AllClosed(lines) && LF !in text
    ensures AllClosed(lines + [text + [LF]])
    ensures TextOf(lines + [text + [LF]]) == TextOf(lines) + (text + [LF])
    ensures Bares(lines + [text + [LF]]) == Bares(lines) + [text]
  {
    JoinedMore(lines, text + [LF]);
    assert Bare(text + [LF]) == text;
  }

  lemma PrivateLines()
    ensures LF !in Code(MARKER_LINE) && CR !in Code(MARKER_LINE) && !Barred(Code(MARKER_LINE))
    ensures LF !in Code(MEMORY_LINE) && CR !in Code(MEMORY_LINE) && !Barred(Code(MEMORY_LINE))
    ensures Code(MARKER_LINE) != Code(MEMORY_LINE)
  {
    assert |Code(MARKER_LINE)| == 24 && |Code(MEMORY_LINE)| == 17;
    assert |Code("/AGENTS.md")| == 10 && |Code("AGENTS.md")| == 9;
  }

  lemma HasLineRead(text: Bytes, line: string)
    ensures HasLine(text, line) <==> Code(line) in Bares(Lines(text))
  {
    var texts := Bares(Lines(text));
    if Code(line) in texts {
      var i :| 0 <= i < |texts| && texts[i] == Code(line);
      assert Bare(Lines(text)[i]) == Code(line);
    }
  }

  /** What is missing, line by line. */
  lemma AddedLacking(lines: seq<Bytes>, first: Bytes, second: Bytes, a: bool, b: bool) returns (more: seq<Bytes>)
    requires AllClosed(lines) && LF !in first && LF !in second
    ensures Shaped(more)
    ensures TextOf(more) == TextOf(lines) + ((if a then [] else first + [LF]) + (if b then [] else second + [LF]))
    ensures Bares(more) == Bares(lines) + ((if a then [] else [first]) + (if b then [] else [second]))
  {
    more := lines;
    if !a {
      Added(more, first);
      more := more + [first + [LF]];
    }
    if !b {
      Added(more, second);
      more := more + [second + [LF]];
    }
    hide TextOf, Bares, Bare;
  }

  lemma ExtendedRead(data: Bytes)
    ensures Read(Extended(data)) == Read(data) + Lacking(Read(data))
  {
    var u := Unix(data);
    UnixClean(data);
    LinesShaped(u);
    HasLineRead(u, MARKER_LINE);
    HasLineRead(u, MEMORY_LINE);
    PrivateLines();
    hide Code, HasLine, MARKER_LINE, MEMORY_LINE, Unix, Lines, TextOf, Bares, Shaped;
    var first, second := Code(MARKER_LINE), Code(MEMORY_LINE);
    if Extra(u) == [] {
      assert Lacking(Read(data)) == [];
    } else {
      var closed := CloseLast(Lines(u));
      var lines := AddedLacking(closed, first, second, first in Read(data), second in Read(data));
      assert TextOf(lines) == Extended(data);
      UnixFixed(Extended(data));
      LinesOf(lines);
    }
  }

  /** After both rewrites the lines that hid the instructions are gone, the two
      private paths are listed, and all other lines are there as before, in their order. */
  lemma ExcludeRead(data: Bytes)
    ensures var before, after := Read(data), Read(Extended(Unlisted(data)));
            && after == Allowed(before) + Lacking(Allowed(before))
            && Code(MARKER_LINE) in after && Code(MEMORY_LINE) in after
            && forall t :: t in after ==> !Barred(t)
  {
    UnlistedRead(data);
    ExtendedRead(Unlisted(data));
    PrivateLines();
    hide Code, Barred, MARKER_LINE, MEMORY_LINE;
  }

  /** Which lines those are. */
  lemma ExcludeHas(data: Bytes, t: Bytes)
    ensures t in Read(Extended(Unlisted(data)))
            <==> || (t in Read(data) && t != Code("AGENTS.md") && t != Code("/AGENTS.md"))
                 || t == Code("/.coreman-workspace.json") || t == Code("/.coreman-memory/")
  {
    ExcludeRead(data);
    hide Read, Extended, Unlisted, Code;
  }

  /** A second `init` leaves the file alone. */
  lemma ExcludeAgain(data: Bytes)
    ensures var once := Extended(Unlisted(data)); Extended(Unlisted(once)) == once
  {
    var once := Extended(Unlisted(data));
    var u := Unix(once);
    ExcludeRead(data);
    LinesShaped(u);
    HasLineRead(u, MARKER_LINE);
    HasLineRead(u, MEMORY_LINE);
    hide Code, HasLine, MARKER_LINE, MEMORY_LINE, Barred, Bare;
    assert forall i :: 0 <= i < |Lines(u)| ==> Bares(Lines(u))[i] in Read(once);
    NothingBarred(Lines(u));
  }

  lemma {:induction false} NothingBarred(lines: seq<Bytes>)
    requires forall i :: 0 <= i < |lines| ==> !Barred(Bare(lines[i]))
    ensures WithoutLegacy(lines) == TextOf(lines)
  {
    if lines != [] {
      NothingBarred(lines[1..]);
    }
  }
}
