/** Event streams sent in chunks. The watchdog reads the lines of the bytes on the wire,
    chunk sizes included; the events are the lines of the decoded stream. */
module ChunkedStreams {
  import opened Options
  import opened Texts
  import opened HttpHeads
  import opened HttpWire
  import opened SseWatchdogs

  /** A chunk as it arrives: its size line, its data, the line end behind them. */
  datatype Chunk = Chunk(size: seq<Timed>, data: seq<Timed>, end: seq<Timed>) {
    function Raw(): seq<Timed> { size + data + end }
  }

  predicate AtLineEnd(s: seq<Timed>) { s == [] || s[|s| - 1].c == '\n' }

  /** One line that is no `data:` line. */
  predicate SilentLine(s: string) {
    s != "" && s[|s| - 1] == '\n' && '\n' !in s[..|s| - 1] && !StartsWith(s[..|s| - 1], DATA)
  }

  predicate ChunkOk(c: Chunk) { SilentLine(Bytes(c.size)) && Bytes(c.end) == "\r\n" }

  function Raw(chunks: seq<Chunk>): seq<Timed> {
    if chunks == [] then [] else Raw(chunks[..|chunks| - 1]) + chunks[|chunks| - 1].Raw()
  }

  function Decoded(chunks: seq<Chunk>): seq<Timed> {
    if chunks == [] then [] else Decoded(chunks[..|chunks| - 1]) + chunks[|chunks| - 1].data
  }

  lemma {:induction false} LineStartBehind(a: string, b: string, k: nat)
    requires k <= |b| && (a == "" || a[|a| - 1] == '\n')
    ensures LineStart(a + b, |a| + k) == |a| + LineStart(b, k)
    decreases k
  {
    if k > 0 {
      assert (a + b)[|a| + k - 1] == b[k - 1];
      LineStartBehind(a, b, k - 1);
    }
  }

  lemma DataLineBehind(a: string, b: string, k: nat)
    requires k < |b| && (a == "" || a[|a| - 1] == '\n')
    ensures DataLineEndsAt(a + b, |a| + k) <==> DataLineEndsAt(b, k)
  {
    LineStartBehind(a, b, k);
    SliceBehind(a, b, LineStart(b, k), k);
  }

  lemma SliceBehind(a: string, b: string, i: nat, j: nat)
    requires i <= j <= |b|
    ensures (a + b)[|a| + i..|a| + j] == b[i..j]
  {
    forall k | 0 <= k < j - i ensures (a + b)[|a| + i..|a| + j][k] == b[i..j][k] {
      assert (a + b)[|a| + (i + k)] == b[i + k];
    }
  }

  lemma {:induction false} LastDataBehind(a: string, b: string, n: nat)
    requires n <= |b| && (a == "" || a[|a| - 1] == '\n')
    ensures
      LastDataLine(a + b, |a| + n) ==
      if LastDataLine(b, n).Some? then Some(|a| + LastDataLine(b, n).value) else LastDataLine(a, |a|)
    decreases n
  {
    hide DataLineEndsAt;
    if n == 0 {
      assert (a + b)[..|a|] == a;
      LastDataInPrefix(a + b, |a|, |a|);
    } else {
      DataLineBehind(a, b, n - 1);
      LastDataBehind(a, b, n - 1);
      LastDataStep(a + b, |a| + n - 1);
    }
  }

  /** Lines do not reach across a line end. */
  lemma LastDataTimeOfConcat(a: seq<Timed>, b: seq<Timed>, start: nat)
    requires AtLineEnd(a)
    ensures LastDataTime(a + b, start) == LastDataTime(b, LastDataTime(a, start))
  {
    hide DataLineEndsAt;
    assert Bytes(a + b) == Bytes(a) + Bytes(b);
    LastDataBehind(Bytes(a), Bytes(b), |b|);
  }

  lemma {:induction false} NoLineFeedNoLine(s: string, n: nat)
    requires n <= |s| && forall k :: 0 <= k < n ==> s[k] != '\n'
    ensures LineStart(s, n) == 0 && LastDataLine(s, n).None?
    decreases n
  {
    hide StartsWith;
    if n > 0 { NoLineFeedNoLine(s, n - 1); }
  }

  lemma SilentLineIsNoEvent(s: seq<Timed>, start: nat)
    requires SilentLine(Bytes(s))
    ensures LastDataTime(s, start) == start && AtLineEnd(s)
  {
    hide StartsWith;
    var b := Bytes(s);
    forall k | 0 <= k < |b| - 1 ensures b[k] != '\n' { assert b[k] == b[..|b| - 1][k]; }
    NoLineFeedNoLine(b, |b| - 1);
    assert b[0..|b| - 1] == b[..|b| - 1];
    LastDataStep(b, |b| - 1);
  }

  lemma LineEndIsNoEvent(s: seq<Timed>, start: nat)
    requires Bytes(s) == "\r\n"
    ensures LastDataTime(s, start) == start && AtLineEnd(s)
  {
    assert Bytes(s)[..1] == "\r";
    SilentLineIsNoEvent(s, start);
  }

  /** With every chunk ending at a line end, the wire's last `data:` line is the decoded
      stream's. */
  lemma {:induction false} WireLinesAreStreamLines(chunks: seq<Chunk>, start: nat)
    requires forall c :: c in chunks ==> ChunkOk(c) && AtLineEnd(c.data)
    ensures LastDataTime(Raw(chunks), start) == LastDataTime(Decoded(chunks), start)
    ensures AtLineEnd(Raw(chunks)) && AtLineEnd(Decoded(chunks))
    decreases |chunks|
  {
    hide LastDataTime, ChunkOk;
    if chunks != [] {
      var n := |chunks| - 1;
      var c, before := chunks[n], chunks[..n];
      assert c in chunks;
      WireLinesAreStreamLines(before, start);
      ChunkLines(c, LastDataTime(Raw(before), start));
      LastDataTimeOfConcat(Raw(before), c.Raw(), start);
      LastDataTimeOfConcat(Decoded(before), c.data, start);
    }
  }

  lemma ChunkLines(c: Chunk, start: nat)
    requires ChunkOk(c) && AtLineEnd(c.data)
    ensures LastDataTime(c.Raw(), start) == LastDataTime(c.data, start)
    ensures c.Raw() != [] && AtLineEnd(c.Raw())
  {
    hide LastDataTime, SilentLine;
    SilentLineIsNoEvent(c.size, start);
    LastDataTimeOfConcat(c.size, c.data, start);
    LineEndIsNoEvent(c.end, LastDataTime(c.data, start));
    LastDataTimeOfConcat(c.size + c.data, c.end, start);
    assert |c.end| == |Bytes(c.end)| == 2;
  }

  /** So the deadline of a stream chunked at line ends is the one its events call for. */
  lemma ChunkedDeadlineFollowsEvents(w: Wire, chunks: seq<Chunk>, p: Policy)
    requires Streaming(w) && NotOver(w, Raw(chunks))
    requires forall c :: c in chunks ==> ChunkOk(c) && AtLineEnd(c.data)
    ensures
      var dog := w.watchdog.value;
      DeadlineAfter(w, Raw(chunks), p)
      == Least(dog.started + dog.maximum, LastDataTime(Decoded(chunks), dog.lastEvent) + dog.idle)
  {
    hide DeadlineAfter, NotOver, LastDataTime, ChunkOk;
    DeadlineIsCapOrIdle(w, Raw(chunks), p);
    WireLinesAreStreamLines(chunks, w.watchdog.value.lastEvent);
  }

  // ---- chunks cut anywhere ----

  predicate HasLineEnd(s: string) { '\n' in s }

  /** Up to its first line feed. */
  function Head(s: string): (r: string)
    ensures '\n' !in r && |r| <= |s|
    ensures HasLineEnd(s) ==> |r| < |s| && s[|r|] == '\n'
    ensures !HasLineEnd(s) ==> r == s
    ensures r == s[..|r|]
  {
    if s == "" || s[0] == '\n' then "" else [s[0]] + Head(s[1..])
  }

  /** The chunk ends in a piece the wire takes for a `data:` line. */
  predicate CountsEarly(c: Chunk) { StartsWith(CurrentLine(Bytes(c.data)), DATA) }

  /** The line open when the chunk comes is told rightly where the chunk completes it: its
      last piece starts with `data:` exactly if the line does. */
  predicate CompletesRightly(open: string, c: Chunk) {
    HasLineEnd(Bytes(c.data)) ==>
      (StartsWith(Head(Bytes(c.data)), DATA) <==> StartsWith(open + Head(Bytes(c.data)), DATA))
  }

  function OpenLine(chunks: seq<Chunk>): string { CurrentLine(Bytes(Decoded(chunks))) }

  /** After `n` chunks and `m` bytes of the next one's data. */
  function OnWire(chunks: seq<Chunk>, n: nat, m: nat): seq<Timed>
    requires n < |chunks| && m <= |chunks[n].data|
  {
    Raw(chunks[..n]) + chunks[n].size + chunks[n].data[..m]
  }

  function InStream(chunks: seq<Chunk>, n: nat, m: nat): seq<Timed>
    requires n < |chunks| && m <= |chunks[n].data|
  {
    Decoded(chunks[..n]) + chunks[n].data[..m]
  }

  /** The bytes on the wire come one after the other, all behind the start. */
  predicate Increasing(start: nat, s: seq<Timed>) {
    && (forall k :: 0 <= k < |s| ==> start < s[k].at)
    && (forall j, k :: 0 <= j < k < |s| ==> s[j].at < s[k].at)
  }

  // ---- one piece of the stream at a time ----

  lemma {:induction false} LineStartBehindText(a: string, b: string, k: nat)
    requires k <= |b| && '\n' !in b[..k]
    ensures LineStart(a + b, |a| + k) == LineStart(a, |a|)
    decreases k
  {
    if k == 0 {
      assert (a + b)[..|a|] == a;
      LineStartOfPrefix(a + b, |a|, |a|);
    } else {
      assert (a + b)[|a| + k - 1] == b[k - 1] == b[..k][k - 1];
      assert forall i :: 0 <= i < k - 1 ==> b[..k - 1][i] == b[..k][i];
      LineStartBehindText(a, b, k - 1);
    }
  }

  lemma CurrentLineBehindText(a: string, b: string)
    requires '\n' !in b
    ensures CurrentLine(a + b) == CurrentLine(a) + b
  {
    assert b[..|b|] == b;
    LineStartBehindText(a, b, |b|);
  }

  lemma CurrentLineBehindLineEnd(a: string, b: string)
    requires a != "" && a[|a| - 1] == '\n'
    ensures CurrentLine(a + b) == CurrentLine(b)
  {
    LineStartBehind(a, b, |b|);
  }

  lemma {:induction false} NoEventIn(a: string, b: string, n: nat)
    requires n <= |b| && '\n' !in b[..n]
    ensures LastDataLine(a + b, |a| + n) == LastDataLine(a, |a|)
    decreases n
  {
    hide StartsWith, LineStart;
    if n == 0 {
      assert (a + b)[..|a|] == a;
      LastDataInPrefix(a + b, |a|, |a|);
    } else {
      assert (a + b)[|a| + n - 1] == b[n - 1] == b[..n][n - 1];
      assert forall i :: 0 <= i < n - 1 ==> b[..n - 1][i] == b[..n][i];
      NoEventIn(a, b, n - 1);
      LastDataStep(a + b, |a| + n - 1);
    }
  }

  /** Bytes without a line feed are no event. */
  lemma OpenLineIsNoEvent(a: seq<Timed>, b: seq<Timed>, start: nat)
    requires '\n' !in Bytes(b)
    ensures LastDataTime(a + b, start) == LastDataTime(a, start)
  {
    hide DataLineEndsAt;
    assert Bytes(a + b) == Bytes(a) + Bytes(b) && Bytes(b)[..|b|] == Bytes(b);
    NoEventIn(Bytes(a), Bytes(b), |b|);
  }

  /** A line feed is one exactly if the line it completes starts with `data:`. */
  lemma LineFeedIsEventIff(a: seq<Timed>, x: Timed, start: nat)
    requires x.c == '\n'
    ensures LastDataTime(a + [x], start) ==
            if StartsWith(CurrentLine(Bytes(a)), DATA) then x.at else LastDataTime(a, start)
  {
    hide StartsWith;
    var b := Bytes(a + [x]);
    assert b == Bytes(a) + ['\n'] && b[..|a|] == Bytes(a);
    CurrentLineGrows(b, |a|);
    LastDataStep(b, |a|);
    LastDataInPrefix(b, |a|, |a|);
  }

  /** Behind an open line, text up to its line feed, and whatever follows. */
  lemma TextThenLineFeed(a: seq<Timed>, b: seq<Timed>, start: nat)
    requires HasLineEnd(Bytes(b))
    ensures
      var h := |Head(Bytes(b))|;
      var done := if StartsWith(CurrentLine(Bytes(a)) + Head(Bytes(b)), DATA) then b[h].at else LastDataTime(a, start);
      && LastDataTime(a + b[..h + 1], start) == done
      && LastDataTime(a + b, start) == LastDataTime(b[h + 1..], done)
  {
    hide LastDataTime, StartsWith, CurrentLine;
    var h := |Head(Bytes(b))|;
    assert Bytes(b[..h]) == Head(Bytes(b)) == Bytes(b)[..h];
    assert Bytes(a + b[..h]) == Bytes(a) + Bytes(b[..h]);
    OpenLineIsNoEvent(a, b[..h], start);
    CurrentLineBehindText(Bytes(a), Bytes(b[..h]));
    LineFeedIsEventIff(a + b[..h], b[h], start);
    assert a + b[..h + 1] == a + b[..h] + [b[h]];
    LastDataTimeOfConcat(a + b[..h + 1], b[h + 1..], start);
    assert a + b == a + b[..h + 1] + b[h + 1..];
  }

  // ---- one chunk ----

  /** `a` is what came before on the wire, ended by a line end; `d` what was decoded. */
  lemma DataOnWire(a: seq<Timed>, c: Chunk, start: nat)
    requires ChunkOk(c) && AtLineEnd(a)
    ensures LastDataTime(a + c.size, start) == LastDataTime(a, start) && AtLineEnd(a + c.size)
    ensures CurrentLine(Bytes(a + c.size)) == ""
  {
    hide LastDataTime, SilentLine;
    SilentLineIsNoEvent(c.size, LastDataTime(a, start));
    LastDataTimeOfConcat(a, c.size, start);
    SizeIsNotEmpty(c);
    var b := Bytes(a + c.size);
    assert b[|b| - 1] == '\n';
  }

  lemma SizeIsNotEmpty(c: Chunk)
    requires ChunkOk(c)
    ensures c.size != []
  {
    assert |c.size| == |Bytes(c.size)|;
  }

  /** Wire and stream, in step before the data, stay in step through `m` bytes of it
      exactly if the first line feed among them tells its line rightly. */
  lemma DataKeepsStep(a: seq<Timed>, d: seq<Timed>, c: Chunk, m: nat, start: nat)
    requires ChunkOk(c) && AtLineEnd(a) && m <= |c.data|
    requires LastDataTime(a, start) == LastDataTime(d, start)
    requires CompletesRightly(CurrentLine(Bytes(d)), c)
    ensures LastDataTime(a + c.size + c.data[..m], start) == LastDataTime(d + c.data[..m], start)
  {
    hide LastDataTime, StartsWith, CurrentLine, ChunkOk;
    DataOnWire(a, c, start);
    var b := c.data[..m];
    assert Bytes(b) == Bytes(c.data)[..m];
    if HasLineEnd(Bytes(b)) {
      HeadOfPrefix(Bytes(c.data), m);
      TextThenLineFeed(a + c.size, b, start);
      TextThenLineFeed(d, b, start);
      assert "" + Head(Bytes(b)) == Head(Bytes(b));
    } else {
      OpenLineIsNoEvent(a + c.size, b, start);
      OpenLineIsNoEvent(d, b, start);
    }
  }

  lemma FirstLineFeed(s: string, k: nat)
    requires k < |s| && s[k] == '\n'
    ensures |Head(s)| <= k && HasLineEnd(s)
    ensures '\n' !in s[..k] ==> Head(s) == s[..k]
  {
    hide Head;
    var head := Head(s);
    assert forall i :: 0 <= i < |head| ==> head[i] in head && s[i] == s[..|head|][i] == head[i];
    assert |head| < k ==> s[..k][|head|] == '\n';
  }

  lemma HeadOfPrefix(s: string, m: nat)
    requires m <= |s| && HasLineEnd(s[..m])
    ensures Head(s[..m]) == Head(s) && HasLineEnd(s)
  {
    hide Head;
    var k := |Head(s[..m])|;
    assert s[k] == s[..m][k] && s[..m][..k] == s[..k];
    FirstLineFeed(s, k);
  }

  lemma PrefixHasLineEnd(s: string, m: nat)
    requires m <= |s| && HasLineEnd(s) && |Head(s)| < m
    ensures HasLineEnd(s[..m])
  {
    hide Head;
    assert s[..m][|Head(s)|] == '\n';
  }

  lemma WithoutReturn(piece: string)
    ensures StartsWith(piece + "\r", DATA) <==> StartsWith(piece, DATA)
  {
    var t := piece + "\r";
    if |DATA| <= |piece| {
      assert t[..|DATA|] == piece[..|DATA|];
    } else if |DATA| == |t| {
      assert t[|t| - 1] == '\r' && t[..|DATA|] == t;
    }
  }

  /** The end of the chunk is an event on the wire exactly if its last piece counts. */
  lemma EndOnWire(a: seq<Timed>, c: Chunk, start: nat)
    requires ChunkOk(c) && AtLineEnd(a)
    ensures |c.end| == 2 && AtLineEnd(a + c.Raw())
    ensures LastDataTime(a + c.Raw(), start) ==
            if CountsEarly(c) then c.end[1].at else LastDataTime(a + c.size + c.data, start)
  {
    hide LastDataTime, StartsWith, SilentLine, CurrentLine;
    assert |c.end| == |Bytes(c.end)| == 2 && Bytes(c.end)[0] == '\r' && Bytes(c.end)[1] == '\n';
    SizeIsNotEmpty(c);
    SilentLineIsNoEvent(c.size, start);
    var before, r := a + c.size + c.data, [c.end[0]];
    var open := a + c.size;
    assert Bytes(before) == Bytes(open) + Bytes(c.data);
    CurrentLineBehindLineEnd(Bytes(open), Bytes(c.data));
    assert Bytes(r) == "\r" && Bytes(before + r) == Bytes(before) + "\r";
    OpenLineIsNoEvent(before, r, start);
    CurrentLineBehindText(Bytes(before), "\r");
    WithoutReturn(CurrentLine(Bytes(c.data)));
    LineFeedIsEventIff(before + r, c.end[1], start);
    assert a + c.Raw() == before + r + [c.end[1]];
  }

  lemma {:induction false} WireEndsInLineEnd(chunks: seq<Chunk>)
    requires forall c :: c in chunks ==> ChunkOk(c)
    ensures AtLineEnd(Raw(chunks))
    decreases |chunks|
  {
    hide ChunkOk;
    if chunks != [] {
      var c := chunks[|chunks| - 1];
      assert c in chunks;
      WireEndsInLineEnd(chunks[..|chunks| - 1]);
      EndOnWire(Raw(chunks[..|chunks| - 1]), c, 0);
    }
  }

  // ---- every moment of the stream ----

  /** The wire shows the decoded stream's last event after each chunk, and at each byte of
      its data. */
  ghost predicate InStep(chunks: seq<Chunk>, start: nat) {
    && (forall n :: 0 <= n <= |chunks| ==> StepAfter(chunks, start, n))
    && (forall n, m :: 0 <= n < |chunks| && 0 <= m <= |chunks[n].data| ==> StepAt(chunks, start, n, m))
  }

  predicate StepAfter(chunks: seq<Chunk>, start: nat, n: nat)
    requires n <= |chunks|
  {
    LastDataTime(Raw(chunks[..n]), start) == LastDataTime(Decoded(chunks[..n]), start)
  }

  predicate StepAt(chunks: seq<Chunk>, start: nat, n: nat, m: nat)
    requires n < |chunks| && m <= |chunks[n].data|
  {
    LastDataTime(OnWire(chunks, n, m), start) == LastDataTime(InStream(chunks, n, m), start)
  }

  /** No chunk ends in a piece that counts, and each completes its open line rightly. */
  predicate CutWell(chunks: seq<Chunk>, n: nat)
    requires n < |chunks|
  {
    !CountsEarly(chunks[n]) && CompletesRightly(OpenLine(chunks[..n]), chunks[n])
  }

  lemma ChunksOneMore(chunks: seq<Chunk>, n: nat)
    requires n < |chunks|
    ensures Raw(chunks[..n + 1]) == Raw(chunks[..n]) + chunks[n].Raw()
    ensures Decoded(chunks[..n + 1]) == InStream(chunks, n, |chunks[n].data|)
    ensures OnWire(chunks, n, |chunks[n].data|) == Raw(chunks[..n]) + chunks[n].size + chunks[n].data
  {
    assert chunks[..n + 1][..n] == chunks[..n];
    assert chunks[n].data[..|chunks[n].data|] == chunks[n].data;
  }

  lemma {:induction false} CutWellKeepsStep(chunks: seq<Chunk>, start: nat, n: nat)
    requires n <= |chunks| && forall c :: c in chunks ==> ChunkOk(c)
    requires forall i :: 0 <= i < n ==> CutWell(chunks, i)
    ensures StepAfter(chunks, start, n)
    ensures forall i, m :: 0 <= i < n && 0 <= m <= |chunks[i].data| ==> StepAt(chunks, start, i, m)
    decreases n
  {
    hide LastDataTime, ChunkOk, CountsEarly, CompletesRightly;
    if n > 0 {
      var i, c := n - 1, chunks[n - 1];
      assert c in chunks && CutWell(chunks, i);
      CutWellKeepsStep(chunks, start, i);
      WireEndsInLineEnd(chunks[..i]);
      ChunksOneMore(chunks, i);
      forall m | 0 <= m <= |c.data| ensures StepAt(chunks, start, i, m) {
        DataKeepsStep(Raw(chunks[..i]), Decoded(chunks[..i]), c, m, start);
      }
      assert StepAt(chunks, start, i, |c.data|);
      EndOnWire(Raw(chunks[..i]), c, start);
    }
  }

  /** A last event is no later than the last byte. */
  lemma LastEventIsPast(s: seq<Timed>, start: nat, t: nat)
    requires start < t && forall k :: 0 <= k < |s| ==> s[k].at < t
    ensures LastDataTime(s, start) < t
  {
    hide DataLineEndsAt;
  }

  /** All bytes before one of the chunk's are earlier. */
  lemma Earlier(chunks: seq<Chunk>, start: nat, n: nat)
    requires n < |chunks| && Increasing(start, Raw(chunks[..n + 1])) && |chunks[n].end| == 2
    ensures start < chunks[n].end[1].at
    ensures forall k :: 0 <= k < |OnWire(chunks, n, |chunks[n].data|)| ==>
              OnWire(chunks, n, |chunks[n].data|)[k].at < chunks[n].end[1].at
  {
    var all, c := Raw(chunks[..n + 1]), chunks[n];
    ChunksOneMore(chunks, n);
    assert all[|all| - 1] == c.end[1];
    forall k | 0 <= k < |OnWire(chunks, n, |c.data|)|
      ensures OnWire(chunks, n, |c.data|)[k].at < c.end[1].at
    { assert OnWire(chunks, n, |c.data|)[k] == all[k]; }
  }

  lemma EarlierThanData(chunks: seq<Chunk>, start: nat, n: nat, h: nat)
    requires n < |chunks| && Increasing(start, Raw(chunks[..n + 1])) && h < |chunks[n].data|
    ensures start < chunks[n].data[h].at
    ensures forall k :: 0 <= k < |OnWire(chunks, n, 0)| ==> OnWire(chunks, n, 0)[k].at < chunks[n].data[h].at
  {
    var all, before, c := Raw(chunks[..n + 1]), OnWire(chunks, n, 0), chunks[n];
    ChunksOneMore(chunks, n);
    assert all == before + c.data + c.end;
    assert all[|before| + h] == c.data[h];
    forall k | 0 <= k < |before| ensures before[k].at < c.data[h].at { assert before[k] == all[k]; }
  }

  lemma InStepIsCutWell(chunks: seq<Chunk>, start: nat, n: nat)
    requires n < |chunks| && (forall c :: c in chunks ==> ChunkOk(c))
    requires Increasing(start, Raw(chunks[..n + 1])) && InStep(chunks, start)
    ensures CutWell(chunks, n)
  {
    hide LastDataTime, ChunkOk, StartsWith, CurrentLine, Increasing;
    var c, a, d := chunks[n], Raw(chunks[..n]), Decoded(chunks[..n]);
    assert c in chunks;
    WireEndsInLineEnd(chunks[..n]);
    ChunksOneMore(chunks, n);
    DataOnWire(a, c, start);
    EndOnWire(a, c, start);
    Earlier(chunks, start, n);
    assert StepAfter(chunks, start, n) && StepAfter(chunks, start, n + 1) && StepAt(chunks, start, n, |c.data|);
    LastEventIsPast(OnWire(chunks, n, |c.data|), start, c.end[1].at);
    if HasLineEnd(Bytes(c.data)) {
      var h := |Head(Bytes(c.data))|;
      assert StepAt(chunks, start, n, h + 1);
      TextThenLineFeed(a + c.size, c.data, start);
      TextThenLineFeed(d, c.data, start);
      assert "" + Head(Bytes(c.data)) == Head(Bytes(c.data));
      assert OnWire(chunks, n, 0) == a + c.size;
      EarlierThanData(chunks, start, n, h);
      LastEventIsPast(OnWire(chunks, n, 0), start, c.data[h].at);
    }
  }

  /** The wire shows the decoded stream's last event at every moment exactly if no chunk
      ends in a piece that itself starts with `data:`, and where a chunk completes an open
      line, the line's last piece starts with it exactly if the line does. */
  lemma InStepIffCutWell(chunks: seq<Chunk>, start: nat)
    requires (forall c :: c in chunks ==> ChunkOk(c)) && Increasing(start, Raw(chunks))
    ensures InStep(chunks, start) <==> forall n :: 0 <= n < |chunks| ==> CutWell(chunks, n)
  {
    hide ChunkOk, CutWell, StepAfter, StepAt, Increasing;
    if InStep(chunks, start) {
      forall n | 0 <= n < |chunks| ensures CutWell(chunks, n) {
        IncreasingSoFar(chunks, start, n + 1);
        InStepIsCutWell(chunks, start, n);
      }
    }
    if forall n :: 0 <= n < |chunks| ==> CutWell(chunks, n) {
      forall n | 0 <= n <= |chunks| ensures StepAfter(chunks, start, n) {
        CutWellKeepsStep(chunks, start, n);
      }
      CutWellKeepsStep(chunks, start, |chunks|);
    }
  }

  lemma {:induction false} IncreasingSoFar(chunks: seq<Chunk>, start: nat, n: nat)
    requires n <= |chunks| && Increasing(start, Raw(chunks))
    ensures Increasing(start, Raw(chunks[..n]))
    decreases |chunks| - n
  {
    if n == |chunks| {
      assert chunks[..n] == chunks;
    } else {
      IncreasingSoFar(chunks, start, n + 1);
      ChunksOneMore(chunks, n);
      var all, part := Raw(chunks[..n + 1]), Raw(chunks[..n]);
      assert forall k :: 0 <= k < |part| ==> part[k] == all[k];
    }
  }

  // ---- the ends of the stream's lines ----

  predicate InStepAtLineEnds(chunks: seq<Chunk>, start: nat, n: nat)
    requires n < |chunks|
  {
    forall m :: 0 <= m < |chunks[n].data| && chunks[n].data[m].c == '\n' ==> StepAt(chunks, start, n, m + 1)
  }

  /** A piece of the line open after `n` chunks has counted as an event. */
  predicate CountedInPart(chunks: seq<Chunk>, n: nat)
    requires n <= |chunks|
  {
    n > 0 && (CountsEarly(chunks[n - 1]) || (!HasLineEnd(Bytes(chunks[n - 1].data)) && CountedInPart(chunks, n - 1)))
  }

  /** Where the chunk completes a line, its last piece starts with `data:` exactly if the
      line does, and of a line that does not no earlier piece did. */
  predicate LineToldWell(chunks: seq<Chunk>, n: nat)
    requires n < |chunks|
  {
    HasLineEnd(Bytes(chunks[n].data)) ==>
      var open, head := OpenLine(chunks[..n]), Head(Bytes(chunks[n].data));
      && (StartsWith(head, DATA) <==> StartsWith(open + head, DATA))
      && (StartsWith(open + head, DATA) || !CountedInPart(chunks, n))
  }

  /** The wire is ahead of the stream exactly while a piece of the open line has counted. */
  predicate Ahead(chunks: seq<Chunk>, start: nat, n: nat)
    requires n <= |chunks|
  {
    var wire, stream := LastDataTime(Raw(chunks[..n]), start), LastDataTime(Decoded(chunks[..n]), start);
    if CountedInPart(chunks, n) then wire > stream else wire == stream
  }

  lemma LineInStepIff(chunks: seq<Chunk>, start: nat, n: nat)
    requires n < |chunks| && (forall c :: c in chunks ==> ChunkOk(c)) && HasLineEnd(Bytes(chunks[n].data))
    requires Increasing(start, Raw(chunks[..n + 1])) && Ahead(chunks, start, n)
    ensures StepAt(chunks, start, n, |Head(Bytes(chunks[n].data))| + 1) <==> LineToldWell(chunks, n)
  {
    hide LastDataTime, ChunkOk, StartsWith, CurrentLine, Increasing, CountedInPart;
    var c, a, d := chunks[n], Raw(chunks[..n]), Decoded(chunks[..n]);
    var h := |Head(Bytes(c.data))|;
    assert c in chunks;
    WireEndsInLineEnd(chunks[..n]);
    DataOnWire(a, c, start);
    TextThenLineFeed(a + c.size, c.data, start);
    TextThenLineFeed(d, c.data, start);
    assert "" + Head(Bytes(c.data)) == Head(Bytes(c.data));
    assert OnWire(chunks, n, 0) == a + c.size;
    EarlierThanData(chunks, start, n, h);
    LastEventIsPast(OnWire(chunks, n, 0), start, c.data[h].at);
  }

  lemma RestOfChunkInStep(chunks: seq<Chunk>, start: nat, n: nat, m: nat)
    requires n < |chunks| && (forall c :: c in chunks ==> ChunkOk(c)) && m <= |chunks[n].data|
    requires HasLineEnd(Bytes(chunks[n].data)) && |Head(Bytes(chunks[n].data))| < m
    requires StepAt(chunks, start, n, |Head(Bytes(chunks[n].data))| + 1)
    ensures StepAt(chunks, start, n, m)
  {
    hide LastDataTime, ChunkOk, StartsWith, CurrentLine, Head, HasLineEnd, Raw, Decoded;
    var c, a, d := chunks[n], Raw(chunks[..n]), Decoded(chunks[..n]);
    var b, h := c.data[..m], |Head(Bytes(c.data))|;
    assert Bytes(b) == Bytes(c.data)[..m];
    PrefixHasLineEnd(Bytes(c.data), m);
    HeadOfPrefix(Bytes(c.data), m);
    TextThenLineFeed(a + c.size, b, start);
    TextThenLineFeed(d, b, start);
    assert b[..h + 1] == c.data[..h + 1];
  }

  lemma ChunkInStepIff(chunks: seq<Chunk>, start: nat, n: nat)
    requires n < |chunks| && (forall c :: c in chunks ==> ChunkOk(c))
    requires Increasing(start, Raw(chunks[..n + 1])) && Ahead(chunks, start, n)
    ensures InStepAtLineEnds(chunks, start, n) <==> LineToldWell(chunks, n)
  {
    hide ChunkOk, StepAt, Increasing, Ahead, CountedInPart;
    var b := Bytes(chunks[n].data);
    if HasLineEnd(b) {
      var h := |Head(b)|;
      LineInStepIff(chunks, start, n);
      assert chunks[n].data[h].c == '\n';
      if LineToldWell(chunks, n) {
        forall m | 0 <= m < |chunks[n].data| && chunks[n].data[m].c == '\n' ensures StepAt(chunks, start, n, m + 1) {
          FirstLineFeed(b, m);
          RestOfChunkInStep(chunks, start, n, m + 1);
        }
      }
    } else {
      forall m | 0 <= m < |chunks[n].data| ensures chunks[n].data[m].c != '\n' { assert b[m] in b; }
    }
  }

  lemma ChunkStaysAhead(chunks: seq<Chunk>, start: nat, n: nat)
    requires n < |chunks| && (forall c :: c in chunks ==> ChunkOk(c))
    requires Increasing(start, Raw(chunks[..n + 1])) && Ahead(chunks, start, n) && LineToldWell(chunks, n)
    ensures Ahead(chunks, start, n + 1)
  {
    hide LastDataTime, ChunkOk, StartsWith, CurrentLine, Increasing;
    var c, a, d := chunks[n], Raw(chunks[..n]), Decoded(chunks[..n]);
    assert c in chunks;
    WireEndsInLineEnd(chunks[..n]);
    ChunksOneMore(chunks, n);
    DataOnWire(a, c, start);
    EndOnWire(a, c, start);
    Earlier(chunks, start, n);
    LastEventIsPast(OnWire(chunks, n, |c.data|), start, c.end[1].at);
    if HasLineEnd(Bytes(c.data)) {
      LineInStepIff(chunks, start, n);
      RestOfChunkInStep(chunks, start, n, |c.data|);
    } else {
      OpenLineIsNoEvent(a + c.size, c.data, start);
      OpenLineIsNoEvent(d, c.data, start);
      assert c.data[..|c.data|] == c.data;
    }
  }

  lemma {:induction false} AheadUpTo(chunks: seq<Chunk>, start: nat, n: nat)
    requires n <= |chunks| && (forall c :: c in chunks ==> ChunkOk(c)) && Increasing(start, Raw(chunks))
    requires forall i :: 0 <= i < n ==> LineToldWell(chunks, i) || InStepAtLineEnds(chunks, start, i)
    ensures Ahead(chunks, start, n)
    decreases n
  {
    hide ChunkOk, Increasing, LineToldWell, InStepAtLineEnds, LastDataTime;
    if n > 0 {
      AheadUpTo(chunks, start, n - 1);
      IncreasingSoFar(chunks, start, n);
      ChunkInStepIff(chunks, start, n - 1);
      ChunkStaysAhead(chunks, start, n - 1);
    }
  }

  /** Whenever the decoded stream has just completed a line, the wire shows its last event,
      exactly if of every line the last piece starts with `data:` just when the line does,
      and no earlier piece of a line that does not start with it. */
  lemma InStepAtLineEndsIff(chunks: seq<Chunk>, start: nat)
    requires (forall c :: c in chunks ==> ChunkOk(c)) && Increasing(start, Raw(chunks))
    ensures
      (forall n :: 0 <= n < |chunks| ==> InStepAtLineEnds(chunks, start, n)) <==>
      (forall n :: 0 <= n < |chunks| ==> LineToldWell(chunks, n))
  {
    hide ChunkOk, Increasing, LineToldWell, InStepAtLineEnds, Ahead;
    if (forall n :: 0 <= n < |chunks| ==> InStepAtLineEnds(chunks, start, n)) ||
       (forall n :: 0 <= n < |chunks| ==> LineToldWell(chunks, n)) {
      forall n | 0 <= n < |chunks|
        ensures InStepAtLineEnds(chunks, start, n) && LineToldWell(chunks, n)
      {
        AheadUpTo(chunks, start, n);
        IncreasingSoFar(chunks, start, n + 1);
        ChunkInStepIff(chunks, start, n);
      }
    }
  }

  // ---- one line cut once ----

  /** A line `x + y` cut between two chunks: what wire and stream show at its end. */
  lemma CutLine(first: Chunk, second: Chunk, x: string, y: string, start: nat)
    requires ChunkOk(first) && ChunkOk(second) && '\n' !in x && '\n' !in y
    requires Bytes(first.data) == x && Bytes(second.data) == y + "\n"
    ensures |first.end| == 2
    ensures
      var t := second.data[|second.data| - 1].at;
      && LastDataTime(first.Raw() + second.Raw(), start) ==
           (if StartsWith(y, DATA) then t else if StartsWith(x, DATA) then first.end[1].at else start)
      && LastDataTime(first.data + second.data, start) == if StartsWith(x + y, DATA) then t else start
  {
    hide LastDataTime, StartsWith, CurrentLine, ChunkOk, Head;
    FirstPiece(first, x, start);
    LastPiece(second, y);
    DataOnWire(first.Raw(), second, start);
    TextThenLineFeed(first.Raw() + second.size, second.data, start);
    EndOnWire(first.Raw(), second, start);
    TextThenLineFeed(first.data, second.data, start);
    LastEventIsNone(start);
    LastEventIsNone(LastDataTime(first.Raw(), start));
    LastEventIsNone(second.data[|y|].at);
    assert "" + y == y;
  }

  lemma FirstPiece(c: Chunk, x: string, start: nat)
    requires ChunkOk(c) && '\n' !in x && Bytes(c.data) == x
    ensures |c.end| == 2 && AtLineEnd(c.Raw())
    ensures LastDataTime(c.Raw(), start) == if StartsWith(x, DATA) then c.end[1].at else start
    ensures LastDataTime(c.data, start) == start && CurrentLine(Bytes(c.data)) == x
  {
    hide LastDataTime, StartsWith, ChunkOk;
    LastEventIsNone(start);
    CurrentLineBehindText("", x);
    assert "" + x == x;
    DataOnWire([], c, start);
    EndOnWire([], c, start);
    OpenLineIsNoEvent(c.size, c.data, start);
    OpenLineIsNoEvent([], c.data, start);
    assert [] + c.data == c.data && [] + c.size == c.size && [] + c.Raw() == c.Raw();
  }

  lemma LastEventIsNone(start: nat)
    ensures LastDataTime([], start) == start
  {}

  lemma LastPiece(c: Chunk, y: string)
    requires '\n' !in y && Bytes(c.data) == y + "\n"
    ensures HasLineEnd(Bytes(c.data)) && Head(Bytes(c.data)) == y && !CountsEarly(c)
    ensures c.data[|y| + 1..] == [] && c.data[..|y| + 1] == c.data && |c.data| == |y| + 1
  {
    hide Head;
    var s := y + "\n";
    assert s[..|y|] == y && s[|s| - 1] == '\n' && |Bytes(c.data)| == |c.data|;
    FirstLineFeed(s, |y|);
  }

  /** So it is told rightly exactly if its second piece starts with `data:` just when the
      whole line does. */
  lemma CutLineIsRightIff(first: Chunk, second: Chunk, x: string, y: string, start: nat)
    requires ChunkOk(first) && ChunkOk(second) && '\n' !in x && '\n' !in y
    requires Bytes(first.data) == x && Bytes(second.data) == y + "\n"
    requires Increasing(start, first.Raw() + second.Raw())
    ensures LastDataTime(first.Raw() + second.Raw(), start) == LastDataTime(first.data + second.data, start)
            <==> (StartsWith(y, DATA) <==> StartsWith(x + y, DATA))
  {
    hide LastDataTime;
    CutLine(first, second, x, y, start);
    var all, f, k := first.Raw() + second.Raw(), |first.Raw()|, |second.data| - 1;
    assert all[f - 1] == first.end[1] && all[f + |second.size| + k] == second.data[k];
    if StartsWith(x, DATA) { assert (x + y)[..|DATA|] == x[..|DATA|]; }
  }

  /** Cut inside `data:`, an event is missed. */
  lemma CutEventIsMissed(first: Chunk, second: Chunk, cut: nat, rest: string, start: nat)
    requires ChunkOk(first) && ChunkOk(second) && 0 < cut < |DATA| && '\n' !in rest
    requires Bytes(first.data) == DATA[..cut] && Bytes(second.data) == DATA[cut..] + rest + "\n"
    ensures LastDataTime(first.Raw() + second.Raw(), start) == start
    ensures LastDataTime(first.data + second.data, start) == second.data[|second.data| - 1].at
  {
    hide LastDataTime;
    var x, y := DATA[..cut], DATA[cut..] + rest;
    CutLine(first, second, x, y, start);
    assert x + y == DATA + rest && (DATA + rest)[..|DATA|] == DATA;
    OtherFirstChar(y, DATA);
  }

  /** Cut behind it, an event counts when its first piece has come, and not when it has. */
  lemma CutEventCountsEarly(first: Chunk, second: Chunk, a: string, b: string, start: nat)
    requires ChunkOk(first) && ChunkOk(second) && '\n' !in a && '\n' !in b && !StartsWith(b, DATA)
    requires Bytes(first.data) == DATA + a && Bytes(second.data) == b + "\n"
    ensures |first.end| == 2 && LastDataTime(first.Raw() + second.Raw(), start) == first.end[1].at
    ensures LastDataTime(first.data + second.data, start) == second.data[|second.data| - 1].at
  {
    hide LastDataTime;
    CutLine(first, second, DATA + a, b, start);
    assert (DATA + a)[..|DATA|] == DATA && (DATA + a + b)[..|DATA|] == DATA;
  }

  /** A comment cut before the word counts as an event, and so does extend the deadline. */
  lemma CutCommentCounts(first: Chunk, second: Chunk, a: string, b: string, start: nat)
    requires ChunkOk(first) && ChunkOk(second) && '\n' !in a && '\n' !in b
    requires Bytes(first.data) == ":" + a && Bytes(second.data) == DATA + b + "\n"
    ensures LastDataTime(first.Raw() + second.Raw(), start) == second.data[|second.data| - 1].at
    ensures LastDataTime(first.data + second.data, start) == start
  {
    hide LastDataTime;
    CutLine(first, second, ":" + a, DATA + b, start);
    assert (DATA + b)[..|DATA|] == DATA;
    OtherFirstChar(":" + a + (DATA + b), DATA);
  }

  // ---- the deadline ----

  /** What the watchdog has kept of the stream so far. */
  function Remembered(w: Wire, s: seq<Timed>, p: Policy): nat {
    var dog := Feed(w, s, p).watchdog;
    if dog.Some? then dog.value.lastEvent else 0
  }

  lemma RememberedIsLastDataTime(w: Wire, s: seq<Timed>, p: Policy)
    requires Streaming(w) && NotOver(w, s)
    ensures Remembered(w, s, p) == LastDataTime(s, w.watchdog.value.lastEvent)
  {
    hide Feed, NotOver, LastDataLine;
    WatchdogFollowsDataLines(w, s, |s|, p);
    assert s[..|s|] == s && Bytes(s)[..|s|] == Bytes(s);
  }

  lemma NotOverBefore(w: Wire, a: seq<Timed>, b: seq<Timed>)
    requires w.body.Some? && NotOver(w, a + b)
    ensures NotOver(w, a)
  {
    hide Ends;
    forall n | 0 < n <= |a| ensures !Ends(w.body.value, Bytes(a)[..n]) {
      assert Bytes(a)[..n] == Bytes(a + b)[..n];
    }
  }

  /** At every moment of a chunked stream the watchdog remembers the decoded stream's last
      event, or its start. */
  ghost predicate WatchesTheStream(w: Wire, chunks: seq<Chunk>, p: Policy)
    requires w.watchdog.Some?
  {
    var start := w.watchdog.value.lastEvent;
    && (forall n :: 0 <= n <= |chunks| ==>
          Remembered(w, Raw(chunks[..n]), p) == LastDataTime(Decoded(chunks[..n]), start))
    && (forall n, m :: 0 <= n < |chunks| && 0 <= m <= |chunks[n].data| ==>
          Remembered(w, OnWire(chunks, n, m), p) == LastDataTime(InStream(chunks, n, m), start))
  }

  lemma {:induction false} RawBefore(chunks: seq<Chunk>, n: nat)
    requires n <= |chunks|
    ensures Raw(chunks[..n]) <= Raw(chunks)
    decreases |chunks| - n
  {
    if n == |chunks| {
      assert chunks[..n] == chunks;
    } else {
      RawBefore(chunks, n + 1);
      ChunksOneMore(chunks, n);
    }
  }

  lemma MomentIsWatched(w: Wire, chunks: seq<Chunk>, s: seq<Timed>, p: Policy)
    requires Streaming(w) && NotOver(w, Raw(chunks)) && s <= Raw(chunks)
    ensures Remembered(w, s, p) == LastDataTime(s, w.watchdog.value.lastEvent)
    ensures DeadlineAfter(w, s, p) ==
            Least(w.watchdog.value.started + w.watchdog.value.maximum, Remembered(w, s, p) + w.watchdog.value.idle)
  {
    hide Remembered, DeadlineAfter, LastDataTime, NotOver, Streaming;
    assert Raw(chunks) == s + Raw(chunks)[|s|..];
    StreamingHasBody(w);
    NotOverBefore(w, s, Raw(chunks)[|s|..]);
    RememberedIsLastDataTime(w, s, p);
    DeadlineIsCapOrIdle(w, s, p);
  }

  lemma StreamingHasBody(w: Wire)
    requires Streaming(w)
    ensures w.body.Some? && w.watchdog.Some?
  {}

  lemma OnWireBefore(chunks: seq<Chunk>, n: nat, m: nat)
    requires n < |chunks| && m <= |chunks[n].data|
    ensures OnWire(chunks, n, m) <= Raw(chunks)
  {
    RawBefore(chunks, n + 1);
    ChunksOneMore(chunks, n);
    var c := chunks[n];
    assert c.data == c.data[..m] + c.data[m..];
    assert OnWire(chunks, n, m) <= Raw(chunks[..n + 1]);
  }

  /** It does exactly if the stream is cut well. */
  lemma WatchesTheStreamIffCutWell(w: Wire, chunks: seq<Chunk>, p: Policy)
    requires Streaming(w) && NotOver(w, Raw(chunks))
    requires (forall c :: c in chunks ==> ChunkOk(c)) && Increasing(w.watchdog.value.lastEvent, Raw(chunks))
    ensures WatchesTheStream(w, chunks, p) <==> forall n :: 0 <= n < |chunks| ==> CutWell(chunks, n)
  {
    hide Remembered, LastDataTime, NotOver, ChunkOk, CutWell, Increasing, OnWire, InStream, Streaming, Feed;
    StreamingHasBody(w);
    var start := w.watchdog.value.lastEvent;
    InStepIffCutWell(chunks, start);
    forall n | 0 <= n <= |chunks|
      ensures Remembered(w, Raw(chunks[..n]), p) == LastDataTime(Raw(chunks[..n]), start)
    {
      RawBefore(chunks, n);
      MomentIsWatched(w, chunks, Raw(chunks[..n]), p);
    }
    forall n, m | 0 <= n < |chunks| && 0 <= m <= |chunks[n].data|
      ensures Remembered(w, OnWire(chunks, n, m), p) == LastDataTime(OnWire(chunks, n, m), start)
    {
      OnWireBefore(chunks, n, m);
      MomentIsWatched(w, chunks, OnWire(chunks, n, m), p);
    }
    if WatchesTheStream(w, chunks, p) {
      forall n | 0 <= n <= |chunks| ensures StepAfter(chunks, start, n) {}
      forall n, m | 0 <= n < |chunks| && 0 <= m <= |chunks[n].data| ensures StepAt(chunks, start, n, m) {}
      assert InStep(chunks, start);
    }
    if InStep(chunks, start) {
      forall n | 0 <= n <= |chunks|
        ensures Remembered(w, Raw(chunks[..n]), p) == LastDataTime(Decoded(chunks[..n]), start)
      { assert StepAfter(chunks, start, n); }
      forall n, m | 0 <= n < |chunks| && 0 <= m <= |chunks[n].data|
        ensures Remembered(w, OnWire(chunks, n, m), p) == LastDataTime(InStream(chunks, n, m), start)
      { assert StepAt(chunks, start, n, m); }
      assert WatchesTheStream(w, chunks, p);
    }
  }

  /** And then its deadline is, at every byte of the data, the one the stream's events call
      for. */
  lemma CutWellDeadlineIsRight(w: Wire, chunks: seq<Chunk>, n: nat, m: nat, p: Policy)
    requires Streaming(w) && NotOver(w, Raw(chunks)) && (forall c :: c in chunks ==> ChunkOk(c))
    requires forall i :: 0 <= i < |chunks| ==> CutWell(chunks, i)
    requires n < |chunks| && m <= |chunks[n].data|
    ensures
      var dog := w.watchdog.value;
      DeadlineAfter(w, OnWire(chunks, n, m), p)
      == Least(dog.started + dog.maximum, LastDataTime(InStream(chunks, n, m), dog.lastEvent) + dog.idle)
  {
    hide Remembered, DeadlineAfter, LastDataTime, NotOver, ChunkOk, CutWell, OnWire, InStream, Streaming;
    StreamingHasBody(w);
    OnWireBefore(chunks, n, m);
    MomentIsWatched(w, chunks, OnWire(chunks, n, m), p);
    CutWellKeepsStep(chunks, w.watchdog.value.lastEvent, |chunks|);
    assert StepAt(chunks, w.watchdog.value.lastEvent, n, m);
  }
}
