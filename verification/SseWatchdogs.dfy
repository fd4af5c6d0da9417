/** The deadline of an event stream, over any body bytes at any times. */
module SseWatchdogs {
  import opened HttpHeads
  import opened HttpWire
  import opened Options
  import opened Texts

  /** Where the line of position `k` starts: behind the last line feed before it. */
  function LineStart(s: string, k: nat): (r: nat)
    requires k <= |s|
    ensures r <= k
  {
    if k == 0 then 0 else if s[k - 1] == '\n' then k else LineStart(s, k - 1)
  }

  predicate DataLineEndsAt(s: string, k: nat) {
    k < |s| && s[k] == '\n' && StartsWith(s[LineStart(s, k)..k], DATA)
  }

  /** The end of the last completed `data:` line before `n`. */
  function LastDataLine(s: string, n: nat): (r: Option<nat>)
    requires n <= |s|
    ensures r.Some? ==> r.value < n && DataLineEndsAt(s, r.value)
    ensures forall k :: (if r.Some? then r.value + 1 else 0) <= k < n ==> !DataLineEndsAt(s, k)
  {
    if n == 0 then None else if DataLineEndsAt(s, n - 1) then Some(n - 1) else LastDataLine(s, n - 1)
  }

  function LastDataTime(s: seq<Timed>, start: nat): nat {
    var k := LastDataLine(Bytes(s), |s|);
    if k.Some? then s[k.value].at else start
  }

  function CurrentLine(s: string): string { s[LineStart(s, |s|)..] }

  predicate ScannerFits(line: Scanner, current: string) {
    && line.isData == StartsWith(current, DATA)
    && line.matching == StartsWith(DATA, current)
    && (line.matching ==> line.matched == |current|)
  }

  /** An event stream's body has begun and, up to now, not ended. */
  predicate Streaming(w: Wire) { Begun(w) && w.body.value.sse && w.line == RESET && w.watchdog.Some? }

  predicate NotOver(w: Wire, s: seq<Timed>)
    requires w.body.Some?
  {
    forall n :: 0 < n <= |s| ==> !Ends(w.body.value, Bytes(s)[..n])
  }

  lemma ScanFollowsLine(line: Scanner, current: string, c: char)
    requires ScannerFits(line, current)
    ensures ScannerFits(Scan(line, c), if c == '\n' then "" else current + [c])
  {
    if c != '\n' {
      var next := current + [c];
      if |current| < |DATA| {
        assert DATA[..|next|] == DATA[..|current|] + [DATA[|current|]];
        assert StartsWith(DATA, next) <==> StartsWith(DATA, current) && DATA[|current|] == c;
        if |next| == |DATA| {
          assert next[..|DATA|] == next && DATA[..|next|] == DATA;
        }
      } else {
        assert next[..|DATA|] == current[..|DATA|];
        assert current[..|DATA|] == current || |current| > |DATA|;
      }
    }
  }

  lemma {:induction false} LineStartOfPrefix(s: string, n: nat, k: nat)
    requires k <= n <= |s|
    ensures LineStart(s[..n], k) == LineStart(s, k)
    decreases k
  {
    if k > 0 { LineStartOfPrefix(s, n, k - 1); }
  }

  lemma DataLineInPrefix(s: string, n: nat, k: nat)
    requires k < n <= |s|
    ensures DataLineEndsAt(s[..n], k) <==> DataLineEndsAt(s, k)
  {
    LineStartOfPrefix(s, n, k);
    assert s[..n][LineStart(s, k)..k] == s[LineStart(s, k)..k];
  }

  lemma {:induction false} LastDataInPrefix(s: string, n: nat, k: nat)
    requires k <= n <= |s|
    ensures LastDataLine(s[..n], k) == LastDataLine(s, k)
    decreases k
  {
    hide DataLineEndsAt;
    if k > 0 {
      DataLineInPrefix(s, n, k - 1);
      LastDataInPrefix(s, n, k - 1);
    }
  }

  lemma CurrentLineGrows(s: string, n: nat)
    requires n < |s|
    ensures CurrentLine(s[..n + 1]) == if s[n] == '\n' then "" else CurrentLine(s[..n]) + [s[n]]
    ensures DataLineEndsAt(s, n) <==> s[n] == '\n' && StartsWith(CurrentLine(s[..n]), DATA)
  {
    LineStartOfPrefix(s, n + 1, n);
    LineStartOfPrefix(s, n, n);
    assert s[..n][LineStart(s, n)..] == s[LineStart(s, n)..n];
    if s[n] != '\n' {
      assert LineStart(s[..n + 1], n + 1) == LineStart(s, n);
    }
  }

  /** Until the body ends, the scanner follows the current line and the watchdog remembers
      the end of the last `data:` line, or its start. */
  lemma {:induction false} WatchdogFollowsDataLines(w: Wire, s: seq<Timed>, n: nat, p: Policy)
    requires Streaming(w) && NotOver(w, s) && n <= |s|
    ensures
      var now := Feed(w, s[..n], p);
      var k := LastDataLine(Bytes(s), n);
      var dog := w.watchdog.value;
      && ScannerFits(now.line, CurrentLine(Bytes(s)[..n]))
      && now.watchdog == Some(dog.(lastEvent := if k.Some? then s[k.value].at else dog.lastEvent))
    decreases n
  {
    hide Ends, Scan, ScannerFits, DataLineEndsAt, CurrentLine, LastDataLine, OneByte, Progress, StartsWith;
    var b := Bytes(s);
    if n == 0 {
      StartOfStream(b);
    } else {
      var m := n - 1;
      WatchdogFollowsDataLines(w, s, m, p);
      var before := Feed(w, s[..m], p);
      FeedStep(w, s, m, p);
      BodyGoesOnUpTo(w, s, m, p);
      assert b[..n] == b[..m] + [s[m].c];
      ByteIsScanned(w.body.value, before, b[..m], s[m], p);
      ScanFollowsLine(before.line, CurrentLine(b[..m]), s[m].c);
      CurrentLineGrows(b, m);
      ScannerKnows(before.line, CurrentLine(b[..m]));
      LastDataStep(b, m);
    }
  }

  lemma StartOfStream(b: string)
    ensures b[..0] == "" && CurrentLine("") == "" && ScannerFits(RESET, "") && LastDataLine(b, 0) == None
  {
    hide DataLineEndsAt;
    assert LineStart("", 0) == 0;
  }

  lemma ScannerKnows(line: Scanner, current: string)
    requires ScannerFits(line, current)
    ensures line.isData == StartsWith(current, DATA)
  {}

  lemma LastDataStep(s: string, m: nat)
    requires m < |s|
    ensures LastDataLine(s, m + 1) == if DataLineEndsAt(s, m) then Some(m) else LastDataLine(s, m)
  {}

  lemma ByteIsScanned(b: Body, w: Wire, t: string, x: Timed, p: Policy)
    requires b.written == 0 && b.tail == "" && b.sse && w.headers == "" && w.body == Some(Progress(b, t))
    requires !Ends(b, t + [x.c])
    ensures OneByte(w, x, p).line == Scan(w.line, x.c)
    ensures OneByte(w, x, p).watchdog == Watch(w.watchdog, w.line, x.c, x.at)
  {
    hide LastChunk, PushTail, Last7;
    TailIsLast7(t, x.c);
  }

  function Least(a: nat, b: nat): nat { if a <= b then a else b }

  function DeadlineAfter(w: Wire, s: seq<Timed>, p: Policy): nat {
    var dog := Feed(w, s, p).watchdog;
    if dog.Some? then dog.value.Deadline() else 0
  }

  /** The deadline is the smaller of start plus maximum and last completed `data:` line
      (or start) plus idle. */
  lemma DeadlineIsCapOrIdle(w: Wire, s: seq<Timed>, p: Policy)
    requires Streaming(w) && NotOver(w, s)
    ensures
      var dog := w.watchdog.value;
      DeadlineAfter(w, s, p) == Least(dog.started + dog.maximum, LastDataTime(s, dog.lastEvent) + dog.idle)
  {
    hide Feed, NotOver, LastDataLine;
    WatchdogFollowsDataLines(w, s, |s|, p);
    assert s[..|s|] == s && Bytes(s)[..|s|] == Bytes(s);
  }

  lemma {:induction false} NoLaterDataLine(s: string, m: nat, n: nat)
    requires m <= n <= |s|
    requires forall k :: m <= k < n ==> !DataLineEndsAt(s, k)
    ensures LastDataLine(s, n) == LastDataLine(s, m)
    decreases n
  {
    hide DataLineEndsAt;
    if m < n { NoLaterDataLine(s, m, n - 1); }
  }

  /** Bytes that complete no `data:` line, comment keep-alives among them, never move the
      deadline. */
  lemma KeepAlivesNeverExtend(w: Wire, s: seq<Timed>, more: seq<Timed>, p: Policy)
    requires Streaming(w) && NotOver(w, s + more) && NotOver(w, s)
    requires forall k :: |s| <= k < |s + more| ==> !DataLineEndsAt(Bytes(s + more), k)
    ensures DeadlineAfter(w, s + more, p) == DeadlineAfter(w, s, p)
  {
    hide DeadlineAfter, NotOver, DataLineEndsAt, LastDataLine;
    var all := Bytes(s + more);
    DeadlineIsCapOrIdle(w, s, p);
    DeadlineIsCapOrIdle(w, s + more, p);
    NoLaterDataLine(all, |s|, |all|);
    assert all[..|s|] == Bytes(s);
    LastDataInPrefix(all, |s|, |s|);
  }

  predicate InTimeOrder(start: nat, s: seq<Timed>) {
    && (forall k :: 0 <= k < |s| ==> start <= s[k].at)
    && (forall j, k :: 0 <= j <= k < |s| ==> s[j].at <= s[k].at)
  }

  /** The deadline never moves back, and never beyond the lifetime cap. */
  lemma DeadlineNeverShrinks(w: Wire, s: seq<Timed>, n: nat, p: Policy)
    requires Streaming(w) && NotOver(w, s) && n <= |s| && NotOver(w, s[..n])
    requires w.watchdog.value.lastEvent == w.watchdog.value.started && InTimeOrder(w.watchdog.value.started, s)
    ensures DeadlineAfter(w, s[..n], p) <= DeadlineAfter(w, s, p)
    ensures DeadlineAfter(w, s, p) <= w.watchdog.value.started + w.watchdog.value.maximum
  {
    hide DeadlineAfter, NotOver, DataLineEndsAt;
    DeadlineIsCapOrIdle(w, s, p);
    DeadlineIsCapOrIdle(w, s[..n], p);
    assert Bytes(s)[..n] == Bytes(s[..n]);
    LastDataInPrefix(Bytes(s), n, n);
    LastDataGrows(Bytes(s), n, |s|);
  }

  lemma {:induction false} LastDataGrows(s: string, m: nat, n: nat)
    requires m <= n <= |s|
    ensures var a, b := LastDataLine(s, m), LastDataLine(s, n); a.Some? ==> b.Some? && a.value <= b.value
    decreases n
  {
    hide DataLineEndsAt;
    if m < n { LastDataGrows(s, m, n - 1); }
  }

  /** An event stream answered without a stream permit never outlives its request's
      deadline, whatever it sends. */
  lemma WithoutPermitTheRequestDeadlineHolds(w: Wire, s: seq<Timed>, start: nat, deadline: nat, p: Policy)
    requires Streaming(w) && NotOver(w, s) && !w.conn.stream && w.conn.deadline == Some(deadline)
    requires w.watchdog == StreamWatch(w.conn, start, p) && InTimeOrder(start, s)
    ensures DeadlineAfter(w, s, p) == Max(start, deadline)
  {
    hide DeadlineAfter, NotOver, DataLineEndsAt;
    DeadlineIsCapOrIdle(w, s, p);
  }

  /** The head of an event stream starts exactly that watchdog. */
  lemma StreamStartsItsWatchdog(w: Wire, raw: string, now: nat, p: Policy)
    requires Fresh(w)
    ensures
      var h, after := ParseHead(raw), BeginResponse(w, raw, now, p);
      after.body.Some? && h.sse ==> after.watchdog == StreamWatch(w.conn, now, p) && after.line == RESET && after.conn == w.conn
    ensures
      var after := BeginResponse(w, raw, now, p);
      after.watchdog.Some? ==> after.watchdog.value.started == now == after.watchdog.value.lastEvent
  {
    hide ParseHead;
  }

  /** So from its head on, the deadline of an event stream is that of its permit: lifetime
      and idle time with one, the request's own without. */
  lemma StreamDeadlineFromItsHead(w: Wire, raw: string, now: nat, s: seq<Timed>, p: Policy)
    requires Fresh(w) && !w.conn.head && (w.conn.stream || w.conn.deadline.Some?)
    requires var h := ParseHead(raw); h.sse && !h.Interim() && !h.NoContent() && h.length != Some(0)
    requires NotOver(BeginResponse(w, raw, now, p), s) && InTimeOrder(now, s)
    ensures
      DeadlineAfter(BeginResponse(w, raw, now, p), s, p) ==
      if w.conn.stream then Least(now + p.maximum, LastDataTime(s, now) + p.idle) else Max(now, w.conn.deadline.value)
  {
    hide ParseHead, NotOver, DeadlineAfter, LastDataTime, InTimeOrder;
    StreamStartsItsWatchdog(w, raw, now, p);
    var after := BeginResponse(w, raw, now, p);
    if w.conn.stream {
      DeadlineIsCapOrIdle(after, s, p);
    } else {
      WithoutPermitTheRequestDeadlineHolds(after, s, now, w.conn.deadline.value, p);
    }
  }
}
