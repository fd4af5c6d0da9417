/** The response framer of one connection: byte by byte it finds where each response ends
    and returns the permits. One byte is one step, so a run of bytes with their arrival
    times stands for every way of splitting the stream into writes. */
module HttpWire {
  import opened HttpHeads
  import opened Options
  import opened Texts

  datatype Timed = Timed(c: char, at: nat)

  datatype Policy = Policy(idle: nat, maximum: nat)

  datatype Watchdog = Watchdog(started: nat, lastEvent: nat, idle: nat, maximum: nat) {
    function Deadline(): nat {
      var cap, quiet := started + maximum, lastEvent + idle;
      if cap <= quiet then cap else quiet
    }
  }

  datatype Scanner = Scanner(matched: nat, matching: bool, isData: bool)

  datatype Body = Body(sse: bool, length: Option<nat>, chunked: bool, written: nat, tail: string, request: Option<nat>)

  /** The permits and request data of the connection. */
  datatype Conn = Conn(ordinary: bool, stream: bool, deadline: Option<nat>, head: bool, active: Option<nat>)

  datatype Wire = Wire(headers: string, body: Option<Body>, watchdog: Option<Watchdog>, line: Scanner, conn: Conn)

  const RESET := Scanner(0, true, false)
  const DATA := "data:"

  function Max(a: nat, b: nat): nat { if a < b then b else a }

  function FinishRequest(c: Conn, id: Option<nat>): Conn {
    if id.Some? && c.active == id then c.(active := None) else c
  }

  function ReleaseAll(c: Conn, stream: bool): Conn {
    c.(ordinary := false, deadline := None, head := false, stream := c.stream && !stream)
  }

  function NewUntil(now: nat, deadline: nat): Watchdog {
    var span := if now < deadline then deadline - now else 0;
    Watchdog(now, now, span, span)
  }

  function StreamWatch(c: Conn, now: nat, p: Policy): Option<Watchdog> {
    if c.stream then Some(Watchdog(now, now, p.idle, p.maximum))
    else if c.deadline.Some? then Some(NewUntil(now, c.deadline.value))
    else None
  }

  function BeginResponse(w: Wire, raw: string, now: nat, p: Policy): Wire {
    var h := ParseHead(raw);
    var w0 := w.(headers := "");
    if h.Interim() then w0
    else if w.conn.head || h.NoContent() then
      Wire("", None, None, RESET, ReleaseAll(FinishRequest(w.conn, w.conn.active), true))
    else if h.length == Some(0) then
      w0.(body := None, watchdog := None, conn := ReleaseAll(FinishRequest(w.conn, w.conn.active), h.sse))
    else
      w0.(
        body := Some(Body(h.sse, h.length, h.chunked, 0, "", w.conn.active)),
        watchdog := if h.sse then StreamWatch(w.conn, now, p) else w.watchdog,
        conn := if h.sse then w.conn else w.conn.(deadline := None))
  }

  function FinishResponse(w: Wire): Wire
    requires w.body.Some?
  {
    Wire(w.headers, None, None, RESET, ReleaseAll(FinishRequest(w.conn, w.body.value.request), w.body.value.sse))
  }

  function Scan(line: Scanner, c: char): Scanner {
    if c == '\n' then RESET
    else if !line.matching then line
    else if line.matched < |DATA| && DATA[line.matched] == c then
      Scanner(line.matched + 1, true, line.matched + 1 == |DATA|)
    else line.(matching := false)
  }

  function Watch(dog: Option<Watchdog>, line: Scanner, c: char, now: nat): Option<Watchdog> {
    if dog.Some? && c == '\n' && line.isData then Some(dog.value.(lastEvent := now)) else dog
  }

  function PushTail(tail: string, c: char): string {
    var t := tail + [c];
    if |t| > 7 then t[1..] else t
  }

  predicate LastChunk(tail: string) { tail == "\r\n0\r\n\r\n" || tail == "0\r\n\r\n" }

  predicate Ended(b: Body) {
    if b.chunked then LastChunk(b.tail) else b.length.Some? && b.written >= b.length.value
  }

  function InBody(w: Wire, c: char, now: nat): Wire
    requires w.body.Some?
  {
    var b := w.body.value;
    var b1 := b.(written := b.written + 1, tail := if b.chunked then PushTail(b.tail, c) else b.tail);
    var w1 := if b.sse then w.(line := Scan(w.line, c), watchdog := Watch(w.watchdog, w.line, c, now)) else w;
    var w2 := w1.(body := Some(b1));
    if Ended(b1) then FinishResponse(w2) else w2
  }

  function InHead(w: Wire, c: char, now: nat, p: Policy): Wire {
    var h := (if |w.headers| == MAX_RESPONSE_HEADER_BYTES then "" else w.headers) + [c];
    if EndsWith(h, BREAK) then BeginResponse(w, h, now, p) else w.(headers := h)
  }

  function OneByte(w: Wire, x: Timed, p: Policy): Wire {
    if w.body.None? then InHead(w, x.c, x.at, p) else InBody(w, x.c, x.at)
  }

  function Feed(w: Wire, s: seq<Timed>, p: Policy): Wire {
    if s == [] then w else OneByte(Feed(w, s[..|s| - 1], p), s[|s| - 1], p)
  }

  function Bytes(s: seq<Timed>): (r: string)
    ensures |r| == |s| && forall k :: 0 <= k < |s| ==> r[k] == s[k].c
  {
    seq(|s|, k requires 0 <= k < |s| => s[k].c)
  }

  function Stamp(s: string, now: nat): (r: seq<Timed>)
    ensures |r| == |s| && forall k :: 0 <= k < |s| ==> r[k] == Timed(s[k], now)
  {
    seq(|s|, k requires 0 <= k < |s| => Timed(s[k], now))
  }

  /** Writes may be split anywhere. */
  lemma {:induction false} FeedOfConcat(w: Wire, a: seq<Timed>, b: seq<Timed>, p: Policy)
    ensures Feed(w, a + b, p) == Feed(Feed(w, a, p), b, p)
    decreases |b|
  {
    hide OneByte;
    if b == [] {
      assert a + b == a;
    } else {
      FeedOfConcat(w, a, b[..|b| - 1], p);
      assert (a + b)[..|a + b| - 1] == a + b[..|b| - 1];
    }
  }

  lemma FeedStep(w: Wire, s: seq<Timed>, n: nat, p: Policy)
    requires n < |s|
    ensures Feed(w, s[..n + 1], p) == OneByte(Feed(w, s[..n], p), s[n], p)
  {
    hide OneByte;
    assert s[..n + 1][..n] == s[..n];
  }

  // ---- where a response ends ----

  /** Nothing of a response has arrived. */
  predicate Fresh(w: Wire) { w.headers == "" && w.body.None? && w.watchdog.None? && w.line == RESET }

  predicate Kept(was: Conn, now: Conn) {
    now.ordinary == was.ordinary && now.stream == was.stream && now.head == was.head && now.active == was.active
  }

  function Returned(was: Conn, stream: bool): Conn { Conn(false, was.stream && !stream, None, false, None) }

  /** Whatever the bytes so far, a head no blank line has ended is only collected. */
  lemma {:induction false} HeadIsCollected(w: Wire, s: seq<Timed>, p: Policy)
    requires Fresh(w) && |s| <= MAX_RESPONSE_HEADER_BYTES
    requires forall n :: 0 <= n <= |s| ==> !EndsWith(Bytes(s)[..n], BREAK)
    ensures Feed(w, s, p) == w.(headers := Bytes(s))
    decreases |s|
  {
    hide EndsWith;
    if s == [] {
      assert Bytes(s) == "";
    } else {
      var t := s[..|s| - 1];
      forall n | 0 <= n <= |t| ensures !EndsWith(Bytes(t)[..n], BREAK) {
        assert Bytes(t)[..n] == Bytes(s)[..n];
      }
      HeadIsCollected(w, t, p);
      assert Bytes(s) == Bytes(t) + [s[|s| - 1].c];
      assert Bytes(s) == Bytes(s)[..|s|];
    }
  }

  lemma HeadIsCollectedUpTo(w: Wire, s: seq<Timed>, n: nat, p: Policy)
    requires Fresh(w) && Heading(Bytes(s)) && n < |s|
    ensures Feed(w, s[..n], p) == w.(headers := Bytes(s)[..n])
  {
    hide EndsWith, OneByte;
    forall m | 0 <= m <= n ensures !EndsWith(Bytes(s[..n])[..m], BREAK) {
      assert Bytes(s[..n])[..m] == Bytes(s)[..m];
    }
    HeadIsCollected(w, s[..n], p);
    assert Bytes(s[..n]) == Bytes(s)[..n];
  }

  lemma HeadingIsNotEmpty(h: string)
    requires Heading(h)
    ensures h != ""
  {}

  /** A whole head begins the response at its last byte. */
  lemma HeadBegins(w: Wire, s: seq<Timed>, p: Policy)
    requires Fresh(w) && Heading(Bytes(s))
    ensures s != [] && Feed(w, s, p) == BeginResponse(w, Bytes(s), s[|s| - 1].at, p)
  {
    hide ParseHead, EndsWith;
    HeadingIsNotEmpty(Bytes(s));
    HeadIsCollectedUpTo(w, s, |s| - 1, p);
    FeedStep(w, s, |s| - 1, p);
    assert s[..|s|] == s;
    assert Bytes(s) == Bytes(s)[..|s| - 1] + [s[|s| - 1].c];
  }

  // ---- the body ----

  function Last7(s: string): string { if |s| <= 7 then s else s[|s| - 7..] }

  /** The bytes so far end the body. */
  predicate Ends(b: Body, s: string) {
    if b.chunked then LastChunk(Last7(s)) else b.length.Some? && |s| >= b.length.value
  }

  function Progress(b: Body, s: string): Body {
    b.(written := |s|, tail := if b.chunked then Last7(s) else "")
  }

  predicate Begun(w: Wire) { w.headers == "" && w.body.Some? && w.body.value.written == 0 && w.body.value.tail == "" }

  lemma TailIsLast7(t: string, c: char)
    ensures PushTail(Last7(t), c) == Last7(t + [c])
  {
    if |t| > 7 {
      assert (Last7(t) + [c])[1..] == Last7(t + [c]);
    }
  }

  lemma TailOfNothing()
    ensures Last7("") == ""
  {}

  lemma BodyByte(b: Body, w: Wire, t: string, x: Timed, p: Policy)
    requires b.written == 0 && b.tail == "" && w.headers == "" && w.body == Some(Progress(b, t))
    ensures
      var now := OneByte(w, x, p);
      if Ends(b, t + [x.c]) then
        now == Wire("", None, None, RESET, ReleaseAll(FinishRequest(w.conn, b.request), b.sse))
      else now.headers == "" && now.conn == w.conn && now.body == Some(Progress(b, t + [x.c]))
  {
    hide LastChunk, PushTail, Last7;
    TailIsLast7(t, x.c);
  }

  lemma {:induction false} BodyGoesOn(w: Wire, s: seq<Timed>, p: Policy)
    requires Begun(w)
    requires forall n :: 0 < n <= |s| ==> !Ends(w.body.value, Bytes(s)[..n])
    ensures
      var now := Feed(w, s, p);
      now.headers == "" && now.conn == w.conn && now.body == Some(Progress(w.body.value, Bytes(s)))
    decreases |s|
  {
    hide Ends, OneByte, Last7;
    if s == [] {
      assert Bytes(s) == "";
      assert Last7("") == "" by { TailOfNothing(); }
    } else {
      var t := s[..|s| - 1];
      forall n | 0 < n <= |t| ensures !Ends(w.body.value, Bytes(t)[..n]) {
        assert Bytes(t)[..n] == Bytes(s)[..n];
      }
      BodyGoesOn(w, t, p);
      assert Bytes(s) == Bytes(t) + [s[|s| - 1].c];
      assert Bytes(s) == Bytes(s)[..|s|];
      BodyByte(w.body.value, Feed(w, t, p), Bytes(t), s[|s| - 1], p);
    }
  }

  lemma BodyGoesOnUpTo(w: Wire, s: seq<Timed>, n: nat, p: Policy)
    requires Begun(w) && n <= |s|
    requires forall m :: 0 < m <= n ==> !Ends(w.body.value, Bytes(s)[..m])
    ensures
      var now := Feed(w, s[..n], p);
      now.headers == "" && now.conn == w.conn && now.body == Some(Progress(w.body.value, Bytes(s)[..n]))
  {
    hide Ends, OneByte;
    forall m | 0 < m <= n ensures !Ends(w.body.value, Bytes(s[..n])[..m]) {
      assert Bytes(s[..n])[..m] == Bytes(s)[..m];
    }
    BodyGoesOn(w, s[..n], p);
    assert Bytes(s[..n]) == Bytes(s)[..n];
  }

  /** A body whose bytes end it, and no shorter prefix does, is over at its last byte. */
  lemma BodyEnds(w: Wire, s: seq<Timed>, p: Policy)
    requires Begun(w) && s != [] && Ends(w.body.value, Bytes(s))
    requires forall m :: 0 < m < |s| ==> !Ends(w.body.value, Bytes(s)[..m])
    ensures
      var b := w.body.value;
      Feed(w, s, p) == Wire("", None, None, RESET, ReleaseAll(FinishRequest(w.conn, b.request), b.sse))
  {
    hide Ends, OneByte, Progress;
    BodyGoesOnUpTo(w, s, |s| - 1, p);
    FeedStep(w, s, |s| - 1, p);
    assert s[..|s|] == s;
    assert Bytes(s) == Bytes(s)[..|s| - 1] + [s[|s| - 1].c];
    BodyByte(w.body.value, Feed(w, s[..|s| - 1], p), Bytes(s)[..|s| - 1], s[|s| - 1], p);
  }

  // ---- chunked bodies ----

  lemma LastChunkEndsInBreak(s: string)
    requires LastChunk(Last7(s))
    ensures EndsWith(s, BREAK)
  {
    var t := Last7(s);
    assert t[|t| - 4..] == BREAK;
    assert s[|s| - 4..] == t[|t| - 4..];
  }

  /** A chunked body is read as lines: chunk sizes and chunk data in turn, then the last
      chunk's size. Before its end nothing looks like one. */
  lemma NoEarlierLastChunk(lines: seq<string>, n: nat)
    requires forall l :: l in lines ==> Plain(l)
    requires n < |Encoded(lines)|
    ensures !LastChunk(Last7(Encoded(lines)[..n]))
  {
    hide LastChunk;
    var e := Encoded(lines);
    if LastChunk(Last7(e[..n])) {
      LastChunkEndsInBreak(e[..n]);
      assert e[n - 4..n] == e[..n][n - 4..];
      NoEarlierBreak(lines, n);
    }
  }

  lemma {:induction false} EncodedEndsInLastLine(lines: seq<string>)
    requires lines != []
    ensures EndsWith(Encoded(lines), (if |lines| == 1 then "" else "\r\n") + lines[|lines| - 1] + BREAK)
    ensures |lines| == 1 ==> Encoded(lines) == lines[0] + BREAK
    decreases |lines|
  {
    var e := Encoded(lines);
    var rest := Encoded(lines[1..]);
    var last := lines[|lines| - 1];
    assert e == lines[0] + "\r\n" + rest;
    if |lines| == 1 {
      assert e == last + BREAK;
      assert e[0..] == e;
    } else if |lines| == 2 {
      EncodedEndsInLastLine(lines[1..]);
      assert rest == last + BREAK;
      assert e == lines[0] + ("\r\n" + last + BREAK);
      assert e[|lines[0]|..] == "\r\n" + last + BREAK;
    } else {
      EncodedEndsInLastLine(lines[1..]);
      var t := "\r\n" + last + BREAK;
      assert e[|e| - |t|..] == rest[|rest| - |t|..];
    }
  }

  const ZERO := "0\r\n\r\n"
  const LINE_ZERO := "\r\n0"

  lemma LastChunkMeans(e: string)
    ensures LastChunk(Last7(e)) <==> e == ZERO || EndsWith(e, LINE_ZERO + BREAK)
  {
    assert LINE_ZERO + BREAK == "\r\n0\r\n\r\n";
  }

  lemma OneLastLine(a: string, last: string)
    requires Plain(last) && EndsWith(a, "\r\n" + last) && EndsWith(a, LINE_ZERO)
    ensures last == "0"
  {
    var t := "\r\n" + last;
    assert t[1] == '\n' && forall k :: 2 <= k < |t| ==> t[k] == last[k - 2] && t[k] != '\r';
    forall j | |a| - |t| + 1 <= j < |a| ensures a[j] != '\r' {
      assert a[j] == a[|a| - |t|..][j - (|a| - |t|)];
    }
    assert a[|a| - 3..][0] == '\r' && a[|a| - 3..][2] == '0';
    assert a[|a| - |t|..][|t| - 1] == last[|last| - 1];
  }

  lemma EndsWithSuffix(e: string, t: string, u: string)
    ensures EndsWith(e, t + u) <==> EndsWith(e, u) && EndsWith(e[..|e| - |u|], t)
  {
    if |t| + |u| <= |e| {
      var a := e[..|e| - |u|];
      assert e[|e| - |t + u|..] == a[|a| - |t|..] + e[|e| - |u|..];
      if EndsWith(e, t + u) {
        assert e[|e| - |u|..] == (t + u)[|t|..] == u;
        assert a[|a| - |t|..] == (t + u)[..|t|] == t;
      }
    }
  }

  lemma OnlyLine(last: string)
    requires Plain(last)
    ensures LastChunk(Last7(last + BREAK)) <==> last == "0"
  {
    hide LastChunk, Last7;
    var e := last + BREAK;
    LastChunkMeans(e);
    EndsWithSuffix(e, LINE_ZERO, BREAK);
    assert e[..|e| - |BREAK|] == last;
    assert |last| >= 3 ==> last[|last| - 3..][0] == last[|last| - 3] != '\r';
    assert "0" + BREAK == ZERO;
    assert e == ZERO ==> last == ZERO[..1];
  }

  lemma LineBeforeLast(e: string, last: string)
    requires Plain(last) && EndsWith(e, "\r\n" + last + BREAK) && |e| > |ZERO|
    ensures LastChunk(Last7(e)) <==> last == "0"
  {
    hide LastChunk, Last7, EndsWith;
    LastChunkMeans(e);
    EndsWithSuffix(e, LINE_ZERO, BREAK);
    EndsWithSuffix(e, "\r\n" + last, BREAK);
    if EndsWith(e, LINE_ZERO + BREAK) { OneLastLine(e[..|e| - |BREAK|], last); }
    assert "\r\n" + "0" == LINE_ZERO;
  }

  lemma LongerThanZero(lines: seq<string>)
    requires |lines| > 1 && Plain(lines[0]) && Plain(lines[|lines| - 1])
    ensures |Encoded(lines)| > |ZERO|
  {
    assert |Encoded(lines)| == |lines[0]| + 2 + |Encoded(lines[1..])|;
    assert |Encoded(lines[1..])| >= |lines[1]| + 4;
  }

  /** At its end it does exactly when the last chunk's size is a single zero: the other
      spellings of a last chunk, of two zeros and more or with an extension, are missed. */
  lemma {:induction false} LastChunkIffOneZero(lines: seq<string>)
    requires lines != [] && forall l :: l in lines ==> Plain(l)
    ensures LastChunk(Last7(Encoded(lines))) <==> lines[|lines| - 1] == "0"
  {
    hide LastChunk, Last7, EndsWith, Encoded;
    EncodedEndsInLastLine(lines);
    assert Plain(lines[0]) && Plain(lines[|lines| - 1]);
    if |lines| == 1 {
      OnlyLine(lines[0]);
    } else {
      LongerThanZero(lines);
      LineBeforeLast(Encoded(lines), lines[|lines| - 1]);
    }
  }

  // ---- whole responses ----

  datatype Payload = Empty | Counted(bytes: string) | Chunks(lines: seq<string>)

  datatype Response = Response(interim: seq<string>, head: string, payload: Payload)

  function PayloadBytes(b: Payload): string {
    match b
    case Empty => ""
    case Counted(bytes) => bytes
    case Chunks(lines) => Encoded(lines)
  }

  function Interims(heads: seq<string>): string
    decreases |heads|
  {
    if heads == [] then "" else heads[0] + Interims(heads[1..])
  }

  function Render(r: Response): string { Interims(r.interim) + r.head + PayloadBytes(r.payload) }

  ghost predicate InterimOk(h: string) { Heading(h) && ParseHead(h).Interim() }

  /** The head frames the payload: none, as many bytes as it says, or chunks without CR
      and trailers whose last is a single zero. */
  ghost predicate Framed(r: Response, headRequest: bool) {
    var h := ParseHead(r.head);
    && (forall x :: x in r.interim ==> InterimOk(x))
    && Heading(r.head) && !h.Interim()
    && match r.payload
       case Empty => headRequest || h.NoContent() || h.length == Some(0)
       case Counted(bytes) =>
         !headRequest && !h.NoContent() && !h.chunked && bytes != "" && h.length == Some(|bytes|)
       case Chunks(lines) =>
         && !headRequest && !h.NoContent() && h.chunked && h.length.None?
         && lines != [] && (forall l :: l in lines ==> Plain(l)) && lines[|lines| - 1] == "0"
  }

  /** The stream permit comes back with a response for it, or with one that has no body
      by its status or method. */
  function ReturnsStream(r: Response, headRequest: bool): bool {
    headRequest || ParseHead(r.head).NoContent() || ParseHead(r.head).sse
  }

  lemma InterimHead(w: Wire, heads: seq<string>, s: seq<Timed>, p: Policy)
    requires Fresh(w) && heads != [] && InterimOk(heads[0]) && Bytes(s) == Interims(heads)
    ensures
      var k := |heads[0]|;
      k <= |s| && Bytes(s[..k]) == heads[0] && Bytes(s[k..]) == Interims(heads[1..]) && Feed(w, s[..k], p) == w
  {
    hide OneByte, Heading, ParseHead, Feed;
    var k := |heads[0]|;
    assert Bytes(s[..k]) == Bytes(s)[..k] == heads[0];
    assert Bytes(s[k..]) == Bytes(s)[k..] == Interims(heads[1..]);
    HeadBegins(w, s[..k], p);
  }

  lemma {:induction false} InterimsChangeNothing(w: Wire, heads: seq<string>, s: seq<Timed>, p: Policy)
    requires Fresh(w) && (forall x :: x in heads ==> InterimOk(x))
    requires Bytes(s) == Interims(heads)
    ensures Feed(w, s, p) == w
    decreases |heads|
  {
    hide OneByte, InterimOk, Bytes;
    if heads == [] {
      assert s == [];
    } else {
      var k := |heads[0]|;
      assert InterimOk(heads[0]);
      InterimHead(w, heads, s, p);
      FeedOfConcat(w, s[..k], s[k..], p);
      assert s == s[..k] + s[k..];
      InterimsChangeNothing(w, heads[1..], s[k..], p);
    }
  }

  lemma {:induction false} InterimsKeepPermits(w: Wire, heads: seq<string>, s: seq<Timed>, n: nat, p: Policy)
    requires Fresh(w) && (forall x :: x in heads ==> InterimOk(x))
    requires Bytes(s) == Interims(heads) && n <= |s|
    ensures Feed(w, s[..n], p).conn == w.conn
    decreases |heads|
  {
    hide OneByte, Bytes, Heading, ParseHead;
    if heads == [] {
      assert s == [];
    } else {
      var k := |heads[0]|;
      assert InterimOk(heads[0]);
      InterimHead(w, heads, s, p);
      if n < k {
        assert s[..n] == s[..k][..n];
        HeadIsCollectedUpTo(w, s[..k], n, p);
      } else {
        assert s[..n] == s[..k] + s[k..][..n - k];
        FeedOfConcat(w, s[..k], s[k..][..n - k], p);
        InterimsKeepPermits(w, heads[1..], s[k..], n - k, p);
      }
    }
  }

  function BodyOf(r: Response, c: Conn): Body {
    var h := ParseHead(r.head);
    Body(h.sse, h.length, h.chunked, 0, "", c.active)
  }

  lemma PayloadEndsIt(r: Response, c: Conn)
    requires Framed(r, c.head) && !r.payload.Empty?
    ensures PayloadBytes(r.payload) != "" && Ends(BodyOf(r, c), PayloadBytes(r.payload))
    ensures forall m :: 0 < m < |PayloadBytes(r.payload)| ==> !Ends(BodyOf(r, c), PayloadBytes(r.payload)[..m])
  {
    hide ParseHead, Heading, LastChunk;
    if r.payload.Chunks? {
      LastChunkIffOneZero(r.payload.lines);
      forall m | 0 < m < |PayloadBytes(r.payload)| ensures !Ends(BodyOf(r, c), PayloadBytes(r.payload)[..m]) {
        NoEarlierLastChunk(r.payload.lines, m);
      }
    }
  }

  /** After the head: over if there is no payload, else the body of that head begins. */
  lemma AfterHead(w: Wire, r: Response, s: seq<Timed>, p: Policy)
    requires Fresh(w) && Framed(r, w.conn.head) && Bytes(s) == r.head
    ensures
      var now := Feed(w, s, p);
      if r.payload.Empty? then
        now == Wire("", None, None, RESET, Returned(w.conn, ReturnsStream(r, w.conn.head)))
      else Begun(now) && now.body == Some(BodyOf(r, w.conn)) && Kept(w.conn, now.conn)
  {
    hide OneByte, Heading, ParseHead;
    HeadBegins(w, s, p);
  }

  lemma WholeBody(w: Wire, r: Response, c: Conn, s: seq<Timed>, n: nat, p: Policy)
    requires Begun(w) && w.body == Some(BodyOf(r, c)) && Kept(c, w.conn)
    requires Framed(r, c.head) && !r.payload.Empty? && Bytes(s) == PayloadBytes(r.payload) && n <= |s|
    ensures Feed(w, s, p) == Wire("", None, None, RESET, Returned(c, ReturnsStream(r, c.head)))
    ensures n < |s| ==> Kept(c, Feed(w, s[..n], p).conn)
  {
    hide OneByte, Heading, ParseHead, Ends;
    PayloadEndsIt(r, c);
    BodyEnds(w, s, p);
    if n < |s| { BodyGoesOnUpTo(w, s, n, p); }
  }

  /** The bytes of a response: interim heads, head, payload. */
  lemma PartsOf(r: Response, s: seq<Timed>) returns (a: seq<Timed>, b: seq<Timed>, c: seq<Timed>)
    requires Bytes(s) == Render(r)
    ensures s == a + b + c
    ensures Bytes(a) == Interims(r.interim) && Bytes(b) == r.head && Bytes(c) == PayloadBytes(r.payload)
  {
    hide Interims, PayloadBytes;
    var i, j := |Interims(r.interim)|, |Interims(r.interim)| + |r.head|;
    a, b, c := s[..i], s[i..j], s[j..];
    assert Bytes(a) == Bytes(s)[..i] == Interims(r.interim);
    assert Bytes(b) == Bytes(s)[i..j] == r.head;
    assert Bytes(c) == Bytes(s)[j..] == PayloadBytes(r.payload);
  }

  lemma PartsEnd(w: Wire, r: Response, a: seq<Timed>, b: seq<Timed>, c: seq<Timed>, p: Policy)
    requires Fresh(w) && Framed(r, w.conn.head)
    requires Bytes(a) == Interims(r.interim) && Bytes(b) == r.head && Bytes(c) == PayloadBytes(r.payload)
    ensures Feed(w, a + b + c, p) == Wire("", None, None, RESET, Returned(w.conn, ReturnsStream(r, w.conn.head)))
  {
    hide OneByte, Framed, Feed, Bytes;
    FramedParts(r, w.conn.head);
    InterimsChangeNothing(w, r.interim, a, p);
    AfterHead(w, r, b, p);
    FeedOfConcat(w, a, b, p);
    FeedOfConcat(w, a + b, c, p);
    if r.payload.Empty? {
      EmptyFeed(Feed(w, b, p), p);
    } else {
      WholeBody(Feed(w, b, p), r, w.conn, c, 0, p);
    }
  }

  lemma PartsKeepPermits(w: Wire, r: Response, a: seq<Timed>, b: seq<Timed>, c: seq<Timed>, n: nat, p: Policy)
    requires Fresh(w) && Framed(r, w.conn.head) && n < |a + b + c|
    requires Bytes(a) == Interims(r.interim) && Bytes(b) == r.head && Bytes(c) == PayloadBytes(r.payload)
    ensures Kept(w.conn, Feed(w, (a + b + c)[..n], p).conn)
  {
    hide OneByte, Framed, Feed, Bytes;
    FramedParts(r, w.conn.head);
    var s := a + b + c;
    if n < |a| {
      assert s[..n] == a[..n];
      InterimsKeepPermits(w, r.interim, a, n, p);
    } else if n < |a + b| {
      assert s[..n] == a + b[..n - |a|];
      FeedOfConcat(w, a, b[..n - |a|], p);
      InterimsChangeNothing(w, r.interim, a, p);
      HeadIsCollectedUpTo(w, b, n - |a|, p);
    } else {
      assert s[..n] == a + b + c[..n - |a + b|];
      FeedOfConcat(w, a + b, c[..n - |a + b|], p);
      FeedOfConcat(w, a, b, p);
      InterimsChangeNothing(w, r.interim, a, p);
      AfterHead(w, r, b, p);
      WholeBody(Feed(w, b, p), r, w.conn, c, n - |a + b|, p);
    }
  }

  /** Fed a well-formed response in any splits and at any times, the tracker ends it at
      exactly its last byte: only there are the permits returned, and it is as before
      the first. */
  lemma ResponseEndsAtItsLastByte(w: Wire, r: Response, s: seq<Timed>, n: nat, p: Policy)
    requires Fresh(w) && Framed(r, w.conn.head) && Bytes(s) == Render(r) && n <= |s|
    ensures Feed(w, s, p) == Wire("", None, None, RESET, Returned(w.conn, ReturnsStream(r, w.conn.head)))
    ensures n < |s| ==> Kept(w.conn, Feed(w, s[..n], p).conn)
  {
    hide OneByte, Framed, Feed, Render, Bytes, Interims, PayloadBytes;
    var a, b, c := PartsOf(r, s);
    PartsEnd(w, r, a, b, c, p);
    if n < |s| { PartsKeepPermits(w, r, a, b, c, n, p); }
  }

  lemma EmptyFeed(w: Wire, p: Policy)
    ensures Feed(w, [], p) == w
  {}

  lemma FramedParts(r: Response, headRequest: bool)
    requires Framed(r, headRequest)
    ensures Heading(r.head) && forall x :: x in r.interim ==> InterimOk(x)
  {}

  /** On a kept-alive connection each request brings its own permits; every response of
      the run is framed on its own. */
  function Serve(w: Wire, run: seq<(Conn, seq<Timed>)>, p: Policy): Wire {
    if run == [] then w
    else
      var (c, s) := run[|run| - 1];
      Feed(Serve(w, run[..|run| - 1], p).(conn := c), s, p)
  }

  lemma {:induction false} EveryResponseOfARunIsFramed(w: Wire, run: seq<(Conn, seq<Timed>)>, rs: seq<Response>, p: Policy)
    requires Fresh(w) && |rs| == |run|
    requires forall k :: 0 <= k < |run| ==> Framed(rs[k], run[k].0.head) && Bytes(run[k].1) == Render(rs[k])
    ensures Fresh(Serve(w, run, p))
    ensures run != [] ==> Serve(w, run, p).conn == Returned(run[|run| - 1].0, ReturnsStream(rs[|rs| - 1], run[|run| - 1].0.head))
    decreases |run|
  {
    hide Framed, Feed, Render, ParseHead;
    if run != [] {
      var n := |run| - 1;
      EveryResponseOfARunIsFramed(w, run[..n], rs[..n], p);
      ResponseEndsAtItsLastByte(Serve(w, run[..n], p).(conn := run[n].0), rs[n], run[n].1, 0, p);
    }
  }

  /** A chunked body without that last chunk is never ended: its permits stay out. */
  lemma {:induction false} OtherLastChunksAreMissed(w: Wire, lines: seq<string>, s: seq<Timed>, p: Policy)
    requires Begun(w) && w.body.value.chunked
    requires lines != [] && (forall l :: l in lines ==> Plain(l)) && Bytes(s) == Encoded(lines)
    ensures Feed(w, s, p).body.None? <==> lines[|lines| - 1] == "0"
    ensures lines[|lines| - 1] != "0" ==> Feed(w, s, p).conn == w.conn
  {
    hide LastChunk, OneByte;
    LastChunkIffOneZero(lines);
    forall m | 0 < m < |s| ensures !Ends(w.body.value, Bytes(s)[..m]) {
      NoEarlierLastChunk(lines, m);
    }
    if lines[|lines| - 1] == "0" {
      BodyEnds(w, s, p);
    } else {
      assert Bytes(s)[..|s|] == Bytes(s);
      BodyGoesOn(w, s, p);
    }
  }
}
