/** Responses written field by field, framed. */
module HttpResponses {
  import opened Options
  import opened Texts
  import opened HttpHeads
  import opened HttpWire

  /** A head as a server writes it. */
  datatype Written = Written(version: string, code: nat, reason: string, fields: seq<Field>) {
    function Text(): string { RenderHead(version, code, reason, fields) }

    ghost predicate Ok() {
      && StartsWith(version, "HTTP/") && LineFree(version) && ' ' !in version && LineFree(reason)
      && code <= MAX_U16 && (forall f :: f in fields ==> FieldOk(f))
      && |Text()| <= MAX_RESPONSE_HEADER_BYTES
    }

    predicate IsInterim() { 100 <= code < 200 }

    predicate WithoutContent() { 204 <= code <= 205 || code == 304 }
  }

  /** The fields say how long the payload is. */
  ghost predicate Announced(h: Written, payload: Payload, headRequest: bool) {
    match payload
    case Empty => headRequest || h.WithoutContent() || FirstLength(h.fields) == Some(0)
    case Counted(bytes) =>
      && !headRequest && !h.WithoutContent() && bytes != ""
      && FirstLength(h.fields) == Some(|bytes|) && !SaysChunked(h.fields)
    case Chunks(lines) =>
      && !headRequest && !h.WithoutContent() && SaysChunked(h.fields) && FirstLength(h.fields).None?
      && lines != [] && (forall l :: l in lines ==> Plain(l)) && lines[|lines| - 1] == "0"
  }

  /** What is read back of a written head. */
  lemma WrittenHeadIsRead(h: Written)
    requires h.Ok()
    ensures
      var p := ParseHead(h.Text());
      && Heading(h.Text()) && p.status == Some(h.code) && p.length == FirstLength(h.fields)
      && (p.chunked <==> SaysChunked(h.fields))
  {
    hide ParseHead, Heading, FirstLength, SaysChunked;
    HeadLinesAreLineFree(h.version, h.code, h.reason, h.fields);
    RenderedHeadIsHeading([StatusLine(h.version, h.code, h.reason)] + FieldLines(h.fields));
    StatusIsReadBack(h.version, h.code, h.reason, h.fields);
    LengthIsReadBack(h.version, h.code, h.reason, h.fields);
    ChunkingIsReadBack(h.version, h.code, h.reason, h.fields);
  }

  function HeadTexts(heads: seq<Written>): (r: seq<string>)
    ensures |r| == |heads| && forall k :: 0 <= k < |r| ==> r[k] == heads[k].Text()
  {
    seq(|heads|, k requires 0 <= k < |heads| => heads[k].Text())
  }

  function ResponseOf(interim: seq<Written>, h: Written, payload: Payload): Response {
    Response(HeadTexts(interim), h.Text(), payload)
  }

  lemma WrittenResponseIsFramed(interim: seq<Written>, h: Written, payload: Payload, headRequest: bool)
    requires (forall x :: x in interim ==> x.Ok() && x.IsInterim()) && h.Ok() && !h.IsInterim()
    requires Announced(h, payload, headRequest)
    ensures Framed(ResponseOf(interim, h, payload), headRequest)
  {
    hide ParseHead, Heading, FirstLength, SaysChunked;
    WrittenHeadIsRead(h);
    var r := ResponseOf(interim, h, payload);
    forall x | x in r.interim ensures InterimOk(x) {
      var k :| 0 <= k < |interim| && x == interim[k].Text();
      assert interim[k] in interim;
      WrittenHeadIsRead(interim[k]);
    }
  }

  /** Whatever interim heads, head fields and payload a server writes, the payload being as
      announced: in any splits and at any times the tracker ends the response at exactly
      its last byte. */
  lemma WrittenResponseEndsAtItsLastByte(
      w: Wire, interim: seq<Written>, h: Written, payload: Payload, s: seq<Timed>, n: nat, p: Policy)
    requires Fresh(w) && (forall x :: x in interim ==> x.Ok() && x.IsInterim()) && h.Ok() && !h.IsInterim()
    requires Announced(h, payload, w.conn.head)
    requires Bytes(s) == Render(ResponseOf(interim, h, payload)) && n <= |s|
    ensures
      var r := ResponseOf(interim, h, payload);
      Feed(w, s, p) == Wire("", None, None, RESET, Returned(w.conn, ReturnsStream(r, w.conn.head)))
    ensures n < |s| ==> Kept(w.conn, Feed(w, s[..n], p).conn)
  {
    hide Framed, Announced, Feed, Render, ParseHead;
    WrittenResponseIsFramed(interim, h, payload, w.conn.head);
    ResponseEndsAtItsLastByte(w, ResponseOf(interim, h, payload), s, n, p);
  }

  lemma LengthField(n: nat)
    requires n <= MAX_USIZE
    ensures
      var f := Field("content-length", Decimal(n));
      FieldOk(f) && FirstLength([f]) == Some(n) && !SaysChunked([f])
  {
    hide ParseNumber, Trim, Contains, Decimal, Value, IsDigit;
    var f := Field("content-length", Decimal(n));
    assert Lower("content-length") == "content-length";
    LengthIsNoChunking(f);
    LengthIsParsed(n);
    NoLineEndInDigits(f.value);
  }

  lemma LengthIsNoChunking(f: Field)
    requires |f.name| == 14
    ensures !SaysChunked([f])
  {
    hide Contains;
    assert |Lower(f.name)| != |"transfer-encoding"|;
  }

  lemma LengthIsParsed(n: nat)
    requires n <= MAX_USIZE
    ensures FirstLength([Field("content-length", Decimal(n))]) == Some(n)
  {
    hide ParseNumber, Trim, Decimal, Value, IsDigit;
    var f := Field("content-length", Decimal(n));
    assert Lower("content-length") == "content-length";
    DigitsSurvive(f.value);
    DigitsParse(n, MAX_USIZE);
    assert [f][1..] == [];
  }

  lemma NoLineEndInDigits(s: string)
    requires forall c :: c in s ==> IsDigit(c)
    ensures LineFree(s)
  {
  }

  function Power10(d: nat): nat { if d == 0 then 1 else 10 * Power10(d - 1) }

  lemma {:induction false} DecimalFits(n: nat, d: nat)
    requires 0 < d && n < Power10(d)
    ensures |Decimal(n)| <= d
    decreases d
  {
    if n >= 10 {
      assert d > 1;
      DecimalFits(n / 10, d - 1);
    }
  }

  lemma UsizeHasTwentyDigits(n: nat)
    requires n <= MAX_USIZE
    ensures |Decimal(n)| <= 20
  {
    hide Decimal;
    assert Power10(5) == 10_0000;
    assert Power10(10) == 100_0000_0000;
    assert Power10(15) == 1000_0000_0000_0000;
    assert Power10(20) == 1_0000_0000_0000_0000_0000;
    DecimalFits(n, 20);
  }

  /** A plain head with the count of the bytes behind it. */
  function PlainHead(count: nat): Written {
    Written("HTTP/1.1", 200, "OK", [Field("content-length", Decimal(count))])
  }

  /** There is such a response for any bytes. */
  lemma AnyBytesCanBeAnnounced(bytes: string)
    requires bytes != "" && |bytes| <= MAX_USIZE
    ensures PlainHead(|bytes|).Ok() && Announced(PlainHead(|bytes|), Counted(bytes), false)
  {
    hide FirstLength, SaysChunked, Decimal, FieldOk, RenderHead;
    LengthField(|bytes|);
    PlainHeadFits(|bytes|);
    assert "HTTP/1.1"[..5] == "HTTP/";
  }

  lemma PlainHeadFits(count: nat)
    requires count <= MAX_USIZE
    ensures |PlainHead(count).Text()| <= MAX_RESPONSE_HEADER_BYTES
  {
    hide Decimal, Encoded;
    var f := PlainHead(count).fields[0];
    var status := StatusLine("HTTP/1.1", 200, "OK");
    UsizeHasTwentyDigits(count);
    UsizeHasTwentyDigits(200);
    assert [status] + FieldLines([f]) == [status, f.Line()];
    TwoLines(status, f.Line());
    assert |status| == |Decimal(200)| + 12 && |f.Line()| == |Decimal(count)| + 15;
  }

  lemma TwoLines(a: string, b: string)
    ensures |Encoded([a, b])| == |a| + |b| + 6
  {
    assert [a, b][1..] == [b] && [b][1..] == [];
    assert Encoded([b]) == b + "\r\n" + Encoded([]);
  }
}
