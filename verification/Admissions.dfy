/** Requests on a kept-alive connection: what each takes on admission, what its handler
    gives back, and what is left to the end of its response on the wire. */
module Admissions {
  import opened HttpHeads
  import opened HttpWire
  import opened Options
  import opened Texts

  /** A request that came as far as admission: whether it found a permit free, and its key
      among the requests of other connections. */
  datatype Asked = Asked(stream: bool, id: nat, deadline: nat, head: bool, free: bool, known: bool)

  datatype Verdict = Admitted | Unavailable | Conflict

  function Admit(c: Conn, q: Asked): (Conn, Verdict) {
    if !q.free || (if q.stream then c.stream else c.ordinary) then (c, Unavailable)
    else
      var c1 := if q.stream then c.(stream := true) else c.(ordinary := true);
      if q.known || c.active.Some? then (c1.(ordinary := false, stream := false), Conflict)
      else (c1.(active := Some(q.id), deadline := Some(q.deadline), head := q.head), Admitted)
  }

  /** The handler gives permits and request back itself, except with an event stream. */
  function Handled(c: Conn, id: nat, sse: bool): Conn {
    if sse then c else FinishRequest(c, Some(id)).(ordinary := false, stream := false)
  }

  /** One request and its response; without `asked` it was answered before admission. */
  datatype Turn = Turn(asked: Option<Asked>, sse: bool, response: Response, bytes: seq<Timed>)

  /** The connection when the response goes out. */
  function Responding(c: Conn, t: Turn): Conn {
    if t.asked.None? then c
    else
      var (c1, v) := Admit(c, t.asked.value);
      if v.Admitted? then Handled(c1, t.asked.value.id, t.sse) else c1
  }

  function ServeTurns(w: Wire, turns: seq<Turn>, p: Policy): Wire {
    if turns == [] then w
    else
      var before, t := ServeTurns(w, turns[..|turns| - 1], p), turns[|turns| - 1];
      Feed(before.(conn := Responding(before.conn, t)), t.bytes, p)
  }

  const IDLE := Conn(false, false, None, false, None)
  const START := Wire("", None, None, RESET, IDLE)

  function ExpectedVerdict(q: Asked): Verdict {
    if !q.free then Unavailable else if q.known then Conflict else Admitted
  }

  /** The response is framed for its request, and what the handler takes for an event stream
      says so in its head. */
  ghost predicate TurnOk(t: Turn) {
    && Framed(t.response, Responding(IDLE, t).head)
    && Bytes(t.bytes) == Render(t.response)
    && (t.sse ==> ParseHead(t.response.head).sse)
  }

  /** On an idle connection nothing but the permits at large and other connections'
      requests decides. */
  lemma IdleConnectionAdmits(q: Asked)
    ensures Admit(IDLE, q).1 == ExpectedVerdict(q)
    ensures Admit(IDLE, q).1.Admitted? || Admit(IDLE, q).0 == IDLE
  {
  }

  lemma TurnLeavesIdle(w: Wire, t: Turn, p: Policy)
    requires w == START && TurnOk(t)
    ensures Feed(w.(conn := Responding(w.conn, t)), t.bytes, p) == START
  {
    hide Feed, Framed, Render, ParseHead, Bytes;
    var c := Responding(IDLE, t);
    ResponseEndsAtItsLastByte(w.(conn := c), t.response, t.bytes, 0, p);
    assert c.stream ==> ReturnsStream(t.response, c.head);
  }

  /** Over every run of requests, admitted, refused or answered before, the connection is
      idle after each response: nothing an earlier request took makes a later one fail. Each
      is admitted exactly if a permit is free and its key not in use elsewhere. */
  lemma {:induction false} EveryRequestFindsAnIdleConnection(turns: seq<Turn>, k: nat, p: Policy)
    requires k <= |turns| && forall t :: t in turns ==> TurnOk(t)
    ensures ServeTurns(START, turns[..k], p) == START
    ensures k < |turns| && turns[k].asked.Some? ==>
              Admit(ServeTurns(START, turns[..k], p).conn, turns[k].asked.value).1 == ExpectedVerdict(turns[k].asked.value)
    decreases k
  {
    hide TurnOk, Feed, Responding, Admit;
    if k > 0 {
      EveryRequestFindsAnIdleConnection(turns, k - 1, p);
      assert turns[..k][..k - 1] == turns[..k - 1];
      TurnLeavesIdle(START, turns[k - 1], p);
    }
    if k < |turns| && turns[k].asked.Some? { IdleConnectionAdmits(turns[k].asked.value); }
  }

  /** An admitted event stream holds its permit and its request up to its last byte, any
      other response not even at its first. */
  lemma EventStreamHoldsItsPermit(turns: seq<Turn>, k: nat, n: nat, p: Policy)
    requires k < |turns| && (forall t :: t in turns ==> TurnOk(t)) && n < |turns[k].bytes|
    requires turns[k].asked.Some? && ExpectedVerdict(turns[k].asked.value).Admitted?
    ensures
      var before, t, q := ServeTurns(START, turns[..k], p), turns[k], turns[k].asked.value;
      var during := Feed(before.(conn := Responding(before.conn, t)), t.bytes[..n], p).conn;
      && (if q.stream then during.stream else during.ordinary) == t.sse
      && during.active == (if t.sse then Some(q.id) else None)
  {
    hide Feed, Framed, Render, ParseHead, Bytes, ServeTurns;
    EveryRequestFindsAnIdleConnection(turns, k, p);
    var t := turns[k];
    assert TurnOk(t);
    ResponseEndsAtItsLastByte(START.(conn := Responding(IDLE, t)), t.response, t.bytes, n, p);
  }
}
