/** The connection's state and the tracker, with the fields their methods update. */
module HttpWireStates {
  import A = Admissions
  import opened HttpHeads
  import opened HttpWire
  import opened Options
  import opened Texts

  class ConnectionState {
    var ordinary: bool
    var stream: bool
    var deadline: Option<nat>
    var head: bool
    var active: Option<nat>

    function View(): Conn
      reads this
    {
      Conn(ordinary, stream, deadline, head, active)
    }

    constructor ()
      ensures View() == Conn(false, false, None, false, None)
    {
      ordinary, stream, deadline, head, active := false, false, None, false, None;
    }

    /** Refused while a permit is held. */
    method RetainOrdinary() returns (ok: bool)
      modifies this`ordinary
      ensures ordinary && ok == !old(ordinary)
    {
      ok := !ordinary;
      ordinary := true;
    }

    method RetainStream() returns (ok: bool)
      modifies this`stream
      ensures stream && ok == !old(stream)
    {
      ok := !stream;
      stream := true;
    }

    /** Refused while a request is active, which then stays. */
    method RetainRequest(id: nat) returns (ok: bool)
      modifies this`active
      ensures ok == old(active).None? && active == if ok then Some(id) else old(active)
    {
      ok := active.None?;
      if ok {
        active := Some(id);
      }
    }

    method Finish(id: Option<nat>)
      modifies this`active
      ensures View() == FinishRequest(old(View()), id)
    {
      if id.Some? && active == id {
        active := None;
      }
    }

    /** Taking a permit and registering the request; refused, it gives both permits back. */
    method Admit(q: A.Asked) returns (v: A.Verdict)
      modifies this
      ensures (View(), v) == A.Admit(old(View()), q)
    {
      if !q.free {
        return A.Unavailable;
      }
      var kept;
      if q.stream {
        kept := RetainStream();
      } else {
        kept := RetainOrdinary();
      }
      if !kept {
        return A.Unavailable;
      }
      var registered := false;
      if !q.known {
        registered := RetainRequest(q.id);
      }
      if !registered {
        ordinary, stream := false, false;
        return A.Conflict;
      }
      deadline, head := Some(q.deadline), q.head;
      return A.Admitted;
    }

    /** A response that is no event stream gives permits and request back at once. */
    method HandOver(id: nat, sse: bool)
      modifies this
      ensures View() == A.Handled(old(View()), id, sse)
    {
      if !sse {
        Finish(Some(id));
        ordinary, stream := false, false;
      }
    }

    method Release(alsoStream: bool)
      modifies this`ordinary, this`stream, this`deadline, this`head
      ensures View() == ReleaseAll(old(View()), alsoStream)
    {
      if alsoStream {
        stream := false;
      }
      ordinary := false;
      deadline := None;
      head := false;
    }
  }

  class SseWireTracker {
    var headers: string
    var body: Option<Body>
    var watchdog: Option<Watchdog>
    var line: Scanner

    function View(connection: ConnectionState): Wire
      reads this, connection
    {
      Wire(headers, body, watchdog, line, connection.View())
    }

    constructor ()
      ensures headers == "" && body.None? && watchdog.None? && line == RESET
    {
      headers, body, watchdog, line := "", None, None, RESET;
    }

    method Begin(now: nat, connection: ConnectionState, policy: Policy)
      modifies this, connection
      ensures View(connection) == BeginResponse(old(View(connection)), old(headers), now, policy)
    {
      hide ParseHead;
      var h := ParseHead(headers);
      headers := "";
      if h.Interim() {
        return;
      }
      if connection.head || h.NoContent() {
        connection.Finish(connection.active);
        connection.Release(true);
        body, watchdog, line := None, None, RESET;
        return;
      }
      var watching := connection.View();
      if h.sse {
        watchdog := StreamWatch(watching, now, policy);
      } else {
        connection.deadline := None;
      }
      body := Some(Body(h.sse, h.length, h.chunked, 0, "", connection.active));
      if h.length == Some(0) {
        connection.Finish(connection.active);
        connection.Release(h.sse);
        body, watchdog := None, None;
      }
    }

    method FinishBody(connection: ConnectionState)
      requires body.Some?
      modifies this, connection
      ensures View(connection) == FinishResponse(old(View(connection)))
    {
      var b := body.value;
      body := None;
      connection.Finish(b.request);
      watchdog, line := None, RESET;
      connection.Release(b.sse);
    }

    method ObserveLine(c: char, now: nat)
      modifies this`line, this`watchdog
      ensures line == Scan(old(line), c) && watchdog == Watch(old(watchdog), old(line), c, now)
    {
      if c == '\n' {
        if line.isData && watchdog.Some? {
          watchdog := Some(watchdog.value.(lastEvent := now));
        }
        line := RESET;
        return;
      }
      if line.matching {
        if line.matched < |DATA| && DATA[line.matched] == c {
          line := Scanner(line.matched + 1, true, line.matched + 1 == |DATA|);
        } else {
          line := line.(matching := false);
        }
      }
    }

    method ObserveByte(c: char, now: nat, connection: ConnectionState, policy: Policy)
      modifies this, connection
      ensures View(connection) == OneByte(old(View(connection)), Timed(c, now), policy)
    {
      hide ParseHead;
      if body.None? {
        if |headers| == MAX_RESPONSE_HEADER_BYTES {
          headers := "";
        }
        headers := headers + [c];
        if EndsWith(headers, BREAK) {
          Begin(now, connection, policy);
        }
        return;
      }
      var b := body.value;
      if b.sse {
        ObserveLine(c, now);
      }
      b := b.(written := b.written + 1);
      if b.chunked {
        b := b.(tail := PushTail(b.tail, c));
      }
      body := Some(b);
      if Ended(b) {
        FinishBody(connection);
      }
    }

    method Observe(bytes: string, now: nat, connection: ConnectionState, policy: Policy)
      modifies this, connection
      ensures View(connection) == Feed(old(View(connection)), Stamp(bytes, now), policy)
    {
      hide OneByte;
      ghost var all := Stamp(bytes, now);
      var i := 0;
      while i < |bytes|
        invariant 0 <= i <= |bytes|
        invariant View(connection) == Feed(old(View(connection)), all[..i], policy)
      {
        ObserveByte(bytes[i], now, connection, policy);
        FeedStep(old(View(connection)), all, i, policy);
        i := i + 1;
      }
      assert all[..i] == all;
    }
  }
}
