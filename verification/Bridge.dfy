/** The connection state the lock sections share, each section as a function, and the
    class whose fields the sections update. */
module Bridge {
  import opened Options

  /** `Connecting` and `Connected` carry the attempt's token, its generation. */
  datatype Phase = Disconnected | Connecting(token: nat) | Connected(token: nat)

  datatype Event = CameUp(token: nat) | WentDown(token: nat)

  /** What is left of a section once the current generation is set: the session to
      publish, the attempt to register or cancel, and the event to emit. */
  datatype Rest = Rest(lease: Option<nat>, begin: Option<nat>, cancel: Option<nat>, due: seq<Event>)

  datatype Shared = Shared(
    phase: Phase,
    current: Option<nat>,
    session: Option<nat>,
    attempt: Option<nat>,
    cancelled: set<nat>,
    events: seq<Event>,
    mid: Option<Rest>)

  function Lease(p: Phase): Option<nat> { if p.Connected? then Some(p.token) else None }

  predicate Owns(p: Phase, t: nat) { p == Connecting(t) || p == Connected(t) }

  function CancelAttempt(s: Shared, t: nat): Shared {
    if s.attempt == Some(t) then s.(attempt := None, cancelled := s.cancelled + {t}) else s
  }

  function FinishAttempt(s: Shared, t: nat): Shared {
    if s.attempt == Some(t) then s.(attempt := None) else s
  }

  /** First half of a section that changes the phase: the phase and, under its own
      lock, the current generation. */
  function Publish(s: Shared, p: Phase, begin: Option<nat>, cancel: Option<nat>, due: seq<Event>): Shared {
    s.(phase := p, current := Lease(p), mid := Some(Rest(Lease(p), begin, cancel, due)))
  }

  /** Second half: the session is sent, the attempt registered or cancelled, the event
      emitted, and the locks are released. */
  function Release(s: Shared): Shared
    requires s.mid.Some?
  {
    var r := s.mid.value;
    var s1 := s.(session := r.lease, mid := None, events := s.events + r.due);
    var s2 := if r.begin.Some? then s1.(attempt := r.begin) else s1;
    if r.cancel.Some? then CancelAttempt(s2, r.cancel.value) else s2
  }

  function EnterConnect(s: Shared, t: nat): (Shared, bool) {
    if s.phase.Disconnected? then (Publish(s, Connecting(t), Some(t), None, []), true) else (s, false)
  }

  /** The old connection is handed to the caller to tear down. */
  function EnterReconnect(s: Shared, t: nat): (Shared, Option<nat>) {
    if s.phase.Connected? then
      (Publish(CancelAttempt(s, s.phase.token), Connecting(t), Some(t), None, []), Some(s.phase.token))
    else (s, None)
  }

  function Commit(s: Shared, t: nat): (Shared, bool) {
    if s.phase == Connecting(t) then (Publish(s, Connected(t), None, None, [CameUp(t)]), true) else (s, false)
  }

  function ResetConnecting(s: Shared, t: nat): (Shared, bool) {
    if s.phase == Connecting(t) then (Publish(s, Disconnected, None, None, []), true) else (s, false)
  }

  function RelayClosed(s: Shared, t: nat): (Shared, bool) {
    if Owns(s.phase, t) then (Publish(s, Disconnected, None, Some(t), [WentDown(t)]), true) else (s, false)
  }

  function TakePhase(s: Shared): Shared { Publish(s, Disconnected, None, None, []) }

  class BridgeState {
    var phase: Phase
    var current: Option<nat>
    var session: Option<nat>
    var attempt: Option<nat>
    var cancelled: set<nat>
    var events: seq<Event>

    function View(): Shared
      reads this
    {
      Shared(phase, current, session, attempt, cancelled, events, None)
    }

    /** At every release of the phase lock the published lease is that of the phase. */
    predicate Consistent()
      reads this
    {
      current == Lease(phase) && session == Lease(phase)
    }

    constructor ()
      ensures Consistent() && phase.Disconnected? && attempt.None? && cancelled == {} && events == []
    {
      phase, current, session, attempt, cancelled, events := Disconnected, None, None, None, {}, [];
    }

    method PublishSession(lease: Option<nat>)
      modifies this`current, this`session
      ensures current == lease && session == lease
    {
      current := lease;
      session := lease;
    }

    method Cancel(t: nat)
      modifies this`attempt, this`cancelled
      ensures View() == CancelAttempt(old(View()), t)
    {
      if attempt == Some(t) {
        attempt, cancelled := None, cancelled + {t};
      }
    }

    method Finish(t: nat)
      modifies this`attempt
      ensures View() == FinishAttempt(old(View()), t)
    {
      if attempt == Some(t) {
        attempt := None;
      }
    }

    method BeginConnect(t: nat) returns (entered: bool)
      modifies this
      ensures
        var (s, ok) := EnterConnect(old(View()), t);
        entered == ok && View() == if ok then Release(s) else s
      ensures old(Consistent()) ==> Consistent()
    {
      if !phase.Disconnected? {
        return false;
      }
      phase := Connecting(t);
      PublishSession(None);
      attempt := Some(t);
      return true;
    }

    method BeginReconnect(t: nat) returns (taken: Option<nat>)
      modifies this
      ensures
        var (s, conn) := EnterReconnect(old(View()), t);
        taken == conn && View() == if conn.Some? then Release(s) else s
      ensures old(Consistent()) ==> Consistent()
    {
      if !phase.Connected? {
        return None;
      }
      taken := Some(phase.token);
      phase := Connecting(t);
      Cancel(taken.value);
      PublishSession(None);
      attempt := Some(t);
    }

    method TryCommit(t: nat) returns (committed: bool)
      modifies this
      ensures
        var (s, ok) := Commit(old(View()), t);
        committed == ok && View() == if ok then Release(s) else s
      ensures old(Consistent()) ==> Consistent()
    {
      if phase != Connecting(t) {
        return false;
      }
      phase := Connected(t);
      PublishSession(Some(t));
      events := events + [CameUp(t)];
      return true;
    }

    method ResetAttempt(t: nat) returns (reset: bool)
      modifies this
      ensures
        var (s, ok) := ResetConnecting(old(View()), t);
        reset == ok && View() == if ok then Release(s) else s
      ensures old(Consistent()) ==> Consistent()
    {
      if phase != Connecting(t) {
        return false;
      }
      phase := Disconnected;
      PublishSession(None);
      return true;
    }

    method RelayEnded(t: nat) returns (reset: bool)
      modifies this
      ensures
        var (s, ok) := RelayClosed(old(View()), t);
        reset == ok && View() == if ok then Release(s) else s
      ensures old(Consistent()) ==> Consistent()
    {
      if !Owns(phase, t) {
        return false;
      }
      phase := Disconnected;
      PublishSession(None);
      Cancel(t);
      events := events + [WentDown(t)];
      return true;
    }

    method Take() returns (taken: Phase)
      modifies this
      ensures taken == old(phase) && View() == Release(TakePhase(old(View())))
      ensures Consistent()
    {
      taken := phase;
      phase := Disconnected;
      PublishSession(None);
    }
  }
}
