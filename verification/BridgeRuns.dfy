/** Every interleaving of connects, reconnects, disconnects, shutdowns and relay closes.
    One step is one lock section, one half of a section that publishes a session, or one
    stretch of I/O without a lock. A step whose guard fails changes nothing. */
module BridgeRuns {
  import opened Bridge
  import opened Options

  /** How far one connect or reconnect call has come. */
  datatype Flow =
    | Drawn(reconnect: bool)
    | TearingOld(conn: nat)
    | Dialing
    | Setup
    | Subscribing
    | AwaitingLogs
    | TearingPartial
    | Ready
    | ReadyFinished
    | Failing
    | FailingFinished
    | Rejected
    | Ended

  /** A disconnect or shutdown after its lock section: the attempt it has still to
      cancel and the connection it has still to tear down. */
  datatype Task = Task(cancel: Option<nat>, conn: Option<nat>)

  /** `relays` are the relay tasks that have not ended; `dials` the dispatchers that
      neither ended nor were shut down. */
  datatype System = System(
    sh: Shared,
    next: nat,
    flows: map<nat, Flow>,
    tasks: map<nat, Task>,
    relays: set<nat>,
    dials: set<nat>)

  datatype Step =
    | Draw(reconnect: bool)
    | Enter(t: nat)
    | OldTornDown(t: nat)
    | Dialed(t: nat, ok: bool)
    | SetUp(t: nat, ok: bool)
    | CheckPhase(t: nat)
    | Subscribed(t: nat, ok: bool)
    | PartialTornDown(t: nat)
    | Finished(t: nat)
    | Decide(t: nat)
    | FailReset(t: nat)
    | RejectedTornDown(t: nat)
    | DispatcherEnds(t: nat)
    | RelayCloses(t: nat)
    | Disconnect(i: nat)
    | DisconnectCancels(i: nat)
    | DisconnectTornDown(i: nat)
    | CompletePublish

  function Start(): System {
    System(Shared(Disconnected, None, None, None, {}, [], None), 0, map[], map[], {}, {})
  }

  predicate In(s: System, t: nat, f: Flow) { t in s.flows && s.flows[t] == f }

  function With(s: System, t: nat, f: Flow): System { s.(flows := s.flows[t := f]) }

  function Drop(s: System, t: nat): System { s.(relays := s.relays - {t}, dials := s.dials - {t}) }

  function TokenOf(p: Phase): Option<nat> { if p.Disconnected? then None else Some(p.token) }

  function ApplyEnter(s: System, t: nat): System {
    if !(t in s.flows && s.flows[t].Drawn? && s.sh.mid.None?) then s
    else if s.flows[t].reconnect then
      var (sh, conn) := EnterReconnect(s.sh, t);
      With(s.(sh := sh), t, if conn.Some? then TearingOld(conn.value) else Ended)
    else
      var (sh, ok) := EnterConnect(s.sh, t);
      With(s.(sh := sh), t, if ok then Dialing else Ended)
  }

  function ApplyDialed(s: System, t: nat, ok: bool): System {
    if !In(s, t, Dialing) then s
    else if ok && t !in s.sh.cancelled then
      With(s.(relays := s.relays + {t}, dials := s.dials + {t}), t, Setup)
    else With(s, t, Failing)
  }

  function ApplyFinished(s: System, t: nat): System {
    if In(s, t, Ready) then With(s.(sh := FinishAttempt(s.sh, t)), t, ReadyFinished)
    else if In(s, t, Failing) then With(s.(sh := FinishAttempt(s.sh, t)), t, FailingFinished)
    else s
  }

  function ApplyDisconnect(s: System, i: nat): System {
    if i in s.tasks || s.sh.mid.Some? then s
    else s.(sh := TakePhase(s.sh), tasks := s.tasks[i := Task(TokenOf(s.sh.phase), Lease(s.sh.phase))])
  }

  function ApplyDisconnectCancels(s: System, i: nat): System {
    if i in s.tasks && s.tasks[i].cancel.Some? then
      s.(sh := CancelAttempt(s.sh, s.tasks[i].cancel.value), tasks := s.tasks[i := s.tasks[i].(cancel := None)])
    else s
  }

  function ApplyDisconnectTornDown(s: System, i: nat): System {
    if i in s.tasks && s.tasks[i].cancel.None? && s.tasks[i].conn.Some? then
      Drop(s, s.tasks[i].conn.value).(tasks := s.tasks[i := s.tasks[i].(conn := None)])
    else s
  }

  function Apply(s: System, e: Step): System {
    match e
    case Draw(r) => With(s, s.next, Drawn(r)).(next := s.next + 1)
    case Enter(t) => ApplyEnter(s, t)
    case OldTornDown(t) =>
      if t in s.flows && s.flows[t].TearingOld? then With(Drop(s, s.flows[t].conn), t, Dialing) else s
    case Dialed(t, ok) => ApplyDialed(s, t, ok)
    case SetUp(t, ok) =>
      if In(s, t, Setup) then With(s, t, if ok && t !in s.sh.cancelled then Subscribing else TearingPartial) else s
    case CheckPhase(t) =>
      if In(s, t, Subscribing) && s.sh.mid.None? then
        With(s, t, if Owns(s.sh.phase, t) then AwaitingLogs else TearingPartial)
      else s
    case Subscribed(t, ok) =>
      if In(s, t, AwaitingLogs) then With(s, t, if ok then Ready else TearingPartial) else s
    case PartialTornDown(t) => if In(s, t, TearingPartial) then With(Drop(s, t), t, Failing) else s
    case Finished(t) => ApplyFinished(s, t)
    case Decide(t) =>
      if In(s, t, ReadyFinished) && s.sh.mid.None? then
        var (sh, ok) := Commit(s.sh, t);
        With(s.(sh := sh), t, if ok then Ended else Rejected)
      else s
    case FailReset(t) =>
      if In(s, t, FailingFinished) && s.sh.mid.None? then With(s.(sh := ResetConnecting(s.sh, t).0), t, Ended) else s
    case RejectedTornDown(t) => if In(s, t, Rejected) then With(Drop(s, t), t, Ended) else s
    case DispatcherEnds(t) => s.(dials := s.dials - {t})
    case RelayCloses(t) =>
      if t in s.relays && t !in s.dials && s.sh.mid.None? then
        s.(sh := RelayClosed(s.sh, t).0, relays := s.relays - {t})
      else s
    case Disconnect(i) => ApplyDisconnect(s, i)
    case DisconnectCancels(i) => ApplyDisconnectCancels(s, i)
    case DisconnectTornDown(i) => ApplyDisconnectTornDown(s, i)
    case CompletePublish => if s.sh.mid.Some? then s.(sh := Release(s.sh)) else s
  }

  function Run(s: System, steps: seq<Step>): System
    decreases |steps|
  {
    if steps == [] then s else Run(Apply(s, steps[0]), steps[1..])
  }

  // ---- what every step keeps ----

  /** Between the lock sections the lease, the current generation and the phase agree;
      inside one the generation is already the new phase's, the lease follows. */
  predicate Published(sh: Shared) {
    && sh.current == Lease(sh.phase)
    && (if sh.mid.Some? then sh.mid.value.lease == sh.current else sh.session == sh.current)
  }

  predicate Attempting(f: Flow) {
    !f.Drawn? && !f.Rejected? && !f.Ended?
  }

  /** The flow owns a relay and a dispatcher it created itself. */
  predicate Carries(f: Flow) {
    f.Setup? || f.Subscribing? || f.AwaitingLogs? || f.TearingPartial? || f.Ready? || f.ReadyFinished? || f.Rejected?
  }

  predicate PhaseIsOwned(s: System) {
    match s.sh.phase
    case Disconnected => true
    case Connecting(t) =>
      && t in s.flows && Attempting(s.flows[t])
      && (Carries(s.flows[t]) && !s.flows[t].TearingPartial? ==> t in s.relays)
    case Connected(t) => In(s, t, Ended) && t in s.relays
  }

  ghost predicate TakenFromPhase(s: System, g: nat) {
    || (exists t :: t in s.flows && s.flows[t] == TearingOld(g))
    || (exists i :: i in s.tasks && s.tasks[i].conn == Some(g))
  }

  /** A connection taken out of the phase to be torn down has left it for good. */
  ghost predicate TakenIsGone(s: System) {
    && (forall t :: t in s.flows && s.flows[t].TearingOld? ==>
          In(s, s.flows[t].conn, Ended) && !Owns(s.sh.phase, s.flows[t].conn))
    && (forall i :: i in s.tasks && s.tasks[i].conn.Some? ==>
          In(s, s.tasks[i].conn.value, Ended) && !Owns(s.sh.phase, s.tasks[i].conn.value))
  }

  ghost predicate Held(s: System, t: nat) {
    t in s.flows && (Carries(s.flows[t]) || s.sh.phase == Connected(t) || TakenFromPhase(s, t))
  }

  ghost predicate AllHeld(s: System) {
    s.dials <= s.relays && forall t :: t in s.relays ==> Held(s, t)
  }

  predicate TokensDrawn(s: System) { forall t :: t in s.flows ==> t < s.next }

  ghost predicate Inv(s: System) {
    && Published(s.sh)
    && TokensDrawn(s)
    && PhaseIsOwned(s)
    && TakenIsGone(s)
    && AllHeld(s)
  }

  predicate FlowStep(e: Step) {
    e.SetUp? || e.CheckPhase? || e.Subscribed?
  }

  lemma WitnessesStay(s: System, s': System, g: nat)
    requires TakenFromPhase(s, g)
    requires forall t :: t in s.flows && s.flows[t] == TearingOld(g) ==> t in s'.flows && s'.flows[t] == s.flows[t]
    requires forall i :: i in s.tasks && s.tasks[i].conn == Some(g) ==> i in s'.tasks && s'.tasks[i].conn == s.tasks[i].conn
    ensures TakenFromPhase(s', g)
  {
    if t :| t in s.flows && s.flows[t] == TearingOld(g) {
      assert s'.flows[t] == TearingOld(g);
    } else {
      var i :| i in s.tasks && s.tasks[i].conn == Some(g);
      assert s'.tasks[i].conn == Some(g);
    }
  }

  /** The step moves a flow along and leaves the phase and the relays alone. */
  lemma MovingAFlowKeepsInv(s: System, t: nat, f: Flow)
    requires Inv(s) && t in s.flows
    requires !s.flows[t].TearingOld? && !f.TearingOld?
    requires Attempting(s.flows[t]) && Attempting(f)
    requires Carries(s.flows[t]) == Carries(f) && (s.flows[t].TearingPartial? ==> f.TearingPartial?)
    ensures Inv(With(s, t, f))
  {
    var s' := With(s, t, f);
    forall g | g in s'.relays ensures Held(s', g) {
      if TakenFromPhase(s, g) { WitnessesStay(s, s', g); }
    }
  }

  lemma FlowStepKeepsInv(s: System, e: Step)
    requires Inv(s) && FlowStep(e)
    ensures Inv(Apply(s, e))
  {
    hide Inv;
    var s' := Apply(s, e);
    if s' != s {
      MovingAFlowKeepsInv(s, e.t, s'.flows[e.t]);
    }
  }

  lemma DrawKeepsInv(s: System, r: bool)
    requires Inv(s)
    ensures Inv(Apply(s, Draw(r)))
  {
    var s' := Apply(s, Draw(r));
    assert s.next !in s.flows;
    forall g | g in s'.relays ensures Held(s', g) {
      if TakenFromPhase(s, g) { WitnessesStay(s, s', g); }
    }
  }

  lemma DialedKeepsInv(s: System, t: nat, ok: bool)
    requires Inv(s)
    ensures Inv(Apply(s, Dialed(t, ok)))
  {
    var s' := Apply(s, Dialed(t, ok));
    forall g | g in s'.relays ensures Held(s', g) {
      if g in s.relays && TakenFromPhase(s, g) { WitnessesStay(s, s', g); }
    }
  }

  lemma AttemptSlotIsFree(s: System, a: Option<nat>)
    requires Inv(s)
    ensures Inv(s.(sh := s.sh.(attempt := a)))
  {
    var s' := s.(sh := s.sh.(attempt := a));
    forall g | g in s'.relays ensures Held(s', g) {
      if TakenFromPhase(s, g) { WitnessesStay(s, s', g); }
    }
  }

  lemma FinishedKeepsInv(s: System, t: nat)
    requires Inv(s)
    ensures Inv(Apply(s, Finished(t)))
  {
    hide Inv;
    var s' := Apply(s, Finished(t));
    if s' != s {
      MovingAFlowKeepsInv(s, t, s'.flows[t]);
      AttemptSlotIsFree(With(s, t, s'.flows[t]), s'.sh.attempt);
    }
  }

  lemma OldTearKeepsInv(s: System, t: nat)
    requires Inv(s)
    ensures Inv(Apply(s, OldTornDown(t)))
  {
    var s' := Apply(s, OldTornDown(t));
    forall g | g in s'.relays ensures Held(s', g) {
      if TakenFromPhase(s, g) { WitnessesStay(s, s', g); }
    }
  }

  lemma PartialTearKeepsInv(s: System, t: nat)
    requires Inv(s)
    ensures Inv(Apply(s, PartialTornDown(t)))
  {
    var s' := Apply(s, PartialTornDown(t));
    forall g | g in s'.relays ensures Held(s', g) {
      if TakenFromPhase(s, g) { WitnessesStay(s, s', g); }
    }
  }

  lemma RejectedTearKeepsInv(s: System, t: nat)
    requires Inv(s)
    ensures Inv(Apply(s, RejectedTornDown(t)))
  {
    var s' := Apply(s, RejectedTornDown(t));
    forall g | g in s'.relays ensures Held(s', g) {
      if TakenFromPhase(s, g) { WitnessesStay(s, s', g); }
    }
  }

  lemma DisconnectTearKeepsInv(s: System, i: nat)
    requires Inv(s)
    ensures Inv(Apply(s, DisconnectTornDown(i)))
  {
    var s' := Apply(s, DisconnectTornDown(i));
    forall g | g in s'.relays ensures Held(s', g) {
      if TakenFromPhase(s, g) { WitnessesStay(s, s', g); }
    }
  }

  lemma DispatcherEndKeepsInv(s: System, t: nat)
    requires Inv(s)
    ensures Inv(Apply(s, DispatcherEnds(t)))
  {
    var s' := Apply(s, DispatcherEnds(t));
    forall g | g in s'.relays ensures Held(s', g) {
      if TakenFromPhase(s, g) { WitnessesStay(s, s', g); }
    }
  }

  lemma ConnectEntryKeepsInv(s: System, t: nat)
    requires Inv(s) && In(s, t, Drawn(false))
    ensures Inv(Apply(s, Enter(t)))
  {
    var s' := Apply(s, Enter(t));
    forall g | g in s'.relays ensures Held(s', g) {
      if TakenFromPhase(s, g) { WitnessesStay(s, s', g); }
    }
  }

  lemma ReconnectEntryKeepsInv(s: System, t: nat)
    requires Inv(s) && In(s, t, Drawn(true))
    ensures Inv(Apply(s, Enter(t)))
  {
    var s' := Apply(s, Enter(t));
    forall g | g in s'.relays ensures Held(s', g) {
      if s.sh.phase == Connected(g) && s'.sh.phase != s.sh.phase {
        assert s'.flows[t] == TearingOld(g);
      } else if TakenFromPhase(s, g) { WitnessesStay(s, s', g); }
    }
  }

  lemma EnterKeepsInv(s: System, t: nat)
    requires Inv(s)
    ensures Inv(Apply(s, Enter(t)))
  {
    hide Inv;
    if In(s, t, Drawn(false)) { ConnectEntryKeepsInv(s, t); }
    else if In(s, t, Drawn(true)) { ReconnectEntryKeepsInv(s, t); }
  }

  lemma DecideKeepsInv(s: System, t: nat)
    requires Inv(s)
    ensures Inv(Apply(s, Decide(t)))
  {
    var s' := Apply(s, Decide(t));
    forall g | g in s'.relays ensures Held(s', g) {
      if TakenFromPhase(s, g) { WitnessesStay(s, s', g); }
    }
  }

  lemma FailResetKeepsInv(s: System, t: nat)
    requires Inv(s)
    ensures Inv(Apply(s, FailReset(t)))
  {
    var s' := Apply(s, FailReset(t));
    forall g | g in s'.relays ensures Held(s', g) {
      if TakenFromPhase(s, g) { WitnessesStay(s, s', g); }
    }
  }

  lemma RelayCloseKeepsInv(s: System, t: nat)
    requires Inv(s)
    ensures Inv(Apply(s, RelayCloses(t)))
  {
    var s' := Apply(s, RelayCloses(t));
    forall g | g in s'.relays ensures Held(s', g) {
      if TakenFromPhase(s, g) { WitnessesStay(s, s', g); }
    }
  }

  lemma DisconnectKeepsInv(s: System, e: Step)
    requires Inv(s) && (e.Disconnect? || e.DisconnectCancels? || e.CompletePublish?)
    ensures Inv(Apply(s, e))
  {
    var s' := Apply(s, e);
    forall g | g in s'.relays ensures Held(s', g) {
      if e.Disconnect? && s.sh.phase == Connected(g) && s'.sh.phase != s.sh.phase {
        assert s'.tasks[e.i].conn == Some(g);
      } else if TakenFromPhase(s, g) { WitnessesStay(s, s', g); }
    }
  }

  lemma StepKeepsInv(s: System, e: Step)
    requires Inv(s)
    ensures Inv(Apply(s, e))
  {
    hide Inv, Apply;
    if FlowStep(e) { FlowStepKeepsInv(s, e); }
    else if e.OldTornDown? { OldTearKeepsInv(s, e.t); }
    else if e.PartialTornDown? { PartialTearKeepsInv(s, e.t); }
    else if e.RejectedTornDown? { RejectedTearKeepsInv(s, e.t); }
    else if e.DisconnectTornDown? { DisconnectTearKeepsInv(s, e.i); }
    else if e.DispatcherEnds? { DispatcherEndKeepsInv(s, e.t); }
    else if e.Draw? { DrawKeepsInv(s, e.reconnect); }
    else if e.Dialed? { DialedKeepsInv(s, e.t, e.ok); }
    else if e.Finished? { FinishedKeepsInv(s, e.t); }
    else if e.Enter? { EnterKeepsInv(s, e.t); }
    else if e.Decide? { DecideKeepsInv(s, e.t); }
    else if e.FailReset? { FailResetKeepsInv(s, e.t); }
    else if e.RelayCloses? { RelayCloseKeepsInv(s, e.t); }
    else { DisconnectKeepsInv(s, e); }
  }

  lemma {:induction false} RunKeepsInv(s: System, steps: seq<Step>)
    requires Inv(s)
    ensures Inv(Run(s, steps))
    decreases |steps|
  {
    hide Inv, Apply;
    if steps != [] {
      StepKeepsInv(s, steps[0]);
      RunKeepsInv(Apply(s, steps[0]), steps[1..]);
    }
  }

  // ---- the published lease ----

  /** At every release of the phase lock the lease is that of the phase. */
  lemma LeaseIsThatOfThePhase(steps: seq<Step>)
    ensures
      var sh := Run(Start(), steps).sh;
      sh.mid.None? ==> sh.session == sh.current == Lease(sh.phase)
  {
    hide Apply, Run;
    RunKeepsInv(Start(), steps);
  }

  /** The generation is read first, when no section is half done; the session later. */
  function Pin(read: Option<nat>, session: Option<nat>): Option<nat> {
    if session.Some? && session == read then session else None
  }

  /** A pinned lease was connected when the call read the generation; if it is still
      connected when the call returns, it was so at every instant between. */
  lemma PinIsHonest(before: seq<Step>, during: seq<Step>, k: nat)
    requires k <= |during|
    ensures
      var s := Run(Start(), before);
      var now := Run(s, during);
      var got := Pin(s.sh.current, now.sh.session);
      s.sh.mid.None? && got.Some? ==>
        && s.sh.phase == Connected(got.value)
        && (now.sh.phase == Connected(got.value) ==> Run(s, during[..k]).sh.phase == Connected(got.value))
  {
    hide Apply, Run, Inv;
    var s := Run(Start(), before);
    var now := Run(s, during);
    var got := Pin(s.sh.current, now.sh.session);
    StartIsFine();
    RunKeepsInv(Start(), before);
    PublishedInInv(s);
    if s.sh.mid.None? && got.Some? {
      RunSplits(s, during, k);
      TokensNeverComeBack(s, during[..k], got.value);
      RunKeepsInv(s, during[..k]);
      TokensNeverComeBack(Run(s, during[..k]), during[k..], got.value);
      RunKeepsInv(Run(s, during[..k]), during[k..]);
      ConnectedIsStageTwo(s, got.value);
      ConnectedIsStageTwo(Run(s, during[..k]), got.value);
      ConnectedIsStageTwo(now, got.value);
    }
  }

  lemma StartIsFine()
    ensures Inv(Start())
  {}

  lemma PublishedInInv(s: System)
    requires Inv(s)
    ensures Published(s.sh)
  {}

  lemma {:induction false} RunSplits(s: System, steps: seq<Step>, k: nat)
    requires k <= |steps|
    ensures Run(s, steps) == Run(Run(s, steps[..k]), steps[k..])
    decreases k
  {
    hide Apply;
    if k == 0 {
      assert steps[0..] == steps;
    } else {
      RunSplits(Apply(s, steps[0]), steps[1..], k - 1);
      assert steps[..k][0] == steps[0] && steps[..k][1..] == steps[1..][..k - 1] && steps[1..][k - 1..] == steps[k..];
    }
  }

  // ---- no revival ----

  /** 0: not entered, 1: connecting, 2: connected, 3: gone. */
  function Stage(s: System, t: nat): nat {
    if t !in s.flows || s.flows[t].Drawn? then 0
    else if s.sh.phase == Connecting(t) then 1
    else if s.sh.phase == Connected(t) then 2
    else 3
  }

  lemma ConnectedIsStageTwo(s: System, t: nat)
    requires Inv(s)
    ensures s.sh.phase == Connected(t) <==> Stage(s, t) == 2
  {}

  lemma StageNeverDrops(s: System, e: Step, t: nat)
    requires Inv(s)
    ensures Stage(s, t) <= Stage(Apply(s, e), t)
    ensures Stage(s, t) == 0 ==> Stage(Apply(s, e), t) != 2
  {}

  /** A token goes connecting, then at most once connected, then is gone for good, in
      whatever order the drawn tokens enter. */
  lemma {:induction false} TokensNeverComeBack(s: System, steps: seq<Step>, t: nat)
    requires Inv(s)
    ensures Stage(s, t) <= Stage(Run(s, steps), t)
    decreases |steps|
  {
    hide Inv, Apply, Stage;
    if steps != [] {
      StageNeverDrops(s, steps[0], t);
      StepKeepsInv(s, steps[0]);
      TokensNeverComeBack(Apply(s, steps[0]), steps[1..], t);
    }
  }

  /** Commit, failure, relay close, finish and cancel of a token that owns neither the
      phase nor the attempt slot change nothing the others can see. */
  predicate ActsFor(s: System, e: Step, t: nat) {
    || e == Decide(t) || e == FailReset(t) || e == RelayCloses(t) || e == Finished(t)
    || (e.DisconnectCancels? && e.i in s.tasks && s.tasks[e.i].cancel == Some(t))
  }

  lemma StaleStepsChangeNothing(s: System, e: Step, t: nat)
    requires ActsFor(s, e, t) && !Owns(s.sh.phase, t)
    ensures s.sh.attempt != Some(t) ==> Apply(s, e).sh == s.sh
    ensures Apply(s, e).sh.phase == s.sh.phase && Apply(s, e).sh.events == s.sh.events
    ensures Apply(s, e).sh.mid == s.sh.mid
  {}

  predicate BelongsTo(e: Step, t: nat) {
    e.Disconnect? || e == Decide(t) || e == FailReset(t) || e == RelayCloses(t)
  }

  /** An attempt loses the phase only through its own steps, its own relay or a disconnect. */
  lemma {:induction false} OthersLeaveAnAttemptAlone(s: System, steps: seq<Step>, t: nat)
    requires s.sh.phase == Connecting(t)
    requires forall e :: e in steps ==> !BelongsTo(e, t)
    ensures Run(s, steps).sh.phase == Connecting(t)
    decreases |steps|
  {
    if steps != [] {
      assert !BelongsTo(steps[0], t);
      OthersLeaveAnAttemptAlone(Apply(s, steps[0]), steps[1..], t);
    }
  }

  // ---- events ----

  function EventsSoFar(sh: Shared): seq<Event> {
    sh.events + if sh.mid.Some? then sh.mid.value.due else []
  }

  function OfToken(events: seq<Event>, t: nat): seq<Event> {
    if events == [] then []
    else
      var rest := OfToken(events[..|events| - 1], t);
      if events[|events| - 1].token == t then rest + [events[|events| - 1]] else rest
  }

  predicate Fits(events: seq<Event>, stage: nat, t: nat) {
    || (stage < 2 && events == [])
    || (stage == 2 && events == [CameUp(t)])
    || (stage > 2 && (events == [] || events == [CameUp(t)] || events == [WentDown(t)] || events == [CameUp(t), WentDown(t)]))
  }

  /** A step announces at most one event, the one its transition calls for. */
  lemma StepAnnounces(s: System, e: Step)
    requires Inv(s)
    ensures
      var was := EventsSoFar(s.sh);
      var now := EventsSoFar(Apply(s, e).sh);
      || now == was
      || (e.Decide? && now == was + [CameUp(e.t)] && Stage(s, e.t) == 1 && Stage(Apply(s, e), e.t) == 2)
      || (e.RelayCloses? && now == was + [WentDown(e.t)] && 1 <= Stage(s, e.t) <= 2 && Stage(Apply(s, e), e.t) == 3)
  {}

  lemma ConnectedIsAnnounced(s: System, e: Step, t: nat)
    requires Inv(s) && Stage(s, t) < 2 && Stage(Apply(s, e), t) == 2
    ensures e == Decide(t) && EventsSoFar(Apply(s, e).sh) != EventsSoFar(s.sh)
  {}

  lemma EventsStayFit(s: System, e: Step, t: nat)
    requires Inv(s) && Fits(OfToken(EventsSoFar(s.sh), t), Stage(s, t), t)
    ensures Fits(OfToken(EventsSoFar(Apply(s, e).sh), t), Stage(Apply(s, e), t), t)
  {
    hide Apply, Inv, Stage, EventsSoFar;
    StepAnnounces(s, e);
    StageNeverDrops(s, e, t);
    if Stage(s, t) < 2 && Stage(Apply(s, e), t) == 2 { ConnectedIsAnnounced(s, e, t); }
    var was := EventsSoFar(s.sh);
    var now := EventsSoFar(Apply(s, e).sh);
    if now != was {
      assert now[..|now| - 1] == was;
    }
  }

  /** The events of one generation are none, up, down, or up then down, and up has been
      announced exactly when it is connected. */
  lemma {:induction false} EventsOfOneGeneration(s: System, steps: seq<Step>, t: nat)
    requires Inv(s) && Fits(OfToken(EventsSoFar(s.sh), t), Stage(s, t), t)
    ensures Fits(OfToken(EventsSoFar(Run(s, steps).sh), t), Stage(Run(s, steps), t), t)
    decreases |steps|
  {
    hide Apply, Inv, Stage, EventsSoFar, Fits;
    if steps != [] {
      EventsStayFit(s, steps[0], t);
      StepKeepsInv(s, steps[0]);
      EventsOfOneGeneration(Apply(s, steps[0]), steps[1..], t);
    }
  }

  lemma EventsOfEveryRun(steps: seq<Step>, t: nat)
    ensures
      var s := Run(Start(), steps);
      Fits(OfToken(EventsSoFar(s.sh), t), Stage(s, t), t)
  {
    hide Run, Apply;
    EventsOfOneGeneration(Start(), steps, t);
  }

  // ---- nothing is left behind ----

  /** No connect flow and no teardown is under way. */
  predicate Quiet(s: System) {
    && s.sh.mid.None?
    && (forall t :: t in s.flows ==> s.flows[t].Drawn? || s.flows[t].Ended?)
    && (forall i :: i in s.tasks ==> s.tasks[i].conn.None?)
  }

  lemma QuietBridgeHasOnlyItsRelay(steps: seq<Step>)
    ensures
      var s := Run(Start(), steps);
      Quiet(s) ==>
        && !s.sh.phase.Connecting?
        && (s.sh.phase.Disconnected? ==> s.relays == {} && s.dials == {})
        && (s.sh.phase.Connected? ==> s.relays == {s.sh.phase.token} && s.dials <= s.relays)
  {
    hide Apply, Run;
    RunKeepsInv(Start(), steps);
    var s := Run(Start(), steps);
    if Quiet(s) {
      forall t | t in s.relays ensures s.sh.phase == Connected(t) {
        assert Held(s, t);
      }
    }
  }

  lemma RunOfThree(s: System, a: Step, b: Step, c: Step) returns (r: System)
    ensures r == Run(s, [a, b, c]) == Apply(Apply(Apply(s, a), b), c)
  {
    hide Apply;
    r := Run(s, [a, b, c]);
    assert [a, b, c][1..] == [b, c] && [b, c][1..] == [c];
    assert Run(s, [a, b, c]) == Run(Apply(s, a), [b, c]);
    assert Run(Apply(s, a), [b, c]) == Run(Apply(Apply(s, a), b), [c]);
  }

  // ---- which cancellations arrive ----

  predicate Entered(s: System, t: nat) { t in s.flows && !s.flows[t].Drawn? }

  /** The attempt slot, what is about to be registered or cancelled, and what has been
      cancelled, all speak of tokens that entered once. */
  predicate SlotIsTrue(s: System) {
    && (forall t :: t in s.sh.cancelled ==> Entered(s, t) && !Owns(s.sh.phase, t))
    && (s.sh.attempt.Some? ==> Entered(s, s.sh.attempt.value) && s.sh.attempt.value !in s.sh.cancelled)
    && (s.sh.mid.Some? && s.sh.mid.value.begin.Some? ==>
          var u := s.sh.mid.value.begin.value;
          s.sh.phase == Connecting(u) && u !in s.sh.cancelled && s.sh.attempt != Some(u) && s.sh.mid.value.cancel.None?)
    && (s.sh.mid.Some? && s.sh.mid.value.cancel.Some? ==>
          Entered(s, s.sh.mid.value.cancel.value) && s.sh.phase.Disconnected?)
  }

  /** The tokens disconnects still have to cancel left the phase for good, each with one
      disconnect. */
  predicate DueIsTrue(s: System) {
    && (forall i :: i in s.tasks && s.tasks[i].cancel.Some? ==>
          var t := s.tasks[i].cancel.value;
          && Entered(s, t) && !Owns(s.sh.phase, t) && t !in s.sh.cancelled
          && !(s.sh.mid.Some? && s.sh.mid.value.cancel == Some(t)))
    && (forall i, j :: i in s.tasks && j in s.tasks && s.tasks[i].cancel.Some? && s.tasks[i].cancel == s.tasks[j].cancel ==> i == j)
  }

  ghost predicate CancelInv(s: System) { Inv(s) && SlotIsTrue(s) && DueIsTrue(s) }

  lemma OwnerEntered(s: System)
    requires Inv(s)
    ensures !s.sh.phase.Disconnected? ==> Entered(s, s.sh.phase.token)
    ensures s.next !in s.flows
  {}

  predicate PhaseStep(e: Step) { e.Enter? || e.Decide? || e.FailReset? || e.RelayCloses? }

  predicate CancelStep(e: Step) { e.Disconnect? || e.DisconnectCancels? || e.CompletePublish? }

  lemma PhaseStepKeepsSlot(s: System, e: Step)
    requires CancelInv(s) && PhaseStep(e)
    ensures SlotIsTrue(Apply(s, e)) && DueIsTrue(Apply(s, e))
  {
    hide Inv;
    OwnerEntered(s);
  }

  lemma CancelStepKeepsSlot(s: System, e: Step)
    requires CancelInv(s) && CancelStep(e)
    ensures SlotIsTrue(Apply(s, e))
  {
    hide Inv;
    OwnerEntered(s);
  }

  lemma CancelStepKeepsDue(s: System, e: Step)
    requires CancelInv(s) && CancelStep(e)
    ensures DueIsTrue(Apply(s, e))
  {
    hide Inv;
    OwnerEntered(s);
  }

  /** What slot and due tokens depend on stays, but that the slot may become free. */
  ghost predicate SlotUntouched(s: System, s': System) {
    && s'.sh.phase == s.sh.phase && s'.sh.mid == s.sh.mid && s'.sh.cancelled == s.sh.cancelled
    && (s'.sh.attempt == s.sh.attempt || s'.sh.attempt.None?)
    && (forall t :: Entered(s, t) ==> Entered(s', t))
    && s'.tasks.Keys == s.tasks.Keys
    && (forall i :: i in s.tasks ==> s'.tasks[i].cancel == s.tasks[i].cancel)
  }

  lemma UntouchedKeepsSlot(s: System, s': System)
    requires SlotIsTrue(s) && DueIsTrue(s) && SlotUntouched(s, s')
    ensures SlotIsTrue(s') && DueIsTrue(s')
  {
    hide Entered;
  }

  lemma OtherStepLeavesSlot(s: System, e: Step)
    requires Inv(s) && !PhaseStep(e) && !CancelStep(e)
    ensures SlotUntouched(s, Apply(s, e))
  {
    hide Inv;
    OwnerEntered(s);
  }

  lemma StepKeepsCancelInv(s: System, e: Step)
    requires CancelInv(s)
    ensures CancelInv(Apply(s, e))
  {
    hide Inv, SlotIsTrue, DueIsTrue, Apply;
    StepKeepsInv(s, e);
    if PhaseStep(e) {
      PhaseStepKeepsSlot(s, e);
    } else if CancelStep(e) {
      CancelStepKeepsSlot(s, e);
      CancelStepKeepsDue(s, e);
    } else {
      OtherStepLeavesSlot(s, e);
      UntouchedKeepsSlot(s, Apply(s, e));
    }
  }

  lemma {:induction false} RunKeepsCancelInv(s: System, steps: seq<Step>)
    requires CancelInv(s)
    ensures CancelInv(Run(s, steps))
    decreases |steps|
  {
    hide Inv, SlotIsTrue, DueIsTrue, Apply;
    if steps != [] {
      StepKeepsCancelInv(s, steps[0]);
      RunKeepsCancelInv(Apply(s, steps[0]), steps[1..]);
    }
  }

  /** The step takes the slot from `t`: another attempt is registered, or the flow of `t`
      finishes its attempt itself. */
  predicate Displaces(s: System, e: Step, t: nat) {
    || (e.CompletePublish? && s.sh.mid.Some? && s.sh.mid.value.begin.Some?)
    || (e == Finished(t) && (In(s, t, Ready) || In(s, t, Failing)))
  }

  predicate DisplacedIn(s: System, steps: seq<Step>, t: nat)
    decreases |steps|
  {
    steps != [] && (Displaces(s, steps[0], t) || DisplacedIn(Apply(s, steps[0]), steps[1..], t))
  }

  /** Until its disconnect comes to cancel it, `t` keeps or loses the slot as said, and is
      cancelled by no one else. */
  lemma SlotAfterStep(s: System, e: Step, i: nat, t: nat)
    requires CancelInv(s) && i in s.tasks && s.tasks[i].cancel == Some(t) && e != DisconnectCancels(i)
    ensures i in Apply(s, e).tasks && Apply(s, e).tasks[i].cancel == Some(t)
    ensures Apply(s, e).sh.attempt == Some(t) <==> s.sh.attempt == Some(t) && !Displaces(s, e, t)
  {
    hide Inv;
  }

  lemma NotCancelledYet(s: System, i: nat, t: nat)
    requires DueIsTrue(s) && i in s.tasks && s.tasks[i].cancel == Some(t)
    ensures t !in s.sh.cancelled
  {}

  lemma {:induction false} SlotAfterRun(s: System, steps: seq<Step>, i: nat, t: nat)
    requires CancelInv(s) && i in s.tasks && s.tasks[i].cancel == Some(t)
    requires DisconnectCancels(i) !in steps
    ensures
      var now := Run(s, steps);
      && i in now.tasks && now.tasks[i].cancel == Some(t) && t !in now.sh.cancelled
      && (now.sh.attempt == Some(t) <==> s.sh.attempt == Some(t) && !DisplacedIn(s, steps, t))
    decreases |steps|
  {
    hide Inv, SlotIsTrue, DueIsTrue, Apply, Displaces;
    NotCancelledYet(s, i, t);
    if steps != [] {
      assert steps[0] in steps;
      SlotAfterStep(s, steps[0], i, t);
      StepKeepsCancelInv(s, steps[0]);
      SlotAfterRun(Apply(s, steps[0]), steps[1..], i, t);
    }
  }

  lemma StartOfCancellation()
    ensures CancelInv(Start())
  {}

  /** A disconnect that took `t` out of the phase cancels the attempt of `t` exactly if `t`
      was still registered and, until it came to cancel, no other attempt was registered
      and the flow of `t` did not finish. */
  lemma CancellationArrivesIffNotDisplaced(before: seq<Step>, i: nat, t: nat, during: seq<Step>)
    requires
      var s := Run(Start(), before);
      i in s.tasks && s.tasks[i].cancel == Some(t)
    requires DisconnectCancels(i) !in during
    ensures
      var s := Run(Start(), before);
      t in Apply(Run(s, during), DisconnectCancels(i)).sh.cancelled <==>
        s.sh.attempt == Some(t) && !DisplacedIn(s, during, t)
  {
    hide Inv, SlotIsTrue, DueIsTrue, Run, DisplacedIn;
    StartOfCancellation();
    RunKeepsCancelInv(Start(), before);
    SlotAfterRun(Run(Start(), before), during, i, t);
  }

  lemma ConnectThenDisconnect(s3: System, s6: System)
    requires s3 == Apply(Apply(Apply(Start(), Draw(false)), Draw(false)), Enter(0))
    requires s6 == Apply(Apply(Apply(s3, CompletePublish), Disconnect(0)), CompletePublish)
    ensures s6.sh == Shared(Disconnected, None, None, Some(0), {}, [], None)
    ensures 0 in s6.flows && s6.flows[0] == Dialing && 1 in s6.flows && s6.flows[1] == Drawn(false)
    ensures 0 in s6.tasks && s6.tasks[0] == Task(Some(0), None)
  {}

  lemma ReplacedBeforeCancelled(s6: System, s9: System)
    requires s6.sh == Shared(Disconnected, None, None, Some(0), {}, [], None)
    requires 0 in s6.flows && s6.flows[0] == Dialing && 1 in s6.flows && s6.flows[1] == Drawn(false)
    requires 0 in s6.tasks && s6.tasks[0] == Task(Some(0), None)
    requires s9 == Apply(Apply(Apply(s6, Enter(1)), CompletePublish), DisconnectCancels(0))
    ensures s9.sh.phase == Connecting(1) && s9.sh.attempt == Some(1)
    ensures s9.sh.cancelled == {} && In(s9, 0, Dialing) && Stage(s9, 0) == 3
  {}

  /** A disconnect cancels after it let go of the phase lock: a connect that enters in
      between replaces the slot, and the first attempt is never cancelled. It still
      cannot be committed. */
  lemma CancellationCanBeLost()
    ensures
      var s := Run(Start(), [Draw(false), Draw(false), Enter(0), CompletePublish, Disconnect(0), CompletePublish,
                             Enter(1), CompletePublish, DisconnectCancels(0)]);
      && s.sh.phase == Connecting(1) && s.sh.attempt == Some(1)
      && s.sh.cancelled == {} && In(s, 0, Dialing)
      && forall steps :: Stage(Run(s, steps), 0) == 3
  {
    hide Apply, Run, Inv;
    var s3 := RunOfThree(Start(), Draw(false), Draw(false), Enter(0));
    var s6 := RunOfThree(s3, CompletePublish, Disconnect(0), CompletePublish);
    var s9 := RunOfThree(s6, Enter(1), CompletePublish, DisconnectCancels(0));
    var all := [Draw(false), Draw(false), Enter(0), CompletePublish, Disconnect(0), CompletePublish,
                Enter(1), CompletePublish, DisconnectCancels(0)];
    assert s9 == Run(Start(), all) by {
      RunSplits(Start(), all, 3);
      RunSplits(s3, all[3..], 3);
      assert all[..3] == [Draw(false), Draw(false), Enter(0)];
      assert all[3..][..3] == [CompletePublish, Disconnect(0), CompletePublish];
      assert all[3..][3..] == [Enter(1), CompletePublish, DisconnectCancels(0)];
    }
    ConnectThenDisconnect(s3, s6);
    ReplacedBeforeCancelled(s6, s9);
    StartIsFine();
    RunKeepsInv(Start(), all);
    forall steps ensures Stage(Run(s9, steps), 0) == 3 {
      TokensNeverComeBack(s9, steps, 0);
    }
  }
}
