/** The bounded edit queue, its tickets, and every interleaving of callers giving up
    with the actor taking, starting, refusing, finishing and draining items.

    Ticket `n` is the `n`-th accepted item, so its position is its sequence number. */
module Tickets {
  import opened Options

  /** The atomic each item shares with its ticket. */
  datatype QueueState = Waiting | Started | Cancelled

  /** Edits, undos, redos and retries must win the atomic to start. Group controls and
      discards only look whether the ticket was dropped. */
  datatype Kind = Ordinary | Control

  datatype Reply = Outcome | Revoked | Stale | Refused | TicketCancelled | Stopping

  /** What a caller was told, or how far it is on the way. `TimedOut`, `Swapped` and
      `Loading` are the points between the atomic operations of a deadline. */
  datatype Caller =
    | Awaiting | TimedOut | Swapped | Loading
    | Got(reply: Reply) | ToldCancelled | ToldUnknown
    | LettingGo | LetGo

  datatype Ticket = Ticket(kind: Kind, state: QueueState, senderAlive: bool, caller: Caller, ran: bool,
                           replies: seq<Reply>)

  datatype Actor = Idle | Holding(n: nat) | Checked(n: nat) | Running(n: nat) | Draining | Exited

  datatype System = System(
    capacity: nat,
    accepting: bool,
    closed: bool,
    tickets: seq<Ticket>,
    queue: seq<nat>,
    taken: seq<nat>,
    actor: Actor)

  function Fresh(k: Kind): Ticket { Ticket(k, Waiting, true, Awaiting, false, []) }

  function Initial(capacity: nat): System { System(capacity, true, false, [], [], [], Idle) }

  datatype Refusal = ServiceStopping | NotConnected | QueueFull

  function Enqueued(s: System, k: Kind, connected: bool): (System, Option<Refusal>) {
    if !s.accepting then (s, Some(ServiceStopping))
    else if !connected then (s, Some(NotConnected))
    else if s.closed then (s, Some(ServiceStopping))
    else if |s.queue| >= s.capacity then (s, Some(QueueFull))
    else (s.(tickets := s.tickets + [Fresh(k)], queue := s.queue + [|s.tickets|]), None)
  }

  /** The only two transitions of the atomic, both from `Waiting`. */
  function CancelIfWaiting(t: Ticket): Ticket { if t.state.Waiting? then t.(state := Cancelled) else t }

  function Answer(s: System, n: nat, r: Reply): System
    requires n < |s.tickets|
  {
    s.(tickets := s.tickets[n := s.tickets[n].(replies := s.tickets[n].replies + [r])])
  }

  function AnswerEach(ts: seq<Ticket>, ns: set<nat>, r: Reply): (out: seq<Ticket>)
    ensures |out| == |ts|
    ensures forall i | 0 <= i < |ts| :: out[i] == if i in ns then ts[i].(replies := ts[i].replies + [r]) else ts[i]
  {
    seq(|ts|, i requires 0 <= i < |ts| => if i in ns then ts[i].(replies := ts[i].replies + [r]) else ts[i])
  }

  function Members(ns: seq<nat>): set<nat> { set n | n in ns }

  datatype Step =
    | Enqueue(kind: Kind, connected: bool)
    | Shutdown
    // callers
    | Deadline(n: nat) | Swap(n: nat) | DropGuard(n: nat) | Load(n: nat)
    | Receive(n: nat) | LetGoSwap(n: nat) | LetGoDrop(n: nat)
    // actor
    | Take | Refuse(why: Reply) | Check | RunControl | Start | Finish(stopping: bool)
    | Stop | DrainOne | DrainDone | Abort

  predicate CallerAt(s: System, n: nat, c: Caller) { n < |s.tickets| && s.tickets[n].caller == c }

  predicate Held(s: System) {
    (s.actor.Holding? || s.actor.Checked?) && s.actor.n < |s.tickets|
  }

  predicate Enabled(s: System, e: Step) {
    match e
    case Enqueue(_, _) => true
    case Shutdown => true
    case Deadline(n) => CallerAt(s, n, Awaiting) && s.tickets[n].replies == []
    case Swap(n) => CallerAt(s, n, TimedOut)
    case DropGuard(n) => CallerAt(s, n, Swapped)
    case Load(n) => CallerAt(s, n, Loading)
    case Receive(n) => CallerAt(s, n, Awaiting) && s.tickets[n].replies != []
    case LetGoSwap(n) => CallerAt(s, n, Awaiting)
    case LetGoDrop(n) => CallerAt(s, n, LettingGo)
    case Take => s.actor.Idle? && s.queue != []
    case Refuse(_) => Held(s)
    case Check => s.actor.Holding? && Held(s)
    case RunControl => s.actor.Checked? && Held(s) && s.tickets[s.actor.n].kind.Control?
    case Start => s.actor.Checked? && Held(s) && s.tickets[s.actor.n].kind.Ordinary?
    case Finish(_) => s.actor.Running? && s.actor.n < |s.tickets|
    case Stop => s.actor.Idle?
    case DrainOne => s.actor.Draining? && s.queue != [] && s.queue[0] < |s.tickets|
    case DrainDone => s.actor.Draining? && s.queue == []
    case Abort => !s.accepting && !s.actor.Exited?
  }

  function WithTicket(s: System, n: nat, t: Ticket): System
    requires n < |s.tickets|
  {
    s.(tickets := s.tickets[n := t])
  }

  /** Items the actor took out but has not answered. */
  function Owed(s: System): set<nat> {
    if s.actor.Holding? || s.actor.Checked? || s.actor.Running? then {s.actor.n} else {}
  }

  function Next(s: System, e: Step): System
    requires Enabled(s, e)
  {
    match e
    case Enqueue(k, connected) => Enqueued(s, k, connected).0
    case Shutdown => s.(accepting := false)
    case Deadline(n) => WithTicket(s, n, s.tickets[n].(caller := TimedOut))
    case Swap(n) => WithTicket(s, n, CancelIfWaiting(s.tickets[n]).(caller := Swapped))
    case DropGuard(n) => WithTicket(s, n, CancelIfWaiting(s.tickets[n]).(caller := Loading, senderAlive := false))
    case Load(n) =>
      WithTicket(s, n, s.tickets[n].(caller := if s.tickets[n].state.Started? then ToldUnknown else ToldCancelled))
    case Receive(n) =>
      WithTicket(s, n, CancelIfWaiting(s.tickets[n]).(caller := Got(s.tickets[n].replies[0]), senderAlive := false))
    case LetGoSwap(n) => WithTicket(s, n, CancelIfWaiting(s.tickets[n]).(caller := LettingGo))
    case LetGoDrop(n) => WithTicket(s, n, s.tickets[n].(caller := LetGo, senderAlive := false))
    case Take => s.(actor := Holding(s.queue[0]), queue := s.queue[1..], taken := s.taken + [s.queue[0]])
    case Refuse(why) => Answer(s, s.actor.n, why).(actor := Idle)
    case Check =>
      if s.tickets[s.actor.n].senderAlive then s.(actor := Checked(s.actor.n))
      else Answer(s, s.actor.n, TicketCancelled).(actor := Idle)
    case RunControl =>
      Answer(WithTicket(s, s.actor.n, s.tickets[s.actor.n].(ran := true)), s.actor.n, Outcome).(actor := Idle)
    case Start =>
      var t := s.tickets[s.actor.n];
      if t.state.Waiting? then WithTicket(s, s.actor.n, t.(state := Started, ran := true)).(actor := Running(s.actor.n))
      else Answer(s, s.actor.n, TicketCancelled).(actor := Idle)
    case Finish(stopping) =>
      Answer(s, s.actor.n, if stopping then Stopping else Outcome).(
        actor := if stopping then Draining else Idle, closed := s.closed || stopping)
    case Stop => s.(actor := Draining, closed := true)
    case DrainOne => Answer(s, s.queue[0], Stopping).(queue := s.queue[1..], taken := s.taken + [s.queue[0]])
    case DrainDone => s.(actor := Exited)
    case Abort =>
      s.(tickets := AnswerEach(s.tickets, Owed(s) + Members(s.queue), Stopping),
         queue := [], taken := s.taken + s.queue, actor := Exited, closed := true)
  }

  // ---------------------------------------------------------------------------
  // What holds at every moment
  // ---------------------------------------------------------------------------

  /** Items leave the queue in acceptance order, none is skipped, and each that left
      was answered once unless the actor still owes it. */
  ghost predicate InOrder(s: System) {
    && |s.taken| + |s.queue| == |s.tickets|
    && (forall i | 0 <= i < |s.taken| :: s.taken[i] == i)
    && (forall i | 0 <= i < |s.queue| :: s.queue[i] == |s.taken| + i)
    && (forall n | n in Owed(s) :: n == |s.taken| - 1)
    && (forall n | 0 <= n < |s.tickets| ::
          |s.tickets[n].replies| == if n < |s.taken| && n !in Owed(s) then 1 else 0)
    && (s.actor.Exited? ==> s.queue == [] && s.closed)
    && (s.actor.Draining? ==> s.closed)
    && |s.queue| <= s.capacity
  }

  /** The caller's own swap of the atomic is behind it. */
  predicate GaveUp(c: Caller) {
    c.Swapped? || c.Loading? || c.ToldCancelled? || c.ToldUnknown? || c.LettingGo? || c.LetGo?
  }

  /** The atomic tells the truth about the action. */
  ghost predicate TicketTrue(t: Ticket) {
    && (t.state.Started? ==> t.ran && t.kind.Ordinary?)
    && (t.kind.Ordinary? && t.ran ==> t.state.Started?)
    && (GaveUp(t.caller) ==> !t.state.Waiting?)
    && (t.caller.ToldCancelled? ==> t.state.Cancelled?)
    && (t.caller.ToldUnknown? ==> t.state.Started?)
    && (t.caller.ToldCancelled? || t.caller.ToldUnknown? || t.caller.LetGo? || t.caller.Loading? ==> !t.senderAlive)
  }

  ghost predicate Inv(s: System) {
    InOrder(s) && forall n | 0 <= n < |s.tickets| :: TicketTrue(s.tickets[n])
  }

  lemma InitialHolds(capacity: nat)
    ensures Inv(Initial(capacity))
  {
  }

  /** The order is a matter of the queue, the actor and how often each was answered. */
  lemma SameAnswersSameOrder(s: System, t: System)
    requires InOrder(s)
    requires t.queue == s.queue && t.taken == s.taken && t.capacity == s.capacity && |t.tickets| == |s.tickets|
    requires Owed(t) == Owed(s)
    requires t.actor.Exited? ==> t.queue == [] && t.closed
    requires t.actor.Draining? ==> t.closed
    requires forall n | 0 <= n < |s.tickets| :: |t.tickets[n].replies| == |s.tickets[n].replies|
    ensures InOrder(t)
  {
  }

  /** Answering the item the actor owes settles it. */
  lemma AnsweringOwedKeepsOrder(s: System, n: nat, t: System)
    requires InOrder(s) && n < |s.tickets| && Owed(s) == {n} && Owed(t) == {}
    requires t.queue == s.queue && t.taken == s.taken && t.capacity == s.capacity && |t.tickets| == |s.tickets|
    requires t.actor.Idle? || (t.actor.Draining? && t.closed)
    requires forall i | 0 <= i < |s.tickets| ::
               |t.tickets[i].replies| == |s.tickets[i].replies| + if i == n then 1 else 0
    ensures InOrder(t)
  {
    assert n in Owed(s);
  }

  lemma QueueStepKeepsOrder(s: System, e: Step)
    requires InOrder(s) && Enabled(s, e) && (e.Enqueue? || e.Take? || e.DrainOne?)
    ensures InOrder(Next(s, e))
  {
    if e.DrainOne? {
      assert s.queue[0] == |s.taken|;
    }
  }

  lemma AbortKeepsOrder(s: System)
    requires InOrder(s) && Enabled(s, Abort)
    ensures InOrder(Next(s, Abort))
  {
    forall n | 0 <= n < |s.tickets| ensures n in s.queue <==> |s.taken| <= n {
      if |s.taken| <= n {
        assert s.queue[n - |s.taken|] == n;
      }
    }
  }

  /** Steps by which an item enters or leaves the queue. */
  predicate QueueStep(e: Step) { e.Enqueue? || e.Take? || e.DrainOne? || e.Abort? }

  /** Steps the actor takes on the item it holds. */
  predicate ItemStep(e: Step) { e.Refuse? || e.Check? || e.RunControl? || e.Start? || e.Finish? }

  lemma ItemStepKeepsOrder(s: System, e: Step)
    requires InOrder(s) && Enabled(s, e) && ItemStep(e)
    ensures InOrder(Next(s, e))
  {
    hide InOrder;
    DrainingIsClosed(s);
    var t := Next(s, e);
    if t.actor.Idle? || e.Finish? {
      AnsweringOwedKeepsOrder(s, s.actor.n, t);
    } else {
      SameAnswersSameOrder(s, t);
    }
  }

  lemma OtherStepKeepsOrder(s: System, e: Step)
    requires InOrder(s) && Enabled(s, e) && !QueueStep(e) && !ItemStep(e)
    ensures InOrder(Next(s, e))
  {
    hide InOrder;
    DrainingIsClosed(s);
    SameAnswersSameOrder(s, Next(s, e));
  }

  lemma NextKeepsOrder(s: System, e: Step)
    requires InOrder(s) && Enabled(s, e)
    ensures InOrder(Next(s, e))
  {
    hide InOrder, Next, Enabled;
    if e.Abort? {
      AbortKeepsOrder(s);
    } else if QueueStep(e) {
      QueueStepKeepsOrder(s, e);
    } else if ItemStep(e) {
      ItemStepKeepsOrder(s, e);
    } else {
      OtherStepKeepsOrder(s, e);
    }
  }

  lemma DrainingIsClosed(s: System)
    requires InOrder(s)
    ensures s.actor.Draining? || s.actor.Exited? ==> s.closed
    ensures s.actor.Exited? ==> s.queue == []
  {
  }

  lemma QueueStepKeepsTruth(s: System, e: Step, n: nat)
    requires Enabled(s, e) && QueueStep(e) && n < |Next(s, e).tickets|
    requires n < |s.tickets| ==> TicketTrue(s.tickets[n])
    ensures TicketTrue(Next(s, e).tickets[n])
  {
  }

  lemma AnswerKeepsTruth(s: System, e: Step, n: nat)
    requires Enabled(s, e) && (e.Refuse? || e.Check? || e.Finish?) && n < |Next(s, e).tickets|
    requires n < |s.tickets| ==> TicketTrue(s.tickets[n])
    ensures TicketTrue(Next(s, e).tickets[n])
  {
  }

  lemma RunningKeepsTruth(s: System, e: Step, n: nat)
    requires Enabled(s, e) && (e.RunControl? || e.Start?) && n < |Next(s, e).tickets|
    requires n < |s.tickets| ==> TicketTrue(s.tickets[n])
    ensures TicketTrue(Next(s, e).tickets[n])
  {
  }

  lemma OtherStepKeepsTruth(s: System, e: Step, n: nat)
    requires Enabled(s, e) && !QueueStep(e) && !ItemStep(e) && n < |Next(s, e).tickets|
    requires n < |s.tickets| ==> TicketTrue(s.tickets[n])
    ensures TicketTrue(Next(s, e).tickets[n])
  {
  }

  lemma NextKeepsTruth(s: System, e: Step, n: nat)
    requires Enabled(s, e) && forall i | 0 <= i < |s.tickets| :: TicketTrue(s.tickets[i])
    requires n < |Next(s, e).tickets|
    ensures TicketTrue(Next(s, e).tickets[n])
  {
    hide TicketTrue, Next, Enabled;
    if QueueStep(e) {
      QueueStepKeepsTruth(s, e, n);
    } else if e.RunControl? || e.Start? {
      RunningKeepsTruth(s, e, n);
    } else if ItemStep(e) {
      AnswerKeepsTruth(s, e, n);
    } else {
      OtherStepKeepsTruth(s, e, n);
    }
  }

  lemma NextKeepsInv(s: System, e: Step)
    requires Inv(s) && Enabled(s, e)
    ensures Inv(Next(s, e))
  {
    hide InOrder, TicketTrue, Next, Enabled;
    NextKeepsOrder(s, e);
    forall n | 0 <= n < |Next(s, e).tickets| ensures TicketTrue(Next(s, e).tickets[n]) {
      NextKeepsTruth(s, e, n);
    }
  }

  ghost predicate IsRun(s: System, es: seq<Step>)
    decreases |es|
  {
    es == [] || (Enabled(s, es[0]) && IsRun(Next(s, es[0]), es[1..]))
  }

  ghost function After(s: System, es: seq<Step>): System
    requires IsRun(s, es)
    decreases |es|
  {
    if es == [] then s else After(Next(s, es[0]), es[1..])
  }

  lemma {:induction false} RunKeepsInv(s: System, es: seq<Step>)
    requires Inv(s) && IsRun(s, es)
    ensures Inv(After(s, es))
    decreases |es|
  {
    hide Inv, Next, Enabled;
    if es != [] {
      NextKeepsInv(s, es[0]);
      RunKeepsInv(Next(s, es[0]), es[1..]);
    }
  }

  /** Every run serves tickets in order, and once the actor is gone, by draining or by
      being aborted, every accepted ticket has exactly one answer. */
  lemma EveryTicketIsAnsweredOnce(capacity: nat, es: seq<Step>)
    requires IsRun(Initial(capacity), es)
    ensures
      var s := After(Initial(capacity), es);
      && (forall i | 0 <= i < |s.taken| :: s.taken[i] == i)
      && (forall n | 0 <= n < |s.tickets| :: |s.tickets[n].replies| <= 1)
      && (s.actor.Exited? ==> forall n | 0 <= n < |s.tickets| :: |s.tickets[n].replies| == 1)
      && |s.queue| <= capacity
  {
    InitialHolds(capacity);
    RunKeepsInv(Initial(capacity), es);
    CapacityIsFixed(Initial(capacity), es);
  }

  lemma {:induction false} CapacityIsFixed(s: System, es: seq<Step>)
    requires IsRun(s, es)
    ensures After(s, es).capacity == s.capacity
    decreases |es|
  {
    if es != [] {
      CapacityIsFixed(Next(s, es[0]), es[1..]);
    }
  }

  // ---------------------------------------------------------------------------
  // What callers are told
  // ---------------------------------------------------------------------------

  /** What a step leaves of a ticket: only a start or a control's run runs it, and only
      a waiting ticket changes its state. */
  predicate Onward(s: System, e: Step, n: nat, t: Ticket)
    requires n < |s.tickets|
  {
    var was := s.tickets[n];
    && t.kind == was.kind
    && (!was.state.Waiting? ==> t.state == was.state)
    && (!was.senderAlive ==> !t.senderAlive)
    && (t.ran && !was.ran ==>
          || (e.Start? && s.actor == Checked(n) && was.state.Waiting?)
          || (e.RunControl? && s.actor == Checked(n) && was.kind.Control?))
  }

  lemma QueueStepGoesOnward(s: System, e: Step, n: nat)
    requires Enabled(s, e) && n < |s.tickets| && QueueStep(e)
    ensures n < |Next(s, e).tickets| && Onward(s, e, n, Next(s, e).tickets[n])
    ensures Next(s, e).actor != Checked(n) || s.actor == Checked(n)
  {
  }

  lemma CheckedStepGoesOnward(s: System, e: Step, n: nat)
    requires Enabled(s, e) && n < |s.tickets| && (e.Start? || e.RunControl? || e.Finish?)
    ensures n < |Next(s, e).tickets| && Onward(s, e, n, Next(s, e).tickets[n])
    ensures !Next(s, e).actor.Checked?
  {
  }

  lemma HeldStepGoesOnward(s: System, e: Step, n: nat)
    requires Enabled(s, e) && n < |s.tickets| && (e.Refuse? || e.Check?)
    ensures n < |Next(s, e).tickets| && Onward(s, e, n, Next(s, e).tickets[n])
    ensures Next(s, e).actor == Checked(n) ==> e.Check? && s.tickets[n].senderAlive
  {
  }

  lemma OtherStepGoesOnward(s: System, e: Step, n: nat)
    requires Enabled(s, e) && n < |s.tickets| && !QueueStep(e) && !ItemStep(e)
    ensures n < |Next(s, e).tickets| && Onward(s, e, n, Next(s, e).tickets[n])
    ensures Next(s, e).actor != Checked(n) || s.actor == Checked(n)
  {
  }

  lemma StepGoesOnward(s: System, e: Step, n: nat)
    requires Enabled(s, e) && n < |s.tickets|
    ensures n < |Next(s, e).tickets| && Onward(s, e, n, Next(s, e).tickets[n])
    ensures Next(s, e).actor == Checked(n) ==> s.actor == Checked(n) || s.tickets[n].senderAlive
  {
    hide Next, Enabled, Onward;
    if QueueStep(e) {
      QueueStepGoesOnward(s, e, n);
    } else if e.Refuse? || e.Check? {
      HeldStepGoesOnward(s, e, n);
    } else if ItemStep(e) {
      CheckedStepGoesOnward(s, e, n);
    } else {
      OtherStepGoesOnward(s, e, n);
    }
  }

  lemma CancelledStaysUnrun(s: System, e: Step, n: nat)
    requires Enabled(s, e) && n < |s.tickets|
    requires s.tickets[n].kind.Ordinary? && s.tickets[n].state.Cancelled? && !s.tickets[n].ran
    ensures
      var t := Next(s, e);
      n < |t.tickets| && t.tickets[n].kind.Ordinary? && t.tickets[n].state.Cancelled? && !t.tickets[n].ran
  {
    hide Next, Enabled;
    StepGoesOnward(s, e, n);
  }

  /** Once an ordinary ticket was cancelled in time, its action never runs. */
  lemma {:induction false} CancelledNeverRuns(s: System, es: seq<Step>, n: nat)
    requires IsRun(s, es) && n < |s.tickets|
    requires s.tickets[n].kind.Ordinary? && s.tickets[n].state.Cancelled? && !s.tickets[n].ran
    ensures n < |After(s, es).tickets| && !After(s, es).tickets[n].ran
    decreases |es|
  {
    hide Next, Enabled;
    if es != [] {
      CancelledStaysUnrun(s, es[0], n);
      CancelledNeverRuns(Next(s, es[0]), es[1..], n);
    }
  }

  /** A caller told at its deadline that the operation was cancelled before it started
      is right for the rest of the run; one told the outcome is unknown is right that
      it had started; and a ticket let go before starting never starts. */
  lemma CallersAreToldTheTruth(s: System, es: seq<Step>, n: nat)
    requires Inv(s) && IsRun(s, es) && n < |s.tickets| && s.tickets[n].kind.Ordinary?
    ensures n < |After(s, es).tickets|
    ensures s.tickets[n].caller.ToldCancelled? ==> !After(s, es).tickets[n].ran
    ensures s.tickets[n].caller.ToldUnknown? ==> s.tickets[n].ran
    ensures (s.tickets[n].caller.LettingGo? || s.tickets[n].caller.LetGo?) && !s.tickets[n].ran ==>
              !After(s, es).tickets[n].ran
  {
    TicketsStay(s, es);
    if s.tickets[n].state.Cancelled? {
      CancelledNeverRuns(s, es, n);
    }
  }

  lemma {:induction false} TicketsStay(s: System, es: seq<Step>)
    requires IsRun(s, es)
    ensures |s.tickets| <= |After(s, es).tickets|
    decreases |es|
  {
    if es != [] {
      TicketsStay(Next(s, es[0]), es[1..]);
    }
  }

  /** Group controls skip the atomic. A control told cancelled stays unrun exactly
      when the actor had not already looked at its ticket. */
  lemma ToldCancelledControlIsSafeIffUnchecked(s: System, n: nat)
    requires Inv(s) && n < |s.tickets| && s.tickets[n].kind.Control?
    requires s.tickets[n].caller.ToldCancelled? && !s.tickets[n].ran
    ensures (forall es | IsRun(s, es) :: n < |After(s, es).tickets| && !After(s, es).tickets[n].ran)
            <==> s.actor != Checked(n)
  {
    if s.actor == Checked(n) {
      var es := [RunControl];
      assert es[1..] == [];
      assert IsRun(s, es) by {
        assert Enabled(s, RunControl);
        assert IsRun(Next(s, RunControl), []);
      }
      assert After(s, es) == After(Next(s, RunControl), []) == Next(s, RunControl);
      assert After(s, es).tickets[n].ran;
    } else {
      forall es | IsRun(s, es) ensures n < |After(s, es).tickets| && !After(s, es).tickets[n].ran {
        UncheckedControlNeverRuns(s, es, n);
      }
    }
  }

  lemma UncheckedStaysUnrun(s: System, e: Step, n: nat)
    requires Enabled(s, e) && n < |s.tickets| && s.tickets[n].kind.Control?
    requires !s.tickets[n].senderAlive && !s.tickets[n].ran && s.actor != Checked(n)
    ensures
      var t := Next(s, e);
      && n < |t.tickets| && t.tickets[n].kind.Control?
      && !t.tickets[n].senderAlive && !t.tickets[n].ran && t.actor != Checked(n)
  {
    hide Next, Enabled;
    StepGoesOnward(s, e, n);
  }

  lemma {:induction false} UncheckedControlNeverRuns(s: System, es: seq<Step>, n: nat)
    requires IsRun(s, es) && n < |s.tickets| && s.tickets[n].kind.Control?
    requires !s.tickets[n].senderAlive && !s.tickets[n].ran && s.actor != Checked(n)
    ensures n < |After(s, es).tickets| && !After(s, es).tickets[n].ran
    decreases |es|
  {
    hide Next, Enabled;
    if es != [] {
      UncheckedStaysUnrun(s, es[0], n);
      UncheckedControlNeverRuns(Next(s, es[0]), es[1..], n);
    }
  }

  /** The state in which a control was looked at, and then told cancelled. */
  function ControlToldTooLate(): System {
    System(1, true, false, [Ticket(Control, Cancelled, false, ToldCancelled, false, [])], [], [0], Checked(0))
  }

  /** So the promise made to ordinary tickets is not made to controls: this run tells
      the caller "cancelled", and the control runs next. */
  lemma ControlCanRunAfterItWasToldCancelled()
    ensures
      var es := [Enqueue(Control, true), Take, Check, Deadline(0), Swap(0), DropGuard(0), Load(0)];
      IsRun(Initial(1), es) && After(Initial(1), es) == ControlToldTooLate()
    ensures Enabled(ControlToldTooLate(), RunControl) && Next(ControlToldTooLate(), RunControl).tickets[0].ran
  {
    var t := Fresh(Control);
    var s1 := Initial(1).(tickets := [t], queue := [0]);
    var s3 := s1.(queue := [], taken := [0], actor := Checked(0));
    var s4 := s3.(tickets := [t.(caller := TimedOut)]);
    var s5 := s3.(tickets := [t.(caller := Swapped, state := Cancelled)]);
    var s6 := s3.(tickets := [t.(caller := Loading, state := Cancelled, senderAlive := false)]);
    var s7 := ControlToldTooLate();
    StepsInto(s6, Load(0), s7, [], s7);
    StepsInto(s5, DropGuard(0), s6, [Load(0)], s7);
    StepsInto(s4, Swap(0), s5, [DropGuard(0), Load(0)], s7);
    StepsInto(s3, Deadline(0), s4, [Swap(0), DropGuard(0), Load(0)], s7);
    StepsInto(s3.(actor := Holding(0)), Check, s3, [Deadline(0), Swap(0), DropGuard(0), Load(0)], s7);
    StepsInto(s1, Take, s3.(actor := Holding(0)), [Check, Deadline(0), Swap(0), DropGuard(0), Load(0)], s7);
    StepsInto(Initial(1), Enqueue(Control, true), s1,
              [Take, Check, Deadline(0), Swap(0), DropGuard(0), Load(0)], s7);
  }

  lemma StepsInto(s: System, e: Step, s1: System, rest: seq<Step>, end: System)
    requires Enabled(s, e) && Next(s, e) == s1 && IsRun(s1, rest) && After(s1, rest) == end
    ensures IsRun(s, [e] + rest) && After(s, [e] + rest) == end
  {
    assert ([e] + rest)[1..] == rest;
  }
}
