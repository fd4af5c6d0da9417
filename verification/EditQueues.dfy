/** The queue and its tickets, updated in place by callers and by the actor; each
    operation is one step of the system in `Tickets`, or a run of such steps. */
module EditQueues {
  import opened Options
  import opened Tickets

  class EditQueue {
    const capacity: nat
    var accepting: bool
    var closed: bool
    var tickets: seq<Ticket>
    var queue: seq<nat>
    var taken: seq<nat>
    var actor: Actor

    function View(): System
      reads this
    {
      System(capacity, accepting, closed, tickets, queue, taken, actor)
    }

    constructor (capacity: nat)
      ensures View() == Initial(capacity)
    {
      this.capacity := capacity;
      accepting, closed := true, false;
      tickets, queue, taken := [], [], [];
      actor := Idle;
    }

    /** Admission and the bounded send are one critical section. */
    method Enqueue(k: Kind, connected: bool) returns (refused: Option<Refusal>)
      modifies this
      ensures (View(), refused) == Enqueued(old(View()), k, connected)
    {
      if !accepting {
        return Some(ServiceStopping);
      }
      if !connected {
        return Some(NotConnected);
      }
      if closed {
        return Some(ServiceStopping);
      }
      if |queue| >= capacity {
        return Some(QueueFull);
      }
      queue := queue + [|tickets|];
      tickets := tickets + [Fresh(k)];
      return None;
    }

    /** The atomic compare-and-exchange every party goes through. */
    method CompareExchange(n: nat, expected: QueueState, desired: QueueState) returns (won: bool)
      requires n < |tickets|
      modifies this`tickets
      ensures won <==> old(tickets)[n].state == expected
      ensures tickets == if won then old(tickets)[n := old(tickets)[n].(state := desired)] else old(tickets)
    {
      won := tickets[n].state == expected;
      if won {
        tickets := tickets[n := tickets[n].(state := desired)];
      }
    }

    /** One atomic step of a caller whose deadline passed. */
    method GiveUpStep(n: nat, e: Step)
      requires e in {Deadline(n), Swap(n), DropGuard(n), Load(n)} && Enabled(View(), e)
      modifies this`tickets
      ensures View() == Next(old(View()), e)
    {
      if e.Deadline? {
        tickets := tickets[n := tickets[n].(caller := TimedOut)];
      } else if e.Swap? {
        var _ := CompareExchange(n, Waiting, Cancelled);
        tickets := tickets[n := tickets[n].(caller := Swapped)];
      } else if e.DropGuard? {
        var _ := CompareExchange(n, Waiting, Cancelled);
        tickets := tickets[n := tickets[n].(caller := Loading, senderAlive := false)];
      } else {
        var told := if tickets[n].state.Started? then ToldUnknown else ToldCancelled;
        tickets := tickets[n := tickets[n].(caller := told)];
      }
    }

    /** The actor claims an ordinary item, or answers that it was cancelled. */
    method StartItem() returns (started: bool)
      requires Enabled(View(), Start)
      modifies this`tickets, this`actor
      ensures View() == Next(old(View()), Start)
      ensures started <==> actor.Running?
    {
      var n := actor.n;
      started := CompareExchange(n, Waiting, Started);
      if started {
        tickets := tickets[n := tickets[n].(ran := true)];
        actor := Running(n);
      } else {
        tickets := tickets[n := tickets[n].(replies := tickets[n].replies + [TicketCancelled])];
        actor := Idle;
      }
    }

    method DrainNext()
      requires Enabled(View(), DrainOne)
      modifies this`tickets, this`queue, this`taken
      ensures View() == Next(old(View()), DrainOne)
    {
      var n := queue[0];
      tickets := tickets[n := tickets[n].(replies := tickets[n].replies + [Stopping])];
      queue, taken := queue[1..], taken + [n];
    }

    /** The actor's exit: the channel closes and every queued item is answered. */
    method CloseAndDrain()
      requires InOrder(View()) && actor.Idle?
      modifies this
      ensures View() == DrainedBy(old(View()), |old(queue)|).(actor := Exited)
      ensures InOrder(View())
    {
      hide InOrder, Next, AnswerEach;
      ghost var s0 := View();
      NextKeepsOrder(s0, Stop);
      DrainStarts(s0);
      closed, actor := true, Draining;
      ghost var i := 0;
      while queue != []
        invariant 0 <= i <= |s0.queue|
        invariant View() == DrainedBy(s0, i) && InOrder(View())
        decreases |queue|
      {
        DrainGoesOn(s0, i);
        NextKeepsOrder(View(), DrainOne);
        DrainNext();
        i := i + 1;
      }
      NextKeepsOrder(View(), DrainDone);
      DrainEnds(s0, i);
      actor := Exited;
    }
  }

  /** The draining actor once it answered the first `i` of the items that were queued. */
  function DrainedBy(s: System, i: nat): System
    requires i <= |s.queue|
  {
    s.(closed := true, actor := Draining,
       tickets := AnswerEach(s.tickets, Members(s.queue[..i]), Stopping),
       queue := s.queue[i..],
       taken := s.taken + s.queue[..i])
  }

  lemma DrainStarts(s: System)
    requires s.actor.Idle?
    ensures Next(s, Stop) == DrainedBy(s, 0)
    ensures s.(closed := true, actor := Draining) == DrainedBy(s, 0)
  {
    assert AnswerEach(s.tickets, Members(s.queue[..0]), Stopping) == s.tickets;
  }

  lemma DrainGoesOn(s: System, i: nat)
    requires i < |s.queue| && InOrder(DrainedBy(s, i))
    ensures Enabled(DrainedBy(s, i), DrainOne)
    ensures Next(DrainedBy(s, i), DrainOne) == DrainedBy(s, i + 1)
  {
    var d := DrainedBy(s, i);
    var n := s.queue[i];
    assert d.queue[0] == n == |d.taken|;
    assert forall j | 0 <= j < i :: s.queue[j] == d.taken[|s.taken| + j] < n;
    assert s.queue[..i + 1] == s.queue[..i] + [n];
    assert d.queue[1..] == s.queue[i + 1..];
    assert d.taken + [n] == s.taken + s.queue[..i + 1];
    assert Next(d, DrainOne).tickets == AnswerEach(s.tickets, Members(s.queue[..i + 1]), Stopping);
  }

  lemma DrainEnds(s: System, i: nat)
    requires i <= |s.queue| && DrainedBy(s, i).queue == []
    ensures i == |s.queue|
    ensures Next(DrainedBy(s, i), DrainDone) == DrainedBy(s, i).(actor := Exited)
  {
  }
}
