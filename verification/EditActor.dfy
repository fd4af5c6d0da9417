/** What the edit actor does with one queue item: the gates an item passes before
    any Bridge write starts, and what its outcome leaves in the history. */
module EditActor {
  import opened Options
  import opened Scenes
  import opened History
  import opened HistoryStates
  import opened GroupActions

  datatype EditKind = SceneEdit | UndoEdit | RedoEdit | RuntimeControl

  /** Controls never reach the Bridge. Secrets are compared outside this model. */
  datatype Control =
    | Begin(token: nat, nameValid: bool)
    | EndByToken(token: nat)
    | EndBySecret(matches: bool)
    | Boundary(secretGiven: bool, matches: bool, keep: bool)
    | CloseFailed(token: nat)

  datatype Queued = Edit | HistoryStep(request: ActionRequest) | Retry | Discard | GroupControl(control: Control)

  datatype Item = Item(
    sequence: nat,
    source: Source,
    kind: EditKind,
    lease: nat,
    action: Queued,
    groupToken: Option<nat>,
    recorded: bool,
    structural: bool)

  /** How a single Bridge write ended. `Dropped` is the actor stopping meanwhile. */
  datatype Outcome =
    | Answered(accepted: bool, record: Option<Record>, newId: Option<Id>, deletes: bool)
    | Errored(unsupported: bool, unknown: bool)
    | Dropped

  datatype Permit = Granted | Reconfirm | Denied | Stopping

  /** Everything the actor reads while it handles one item, in the order it reads it. */
  datatype Surroundings = Surroundings(
    authorized: bool,
    ticketDropped: bool,
    current: Option<nat>,
    permit: Permit,
    sampled: Option<nat>,
    expired: bool,
    prepares: bool,
    stillAuthorized: bool,
    ticketWaiting: bool,
    outcome: Outcome,
    around: seq<Around>,
    after: Option<nat>)

  datatype Write = EditWrite | StepWrite(request: Request) | GroupWrite(exchange: Exchange)

  datatype Verdict =
    | Done | Nothing | Revoked | TicketCancelled | NotConnected | NeedsConfirmation | Refused | Blocked | Stopped

  datatype Handled = Handled(hist: Hist, writes: seq<Write>, verdict: Verdict)

  // ---------------------------------------------------------------------------
  // Specification
  // ---------------------------------------------------------------------------

  function Expire(h: Hist, expired: bool): Hist { if expired then History.CloseActive(h) else h }

  function ActiveToken(h: Hist): Option<nat> { if h.active.Some? then Some(h.active.value.token) else None }

  function RunControl(h: Hist, item: Item, c: Control): (Hist, Verdict) {
    match c
    case Begin(token, nameValid) =>
      if nameValid then (History.BeginGroup(h, token, item.source, item.lease), Done) else (h, Refused)
    case EndByToken(token) =>
      if ActiveToken(h) == Some(token) then (History.CloseActive(h), Done) else (h, Refused)
    case EndBySecret(matches) =>
      if h.active.Some? && matches then (History.CloseActive(h), Done) else (h, Refused)
    case Boundary(given, matches, keep) =>
      var token := if given && matches then ActiveToken(h) else None;
      (History.CloseUnless(h, if keep then token else None), if given && token.None? then Refused else Done)
    case CloseFailed(token) =>
      (if OwnsGroup(h, token, item.lease) then History.CloseUnless(h, None) else h, Done)
  }

  function ProcessControl(h: Hist, item: Item, s: Surroundings): Handled
    requires item.action.Discard? || item.action.GroupControl?
  {
    var h1 := History.Synchronize(h, s.current);
    if s.current != Some(item.lease) then Handled(h1, [], NotConnected)
    else if !s.stillAuthorized then Handled(h1, [], Revoked)
    else if h1.pending && !item.action.Discard? then Handled(h1, [], Blocked)
    else
      var h2 := Expire(h1, s.expired);
      if item.action.Discard? then
        var (h3, d) := History.DiscardPending(h2);
        Handled(h3, [], if d.Some? then Done else Refused)
      else
        var (h3, v) := RunControl(h2, item, item.action.control);
        Handled(h3, [], v)
  }

  /** The request an undo or redo item acts on: it follows the revision only if it
      still named the head before the open group was closed. */
  function Followed(h1: Hist, h2: Hist, q: ActionRequest): ActionRequest {
    if History.Cursor(h1, q.direction) == (q.head, q.revision) then
      ActionRequest(q.direction, History.Cursor(h2, q.direction).0, History.Cursor(h2, q.direction).1)
    else q
  }

  /** The history after the gate every write passes, and the verdict that ends the
      item there, if one does. */
  function Gate(h: Hist, item: Item, s: Surroundings): (Hist, Option<Verdict>, Option<Action>) {
    var h1 := History.Synchronize(h, s.sampled);
    if item.action.Retry? then
      var a := PrepareRetry(h1);
      (h1, if a.None? then Some(Refused) else None, a)
    else if h1.pending then (h1, Some(Blocked), None)
    else
      var h2 := History.CloseUnless(Expire(h1, s.expired), item.groupToken);
      if item.groupToken.Some? && !OwnsGroup(h2, item.groupToken.value, item.lease) then (h2, Some(Refused), None)
      else if item.recorded && !s.prepares then (h2, Some(Refused), None)
      else if item.action.HistoryStep? then
        var a := PrepareAction(h2, Followed(h1, h2, item.action.request));
        (h2, if a.None? then Some(Nothing) else None, a)
      else (h2, None, None)
  }

  /** Answers for exactly `n` steps; steps nothing is said about find no connection. */
  function Fitted(around: seq<Around>, n: nat): (out: seq<Around>)
    ensures |out| == n
  {
    seq(n, i requires 0 <= i < n => if i < |around| then around[i] else Around(true, false, None, None))
  }

  function SettleEdit(h: Hist, item: Item, o: Outcome): Hist
    requires !o.Dropped?
  {
    match o
    case Answered(accepted, record, _, deletes) =>
      var h1 :=
        if !accepted then h
        else if item.recorded then
          if deletes then History.RecordDelete(h)
          else History.RecordSuccess(h, record, Context(item.source, item.sequence, item.lease, item.groupToken))
        else if item.kind.SceneEdit? then h.(applied := h.applied + 1, revision := h.revision + 1)
        else h;
      if item.groupToken.Some? && !accepted then History.CloseUnless(h1, None) else h1
    case Errored(unsupported, unknown) =>
      var h1 := if item.groupToken.Some? then History.CloseUnless(h, None) else h;
      var h2 := if unsupported && item.structural && !h1.editUnsupported
                then h1.(editUnsupported := true, revision := h1.revision + 1) else h1;
      if !item.kind.RuntimeControl? && unknown then History.MarkOutcomeUnknown(h2, item.sequence, item.lease) else h2
  }

  function GroupWrites(sent: seq<Exchange>): (out: seq<Write>)
    ensures |out| == |sent|
    ensures forall i | 0 <= i < |sent| :: out[i] == GroupWrite(sent[i])
  {
    seq(|sent|, i requires 0 <= i < |sent| => GroupWrite(sent[i]))
  }

  function RunEdit(h: Hist, item: Item, s: Surroundings): Handled {
    if s.outcome.Dropped? then Handled(h, [EditWrite], Stopped)
    else
      var h1 := History.Synchronize(h, s.after);
      if s.after != Some(item.lease) then Handled(h1, [EditWrite], NotConnected)
      else Handled(SettleEdit(h1, item, s.outcome), [EditWrite], if s.outcome.Answered? then Done else Refused)
  }

  function RunSingle(h: Hist, item: Item, a: Action, s: Surroundings): Handled
    requires a.steps != []
  {
    var writes := [StepWrite(RequestFor(a.steps[0].record, a.direction))];
    if s.outcome.Dropped? then Handled(h, writes, Stopped)
    else
      var h1 := History.Synchronize(h, s.after);
      if s.after != Some(item.lease) then Handled(h1, writes, NotConnected)
      else if s.outcome.Errored? then Handled(History.DropAction(h1, a), writes, Refused)
      else Handled(History.FinishSingle(h1, a, s.outcome.accepted, s.outcome.newId), writes, Done)
  }

  function RunMany(h: Hist, item: Item, a: Action, s: Surroundings): Handled {
    var r := RunGroup(h, item.lease, a, item.action.Retry?, Fitted(s.around, |a.steps|));
    Handled(if s.outcome.Dropped? then r.hist else History.Synchronize(r.hist, s.after), GroupWrites(r.sent),
            if s.outcome.Dropped? then Stopped else if r.end.Finished? then Done else Refused)
  }

  function Grouped(item: Item, a: Action): bool { a.grouped || item.action.Retry? || item.source.Mcp? }

  function Process(h: Hist, item: Item, s: Surroundings): Handled {
    if !s.authorized then Handled(h, [], Revoked)
    else if s.ticketDropped then Handled(h, [], TicketCancelled)
    else if item.action.Discard? || item.action.GroupControl? then ProcessControl(h, item, s)
    else if s.current != Some(item.lease) then
      Handled(h, [], if item.source.Ui? && item.action.HistoryStep? then Nothing else NotConnected)
    else if !s.permit.Granted? then
      Handled(h, [], if s.permit.Reconfirm? then NeedsConfirmation else if s.permit.Stopping? then Stopped else Refused)
    else
      var (h1, stop, a) := Gate(h, item, s);
      if stop.Some? then Handled(h1, [], stop.value)
      else if !s.stillAuthorized then Handled(h1, [], Revoked)
      else if !s.ticketWaiting then Handled(h1, [], TicketCancelled)
      else if a.None? then RunEdit(h1, item, s)
      else if Grouped(item, a.value) || a.value.steps == [] then RunMany(h1, item, a.value, s)
      else RunSingle(h1, item, a.value, s)
  }

  // ---------------------------------------------------------------------------
  // The actor's own steps, in place
  // ---------------------------------------------------------------------------

  method ExpireGroup(history: HistoryState, expired: bool)
    modifies history
    ensures history.View() == Expire(old(history.View()), expired)
  {
    if expired {
      history.CloseActive();
    }
  }

  method HandleControl(history: HistoryState, item: Item, s: Surroundings) returns (v: Verdict)
    requires item.action.Discard? || item.action.GroupControl?
    modifies history
    ensures Handled(history.View(), [], v) == ProcessControl(old(history.View()), item, s)
  {
    history.Synchronize(s.current);
    if s.current != Some(item.lease) {
      return NotConnected;
    }
    if !s.stillAuthorized {
      return Revoked;
    }
    if history.pending && !item.action.Discard? {
      return Blocked;
    }
    ExpireGroup(history, s.expired);
    match item.action {
      case Discard =>
        var d := history.DiscardPending();
        v := if d.Some? then Done else Refused;
      case GroupControl(c) =>
        v := HandleGroupControl(history, item, c);
    }
  }

  method HandleGroupControl(history: HistoryState, item: Item, c: Control) returns (v: Verdict)
    modifies history
    ensures (history.View(), v) == RunControl(old(history.View()), item, c)
  {
    var token := ActiveToken(history.View());
    match c {
      case Begin(t, nameValid) =>
        if !nameValid {
          return Refused;
        }
        history.BeginGroup(t, item.source, item.lease);
        return Done;
      case EndByToken(t) =>
        if token != Some(t) {
          return Refused;
        }
        history.CloseActive();
        return Done;
      case EndBySecret(matches) =>
        if token.None? || !matches {
          return Refused;
        }
        history.CloseActive();
        return Done;
      case Boundary(given, matches, keep) =>
        var owner := if given && matches then token else None;
        history.CloseUnless(if keep then owner else None);
        return if given && owner.None? then Refused else Done;
      case CloseFailed(t) =>
        if OwnsGroup(history.View(), t, item.lease) {
          history.CloseUnless(None);
        }
        return Done;
    }
  }

  method PassGate(history: HistoryState, item: Item, s: Surroundings)
    returns (stop: Option<Verdict>, a: Option<Action>)
    modifies history
    ensures (history.View(), stop, a) == Gate(old(history.View()), item, s)
  {
    stop, a := None, None;
    history.Synchronize(s.sampled);
    if item.action.Retry? {
      a := PrepareRetry(history.View());
      return if a.None? then Some(Refused) else None, a;
    }
    if history.pending {
      return Some(Blocked), None;
    }
    var before := history.View();
    ExpireGroup(history, s.expired);
    history.CloseUnless(item.groupToken);
    if item.groupToken.Some? && !OwnsGroup(history.View(), item.groupToken.value, item.lease) {
      return Some(Refused), None;
    }
    if item.recorded && !s.prepares {
      return Some(Refused), None;
    }
    if item.action.HistoryStep? {
      a := PrepareAction(history.View(), Followed(before, history.View(), item.action.request));
      stop := if a.None? then Some(Nothing) else None;
    }
  }

  method MarkUnsupported(history: HistoryState)
    modifies history
    ensures history.View() == if old(history.editUnsupported) then old(history.View())
                              else old(history.View()).(editUnsupported := true, revision := old(history.revision) + 1)
  {
    if !history.editUnsupported {
      history.editUnsupported := true;
      history.revision := history.revision + 1;
    }
  }

  method SettleEditIn(history: HistoryState, item: Item, o: Outcome)
    requires !o.Dropped?
    modifies history
    ensures history.View() == SettleEdit(old(history.View()), item, o)
  {
    hide History.CloseUnless, History.RecordSuccess;
    match o {
      case Answered(accepted, record, _, deletes) =>
        if accepted {
          if item.recorded {
            if deletes {
              history.RecordDelete();
            } else {
              history.RecordSuccess(record, Context(item.source, item.sequence, item.lease, item.groupToken));
            }
          } else if item.kind.SceneEdit? {
            history.applied, history.revision := history.applied + 1, history.revision + 1;
          }
        } else if item.groupToken.Some? {
          history.CloseUnless(None);
        }
      case Errored(unsupported, unknown) =>
        if item.groupToken.Some? {
          history.CloseUnless(None);
        }
        if unsupported && item.structural {
          MarkUnsupported(history);
        }
        if !item.kind.RuntimeControl? && unknown {
          history.StartPending(Action(Undo, Group(GroupKey(item.lease, item.sequence), Mcp, 1, false), [], true),
                               0, true, false);
        }
    }
  }

  method ProcessItem(history: HistoryState, item: Item, s: Surroundings) returns (writes: seq<Write>, v: Verdict)
    modifies history
    ensures Handled(history.View(), writes, v) == Process(old(history.View()), item, s)
  {
    hide Gate, RunGroup, ProcessControl, SettleEdit, History.DropAction, History.FinishSingle;
    writes := [];
    if !s.authorized {
      return [], Revoked;
    }
    if s.ticketDropped {
      return [], TicketCancelled;
    }
    if item.action.Discard? || item.action.GroupControl? {
      v := HandleControl(history, item, s);
      return;
    }
    if s.current != Some(item.lease) {
      return [], if item.source.Ui? && item.action.HistoryStep? then Nothing else NotConnected;
    }
    if !s.permit.Granted? {
      return [], if s.permit.Reconfirm? then NeedsConfirmation else if s.permit.Stopping? then Stopped else Refused;
    }
    var stop, a := PassGate(history, item, s);
    if stop.Some? {
      return [], stop.value;
    }
    if !s.stillAuthorized {
      return [], Revoked;
    }
    if !s.ticketWaiting {
      return [], TicketCancelled;
    }
    writes, v := StartWrites(history, item, a, s);
  }

  /** From here on the ticket is started and the Bridge is written to. */
  method StartWrites(history: HistoryState, item: Item, a: Option<Action>, s: Surroundings)
    returns (writes: seq<Write>, v: Verdict)
    modifies history
    ensures
      var h := old(history.View());
      Handled(history.View(), writes, v)
      == if a.None? then RunEdit(h, item, s)
         else if Grouped(item, a.value) || a.value.steps == [] then RunMany(h, item, a.value, s)
         else RunSingle(h, item, a.value, s)
  {
    hide RunGroup, SettleEdit, History.DropAction, History.FinishSingle;
    if a.Some? && (Grouped(item, a.value) || a.value.steps == []) {
      var sent, _, end := RunGroupHistoryAction(history, item.lease, a.value, item.action.Retry?,
                                                Fitted(s.around, |a.value.steps|));
      if s.outcome.Dropped? {
        return GroupWrites(sent), Stopped;
      }
      history.Synchronize(s.after);
      return GroupWrites(sent), if end.Finished? then Done else Refused;
    }
    writes := if a.None? then [EditWrite] else [StepWrite(RequestFor(a.value.steps[0].record, a.value.direction))];
    if s.outcome.Dropped? {
      return writes, Stopped;
    }
    history.Synchronize(s.after);
    if s.after != Some(item.lease) {
      return writes, NotConnected;
    }
    if a.None? {
      SettleEditIn(history, item, s.outcome);
      return writes, if s.outcome.Answered? then Done else Refused;
    }
    if s.outcome.Errored? {
      history.DropAction(a.value);
      return writes, Refused;
    }
    history.FinishSingle(a.value, s.outcome.accepted, s.outcome.newId);
    return writes, Done;
  }

  // ---------------------------------------------------------------------------
  // Which undo or redo an item stands for
  // ---------------------------------------------------------------------------

  /** An undo or redo item runs exactly if it names the head and the revision that were
      visible when the actor took it, although closing an open group first changes the
      revision; and what it then works off starts with that head. */
  lemma HistoryItemRunsIffItNamesTheHead(h: Hist, item: Item, s: Surroundings)
    requires item.action.HistoryStep? && item.groupToken.None? && !item.recorded
    requires h.generation == s.sampled && !h.pending && !h.editUnsupported
    requires item.action.request.revision <= h.revision && item.action.request.head.Some?
    ensures
      var (_, _, a) := Gate(h, item, s);
      var q := item.action.request;
      && (a.Some? <==> History.Cursor(h, q.direction) == (q.head, q.revision))
      && (a.Some? ==> a.value.steps != [] && Some(a.value.steps[0].entryId) == q.head)
  {
    hide RunControl, Expire, History.CloseUnless, TopSteps, OwnsGroup;
    var q := item.action.request;
    var h2 := History.CloseUnless(Expire(h, s.expired), None);
    ClosingShowsTheSameHead(h, s.expired, q.direction);
    if History.Cursor(h, q.direction) == (q.head, q.revision) {
      TopStepsStartWithTheTop(VisibleStack(h2, q.direction));
    }
  }

  lemma ClosingShowsTheSameHead(h: Hist, expired: bool, d: Direction)
    ensures
      var h2 := History.CloseUnless(Expire(h, expired), None);
      && History.Cursor(h2, d).0 == History.Cursor(h, d).0
      && h2.pending == h.pending && h2.editUnsupported == h.editUnsupported && h2.active.None?
      && (if h.active.Some? then h2.revision > h.revision else h2 == h)
  {
    hide Sealed, History.Cursor;
    ClosedGroupShowsTheSameHead(h, d);
    assert History.CloseUnless(Expire(h, expired), None) == History.CloseActive(h);
  }

  lemma ClosedGroupShowsTheSameHead(h: Hist, d: Direction)
    ensures History.Cursor(History.CloseActive(h), d).0 == History.Cursor(h, d).0
  {
    if h.active.Some? && h.active.value.entries != [] {
      var g := h.active.value;
      assert (h.undo + Sealed(g))[|h.undo + Sealed(g)| - 1] == Sealed(g)[|g.entries| - 1];
    }
  }

  lemma TopStepsStartWithTheTop(s: seq<Entry>)
    requires s != []
    ensures
      var top := s[|s| - 1];
      TopSteps(s, top.group.key) != [] && TopSteps(s, top.group.key)[0] == Step(top.id, top.record)
  {
  }

  // ---------------------------------------------------------------------------
  // What a pending group lets through
  // ---------------------------------------------------------------------------

  /** Held with the outcome open, or with nothing it may retry. */
  predicate Unsettled(h: Hist) {
    h.pending && h.pendingGroup.Some? && (h.pendingGroup.value.outcomeUnknown || !h.pendingGroup.value.retryAllowed)
  }

  /** Everything that happens to the history: items, and the readers and timers that
      only synchronize it, close a group that expired, or close a revoked one. */
  datatype Event =
    | Handle(item: Item, surroundings: Surroundings)
    | ReaderSync(generation: Option<nat>)
    | GroupExpires
    | GroupRevoked

  function Happen(h: Hist, e: Event): (Hist, seq<Write>) {
    match e
    case Handle(item, s) => var r := Process(h, item, s); (r.hist, r.writes)
    case ReaderSync(g) => (History.Synchronize(h, g), [])
    case GroupExpires => (History.CloseActive(h), [])
    case GroupRevoked =>
      (if h.active.Some? && h.active.value.group.source.Mcp? then History.CloseActive(h) else h, [])
  }

  function HappenAll(h: Hist, es: seq<Event>): (Hist, seq<Write>)
    decreases |es|
  {
    if es == [] then (h, [])
    else
      var (h1, writes) := Happen(h, es[0]);
      var (h2, more) := HappenAll(h1, es[1..]);
      (h2, writes + more)
  }

  /** No generation other than `g` is ever read. */
  predicate SeesOnly(e: Event, g: Option<nat>) {
    match e
    case Handle(_, s) => s.sampled == g && s.current == g && s.after == g
    case ReaderSync(r) => r == g
    case _ => true
  }

  predicate IsDiscard(e: Event) { e.Handle? && e.item.action.Discard? }

  /** Closing a group leaves what is pending alone. */
  lemma ClosingKeepsPending(h: Hist, token: Option<nat>)
    ensures
      var c, u := History.CloseActive(h), History.CloseUnless(h, token);
      && c.pending == h.pending && c.pendingGroup == h.pendingGroup && c.generation == h.generation
      && u.pending == h.pending && u.pendingGroup == h.pendingGroup && u.generation == h.generation
  {
  }

  lemma UnsettledBlocks(h: Hist, e: Event)
    requires Unsettled(h) && SeesOnly(e, h.generation) && !IsDiscard(e)
    ensures Happen(h, e).1 == []
    ensures Happen(h, e).0.pendingGroup == h.pendingGroup && Unsettled(Happen(h, e).0)
    ensures Happen(h, e).0.generation == h.generation
  {
    hide RunMany, RunEdit, RunSingle, RunControl;
    if !e.Handle? {
      ClosingKeepsPending(h, None);
    }
  }

  /** Once a group's outcome is unknown, nothing is written to the Bridge until it is
      discarded or the history sees another generation, whatever is queued. */
  lemma {:induction false} NothingIsWrittenWhileUnsettled(h: Hist, es: seq<Event>)
    requires Unsettled(h)
    requires forall e <- es :: SeesOnly(e, h.generation) && !IsDiscard(e)
    ensures HappenAll(h, es).1 == []
    ensures Unsettled(HappenAll(h, es).0) && HappenAll(h, es).0.pendingGroup == h.pendingGroup
    decreases |es|
  {
    if es != [] {
      UnsettledBlocks(h, es[0]);
      NothingIsWrittenWhileUnsettled(Happen(h, es[0]).0, es[1..]);
    }
  }

  /** The block holds against readers exactly if they read the history's own generation:
      one that uses a generation it read earlier lifts it. */
  lemma StaleReaderLiftsTheBlock(h: Hist, g: Option<nat>)
    requires Unsettled(h)
    ensures Unsettled(Happen(h, ReaderSync(g)).0) <==> g == h.generation
  {
  }

  /** While any group is pending, only a retry writes; and the retry of a group whose
      outcome is open does not. */
  lemma OnlyRetryWritesWhilePending(h: Hist, e: Event)
    requires h.pending && SeesOnly(e, h.generation)
    ensures Happen(h, e).1 != [] ==> e.Handle? && e.item.action.Retry? && !Unsettled(h)
  {
    hide RunMany, RunEdit, RunSingle, RunControl;
  }

  predicate IsRetry(e: Event) { e.Handle? && e.item.action.Retry? }

  lemma PendingStays(h: Hist, e: Event)
    requires h.pending && SeesOnly(e, h.generation) && !IsDiscard(e) && !IsRetry(e)
    ensures Happen(h, e).1 == [] && Happen(h, e).0.pending && Happen(h, e).0.generation == h.generation
    ensures Happen(h, e).0.pendingGroup == h.pendingGroup
  {
    hide RunMany, RunEdit, RunSingle, RunControl;
    if !e.Handle? {
      ClosingKeepsPending(h, None);
    }
  }

  /** So from a refusal on, whatever else happens writes nothing and leaves the group held
      as it was, up to its retry or discard. */
  lemma {:induction false} OnlyRetryOrDiscardEndsPending(h: Hist, es: seq<Event>)
    requires h.pending
    requires forall e <- es :: SeesOnly(e, h.generation) && !IsDiscard(e) && !IsRetry(e)
    ensures HappenAll(h, es).1 == []
    ensures HappenAll(h, es).0.pending && HappenAll(h, es).0.pendingGroup == h.pendingGroup
    decreases |es|
  {
    hide Happen;
    if es != [] {
      PendingStays(h, es[0]);
      OnlyRetryOrDiscardEndsPending(Happen(h, es[0]).0, es[1..]);
    }
  }

  /** The write whose outcome stays open is the last one: an edit of unknown outcome,
      or a group whose answer never came, blocks everything after it. */
  lemma UnknownEditIsTheLastWrite(h: Hist, item: Item, s: Surroundings, es: seq<Event>)
    requires item.action.Edit? && !item.kind.RuntimeControl?
    requires Process(h, item, s).writes != [] && s.after == Some(item.lease)
    requires s.outcome.Errored? && s.outcome.unknown
    requires forall e <- es :: SeesOnly(e, Some(item.lease)) && !IsDiscard(e)
    ensures HappenAll(h, [Handle(item, s)] + es).1 == [EditWrite]
  {
    hide Gate;
    var h1 := Process(h, item, s).hist;
    assert Process(h, item, s).writes == [EditWrite] by {
      NoPlanForEdits(h, item, s);
    }
    assert Unsettled(h1) && h1.generation == Some(item.lease) by {
      NoPlanForEdits(h, item, s);
      ClosingKeepsPending(History.Synchronize(Gate(h, item, s).0, s.after), None);
    }
    assert ([Handle(item, s)] + es)[1..] == es;
    NothingIsWrittenWhileUnsettled(h1, es);
  }

  lemma NoPlanForEdits(h: Hist, item: Item, s: Surroundings)
    requires item.action.Edit?
    ensures Gate(h, item, s).2.None?
  {
  }

  predicate EndsUnanswered(sent: seq<Exchange>) { sent != [] && sent[|sent| - 1].reply == Some(NoAnswer) }

  lemma {:induction false} UnansweredStepUnsettles(h: Hist, lease: nat, a: Action, completed: nat,
                                                   steps: seq<Step>, env: seq<Around>)
    requires |env| == |steps| && forall x <- env :: x.after == Some(lease) || !x.connected
    requires EndsUnanswered(RunSteps(h, lease, a, completed, steps, env).sent)
    ensures
      var r := RunSteps(h, lease, a, completed, steps, env);
      Unsettled(r.hist) && r.hist.generation == Some(lease) && !r.end.Finished?
    decreases |steps|
  {
    hide RefreshStep, History.FinishGroupStep, RequestFor;
    var (h1, sent, end) := OneStep(h, lease, a, completed, steps[0], env[0]);
    if end.None? {
      assert sent[|sent| - 1].reply != Some(NoAnswer);
      var more := RunSteps(h1, lease, a, completed + 1, steps[1..], env[1..]).sent;
      assert RunSteps(h, lease, a, completed, steps, env).sent == sent + more;
      UnansweredStepUnsettles(h1, lease, a, completed + 1, steps[1..], env[1..]);
    }
  }

  /** The last write is a group's request that got no answer. */
  predicate LastIsUnanswered(writes: seq<Write>) {
    writes != [] && var last := writes[|writes| - 1];
    last.GroupWrite? && last.exchange.reply == Some(NoAnswer)
  }

  /** Only a group's run ends so. */
  lemma UnansweredIsAGroup(h: Hist, item: Item, s: Surroundings)
    requires LastIsUnanswered(Process(h, item, s).writes)
    ensures
      var (h1, _, a) := Gate(h, item, s);
      a.Some? && a.value.steps != [] && Process(h, item, s) == RunMany(h1, item, a.value, s)
  {
    hide Gate, RunGroup, History.FinishSingle, History.DropAction, RequestFor, RunEdit;
    var (h1, _, a) := Gate(h, item, s);
    EditWritesOnce(h1, item, s);
    if a.Some? && a.value.steps == [] { NoStepsNoWrites(h1, item, a.value, s); }
  }

  lemma NoStepsNoWrites(h: Hist, item: Item, a: Action, s: Surroundings)
    requires a.steps == []
    ensures RunMany(h, item, a, s).writes == []
  {
  }

  lemma EditWritesOnce(h: Hist, item: Item, s: Surroundings)
    ensures RunEdit(h, item, s).writes == [EditWrite]
  {
  }

  /** A group request that never was answered is likewise the last write. */
  lemma UnansweredGroupIsTheLastWrite(h: Hist, item: Item, s: Surroundings, es: seq<Event>)
    requires LastIsUnanswered(Process(h, item, s).writes) && s.after == Some(item.lease) && !s.outcome.Dropped?
    requires forall x <- s.around :: x.after == Some(item.lease)
    requires forall e <- es :: SeesOnly(e, Some(item.lease)) && !IsDiscard(e)
    ensures HappenAll(h, [Handle(item, s)] + es).1 == Process(h, item, s).writes
  {
    hide RunSteps, Gate, Process;
    UnansweredIsAGroup(h, item, s);
    var (h1, _, plan) := Gate(h, item, s);
    var a, env := plan.value, Fitted(s.around, |plan.value.steps|);
    assert forall x <- env :: x in s.around || !x.connected;
    UnansweredStepUnsettles(h1, item.lease, a, StartCount(h1, item.action.Retry?), a.steps, env);
    assert ([Handle(item, s)] + es)[1..] == es;
    NothingIsWrittenWhileUnsettled(Process(h, item, s).hist, es);
  }
}
