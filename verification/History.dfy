/** The edit history: what every operation of the history state leaves behind, as
    functions on a snapshot of its fields. */
module History {
  import opened Options
  import opened Scenes

  datatype Source = Ui | Mcp

  /** The most edits one named group takes before it closes itself. */
  const MAX_EDITS: nat := 128

  datatype GroupKey = GroupKey(generation: nat, sequence: nat)
  datatype Group = Group(key: GroupKey, source: Source, count: nat, named: bool)

  /** A recorded edit on a stack; `id` is the sequence number of its queue item. */
  datatype Entry = Entry(id: nat, generation: nat, record: Record, group: Group)

  datatype Pending =
    Pending(direction: Direction, group: Group, completed: nat, outcomeUnknown: bool, retryAllowed: bool)

  datatype ActiveGroup = ActiveGroup(token: nat, group: Group, entries: seq<Entry>)

  datatype Hist = Hist(
    generation: Option<nat>,
    revision: nat,
    applied: nat,
    undo: seq<Entry>,
    redo: seq<Entry>,
    editUnsupported: bool,
    pending: bool,
    pendingGroup: Option<Pending>,
    active: Option<ActiveGroup>)

  datatype Step = Step(entryId: nat, record: Record)

  datatype Action = Action(direction: Direction, group: Group, steps: seq<Step>, grouped: bool)

  datatype ActionRequest = ActionRequest(direction: Direction, head: Option<nat>, revision: nat)

  datatype Discarded = Discarded(completed: nat, total: nat, outcomeUnknown: bool, changesRemain: bool)

  // ---------------------------------------------------------------------------
  // Specification functions
  // ---------------------------------------------------------------------------

  function Synchronize(h: Hist, g: Option<nat>): Hist {
    if h.generation == g then h else Hist(g, h.revision + 1, 0, [], [], false, false, None, None)
  }

  function Stack(h: Hist, d: Direction): seq<Entry> { if d.Undo? then h.undo else h.redo }

  function VisibleStack(h: Hist, d: Direction): seq<Entry> {
    if d.Undo? && h.active.Some? && h.active.value.entries != [] then h.active.value.entries else Stack(h, d)
  }

  function Cursor(h: Hist, d: Direction): (Option<nat>, nat) {
    var s := VisibleStack(h, d);
    (if s == [] then None else Some(s[|s| - 1].id), h.revision)
  }

  /** The steps of the run of entries of one group on top of a stack, topmost first. */
  function TopSteps(s: seq<Entry>, k: GroupKey): seq<Step> {
    if s == [] || s[|s| - 1].group.key != k then []
    else [Step(s[|s| - 1].id, s[|s| - 1].record)] + TopSteps(s[..|s| - 1], k)
  }

  function PrepareAction(h: Hist, q: ActionRequest): Option<Action> {
    var s := VisibleStack(h, q.direction);
    if q.head.None? || h.editUnsupported || h.pending || q.revision != h.revision then None
    else if s == [] || s[|s| - 1].id != q.head.value then None
    else
      var top := s[|s| - 1];
      Some(Action(q.direction, top.group, TopSteps(s, top.group.key), top.group.named))
  }

  /** What an undo or redo of the visible head is prepared to do. */
  function Prepared(h: Hist, d: Direction): Option<Action> {
    PrepareAction(h, ActionRequest(d, Cursor(h, d).0, h.revision))
  }

  function PrepareRetry(h: Hist): Option<Action> {
    if h.pendingGroup.None? then None
    else
      var p := h.pendingGroup.value;
      if !p.retryAllowed || p.outcomeUnknown then None
      else
        var steps := TopSteps(Stack(h, p.direction), p.group.key);
        if steps == [] then None else Some(Action(p.direction, p.group, steps, true))
  }

  function FindStep(s: seq<Entry>, k: GroupKey, id: nat): Option<Step> {
    if s == [] then None
    else if s[0].id == id && s[0].group.key == k then Some(Step(id, s[0].record))
    else FindStep(s[1..], k, id)
  }

  /** The record a step stands for now, which may differ from when it was queued. */
  function RefreshStep(h: Hist, d: Direction, k: GroupKey, id: nat): Option<Step> {
    FindStep(Stack(h, d), k, id)
  }

  function StartPending(h: Hist, a: Action, completed: nat, unknown: bool, retry: bool): Hist {
    h.(pending := true,
       pendingGroup := Some(Pending(a.direction, a.group, completed, unknown, retry)),
       revision := h.revision + 1)
  }

  /** A redone create or duplicate stands for the id the engine gave it; nothing
      else in a record changes. No usable id is an error. */
  function UpdatedRecord(r: Record, d: Direction, newId: Option<Id>): Option<Record> {
    if d.Undo? || !r.Creates() then Some(r)
    else if newId.None? || newId.value == "" then None
    else Some(r.(createdId := newId.value))
  }

  function RemapEntry(e: Entry, k: GroupKey, a: Id, b: Id): Entry {
    if e.group.key == k then e.(record := RenRecord(e.record, a, b)) else e
  }

  function RemapStack(s: seq<Entry>, k: GroupKey, a: Id, b: Id): (out: seq<Entry>)
    ensures |out| == |s|
    ensures forall i | 0 <= i < |s| :: out[i] == RemapEntry(s[i], k, a, b)
  {
    seq(|s|, i requires 0 <= i < |s| => RemapEntry(s[i], k, a, b))
  }

  function RemapActive(g: Option<ActiveGroup>, k: GroupKey, a: Id, b: Id): Option<ActiveGroup> {
    if g.Some? && g.value.group.key == k then
      Some(g.value.(entries := seq(|g.value.entries|, i requires 0 <= i < |g.value.entries| =>
                                     g.value.entries[i].(record := RenRecord(g.value.entries[i].record, a, b)))))
    else g
  }

  predicate HasGroup(s: seq<Entry>, k: GroupKey) { exists i :: 0 <= i < |s| && s[i].group.key == k }

  predicate TopIs(h: Hist, d: Direction, id: nat, k: GroupKey) {
    var s := Stack(h, d);
    s != [] && s[|s| - 1].id == id && s[|s| - 1].group.key == k
  }

  datatype StepOutcome = Applied | NotOnTop | BadReply

  /** An accepted step leaves one stack for the other, under its updated record,
      and every record of its group follows a changed id. */
  function FinishGroupStep(h: Hist, a: Action, step: Step, newId: Option<Id>): (Hist, StepOutcome) {
    var updated := UpdatedRecord(step.record, a.direction, newId);
    if updated.None? then (h, BadReply)
    else if !TopIs(h, a.direction, step.entryId, a.group.key) then (h, NotOnTop)
    else
      var top := Stack(h, a.direction)[|Stack(h, a.direction)| - 1];
      var h1 := PopTop(h, a.direction).(applied := h.applied + 1, revision := h.revision + 1);
      var h2 := if step.record.Creates() && CreatedId(updated.value) != CreatedId(step.record)
                then RemapAll(h1, a.group.key, CreatedId(step.record), CreatedId(updated.value)) else h1;
      (CountPendingStep(PushOther(h2, a.direction, top.(record := updated.value)), a.group.key), Applied)
  }

  function RemapAll(h: Hist, k: GroupKey, a: Id, b: Id): Hist {
    h.(undo := RemapStack(h.undo, k, a, b), redo := RemapStack(h.redo, k, a, b), active := RemapActive(h.active, k, a, b))
  }

  /** Onto the stack an entry taken in direction `d` goes to. */
  function PushOther(h: Hist, d: Direction, e: Entry): Hist {
    if d.Undo? then h.(redo := h.redo + [e]) else h.(undo := h.undo + [e])
  }

  /** A pending group counts the step, and is over once its stack holds none of it. */
  function CountPendingStep(h: Hist, k: GroupKey): (h1: Hist)
    ensures h1.(pending := h.pending, pendingGroup := h.pendingGroup) == h
  {
    if h.pendingGroup.None? || h.pendingGroup.value.group.key != k then h
    else
      var p := h.pendingGroup.value;
      if HasGroup(Stack(h, p.direction), k) then h.(pendingGroup := Some(p.(completed := p.completed + 1)))
      else h.(pending := false, pendingGroup := None)
  }

  function ClearCompletedPending(h: Hist, k: GroupKey): Hist {
    if h.pendingGroup.Some? && h.pendingGroup.value.group.key == k
       && !HasGroup(Stack(h, h.pendingGroup.value.direction), k)
    then h.(pending := false, pendingGroup := None, revision := h.revision + 1)
    else h
  }

  function WithoutGroup(s: seq<Entry>, k: GroupKey): (out: seq<Entry>)
    ensures forall e <- out :: e in s && e.group.key != k
  {
    if s == [] then []
    else if s[0].group.key == k then WithoutGroup(s[1..], k)
    else [s[0]] + WithoutGroup(s[1..], k)
  }

  function DiscardPending(h: Hist): (Hist, Option<Discarded>) {
    if h.pendingGroup.None? then (h, None)
    else
      var p := h.pendingGroup.value;
      (h.(undo := WithoutGroup(h.undo, p.group.key),
          redo := WithoutGroup(h.redo, p.group.key),
          pending := false, pendingGroup := None, revision := h.revision + 1),
       Some(Discarded(p.completed, p.group.count, p.outcomeUnknown, p.completed > 0 || p.outcomeUnknown)))
  }

  /** An edit whose outcome the Bridge could not settle blocks like a group. */
  function MarkOutcomeUnknown(h: Hist, sequence: nat, generation: nat): Hist {
    StartPending(h, Action(Undo, Group(GroupKey(generation, sequence), Mcp, 1, false), [], true), 0, true, false)
  }

  /** Closing puts the group's entries on the undo stack under one final count. */
  function CloseActive(h: Hist): Hist {
    if h.active.None? then h
    else
      var g := h.active.value;
      if g.entries == [] then h.(active := None, revision := h.revision + 1)
      else h.(active := None, revision := h.revision + 1, undo := h.undo + Sealed(g))
  }

  function Sealed(g: ActiveGroup): (out: seq<Entry>)
    ensures |out| == |g.entries|
    ensures forall i | 0 <= i < |out| :: out[i] == g.entries[i].(group := g.group.(count := |g.entries|))
  {
    seq(|g.entries|, i requires 0 <= i < |g.entries| => g.entries[i].(group := g.group.(count := |g.entries|)))
  }

  function CloseUnless(h: Hist, token: Option<nat>): Hist {
    if (if h.active.Some? then Some(h.active.value.token) else None) != token then CloseActive(h) else h
  }

  function BeginGroup(h: Hist, token: nat, source: Source, generation: nat): Hist {
    var h1 := CloseActive(h);
    h1.(active := Some(ActiveGroup(token, Group(GroupKey(generation, token), source, 0, true), [])),
        revision := h1.revision + 1)
  }

  predicate OwnsGroup(h: Hist, token: nat, generation: nat) {
    h.active.Some? && h.active.value.token == token && h.active.value.group.key.generation == generation
  }

  datatype Context = Context(source: Source, sequence: nat, generation: nat, groupToken: Option<nat>)

  /** An accepted edit with a record joins the group it names, or is its own group;
      either way the redo stack ends where the new edit starts. */
  function RecordSuccess(h: Hist, r: Option<Record>, c: Context): Hist {
    var h1 := h.(applied := h.applied + 1, revision := h.revision + 1);
    if r.None? then h1
    else if h.active.Some? && c.groupToken == Some(h.active.value.token)
            && h.active.value.group.key.generation == c.generation && h.active.value.group.source == c.source
    then
      var g := h.active.value;
      var e := Entry(c.sequence, c.generation, r.value, g.group.(count := |g.entries| + 1));
      var h2 := h1.(active := Some(g.(entries := g.entries + [e])), redo := if g.entries == [] then [] else h.redo);
      if |g.entries| + 1 >= MAX_EDITS then CloseActive(h2) else h2
    else
      var e := Entry(c.sequence, c.generation, r.value,
                     Group(GroupKey(c.generation, c.sequence), c.source, 1, false));
      h1.(undo := h.undo + [e], redo := [])
  }

  /** An accepted delete empties both stacks: deletes are not recorded. */
  function RecordDelete(h: Hist): Hist {
    h.(applied := h.applied + 1, revision := h.revision + 1, undo := [], redo := [])
  }

  function PopTop(h: Hist, d: Direction): Hist
    requires Stack(h, d) != []
  {
    if d.Undo? then h.(undo := h.undo[..|h.undo| - 1]) else h.(redo := h.redo[..|h.redo| - 1])
  }

  /** A single undo or redo that failed, was refused, or was answered unusably
      gives up its entry. */
  function DropAction(h: Hist, a: Action): Hist
    requires a.steps != []
  {
    if TopIs(h, a.direction, a.steps[0].entryId, a.group.key)
    then PopTop(h, a.direction).(revision := h.revision + 1) else h
  }

  function FinishSingle(h: Hist, a: Action, accepted: bool, newId: Option<Id>): Hist
    requires a.steps != []
  {
    var updated := UpdatedRecord(a.steps[0].record, a.direction, newId);
    if !accepted || updated.None? then DropAction(h, a)
    else if !TopIs(h, a.direction, a.steps[0].entryId, a.group.key) then h
    else
      var from := Stack(h, a.direction);
      var e := from[|from| - 1].(record := updated.value);
      var h1 := PopTop(h, a.direction).(applied := h.applied + 1, revision := h.revision + 1);
      if a.direction.Undo? then h1.(redo := h.redo + [e]) else h1.(undo := h.undo + [e])
  }
}
