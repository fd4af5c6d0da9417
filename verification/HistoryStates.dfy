/** The history state itself, its fields updated in place by each operation and
    proved against the functions of `History`. */
module HistoryStates {
  import opened Options
  import opened Scenes
  import opened History

  /** Renames inside the entries of one group, entry by entry. */
  method RemapEntries(s: seq<Entry>, k: GroupKey, a: Id, b: Id) returns (out: seq<Entry>)
    ensures out == RemapStack(s, k, a, b)
  {
    out := s;
    var i := 0;
    while i < |s|
      invariant 0 <= i <= |s| == |out|
      invariant forall j | 0 <= j < i :: out[j] == RemapEntry(s[j], k, a, b)
      invariant forall j | i <= j < |s| :: out[j] == s[j]
    {
      if out[i].group.key == k {
        out := out[i := out[i].(record := RenRecord(out[i].record, a, b))];
      }
      i := i + 1;
    }
  }

  class HistoryState {
    var generation: Option<nat>
    var revision: nat
    var applied: nat
    var undo: seq<Entry>
    var redo: seq<Entry>
    var editUnsupported: bool
    var pending: bool
    var pendingGroup: Option<Pending>
    var active: Option<ActiveGroup>

    function View(): Hist
      reads this
    {
      Hist(generation, revision, applied, undo, redo, editUnsupported, pending, pendingGroup, active)
    }

    constructor ()
      ensures View() == Hist(None, 0, 0, [], [], false, false, None, None)
    {
      generation, revision, applied := None, 0, 0;
      undo, redo := [], [];
      editUnsupported, pending, pendingGroup, active := false, false, None, None;
    }

    method Synchronize(g: Option<nat>)
      modifies this
      ensures View() == History.Synchronize(old(View()), g)
    {
      if generation != g {
        generation := g;
        undo, redo := [], [];
        editUnsupported := false;
        applied := 0;
        pending, pendingGroup, active := false, None, None;
        revision := revision + 1;
      }
    }

    method StartPending(a: Action, completed: nat, unknown: bool, retry: bool)
      modifies this
      ensures View() == History.StartPending(old(View()), a, completed, unknown, retry)
    {
      pending := true;
      pendingGroup := Some(Pending(a.direction, a.group, completed, unknown, retry));
      revision := revision + 1;
    }

    method PopTop(d: Direction, id: nat, k: GroupKey) returns (e: Option<Entry>)
      modifies this`undo, this`redo
      ensures TopIs(old(View()), d, id, k) ==>
                && e == Some(Stack(old(View()), d)[|Stack(old(View()), d)| - 1])
                && View() == History.PopTop(old(View()), d)
      ensures !TopIs(old(View()), d, id, k) ==> e == None && View() == old(View())
    {
      var s := if d.Undo? then undo else redo;
      if s == [] || s[|s| - 1].id != id || s[|s| - 1].group.key != k {
        return None;
      }
      e := Some(s[|s| - 1]);
      if d.Undo? {
        undo := undo[..|undo| - 1];
      } else {
        redo := redo[..|redo| - 1];
      }
    }

    method RemapGroupIds(k: GroupKey, a: Id, b: Id)
      modifies this`undo, this`redo, this`active
      ensures View() == RemapAll(old(View()), k, a, b)
    {
      undo := RemapEntries(undo, k, a, b);
      redo := RemapEntries(redo, k, a, b);
      active := RemapActive(active, k, a, b);
    }

    method PushOther(d: Direction, e: Entry)
      modifies this`undo, this`redo
      ensures View() == History.PushOther(old(View()), d, e)
    {
      if d.Undo? {
        redo := redo + [e];
      } else {
        undo := undo + [e];
      }
    }

    method CountPendingStep(k: GroupKey)
      modifies this`pending, this`pendingGroup
      ensures View() == History.CountPendingStep(old(View()), k)
    {
      if pendingGroup.Some? && pendingGroup.value.group.key == k {
        var p := pendingGroup.value;
        pendingGroup := Some(p.(completed := p.completed + 1));
        if !HasGroup(if p.direction.Undo? then undo else redo, k) {
          pending, pendingGroup := false, None;
        }
      }
    }

    method FinishGroupStep(a: Action, step: Step, newId: Option<Id>) returns (o: StepOutcome)
      modifies this
      ensures (View(), o) == History.FinishGroupStep(old(View()), a, step, newId)
    {
      hide History.CountPendingStep, RemapAll, UpdatedRecord, Record.Creates, CreatedId, History.PushOther;
      var updated := UpdatedRecord(step.record, a.direction, newId);
      if updated.None? {
        return BadReply;
      }
      var popped := PopTop(a.direction, step.entryId, a.group.key);
      if popped.None? {
        return NotOnTop;
      }
      applied, revision := applied + 1, revision + 1;
      if step.record.Creates() && CreatedId(updated.value) != CreatedId(step.record) {
        RemapGroupIds(a.group.key, CreatedId(step.record), CreatedId(updated.value));
      }
      PushOther(a.direction, popped.value.(record := updated.value));
      CountPendingStep(a.group.key);
      return Applied;
    }

    method ClearCompletedPending(k: GroupKey)
      modifies this
      ensures View() == History.ClearCompletedPending(old(View()), k)
    {
      if pendingGroup.Some? && pendingGroup.value.group.key == k
         && !HasGroup(if pendingGroup.value.direction.Undo? then undo else redo, k) {
        pending, pendingGroup := false, None;
        revision := revision + 1;
      }
    }

    method DiscardPending() returns (d: Option<Discarded>)
      modifies this
      ensures (View(), d) == History.DiscardPending(old(View()))
    {
      if pendingGroup.None? {
        return None;
      }
      var p := pendingGroup.value;
      undo, redo := WithoutGroup(undo, p.group.key), WithoutGroup(redo, p.group.key);
      pending, pendingGroup := false, None;
      revision := revision + 1;
      return Some(Discarded(p.completed, p.group.count, p.outcomeUnknown, p.completed > 0 || p.outcomeUnknown));
    }

    method CloseActive()
      modifies this
      ensures View() == History.CloseActive(old(View()))
    {
      if active.Some? {
        var g := active.value;
        active := None;
        undo := undo + Sealed(g);
        revision := revision + 1;
      }
    }

    method CloseUnless(token: Option<nat>)
      modifies this
      ensures View() == History.CloseUnless(old(View()), token)
    {
      if (if active.Some? then Some(active.value.token) else None) != token {
        CloseActive();
      }
    }

    method BeginGroup(token: nat, source: Source, g: nat)
      modifies this
      ensures View() == History.BeginGroup(old(View()), token, source, g)
    {
      CloseActive();
      active := Some(ActiveGroup(token, Group(GroupKey(g, token), source, 0, true), []));
      revision := revision + 1;
    }

    method RecordSuccess(r: Option<Record>, c: Context)
      modifies this
      ensures View() == History.RecordSuccess(old(View()), r, c)
    {
      applied, revision := applied + 1, revision + 1;
      if r.None? {
        return;
      }
      if active.Some? && c.groupToken == Some(active.value.token)
         && active.value.group.key.generation == c.generation && active.value.group.source == c.source {
        var g := active.value;
        var e := Entry(c.sequence, c.generation, r.value, g.group.(count := |g.entries| + 1));
        active := Some(g.(entries := g.entries + [e]));
        if |g.entries| == 0 {
          redo := [];
        }
        if |g.entries| + 1 >= MAX_EDITS {
          CloseActive();
        }
      } else {
        undo := undo + [Entry(c.sequence, c.generation, r.value,
                              Group(GroupKey(c.generation, c.sequence), c.source, 1, false))];
        redo := [];
      }
    }

    method RecordDelete()
      modifies this
      ensures View() == History.RecordDelete(old(View()))
    {
      applied, revision := applied + 1, revision + 1;
      undo, redo := [], [];
    }

    method DropAction(a: Action)
      requires a.steps != []
      modifies this
      ensures View() == History.DropAction(old(View()), a)
    {
      var popped := PopTop(a.direction, a.steps[0].entryId, a.group.key);
      if popped.Some? {
        revision := revision + 1;
      }
    }

    method FinishSingle(a: Action, accepted: bool, newId: Option<Id>)
      requires a.steps != []
      modifies this
      ensures View() == History.FinishSingle(old(View()), a, accepted, newId)
    {
      var updated := UpdatedRecord(a.steps[0].record, a.direction, newId);
      if !accepted || updated.None? {
        DropAction(a);
        return;
      }
      var popped := PopTop(a.direction, a.steps[0].entryId, a.group.key);
      if popped.Some? {
        applied, revision := applied + 1, revision + 1;
        var entry := popped.value.(record := updated.value);
        if a.direction.Undo? {
          redo := redo + [entry];
        } else {
          undo := undo + [entry];
        }
      }
    }
  }
}
