/** The history stacks and the engine scene move together: a group run is a walk
    over the group's records, whatever refusals and retries interrupt it. */
module GroupWalks {
  import opened Options
  import opened Scenes
  import opened History
  import opened GroupActions

  /** Where one closed group sits: its entries' ids and what lies below it on
      either stack. */
  datatype Span = Span(group: Group, ids: seq<nat>, below: seq<Entry>, belowRedo: seq<Entry>)

  function EntryOf(sp: Span, rs: seq<Record>, i: nat): Entry
    requires i < |sp.ids| && i < |rs|
  {
    Entry(sp.ids[i], sp.group.key.generation, rs[i], sp.group)
  }

  /** The first `n` entries in recording order: what is still done. */
  function DoneEntries(sp: Span, rs: seq<Record>, n: nat): (out: seq<Entry>)
    requires n <= |sp.ids| == |rs|
    ensures |out| == n
    ensures forall i | 0 <= i < n :: out[i] == EntryOf(sp, rs, i)
  {
    seq(n, i requires 0 <= i < n => EntryOf(sp, rs, i))
  }

  /** The remaining entries, last first: what is undone. */
  function UndoneEntries(sp: Span, rs: seq<Record>, n: nat): (out: seq<Entry>)
    requires n <= |sp.ids| == |rs|
    ensures |out| == |rs| - n
    ensures forall j | 0 <= j < |out| :: out[j] == EntryOf(sp, rs, |rs| - 1 - j)
  {
    seq(|rs| - n, j requires 0 <= j < |rs| - n => EntryOf(sp, rs, |rs| - 1 - j))
  }

  ghost predicate Linked(h: Hist, sp: Span, w: Walk) {
    && |sp.ids| == |w.now|
    && w.at <= |w.now|
    && (forall i, j | 0 <= i < j < |sp.ids| :: sp.ids[i] != sp.ids[j])
    && h.active.None?
    && !HasGroup(sp.below, sp.group.key)
    && !HasGroup(sp.belowRedo, sp.group.key)
    && h.undo == sp.below + DoneEntries(sp, w.now, w.at)
    && h.redo == sp.belowRedo + UndoneEntries(sp, w.now, w.at)
  }

  function Left(w: Walk, d: Direction): nat
    requires w.at <= |w.now|
  {
    if d.Undo? then w.at else |w.now| - w.at
  }

  /** Position of the `j`-th step still ahead in direction `d`. */
  function Ahead(w: Walk, d: Direction, j: nat): nat
    requires w.at <= |w.now| && j < Left(w, d)
  {
    if d.Undo? then w.at - 1 - j else w.at + j
  }

  function StepsAhead(sp: Span, w: Walk, d: Direction): (out: seq<Step>)
    requires |sp.ids| == |w.now| && w.at <= |w.now|
    ensures |out| == Left(w, d)
    ensures forall j | 0 <= j < |out| :: out[j] == Step(sp.ids[Ahead(w, d, j)], w.now[Ahead(w, d, j)])
  {
    seq(Left(w, d), j requires 0 <= j < Left(w, d) => Step(sp.ids[Ahead(w, d, j)], w.now[Ahead(w, d, j)]))
  }

  // ---------------------------------------------------------------------------
  // Reading the stacks
  // ---------------------------------------------------------------------------

  /** On a stack holding `run` of one group above entries of other groups, the top
      steps are the run, topmost first. */
  lemma {:induction false} TopStepsAre(below: seq<Entry>, run: seq<Entry>, k: GroupKey)
    requires !HasGroup(below, k) && forall e <- run :: e.group.key == k
    ensures |TopSteps(below + run, k)| == |run|
    ensures forall j | 0 <= j < |run| ::
              TopSteps(below + run, k)[j] == Step(run[|run| - 1 - j].id, run[|run| - 1 - j].record)
    decreases |run|
  {
    if run == [] {
      assert below + run == below;
    } else {
      var s := below + run;
      assert s[..|s| - 1] == below + run[..|run| - 1];
      TopStepsAre(below, run[..|run| - 1], k);
    }
  }

  lemma {:induction false} FindStepIs(s: seq<Entry>, k: GroupKey, i: nat)
    requires i < |s| && s[i].group.key == k
    requires forall j | 0 <= j < |s| && s[j].group.key == k && s[j].id == s[i].id :: j == i
    ensures FindStep(s, k, s[i].id) == Some(Step(s[i].id, s[i].record))
    decreases |s|
  {
    if i > 0 {
      assert forall j | 0 <= j < |s| - 1 :: s[1..][j] == s[j + 1];
      FindStepIs(s[1..], k, i - 1);
    }
  }

  /** What an undo or redo of the group is prepared to do: all of it. */
  lemma PreparedStepsAre(h: Hist, sp: Span, w: Walk, d: Direction)
    requires Linked(h, sp, w)
    ensures TopSteps(Stack(h, d), sp.group.key) == StepsAhead(sp, w, d)
  {
    hide TopSteps, HasGroup;
    var run := if d.Undo? then DoneEntries(sp, w.now, w.at) else UndoneEntries(sp, w.now, w.at);
    TopStepsAre(if d.Undo? then sp.below else sp.belowRedo, run, sp.group.key);
    assert forall j | 0 <= j < |run| :: run[|run| - 1 - j] == EntryOf(sp, w.now, Ahead(w, d, j));
  }

  lemma NextStepRefreshes(h: Hist, sp: Span, w: Walk, d: Direction)
    requires Linked(h, sp, w) && Left(w, d) > 0
    ensures RefreshStep(h, d, sp.group.key, sp.ids[Ahead(w, d, 0)])
         == Some(Step(sp.ids[Ahead(w, d, 0)], w.now[Ahead(w, d, 0)]))
    ensures TopIs(h, d, sp.ids[Ahead(w, d, 0)], sp.group.key)
    ensures Stack(h, d)[|Stack(h, d)| - 1] == EntryOf(sp, w.now, Ahead(w, d, 0))
  {
    var s := Stack(h, d);
    FindStepIs(s, sp.group.key, |s| - 1);
  }

  // ---------------------------------------------------------------------------
  // One accepted step
  // ---------------------------------------------------------------------------

  /** The answer names the new id a redone create or duplicate needs. */
  predicate Usable(w: Walk, d: Direction, r: Reply)
    requires r.Accepted?
  {
    d.Redo? && w.at < |w.now| && w.now[w.at].Creates() ==> r.newId.Some? && r.newId.value != ""
  }

  function MoveFor(d: Direction, r: Reply): Move
    requires r.Accepted?
  {
    if d.Undo? then Back else Again(if r.newId.Some? then r.newId.value else "")
  }

  lemma RemapLeavesOthers(s: seq<Entry>, k: GroupKey, a: Id, b: Id)
    requires !HasGroup(s, k)
    ensures RemapStack(s, k, a, b) == s
  {
  }

  lemma RemapConcat(s: seq<Entry>, t: seq<Entry>, k: GroupKey, a: Id, b: Id)
    requires !HasGroup(s, k)
    ensures RemapStack(s + t, k, a, b) == s + RemapStack(t, k, a, b)
  {
    RemapLeavesOthers(s, k, a, b);
  }

  /** A redone create whose own parent and source are not the id it is given up for
      becomes, under the code's update, exactly its renamed record. */
  lemma UpdatedIsRenamed(cat: Catalog, w: Walk, n: Id)
    requires OnTrack(cat, w) && w.at < |w.now| && w.now[w.at].Creates() && n != ""
    ensures UpdatedRecord(w.now[w.at], Redo, Some(n)) == Some(RenRecord(w.now[w.at], w.now[w.at].createdId, n))
  {
    assert RecordedAt(cat, w.start, w.now, w.at);
    var r := w.now[w.at];
    assert Recorded(w.scene, r);
  }

  /** What an accepted step leaves of a pending group: one more counted, or nothing
      once no step is left. Everything else about the history stays. */
  predicate CountsPending(h: Hist, h1: Hist, k: GroupKey, left: nat) {
    && h1.generation == h.generation
    && h1.editUnsupported == h.editUnsupported
    && (if h.pendingGroup.None? || h.pendingGroup.value.group.key != k then
          h1.pending == h.pending && h1.pendingGroup == h.pendingGroup
        else if left > 0 then
          && h1.pending == h.pending
          && h1.pendingGroup == Some(h.pendingGroup.value.(completed := h.pendingGroup.value.completed + 1))
        else !h1.pending && h1.pendingGroup.None?)
  }

  /** A pending group of this key runs in direction `d`. */
  predicate PendingRuns(h: Hist, k: GroupKey, d: Direction) {
    h.pendingGroup.Some? && h.pendingGroup.value.group.key == k ==> h.pendingGroup.value.direction == d
  }

  lemma GroupLeftOnStack(h: Hist, sp: Span, w: Walk, d: Direction)
    requires Linked(h, sp, w)
    ensures HasGroup(Stack(h, d), sp.group.key) <==> Left(w, d) > 0
  {
    if Left(w, d) > 0 {
      NextStepRefreshes(h, sp, w, d);
    }
  }

  lemma RemappedRuns(sp: Span, w: Walk, a: Id, n: Id)
    requires |sp.ids| == |w.now| && w.at < |w.now|
    requires !HasGroup(sp.below, sp.group.key) && !HasGroup(sp.belowRedo, sp.group.key)
    ensures RemapStack(sp.belowRedo + UndoneEntries(sp, w.now, w.at + 1), sp.group.key, a, n)
         == sp.belowRedo + UndoneEntries(sp, RenAll(w.now, a, n), w.at + 1)
    ensures RemapStack(sp.below + DoneEntries(sp, w.now, w.at), sp.group.key, a, n)
         == sp.below + DoneEntries(sp, RenAll(w.now, a, n), w.at)
  {
    hide RenRecord, HasGroup;
    RemapConcat(sp.belowRedo, UndoneEntries(sp, w.now, w.at + 1), sp.group.key, a, n);
    RemapConcat(sp.below, DoneEntries(sp, w.now, w.at), sp.group.key, a, n);
    assert RemapStack(UndoneEntries(sp, w.now, w.at + 1), sp.group.key, a, n)
        == UndoneEntries(sp, RenAll(w.now, a, n), w.at + 1);
    assert RemapStack(DoneEntries(sp, w.now, w.at), sp.group.key, a, n)
        == DoneEntries(sp, RenAll(w.now, a, n), w.at);
  }

  lemma OneMoreDone(sp: Span, rs: seq<Record>, n: nat)
    requires n < |sp.ids| == |rs|
    ensures sp.below + DoneEntries(sp, rs, n) + [EntryOf(sp, rs, n)] == sp.below + DoneEntries(sp, rs, n + 1)
    ensures (sp.belowRedo + UndoneEntries(sp, rs, n))[..|sp.belowRedo| + |rs| - n - 1]
         == sp.belowRedo + UndoneEntries(sp, rs, n + 1)
    ensures sp.belowRedo + UndoneEntries(sp, rs, n + 1) + [EntryOf(sp, rs, n)]
         == sp.belowRedo + UndoneEntries(sp, rs, n)
    ensures (sp.below + DoneEntries(sp, rs, n + 1))[..|sp.below| + n] == sp.below + DoneEntries(sp, rs, n)
  {
  }

  /** The history with the stacks of walk `w`, one more edit applied. */
  function Restacked(h: Hist, sp: Span, now: seq<Record>, at: nat): Hist
    requires at <= |sp.ids| == |now|
  {
    h.(applied := h.applied + 1,
       revision := h.revision + 1,
       undo := sp.below + DoneEntries(sp, now, at),
       redo := sp.belowRedo + UndoneEntries(sp, now, at))
  }

  lemma RestackedIsLinked(cat: Catalog, h: Hist, sp: Span, w: Walk, m: Move, d: Direction)
    requires Linked(h, sp, w) && CanMove(w, m) && (m.Back? <==> d.Undo?) && PendingRuns(h, sp.group.key, d)
    ensures
      var w1 := Moved(cat, w, m);
      var h1 := CountPendingStep(Restacked(h, sp, w1.now, w1.at), sp.group.key);
      Linked(h1, sp, w1) && CountsPending(h, h1, sp.group.key, Left(w1, d))
  {
    hide DoneEntries, UndoneEntries, Perform, RequestFor, RenRecord, HasGroup;
    var w1 := Moved(cat, w, m);
    GroupLeftOnStack(Restacked(h, sp, w1.now, w1.at), sp, w1, d);
  }

  /** The stacks after an accepted undo step. */
  lemma UndoStepStacks(h: Hist, sp: Span, w: Walk, a: Action, newId: Option<Id>)
    requires Linked(h, sp, w) && w.at > 0
    requires a.direction == Undo && a.group == sp.group
    ensures FinishGroupStep(h, a, StepsAhead(sp, w, Undo)[0], newId)
         == (CountPendingStep(Restacked(h, sp, w.now, w.at - 1), sp.group.key), Applied)
  {
    hide DoneEntries, UndoneEntries, HasGroup, CountPendingStep;
    NextStepRefreshes(h, sp, w, Undo);
    OneMoreDone(sp, w.now, w.at - 1);
  }

  /** What a step that changes a created id does, spelled out. */
  lemma RenamingStep(h: Hist, a: Action, step: Step, n: Id, u: Record)
    requires a.direction == Redo && TopIs(h, Redo, step.entryId, a.group.key)
    requires step.record.Creates() && UpdatedRecord(step.record, Redo, Some(n)) == Some(u)
    requires n == CreatedId(u) != CreatedId(step.record) && h.active.None?
    ensures
      var k, before := a.group.key, CreatedId(step.record);
      var rest, top := h.redo[..|h.redo| - 1], h.redo[|h.redo| - 1];
      FinishGroupStep(h, a, step, Some(n))
      == (CountPendingStep(h.(applied := h.applied + 1,
                              revision := h.revision + 1,
                              undo := RemapStack(h.undo, k, before, n) + [top.(record := u)],
                              redo := RemapStack(rest, k, before, n)), k), Applied)
  {
    hide CountPendingStep, RemapStack, UpdatedRecord;
  }

  lemma RenamedCreatesTheNewId(r: Record, n: Id)
    requires r.Creates()
    ensures CreatedId(RenRecord(r, r.createdId, n)) == n
  {
  }

  lemma RenamingRedoStacks(cat: Catalog, h: Hist, sp: Span, w: Walk, a: Action, n: Id)
    requires Linked(h, sp, w) && OnTrack(cat, w) && w.at < |w.now|
    requires a.direction == Redo && a.group == sp.group
    requires w.now[w.at].Creates() && n != "" && n != w.now[w.at].createdId
    ensures FinishGroupStep(h, a, StepsAhead(sp, w, Redo)[0], Some(n))
         == (CountPendingStep(Restacked(h, sp, RedoneRecords(w.now, w.at, n), w.at + 1), sp.group.key), Applied)
  {
    hide OnTrack, DoneEntries, UndoneEntries, HasGroup, CountPendingStep, RemapStack, UpdatedRecord, RenRecord,
         FinishGroupStep, StepsAhead, RefreshStep, TopIs;
    var before := w.now[w.at].createdId;
    var now := RenAll(w.now, before, n);
    UpdatedIsRenamed(cat, w, n);
    NextStepRefreshes(h, sp, w, Redo);
    assert StepsAhead(sp, w, Redo)[0] == Step(sp.ids[w.at], w.now[w.at]);
    RenamedCreatesTheNewId(w.now[w.at], n);
    RenamingStep(h, a, Step(sp.ids[w.at], w.now[w.at]), n, now[w.at]);
    RemappedRuns(sp, w, before, n);
    OneMoreDone(sp, w.now, w.at);
    OneMoreDone(sp, now, w.at);
  }

  lemma RepeatingRedoStacks(h: Hist, sp: Span, w: Walk, a: Action, newId: Option<Id>)
    requires Linked(h, sp, w) && w.at < |w.now|
    requires a.direction == Redo && a.group == sp.group
    requires w.now[w.at].Creates() ==> newId == Some(w.now[w.at].createdId) && newId != Some("")
    ensures FinishGroupStep(h, a, StepsAhead(sp, w, Redo)[0], newId)
         == (CountPendingStep(Restacked(h, sp, w.now, w.at + 1), sp.group.key), Applied)
  {
    hide DoneEntries, UndoneEntries, HasGroup, CountPendingStep, RemapStack;
    NextStepRefreshes(h, sp, w, Redo);
    assert UpdatedRecord(w.now[w.at], Redo, newId) == Some(w.now[w.at]);
    OneMoreDone(sp, w.now, w.at);
  }

  /** The stacks after an accepted redo step, whatever id the answer names. */
  lemma RedoStepStacks(cat: Catalog, h: Hist, sp: Span, w: Walk, a: Action, r: Reply)
    requires Linked(h, sp, w) && OnTrack(cat, w) && w.at < |w.now|
    requires a.direction == Redo && a.group == sp.group
    requires r.Accepted? && Usable(w, Redo, r)
    ensures FinishGroupStep(h, a, StepsAhead(sp, w, Redo)[0], r.newId)
         == (CountPendingStep(Restacked(h, sp, RedoneRecords(w.now, w.at, MoveFor(Redo, r).newId), w.at + 1),
                              sp.group.key), Applied)
  {
    hide OnTrack, FinishGroupStep, CountPendingStep, Restacked;
    if w.now[w.at].Creates() && MoveFor(Redo, r).newId != w.now[w.at].createdId {
      RenamingRedoStacks(cat, h, sp, w, a, MoveFor(Redo, r).newId);
    } else {
      RepeatingRedoStacks(h, sp, w, a, r.newId);
    }
  }

  /** An accepted step of a linked group, in either direction, is one move of its walk. */
  lemma AcceptedStepMovesWalk(cat: Catalog, h: Hist, sp: Span, w: Walk, a: Action, r: Reply)
    requires Linked(h, sp, w) && OnTrack(cat, w) && Left(w, a.direction) > 0
    requires a.group == sp.group && PendingRuns(h, sp.group.key, a.direction)
    requires r.Accepted? && Usable(w, a.direction, r) && CanMove(w, MoveFor(a.direction, r))
    ensures
      var w1 := Moved(cat, w, MoveFor(a.direction, r));
      var (h1, o) := FinishGroupStep(h, a, StepsAhead(sp, w, a.direction)[0], r.newId);
      && o.Applied?
      && Linked(h1, sp, w1)
      && CountsPending(h, h1, sp.group.key, Left(w1, a.direction))
  {
    hide OnTrack, Usable, FinishGroupStep, CountPendingStep, Restacked;
    RestackedIsLinked(cat, h, sp, w, MoveFor(a.direction, r), a.direction);
    if a.direction.Undo? {
      UndoStepStacks(h, sp, w, a, r.newId);
    } else {
      RedoStepStacks(cat, h, sp, w, a, r);
    }
  }
}
