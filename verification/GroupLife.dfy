/** A group from its recording to its undo and redo. */
module GroupLife {
  import opened Options
  import opened Scenes
  import opened History
  import opened GroupActions
  import opened GroupWalks
  import opened GroupRuns

  // ---------------------------------------------------------------------------
  // Recording
  // ---------------------------------------------------------------------------

  function RecordEach(h: Hist, token: nat, source: Source, generation: nat, ids: seq<nat>, rs: seq<Record>, n: nat)
    : Hist
    requires n <= |ids| == |rs|
  {
    if n == 0 then h
    else RecordSuccess(RecordEach(h, token, source, generation, ids, rs, n - 1), Some(rs[n - 1]),
                       Context(source, ids[n - 1], generation, Some(token)))
  }

  function OpenEntries(token: nat, source: Source, generation: nat, ids: seq<nat>, rs: seq<Record>, n: nat)
    : (out: seq<Entry>)
    requires n <= |ids| == |rs|
    ensures |out| == n
    ensures forall i | 0 <= i < n ::
              out[i] == Entry(ids[i], generation, rs[i], Group(GroupKey(generation, token), source, i + 1, true))
  {
    seq(n, i requires 0 <= i < n =>
      Entry(ids[i], generation, rs[i], Group(GroupKey(generation, token), source, i + 1, true)))
  }

  /** While it takes edits, an open group holds them in order; the redo stack ends
      with the first one. */
  lemma {:induction false} OpenGroupHolds(h: Hist, token: nat, source: Source, generation: nat, ids: seq<nat>,
                                          rs: seq<Record>, n: nat)
    requires n <= |ids| == |rs| && n < MAX_EDITS
    ensures
      var h0 := BeginGroup(h, token, source, generation);
      var h1 := RecordEach(h0, token, source, generation, ids, rs, n);
      && h1.active == Some(ActiveGroup(token, Group(GroupKey(generation, token), source, 0, true),
                                       OpenEntries(token, source, generation, ids, rs, n)))
      && h1.undo == CloseActive(h).undo
      && h1.redo == (if n == 0 then h.redo else [])
      && h1.generation == h.generation && h1.pending == h.pending && h1.pendingGroup == h.pendingGroup
  {
    hide RecordSuccess, CloseActive, OpenEntries;
    if n > 0 {
      OpenGroupHolds(h, token, source, generation, ids, rs, n - 1);
      OneMoreOpen(token, source, generation, ids, rs, n - 1);
      var before := RecordEach(BeginGroup(h, token, source, generation), token, source, generation, ids, rs, n - 1);
      JoiningAnOpenGroup(before, rs[n - 1], Context(source, ids[n - 1], generation, Some(token)));
    } else {
      ClosingKeepsTheRest(h);
    }
  }

  lemma JoiningAnOpenGroup(h: Hist, r: Record, c: Context)
    requires h.active.Some? && c.groupToken == Some(h.active.value.token)
    requires h.active.value.group.key.generation == c.generation && h.active.value.group.source == c.source
    requires |h.active.value.entries| + 1 < MAX_EDITS
    ensures
      var g := h.active.value;
      var e := Entry(c.sequence, c.generation, r, g.group.(count := |g.entries| + 1));
      RecordSuccess(h, Some(r), c)
      == h.(applied := h.applied + 1, revision := h.revision + 1, active := Some(g.(entries := g.entries + [e])),
            redo := if g.entries == [] then [] else h.redo)
  {
  }

  lemma ClosingKeepsTheRest(h: Hist)
    ensures
      var c := CloseActive(h);
      c.redo == h.redo && c.generation == h.generation && c.pending == h.pending && c.pendingGroup == h.pendingGroup
  {
  }

  /** Recording `rs` into a new named group and closing it. The last edit a group
      may take closes it by itself. */
  function RecordGroup(h: Hist, token: nat, source: Source, generation: nat, ids: seq<nat>, rs: seq<Record>): Hist
    requires |ids| == |rs|
  {
    CloseActive(RecordEach(BeginGroup(h, token, source, generation), token, source, generation, ids, rs, |rs|))
  }

  function SpanOf(h: Hist, token: nat, source: Source, generation: nat, ids: seq<nat>): Span {
    Span(Group(GroupKey(generation, token), source, |ids|, true), ids, CloseActive(h).undo, [])
  }

  lemma SealedIsDone(h: Hist, token: nat, source: Source, generation: nat, ids: seq<nat>, rs: seq<Record>)
    requires |ids| == |rs|
    ensures Sealed(ActiveGroup(token, Group(GroupKey(generation, token), source, 0, true),
                               OpenEntries(token, source, generation, ids, rs, |rs|)))
         == DoneEntries(SpanOf(h, token, source, generation, ids), rs, |rs|)
  {
  }

  /** The history once an edit joined the open group `g`. */
  function Joined(h: Hist, g: ActiveGroup): Hist {
    h.(applied := h.applied + 1, revision := h.revision + 1, active := Some(g), redo := [])
  }

  /** Whether or not the edit closes the group by itself, closing it gives the same. */
  lemma JoiningThenClosing(h: Hist, r: Record, c: Context)
    requires h.active.Some? && c.groupToken == Some(h.active.value.token)
    requires h.active.value.group.key.generation == c.generation && h.active.value.group.source == c.source
    requires h.active.value.entries != [] ==> h.redo == []
    ensures
      var g := h.active.value;
      var e := Entry(c.sequence, c.generation, r, g.group.(count := |g.entries| + 1));
      CloseActive(RecordSuccess(h, Some(r), c)) == CloseActive(Joined(h, g.(entries := g.entries + [e])))
  {
    hide Sealed;
  }

  lemma LastEditJoins(h: Hist, token: nat, source: Source, generation: nat, ids: seq<nat>, rs: seq<Record>)
    requires 0 < |rs| == |ids| <= MAX_EDITS
    ensures
      var h0 := RecordEach(BeginGroup(h, token, source, generation), token, source, generation, ids, rs, |rs| - 1);
      RecordGroup(h, token, source, generation, ids, rs)
      == CloseActive(Joined(h0, ActiveGroup(token, Group(GroupKey(generation, token), source, 0, true),
                                            OpenEntries(token, source, generation, ids, rs, |rs|))))
  {
    hide CloseActive, RecordSuccess, BeginGroup, OpenEntries, Joined;
    var n := |rs|;
    var h0 := RecordEach(BeginGroup(h, token, source, generation), token, source, generation, ids, rs, n - 1);
    OpenGroupHolds(h, token, source, generation, ids, rs, n - 1);
    OneMoreOpen(token, source, generation, ids, rs, n - 1);
    JoiningThenClosing(h0, rs[n - 1], Context(source, ids[n - 1], generation, Some(token)));
  }

  lemma OneMoreOpen(token: nat, source: Source, generation: nat, ids: seq<nat>, rs: seq<Record>, n: nat)
    requires n < |ids| == |rs|
    ensures OpenEntries(token, source, generation, ids, rs, n)
          + [Entry(ids[n], generation, rs[n], Group(GroupKey(generation, token), source, n + 1, true))]
         == OpenEntries(token, source, generation, ids, rs, n + 1)
  {
  }

  lemma RecordedGroupStacks(h: Hist, token: nat, source: Source, generation: nat, ids: seq<nat>, rs: seq<Record>)
    requires 0 < |rs| == |ids| <= MAX_EDITS
    ensures
      var h1 := RecordGroup(h, token, source, generation, ids, rs);
      && h1.undo == CloseActive(h).undo + DoneEntries(SpanOf(h, token, source, generation, ids), rs, |rs|)
      && h1.redo == []
      && h1.active.None?
      && h1.generation == h.generation && h1.pending == h.pending && h1.pendingGroup == h.pendingGroup
  {
    hide RecordEach, BeginGroup, Sealed, RecordGroup;
    OpenGroupHolds(h, token, source, generation, ids, rs, |rs| - 1);
    LastEditJoins(h, token, source, generation, ids, rs);
    SealedIsDone(h, token, source, generation, ids, rs);
  }

  /** A recorded and closed group is on track: its entries are its edits in order,
      ready to be walked back. */
  lemma RecordedGroupIsLinked(cat: Catalog, h: Hist, token: nat, source: Source, generation: nat, ids: seq<nat>,
                              rs: seq<Record>, start: Scene)
    requires 0 < |rs| == |ids| <= MAX_EDITS
    requires forall i, j | 0 <= i < j < |ids| :: ids[i] != ids[j]
    requires !HasGroup(CloseActive(h).undo, GroupKey(generation, token))
    requires Closed(start) && Traced(cat, start, rs)
    ensures
      var sp := SpanOf(h, token, source, generation, ids);
      var w := Walk(start, rs, [], rs, |rs|, Replay(cat, start, rs, |rs|));
      var h1 := RecordGroup(h, token, source, generation, ids, rs);
      && OnTrack(cat, w) && Linked(h1, sp, w)
      && h1.generation == h.generation && h1.pending == h.pending && h1.pendingGroup == h.pendingGroup
  {
    hide Traced, Replay, Closed, HasGroup, RecordGroup;
    RecordedGroupStacks(h, token, source, generation, ids, rs);
    var sp := SpanOf(h, token, source, generation, ids);
    assert sp.belowRedo + UndoneEntries(sp, rs, |rs|) == [];
    NoGroupOnEmptyStack(sp.group.key);
  }

  lemma NoGroupOnEmptyStack(k: GroupKey)
    ensures !HasGroup([], k)
  {
  }

  // ---------------------------------------------------------------------------
  // What a group worked off means for the scene
  // ---------------------------------------------------------------------------

  /** Undone to the end, through whatever refusals and retries, the engine's scene
      is the one the group started from; redone to the end it is the scene the
      group made, with created ids renamed and no id of the start moved. */
  lemma WorkedOffGroupRestoresScene(cat: Catalog, h: Hist, sp: Span, w: Walk, lease: nat, d: Direction,
                                    first: seq<Around>, envs: seq<seq<Around>>)
    requires Linked(h, sp, w) && OnTrack(cat, w) && h.generation == Some(lease)
    requires !h.pending && h.pendingGroup.None? && Left(w, d) == |w.now| > 0
    requires AnsweredAll(cat, w, d, lease, [first] + envs)
    requires
      var end := WalkAfter(cat, w, d, lease, [first] + envs);
      end.at <= |end.now| && Left(end, d) == 0
    ensures
      var a := Action(d, sp.group, TopSteps(Stack(h, d), sp.group.key), true);
      && |first| == |a.steps|
      && var r := RunGroup(h, lease, a, false, first);
      && Fits(r.hist, lease, envs)
      && var (h1, more) := Retries(r.hist, lease, envs);
      var w1 := WalkAfter(cat, w, d, lease, [first] + envs);
      && WorkedOff(cat, h1, sp, w1, lease, d)
      && AcceptedIds(r.sent + more) == IdsAhead(sp, w, d)
      && (if d.Undo? then EngineAfter(cat, w.scene, r.sent + more) == w1.start
          else Fixes(w1.sub, w1.start)
               && EngineAfter(cat, w.scene, r.sent + more)
               == RenamedScene(w1.sub, Replay(cat, w1.start, w1.before, |w1.before|)))
      && w1.start == w.start && w1.before == w.before
      && h1.editUnsupported == h.editUnsupported
  {
    hide RunGroup, Linked, DoneEntries, UndoneEntries, Retries, Fits, TopSteps, Answered, HeldUp, Replay, EngineAfter,
         AcceptedIds, RenamedScene, Fixes, ExactlyOnce, IdsAhead;
    var w1 := WalkAfter(cat, w, d, lease, [first] + envs);
    GroupIsExactlyOnce(cat, h, sp, w, lease, d, first, envs);
    var a := Action(d, sp.group, TopSteps(Stack(h, d), sp.group.key), true);
    var r := RunGroup(h, lease, a, false, first);
    var (h1, more) := Retries(r.hist, lease, envs);
    LinkedSizes(h, sp, w);
    WorkedOffExactlyOnce(cat, h, sp, w, lease, d, w1, h1, r.sent + more);
    OnTrackEnds(cat, w1);
    WalkAfterKeepsStart(cat, w, d, lease, [first] + envs);
  }

  lemma LinkedSizes(h: Hist, sp: Span, w: Walk)
    requires Linked(h, sp, w)
    ensures |sp.ids| == |w.now| && w.at <= |w.now|
  {
  }

  lemma WorkedOffExactlyOnce(cat: Catalog, h: Hist, sp: Span, w: Walk, lease: nat, d: Direction,
                             w1: Walk, h1: Hist, sent: seq<Exchange>)
    requires |sp.ids| == |w.now| && w.at <= |w.now| && w1.at <= |w1.now| && Left(w1, d) == 0
    requires ExactlyOnce(cat, h, sp, w, lease, d, 0, w1, h1, sent)
    ensures WorkedOff(cat, h1, sp, w1, lease, d) && h1.editUnsupported == h.editUnsupported
    ensures AcceptedIds(sent) == IdsAhead(sp, w, d) && EngineAfter(cat, w.scene, sent) == w1.scene
  {
    hide WorkedOff, HeldUp, EngineAfter, AcceptedIds;
    assert IdsAhead(sp, w, d)[..Left(w, d)] == IdsAhead(sp, w, d);
  }

  lemma {:induction false} WalkAfterKeepsStart(cat: Catalog, w: Walk, d: Direction, lease: nat, envs: seq<seq<Around>>)
    requires AnsweredAll(cat, w, d, lease, envs)
    ensures WalkAfter(cat, w, d, lease, envs).start == w.start && WalkAfter(cat, w, d, lease, envs).before == w.before
    decreases |envs|
  {
    if envs != [] && Left(w, d) > 0 {
      var ms := AcceptedMoves(cat, w, d, lease, envs[0]);
      WalkedKeepsStart(cat, w, ms);
      WalkAfterKeepsStart(cat, Walked(cat, w, ms), d, lease, envs[1..]);
    }
  }

  lemma {:induction false} WalkedKeepsStart(cat: Catalog, w: Walk, ms: seq<Move>)
    requires Walkable(cat, w, ms)
    ensures Walked(cat, w, ms).start == w.start && Walked(cat, w, ms).before == w.before
    decreases |ms|
  {
    if ms != [] {
      WalkedKeepsStart(cat, Moved(cat, w, ms[0]), ms[1..]);
    }
  }

  /** An ungrouped undo or redo is a group of one: answered usably, it leaves what the
      group's step would. */
  lemma SingleActionIsAGroupOfOne(h: Hist, sp: Span, w: Walk, a: Action, newId: Option<Id>)
    requires Linked(h, sp, w) && |w.now| == 1 && Left(w, a.direction) == 1 && h.pendingGroup.None?
    requires a.group == sp.group && a.steps == StepsAhead(sp, w, a.direction)
    requires UpdatedRecord(a.steps[0].record, a.direction, newId).Some?
    ensures FinishSingle(h, a, true, newId) == FinishGroupStep(h, a, a.steps[0], newId).0
    ensures FinishGroupStep(h, a, a.steps[0], newId).1.Applied?
  {
    hide UpdatedRecord, RefreshStep, DoneEntries, UndoneEntries, HasGroup, FinishSingle, FinishGroupStep;
    NextStepRefreshes(h, sp, w, a.direction);
    PoppedGroupOfOne(h, sp, w, a.direction);
    SingleIsTheGroupStep(h, a, newId);
  }

  lemma SingleIsTheGroupStep(h: Hist, a: Action, newId: Option<Id>)
    requires a.steps != [] && h.active.None? && h.pendingGroup.None?
    requires TopIs(h, a.direction, a.steps[0].entryId, a.group.key)
    requires UpdatedRecord(a.steps[0].record, a.direction, newId).Some?
    requires !HasGroup(PopTop(h, a.direction).undo, a.group.key) && !HasGroup(PopTop(h, a.direction).redo, a.group.key)
    ensures FinishSingle(h, a, true, newId) == FinishGroupStep(h, a, a.steps[0], newId).0
    ensures FinishGroupStep(h, a, a.steps[0], newId).1.Applied?
  {
    hide UpdatedRecord, RemapAll, HasGroup, CreatedId, Record.Creates;
    var u := UpdatedRecord(a.steps[0].record, a.direction, newId).value;
    NothingToRemap(PopTop(h, a.direction).(applied := h.applied + 1, revision := h.revision + 1), a.group.key,
                   CreatedId(a.steps[0].record), CreatedId(u));
  }

  lemma PoppedGroupOfOne(h: Hist, sp: Span, w: Walk, d: Direction)
    requires Linked(h, sp, w) && |w.now| == 1 && Left(w, d) == 1 && Stack(h, d) != []
    ensures PopTop(h, d).undo == sp.below && PopTop(h, d).redo == sp.belowRedo && h.active.None?
    ensures !HasGroup(sp.below, sp.group.key) && !HasGroup(sp.belowRedo, sp.group.key)
  {
    hide HasGroup;
  }

  lemma NothingToRemap(h: Hist, k: GroupKey, a: Id, b: Id)
    requires !HasGroup(h.undo, k) && !HasGroup(h.redo, k) && h.active.None?
    ensures RemapAll(h, k, a, b) == h
  {
    RemapLeavesOthers(h.undo, k, a, b);
    RemapLeavesOthers(h.redo, k, a, b);
  }

  // ---------------------------------------------------------------------------
  // Where the reported count falls behind
  // ---------------------------------------------------------------------------

  /** An accepted step is counted exactly when its answer is usable. A redone create
      whose answer names no id was accepted by the engine but is not counted; the
      group is then held with its outcome unknown and cannot be retried. */
  lemma AcceptedStepIsCountedIffUsable(cat: Catalog, h: Hist, sp: Span, w: Walk, lease: nat, a: Action,
                                       completed: nat, queued: Step, x: Around)
    requires Linked(h, sp, w) && OnTrack(cat, w) && Left(w, a.direction) > 0 && h.generation == Some(lease)
    requires a.group == sp.group && queued.entryId == sp.ids[Ahead(w, a.direction, 0)]
    requires Steady(x, lease) && x.reply.value.Accepted?
    ensures OneStep(h, lease, a, completed, queued, x).2.None? <==> Usable(w, a.direction, x.reply.value)
    ensures !Usable(w, a.direction, x.reply.value) ==>
              var h1 := OneStep(h, lease, a, completed, queued, x).0;
              h1.pending && h1.pendingGroup == Some(Pending(a.direction, a.group, completed, true, false))
              && PrepareRetry(h1).None?
  {
    hide OnTrack, HasGroup, RefreshStep, CountPendingStep, TopSteps, Restacked;
    NextStepRefreshes(h, sp, w, a.direction);
    var step := StepsAhead(sp, w, a.direction)[0];
    if a.direction.Undo? {
      UndoStepStacks(h, sp, w, a, x.reply.value.newId);
    } else if Usable(w, Redo, x.reply.value) {
      RedoStepStacks(cat, h, sp, w, a, x.reply.value);
    } else {
      assert UpdatedRecord(step.record, Redo, x.reply.value.newId).None?;
    }
  }

  /** Such a redo: the engine creates the object but names no id. One request was
      accepted, none is counted, and the group can only be discarded. */
  lemma CountFallsBehind()
    ensures
      var key, r := GroupKey(1, 7), Create("a", None, None);
      var group := Group(key, Ui, 1, true);
      var h := Hist(Some(1), 0, 0, [], [Entry(7, 1, r, group)], false, false, None, None);
      var run := RunGroup(h, 1, Action(Redo, group, [Step(7, r)], true), false,
                          [Around(true, true, Some(Accepted(None)), Some(1))]);
      && AcceptedIds(run.sent) == [7] && run.completed == 0
      && run.hist.pendingGroup == Some(Pending(Redo, group, 0, true, false)) && PrepareRetry(run.hist).None?
  {
    hide TopSteps, HasGroup;
    var key, r := GroupKey(1, 7), Create("a", None, None);
    var group := Group(key, Ui, 1, true);
    var h := Hist(Some(1), 0, 0, [], [Entry(7, 1, r, group)], false, false, None, None);
    var x := Around(true, true, Some(Accepted(None)), Some(1));
    assert RefreshStep(h, Redo, key, 7) == Some(Step(7, r));
    var one := OneStep(h, 1, Action(Redo, group, [Step(7, r)], true), 0, Step(7, r), x);
    assert one.1 == [Exchange(7, RequestFor(r, Redo), x.reply)] && one.2 == Some(Failed);
    assert one.1[1..] == [];
  }
}
