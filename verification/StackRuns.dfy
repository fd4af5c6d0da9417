/** A whole stack of groups undone and redone by the history: every group through its
    refusals and retries, ungrouped edits included. */
module StackRuns {
  import opened Options
  import opened Scenes
  import opened History
  import opened GroupActions
  import opened GroupWalks
  import opened GroupRuns
  import opened GroupLife
  import opened GroupStacks

  // ---- groups on the stacks ----

  /** A closed group: its entries' ids and their records. */
  datatype Block = Block(group: Group, ids: seq<nat>, records: seq<Record>)

  predicate BlockOk(b: Block) {
    && 0 < |b.ids| == |b.records|
    && (forall i, j | 0 <= i < j < |b.ids| :: b.ids[i] != b.ids[j])
    && (!b.group.named ==> |b.ids| == 1)
  }

  predicate BlocksOk(bs: seq<Block>) {
    && (forall i | 0 <= i < |bs| :: BlockOk(bs[i]))
    && (forall i, j | 0 <= i < j < |bs| :: bs[i].group.key != bs[j].group.key)
  }

  function SpanOn(b: Block, below: seq<Entry>, belowRedo: seq<Entry>): Span {
    Span(b.group, b.ids, below, belowRedo)
  }

  /** The undo stack: the group recorded first lies at the bottom. */
  function DoneStack(bs: seq<Block>): seq<Entry>
    requires forall i | 0 <= i < |bs| :: BlockOk(bs[i])
  {
    if bs == [] then []
    else
      var b := bs[|bs| - 1];
      assert BlockOk(b);
      DoneStack(bs[..|bs| - 1]) + DoneEntries(SpanOn(b, [], []), b.records, |b.records|)
  }

  /** The redo stack: the group recorded first lies on top. */
  function UndoneStack(bs: seq<Block>): seq<Entry>
    requires forall i | 0 <= i < |bs| :: BlockOk(bs[i])
  {
    if bs == [] then []
    else
      assert BlockOk(bs[0]);
      UndoneStack(bs[1..]) + UndoneEntries(SpanOn(bs[0], [], []), bs[0].records, 0)
  }

  /** An idle history whose first `i` groups are done and the others undone. */
  ghost predicate Holds(h: Hist, lease: nat, bs: seq<Block>, i: nat) {
    && i <= |bs| && BlocksOk(bs)
    && h.active.None? && !h.pending && h.pendingGroup.None? && !h.editUnsupported
    && h.generation == Some(lease)
    && h.undo == DoneStack(bs[..i])
    && h.redo == UndoneStack(bs[i..])
  }

  lemma {:induction false} NotOnDoneStack(bs: seq<Block>, k: GroupKey)
    requires forall i | 0 <= i < |bs| :: BlockOk(bs[i]) && bs[i].group.key != k
    ensures !HasGroup(DoneStack(bs), k)
    decreases |bs|
  {
    if bs != [] { NotOnDoneStack(bs[..|bs| - 1], k); }
  }

  lemma {:induction false} NotOnUndoneStack(bs: seq<Block>, k: GroupKey)
    requires forall i | 0 <= i < |bs| :: BlockOk(bs[i]) && bs[i].group.key != k
    ensures !HasGroup(UndoneStack(bs), k)
    decreases |bs|
  {
    if bs != [] { NotOnUndoneStack(bs[1..], k); }
  }

  lemma OneMoreDoneGroup(bs: seq<Block>, i: nat, below: seq<Entry>, belowRedo: seq<Entry>)
    requires i < |bs| && BlocksOk(bs)
    ensures DoneStack(bs[..i + 1])
         == DoneStack(bs[..i]) + DoneEntries(SpanOn(bs[i], below, belowRedo), bs[i].records, |bs[i].records|)
  {
    assert bs[..i + 1][..i] == bs[..i];
    assert DoneEntries(SpanOn(bs[i], below, belowRedo), bs[i].records, |bs[i].records|)
        == DoneEntries(SpanOn(bs[i], [], []), bs[i].records, |bs[i].records|);
  }

  lemma OneMoreUndoneGroup(bs: seq<Block>, i: nat, below: seq<Entry>, belowRedo: seq<Entry>)
    requires i < |bs| && BlocksOk(bs)
    ensures UndoneStack(bs[i..])
         == UndoneStack(bs[i + 1..]) + UndoneEntries(SpanOn(bs[i], below, belowRedo), bs[i].records, 0)
  {
    assert bs[i..][1..] == bs[i + 1..];
    assert UndoneEntries(SpanOn(bs[i], below, belowRedo), bs[i].records, 0)
        == UndoneEntries(SpanOn(bs[i], [], []), bs[i].records, 0);
  }

  /** Group `i` with the groups around it. */
  function SpanAt(bs: seq<Block>, i: nat): Span
    requires i < |bs| && BlocksOk(bs)
  {
    SpanOn(bs[i], DoneStack(bs[..i]), UndoneStack(bs[i + 1..]))
  }

  lemma HeldGroupIsLinked(h: Hist, lease: nat, bs: seq<Block>, i: nat, w: Walk)
    requires i < |bs| && w.now == bs[i].records
    requires (w.at == |w.now| && Holds(h, lease, bs, i + 1)) || (w.at == 0 && Holds(h, lease, bs, i))
    ensures Linked(h, SpanAt(bs, i), w)
  {
    hide DoneStack, UndoneStack, HasGroup;
    var sp := SpanAt(bs, i);
    NotOnDoneStack(bs[..i], bs[i].group.key);
    NotOnUndoneStack(bs[i + 1..], bs[i].group.key);
    if Holds(h, lease, bs, i + 1) && w.at == |w.now| {
      OneMoreDoneGroup(bs, i, sp.below, sp.belowRedo);
    } else {
      OneMoreUndoneGroup(bs, i, sp.below, sp.belowRedo);
    }
  }

  /** Group `i` under other records. */
  function WithRecords(bs: seq<Block>, i: nat, rs: seq<Record>): seq<Block>
    requires i < |bs|
  {
    bs[i := bs[i].(records := rs)]
  }

  lemma WorkedOffGroupIsHeld(cat: Catalog, h: Hist, lease: nat, bs: seq<Block>, i: nat, w: Walk, d: Direction)
    requires i < |bs| && BlocksOk(bs) && |w.now| == |bs[i].ids| && !h.editUnsupported
    requires WorkedOff(cat, h, SpanAt(bs, i), w, lease, d)
    ensures Holds(h, lease, WithRecords(bs, i, w.now), if d.Undo? then i else i + 1)
  {
    hide DoneStack, UndoneStack, HasGroup, OnTrack;
    var sp, cs := SpanAt(bs, i), WithRecords(bs, i, w.now);
    assert cs[..i] == bs[..i] && cs[i + 1..] == bs[i + 1..];
    OneMoreDoneGroup(cs, i, sp.below, sp.belowRedo);
    OneMoreUndoneGroup(cs, i, sp.below, sp.belowRedo);
  }

  // ---- how the stack comes about ----

  lemma {:induction false} RecordingKeepsSupport(h: Hist, token: nat, source: Source, generation: nat, ids: seq<nat>,
                                                 rs: seq<Record>, n: nat)
    requires n <= |ids| == |rs|
    ensures RecordEach(h, token, source, generation, ids, rs, n).editUnsupported == h.editUnsupported
  {
    hide Sealed;
    if n > 0 { RecordingKeepsSupport(h, token, source, generation, ids, rs, n - 1); }
  }

  lemma OnTopOfAll(bs: seq<Block>, b: Block)
    requires BlocksOk(bs) && BlockOk(b) && forall i | 0 <= i < |bs| :: bs[i].group.key != b.group.key
    ensures BlocksOk(bs + [b])
    ensures DoneStack((bs + [b])[..|bs| + 1])
         == DoneStack(bs[..|bs|]) + DoneEntries(SpanOn(b, DoneStack(bs[..|bs|]), []), b.records, |b.records|)
    ensures UndoneStack((bs + [b])[|bs| + 1..]) == []
  {
    hide DoneStack;
    var cs := bs + [b];
    OneMoreDoneGroup(cs, |bs|, DoneStack(bs[..|bs|]), []);
    assert cs[..|bs|] == bs[..|bs|];
  }

  /** A named group recorded and closed, up to the limit of its edits, lies on top of the
      stack; what was still to be redone is gone. */
  lemma RecordedGroupIsHeld(h: Hist, lease: nat, bs: seq<Block>, token: nat, source: Source, ids: seq<nat>,
                            rs: seq<Record>)
    requires Holds(h, lease, bs, |bs|) && 0 < |rs| == |ids| <= MAX_EDITS
    requires forall i, j | 0 <= i < j < |ids| :: ids[i] != ids[j]
    requires forall i | 0 <= i < |bs| :: bs[i].group.key != GroupKey(lease, token)
    ensures Holds(RecordGroup(h, token, source, lease, ids, rs), lease,
                  bs + [Block(Group(GroupKey(lease, token), source, |ids|, true), ids, rs)], |bs| + 1)
  {
    hide DoneStack, UndoneStack, RecordEach, DoneEntries;
    RecordedGroupStacks(h, token, source, lease, ids, rs);
    RecordingKeepsSupport(BeginGroup(h, token, source, lease), token, source, lease, ids, rs, |rs|);
    OnTopOfAll(bs, Block(Group(GroupKey(lease, token), source, |ids|, true), ids, rs));
  }

  /** So does an edit outside a group, as a group of one. */
  lemma RecordedEditIsHeld(h: Hist, lease: nat, bs: seq<Block>, source: Source, id: nat, r: Record)
    requires Holds(h, lease, bs, |bs|)
    requires forall i | 0 <= i < |bs| :: bs[i].group.key != GroupKey(lease, id)
    ensures Holds(RecordSuccess(h, Some(r), Context(source, id, lease, None)), lease,
                  bs + [Block(Group(GroupKey(lease, id), source, 1, false), [id], [r])], |bs| + 1)
  {
    hide DoneStack, UndoneStack;
    OnTopOfAll(bs, Block(Group(GroupKey(lease, id), source, 1, false), [id], [r]));
  }

  // ---- one undo or redo ----

  /** The answers to one undo or redo: its first run, and the retries behind it. */
  datatype Play = Play(first: seq<Around>, envs: seq<seq<Around>>)

  ghost predicate PlayFits(h: Hist, lease: nat, a: Action, p: Play) {
    && |p.first| == |a.steps| > 0
    && (if a.grouped then Fits(RunGroup(h, lease, a, false, p.first).hist, lease, p.envs)
        else p.first[0].reply.Some?)
  }

  /** What an undo or redo does: the group's run and retries, or one request of an
      ungrouped edit. */
  ghost function Played(h: Hist, lease: nat, d: Direction, p: Play): (Hist, seq<Exchange>) {
    var a := Prepared(h, d);
    if a.None? || !PlayFits(h, lease, a.value, p) then (h, [])
    else if a.value.grouped then
      var r := RunGroup(h, lease, a.value, false, p.first);
      var (h1, more) := Retries(r.hist, lease, p.envs);
      (h1, r.sent + more)
    else
      var step, reply := a.value.steps[0], p.first[0].reply.value;
      (FinishSingle(h, a.value, reply.Accepted?, if reply.Accepted? then reply.newId else None),
       [Exchange(step.entryId, RequestFor(step.record, d), Some(reply))])
  }

  /** Answers to the group walked by `w`, to the end of it: outcomes known, ids usable and
      fresh. An ungrouped edit has no retries. */
  ghost predicate Answers(cat: Catalog, w: Walk, d: Direction, lease: nat, named: bool, p: Play) {
    && AnsweredAll(cat, w, d, lease, [p.first] + p.envs)
    && var end := WalkAfter(cat, w, d, lease, [p.first] + p.envs);
    end.at <= |end.now| && Left(end, d) == 0
    && (!named ==> p.envs == [])
  }

  ghost function Ended(cat: Catalog, w: Walk, d: Direction, lease: nat, p: Play): Walk
    requires AnsweredAll(cat, w, d, lease, [p.first] + p.envs)
  {
    WalkAfter(cat, w, d, lease, [p.first] + p.envs)
  }

  lemma PreparedIs(h: Hist, lease: nat, bs: seq<Block>, i: nat, w: Walk, d: Direction)
    requires i < |bs| && w.now == bs[i].records
    requires if d.Undo? then w.at == |w.now| && Holds(h, lease, bs, i + 1) else w.at == 0 && Holds(h, lease, bs, i)
    ensures Prepared(h, d)
         == Some(Action(d, bs[i].group, StepsAhead(SpanAt(bs, i), w, d), bs[i].group.named))
    ensures TopSteps(Stack(h, d), bs[i].group.key) == StepsAhead(SpanAt(bs, i), w, d)
  {
    hide DoneStack, UndoneStack, HasGroup, TopSteps, DoneEntries, UndoneEntries;
    HeldGroupIsLinked(h, lease, bs, i, w);
    PreparedStepsAre(h, SpanAt(bs, i), w, d);
    assert BlockOk(bs[i]);
    NextStepRefreshes(h, SpanAt(bs, i), w, d);
  }

  lemma PlayedGroup(cat: Catalog, h: Hist, lease: nat, bs: seq<Block>, i: nat, w: Walk, d: Direction, p: Play)
    requires i < |bs| && w.now == bs[i].records && OnTrack(cat, w) && bs[i].group.named
    requires if d.Undo? then w.at == |w.now| && Holds(h, lease, bs, i + 1) else w.at == 0 && Holds(h, lease, bs, i)
    requires Answers(cat, w, d, lease, bs[i].group.named, p)
    ensures
      var (h1, sent) := Played(h, lease, d, p);
      var w1 := Ended(cat, w, d, lease, p);
      && WorkedOff(cat, h1, SpanAt(bs, i), w1, lease, d) && !h1.editUnsupported
      && EngineAfter(cat, w.scene, sent) == w1.scene
      && w1.start == w.start && w1.before == w.before
  {
    hide DoneStack, UndoneStack, HasGroup, TopSteps, DoneEntries, UndoneEntries, RunGroup, Retries, Fits, OnTrack,
         AnsweredAll, WalkAfter, EngineAfter, Linked, Replay, RenamedScene, Fixes, AcceptedIds, IdsAhead;
    assert BlockOk(bs[i]);
    PreparedIs(h, lease, bs, i, w, d);
    HeldGroupIsLinked(h, lease, bs, i, w);
    GroupIsExactlyOnce(cat, h, SpanAt(bs, i), w, lease, d, p.first, p.envs);
    WorkedOffGroupRestoresScene(cat, h, SpanAt(bs, i), w, lease, d, p.first, p.envs);
    var a := Action(d, bs[i].group, StepsAhead(SpanAt(bs, i), w, d), true);
    assert PlayFits(h, lease, a, p);
  }

  /** The one answer to an ungrouped edit worked off is an acceptance. */
  lemma OneAnswer(cat: Catalog, w: Walk, d: Direction, lease: nat, p: Play)
    requires OnTrack(cat, w) && |w.now| == Left(w, d) == 1 && Answers(cat, w, d, lease, false, p)
    ensures |p.first| == 1 && Steady(p.first[0], lease) && p.first[0].reply.value.Accepted?
    ensures
      var r := p.first[0].reply.value;
      && Usable(w, d, r) && CanMove(w, MoveFor(d, r))
      && Ended(cat, w, d, lease, p) == Moved(cat, w, MoveFor(d, r)) && OnTrack(cat, Moved(cat, w, MoveFor(d, r)))
  {
    hide Perform, RequestFor, RenRecord, OnTrack;
    assert [p.first] + p.envs == [p.first] && [p.first][1..] == [];
    assert w.at <= |w.now|;
    var ms := AcceptedMoves(cat, w, d, lease, p.first);
    assert Ended(cat, w, d, lease, p) == WalkAfter(cat, Walked(cat, w, ms), d, lease, []) == Walked(cat, w, ms);
    if p.first[0].reply.value.Accepted? {
      var m := MoveFor(d, p.first[0].reply.value);
      assert ms == [m] + AcceptedMoves(cat, Moved(cat, w, m), d, lease, p.first[1..]) && p.first[1..] == [];
      assert Walked(cat, w, ms) == Walked(cat, Moved(cat, w, m), ms[1..]) && ms[1..] == [];
      if d.Undo? { BackStaysOnTrack(cat, w); } else { AgainStaysOnTrack(cat, w, ms[0].newId); }
    }
  }

  lemma PlayedSingle(cat: Catalog, h: Hist, lease: nat, bs: seq<Block>, i: nat, w: Walk, d: Direction, p: Play)
    requires i < |bs| && w.now == bs[i].records && OnTrack(cat, w) && !bs[i].group.named
    requires if d.Undo? then w.at == |w.now| && Holds(h, lease, bs, i + 1) else w.at == 0 && Holds(h, lease, bs, i)
    requires Answers(cat, w, d, lease, bs[i].group.named, p)
    ensures
      var (h1, sent) := Played(h, lease, d, p);
      var w1 := Ended(cat, w, d, lease, p);
      && WorkedOff(cat, h1, SpanAt(bs, i), w1, lease, d) && !h1.editUnsupported
      && EngineAfter(cat, w.scene, sent) == w1.scene
      && w1.start == w.start && w1.before == w.before
  {
    hide DoneStack, UndoneStack, HasGroup, TopSteps, DoneEntries, UndoneEntries, OnTrack, FinishSingle,
         FinishGroupStep, AnsweredAll, WalkAfter, Linked, Perform, RequestFor, RenRecord;
    assert BlockOk(bs[i]);
    PreparedIs(h, lease, bs, i, w, d);
    HeldGroupIsLinked(h, lease, bs, i, w);
    OneAnswer(cat, w, d, lease, p);
    var sp, r := SpanAt(bs, i), p.first[0].reply.value;
    var a := Action(d, bs[i].group, StepsAhead(sp, w, d), false);
    AcceptedStepMovesWalk(cat, h, sp, w, a, r);
    SingleActionIsAGroupOfOne(h, sp, w, a, r.newId);
    RequestMovesScene(cat, w, d, r);
  }

  lemma PlayedBlock(cat: Catalog, h: Hist, lease: nat, bs: seq<Block>, i: nat, w: Walk, d: Direction, p: Play)
    requires i < |bs| && w.now == bs[i].records && OnTrack(cat, w)
    requires if d.Undo? then w.at == |w.now| && Holds(h, lease, bs, i + 1) else w.at == 0 && Holds(h, lease, bs, i)
    requires Answers(cat, w, d, lease, bs[i].group.named, p)
    ensures
      var (h1, sent) := Played(h, lease, d, p);
      var w1 := Ended(cat, w, d, lease, p);
      && |w1.now| == |w.now| && w1.start == w.start && w1.before == w.before
      && OnTrack(cat, w1) && Left(w1, d) == 0
      && Holds(h1, lease, WithRecords(bs, i, w1.now), if d.Undo? then i else i + 1)
      && EngineAfter(cat, w.scene, sent) == w1.scene
  {
    hide Played, OnTrack, AnsweredAll, WalkAfter, Linked, EngineAfter, WithRecords, SpanAt;
    if bs[i].group.named { PlayedGroup(cat, h, lease, bs, i, w, d, p); } else { PlayedSingle(cat, h, lease, bs, i, w, d, p); }
    var h1, w1 := Played(h, lease, d, p).0, Ended(cat, w, d, lease, p);
    assert BlockOk(bs[i]) && |w1.now| == |w.now| by { SizeOfSpan(cat, h1, lease, bs, i, w1, d); }
    WorkedOffGroupIsHeld(cat, h1, lease, bs, i, w1, d);
  }

  lemma SizeOfSpan(cat: Catalog, h: Hist, lease: nat, bs: seq<Block>, i: nat, w: Walk, d: Direction)
    requires i < |bs| && BlocksOk(bs) && WorkedOff(cat, h, SpanAt(bs, i), w, lease, d)
    ensures |w.now| == |bs[i].ids| == |bs[i].records|
  {
    hide DoneStack, UndoneStack, OnTrack;
    assert BlockOk(bs[i]);
  }

  // ---- what undo leaves of the records ----

  lemma {:induction false} BackKeepsRecords(cat: Catalog, w: Walk, ms: seq<Move>)
    requires Walkable(cat, w, ms) && forall m <- ms :: m.Back?
    ensures Walked(cat, w, ms).now == w.now
    decreases |ms|
  {
    if ms != [] {
      assert ms[0].Back?;
      BackKeepsRecords(cat, Moved(cat, w, ms[0]), ms[1..]);
    }
  }

  lemma {:induction false} UndoneOnlyGoesBack(cat: Catalog, w: Walk, lease: nat, env: seq<Around>)
    requires Answered(cat, w, Undo, lease, env)
    ensures forall m <- AcceptedMoves(cat, w, Undo, lease, env) :: m.Back?
    decreases |env|
  {
    if env != [] && env[0].reply.value.Accepted? {
      UndoneOnlyGoesBack(cat, Moved(cat, w, Back), lease, env[1..]);
    }
  }

  lemma {:induction false} UndoKeepsRecords(cat: Catalog, w: Walk, lease: nat, envs: seq<seq<Around>>)
    requires AnsweredAll(cat, w, Undo, lease, envs)
    ensures WalkAfter(cat, w, Undo, lease, envs).now == w.now
    decreases |envs|
  {
    hide Answered, AcceptedMoves, Walkable, Walked;
    if envs != [] && Left(w, Undo) > 0 {
      var ms := AcceptedMoves(cat, w, Undo, lease, envs[0]);
      UndoneOnlyGoesBack(cat, w, lease, envs[0]);
      BackKeepsRecords(cat, w, ms);
      UndoKeepsRecords(cat, Walked(cat, w, ms), lease, envs[1..]);
    }
  }

  // ---- one group of the stack ----

  /** All of a group done, or none of it, from the scene `s`. */
  function DoneWalk(cat: Catalog, s: Scene, rs: seq<Record>): Walk {
    Walk(s, rs, [], rs, |rs|, Replay(cat, s, rs, |rs|))
  }

  function UndoneWalk(s: Scene, rs: seq<Record>): Walk { Walk(s, rs, [], rs, 0, s) }

  lemma GroupUndone(cat: Catalog, h: Hist, lease: nat, bs: seq<Block>, i: nat, s: Scene, p: Play)
    requires i < |bs| && Holds(h, lease, bs, i + 1) && Closed(s) && Traced(cat, s, bs[i].records)
    requires Answers(cat, DoneWalk(cat, s, bs[i].records), Undo, lease, bs[i].group.named, p)
    ensures Holds(Played(h, lease, Undo, p).0, lease, bs, i)
    ensures EngineAfter(cat, Replay(cat, s, bs[i].records, |bs[i].records|), Played(h, lease, Undo, p).1) == s
  {
    hide Played, Closed, Traced, Holds, AnsweredAll, WalkAfter, EngineAfter;
    var w := DoneWalk(cat, s, bs[i].records);
    PlayedBlock(cat, h, lease, bs, i, w, Undo, p);
    UndoKeepsRecords(cat, w, lease, [p.first] + p.envs);
    OnTrackEnds(cat, Ended(cat, w, Undo, lease, p));
    assert WithRecords(bs, i, bs[i].records) == bs;
  }

  /** The renaming that a group's redo from `s` ends under. */
  ghost function RenamedBy(cat: Catalog, s: Scene, b: Block, lease: nat, p: Play): Renaming
    requires Answers(cat, UndoneWalk(s, b.records), Redo, lease, b.group.named, p)
  {
    Ended(cat, UndoneWalk(s, b.records), Redo, lease, p).sub
  }

  lemma GroupRedone(cat: Catalog, h: Hist, lease: nat, bs: seq<Block>, i: nat, s: Scene, p: Play)
    requires i < |bs| && Holds(h, lease, bs, i) && Closed(s) && Traced(cat, s, bs[i].records)
    requires Answers(cat, UndoneWalk(s, bs[i].records), Redo, lease, bs[i].group.named, p)
    ensures
      var sub, rs := RenamedBy(cat, s, bs[i], lease, p), bs[i].records;
      var (h1, sent) := Played(h, lease, Redo, p);
      && Fixes(sub, s)
      && Holds(h1, lease, WithRecords(bs, i, RenamedRecords(sub, rs)), i + 1)
      && EngineAfter(cat, s, sent) == Replay(cat, s, RenamedRecords(sub, rs), |rs|)
  {
    hide Played, Closed, Traced, Holds, AnsweredAll, WalkAfter, EngineAfter, WithRecords;
    PlayedBlock(cat, h, lease, bs, i, UndoneWalk(s, bs[i].records), Redo, p);
  }

  // ---- the whole stack ----

  function Groups(bs: seq<Block>): (out: seq<seq<Record>>)
    ensures |out| == |bs| && forall i | 0 <= i < |bs| :: out[i] == bs[i].records
  {
    seq(|bs|, i requires 0 <= i < |bs| => bs[i].records)
  }

  /** One undo or redo after another. */
  ghost function PlayedAll(h: Hist, lease: nat, d: Direction, ps: seq<Play>): (Hist, seq<Exchange>)
    decreases |ps|
  {
    if ps == [] then (h, [])
    else
      var (h1, sent) := PlayedAll(h, lease, d, ps[..|ps| - 1]);
      var (h2, more) := Played(h1, lease, d, ps[|ps| - 1]);
      (h2, sent + more)
  }

  /** `p` answers the undo of group `i` to its end, or its redo from the scene `s`. */
  ghost predicate AnswersUndo(cat: Catalog, s: Scene, bs: seq<Block>, i: nat, lease: nat, p: Play)
    requires i < |bs|
  {
    Answers(cat, DoneWalk(cat, Before(cat, s, Groups(bs), i), bs[i].records), Undo, lease, bs[i].group.named, p)
  }

  ghost predicate AnswersRedo(cat: Catalog, s: Scene, bs: seq<Block>, i: nat, lease: nat, p: Play, sub: Renaming)
    requires i < |bs|
  {
    && Answers(cat, UndoneWalk(s, bs[i].records), Redo, lease, bs[i].group.named, p)
    && RenamedBy(cat, s, bs[i], lease, p) == sub
  }

  lemma BeforeOne(cat: Catalog, s: Scene, bs: seq<Block>, i: nat)
    requires i < |bs| && RecordedStack(cat, s, Groups(bs))
    ensures Traced(cat, Before(cat, s, Groups(bs), i), bs[i].records) && Closed(Before(cat, s, Groups(bs), i))
    ensures Before(cat, s, Groups(bs), i + 1)
         == Replay(cat, Before(cat, s, Groups(bs), i), bs[i].records, |bs[i].records|)
  {
    hide Traced, Closed, Replay, AllChange;
    BeforeIsClosed(cat, s, Groups(bs), i);
    assert Groups(bs)[i] == bs[i].records;
  }

  /** Undone one after the other, the groups give back the scenes they were recorded in;
      their records stay as they are. */
  lemma {:induction false} StackIsUndone(cat: Catalog, h: Hist, lease: nat, bs: seq<Block>, s: Scene, ps: seq<Play>)
    requires Holds(h, lease, bs, |bs|) && RecordedStack(cat, s, Groups(bs)) && |ps| <= |bs|
    requires forall j | 0 <= j < |ps| :: AnswersUndo(cat, s, bs, |bs| - 1 - j, lease, ps[j])
    ensures
      var (h1, sent) := PlayedAll(h, lease, Undo, ps);
      && Holds(h1, lease, bs, |bs| - |ps|)
      && EngineAfter(cat, Before(cat, s, Groups(bs), |bs|), sent) == Before(cat, s, Groups(bs), |bs| - |ps|)
    decreases |ps|
  {
    hide Played, Holds, RecordedStack, EngineAfter, Before, Groups, Traced, Closed, Replay, Answers;
    var all := Before(cat, s, Groups(bs), |bs|);
    if ps == [] {
      NothingSent(cat, all);
    } else {
      var n := |ps| - 1;
      var i := |bs| - 1 - n;
      StackIsUndone(cat, h, lease, bs, s, ps[..n]);
      var (h1, sent) := PlayedAll(h, lease, Undo, ps[..n]);
      BeforeOne(cat, s, bs, i);
      assert AnswersUndo(cat, s, bs, i, lease, ps[n]);
      GroupUndone(cat, h1, lease, bs, i, Before(cat, s, Groups(bs), i), ps[n]);
      EngineAfterConcat(cat, all, sent, Played(h1, lease, Undo, ps[n]).1);
    }
  }

  /** Answers to the undo of every group, the last one first. */
  ghost predicate UndoesAll(cat: Catalog, s: Scene, bs: seq<Block>, lease: nat, us: seq<Play>) {
    |us| == |bs| && forall j | 0 <= j < |us| :: AnswersUndo(cat, s, bs, |bs| - 1 - j, lease, us[j])
  }

  lemma WholeStackIsUndone(cat: Catalog, h: Hist, lease: nat, bs: seq<Block>, s: Scene, us: seq<Play>)
    requires Holds(h, lease, bs, |bs|) && RecordedStack(cat, s, Groups(bs)) && UndoesAll(cat, s, bs, lease, us)
    ensures
      var (h1, sent) := PlayedAll(h, lease, Undo, us);
      Holds(h1, lease, bs, 0) && EngineAfter(cat, Before(cat, s, Groups(bs), |bs|), sent) == s
  {
    hide PlayedAll, Holds, EngineAfter, RecordedStack, AnswersUndo, Groups;
    StackIsUndone(cat, h, lease, bs, s, us);
  }

  lemma NothingSent(cat: Catalog, s: Scene)
    ensures EngineAfter(cat, s, []) == s
  {
  }

  /** The groups with the first `i` under the renamings of their redo. */
  function RenamedBlocks(bs: seq<Block>, subs: seq<Renaming>, i: nat): (out: seq<Block>)
    requires i <= |bs| == |subs|
    ensures |out| == |bs|
    ensures forall j | 0 <= j < i :: out[j] == bs[j].(records := RenamedRecords(subs[j], bs[j].records))
    ensures forall j | i <= j < |bs| :: out[j] == bs[j]
  {
    seq(|bs|, j requires 0 <= j < |bs| =>
      if j < i then bs[j].(records := RenamedRecords(subs[j], bs[j].records)) else bs[j])
  }

  /** Redone one after the other, as long as none is disturbed: every scene is the recorded
      one under the renamings so far, and the history holds the groups under their own. */
  lemma {:induction false} StackIsRedone(cat: Catalog, h: Hist, lease: nat, bs: seq<Block>, s: Scene,
                                         ps: seq<Play>, subs: seq<Renaming>, i: nat)
    requires Holds(h, lease, bs, 0) && RecordedStack(cat, s, Groups(bs)) && i <= |bs| == |subs| == |ps|
    requires forall j | 0 <= j < i ::
               && AnswersRedo(cat, Redone(cat, s, Groups(bs), subs, j), bs, j, lease, ps[j], subs[j])
               && GroupUndisturbed(cat, s, Groups(bs), subs, j)
    ensures
      var (h1, sent) := PlayedAll(h, lease, Redo, ps[..i]);
      && Holds(h1, lease, RenamedBlocks(bs, subs, i), i)
      && EngineAfter(cat, s, sent) == Redone(cat, s, Groups(bs), subs, i)
      && Redone(cat, s, Groups(bs), subs, i) == RenamedScene(Flat(subs, i), Before(cat, s, Groups(bs), i))
    ensures forall j | 0 <= j < i :: Fixes(subs[j], Redone(cat, s, Groups(bs), subs, j))
    decreases i
  {
    hide Played, Holds, RecordedStack, EngineAfter, Before, Redone, Groups, Traced, Closed, Replay, Answers, Flat,
         GroupUndisturbed, RenamedScene, Fixes, RenamedBlocks, AnswersRedo;
    if i == 0 {
      assert RenamedBlocks(bs, subs, 0) == bs;
      NothingSent(cat, s);
      NothingRedone(cat, s, Groups(bs), subs);
      NothingRedoneYet(cat, s, Groups(bs), subs);
    } else {
      var k := i - 1;
      StackIsRedone(cat, h, lease, bs, s, ps, subs, k);
      var (h1, sent) := PlayedAll(h, lease, Redo, ps[..k]);
      assert ps[..i][..k] == ps[..k] && ps[..i][k] == ps[k];
      NextGroupRedone(cat, h1, lease, bs, s, ps[k], subs, k);
      EngineAfterConcat(cat, s, sent, Played(h1, lease, Redo, ps[k]).1);
      RedoneIsRenamed(cat, s, Groups(bs), subs, i);
    }
  }

  lemma NothingRedoneYet(cat: Catalog, s: Scene, groups: seq<seq<Record>>, subs: seq<Renaming>)
    requires |groups| == |subs|
    ensures Redone(cat, s, groups, subs, 0) == s
  {
  }

  lemma NextGroupRedone(cat: Catalog, h: Hist, lease: nat, bs: seq<Block>, s: Scene, p: Play,
                        subs: seq<Renaming>, k: nat)
    requires k < |bs| == |subs| && Holds(h, lease, RenamedBlocks(bs, subs, k), k)
    requires RecordedStack(cat, s, Groups(bs)) && GroupUndisturbed(cat, s, Groups(bs), subs, k)
    requires Redone(cat, s, Groups(bs), subs, k) == RenamedScene(Flat(subs, k), Before(cat, s, Groups(bs), k))
    requires AnswersRedo(cat, Redone(cat, s, Groups(bs), subs, k), bs, k, lease, p, subs[k])
    ensures
      var here, (h1, sent) := Redone(cat, s, Groups(bs), subs, k), Played(h, lease, Redo, p);
      && Fixes(subs[k], here)
      && Holds(h1, lease, RenamedBlocks(bs, subs, k + 1), k + 1)
      && EngineAfter(cat, here, sent) == Redone(cat, s, Groups(bs), subs, k + 1)
  {
    hide Played, Holds, RecordedStack, EngineAfter, Before, Traced, Closed, Replay, Answers, Flat, RenamedRecords,
         GroupUndisturbed, RenamedScene, Fixes;
    var here, cs := Redone(cat, s, Groups(bs), subs, k), RenamedBlocks(bs, subs, k);
    BeforeOne(cat, s, bs, k);
    RenamingKeepsClosed(Flat(subs, k), Before(cat, s, Groups(bs), k));
    GroupAgainIff(cat, s, Groups(bs), subs, k);
    assert Groups(bs)[k] == bs[k].records == cs[k].records;
    GroupRedone(cat, h, lease, cs, k, here, p);
    assert WithRecords(cs, k, RenamedRecords(subs[k], bs[k].records)) == RenamedBlocks(bs, subs, k + 1);
  }

  /** What a redo of the next group asks for: its records as they were recorded. */
  ghost predicate PreparesTheRecorded(h: Hist, b: Block) {
    && Prepared(h, Redo).Some? && |Prepared(h, Redo).value.steps| == |b.records| == |b.ids|
    && forall j | 0 <= j < |b.records| :: Prepared(h, Redo).value.steps[j] == Step(b.ids[j], b.records[j])
  }

  /** Undo all and redo: the history gives back the first scene, and while no group is
      disturbed every scene renamed; what it prepares for the next group are the records as
      first recorded, and these are on track again exactly if the renamings so far disturb
      none of them. */
  lemma RedoIsOnTrackIffUndisturbed(cat: Catalog, h: Hist, lease: nat, bs: seq<Block>, s: Scene, us: seq<Play>,
                                    ps: seq<Play>, subs: seq<Renaming>, i: nat)
    requires Holds(h, lease, bs, |bs|) && RecordedStack(cat, s, Groups(bs))
    requires |ps| == |subs| == |bs| && i < |bs| && UndoesAll(cat, s, bs, lease, us)
    requires forall j | 0 <= j < i ::
               && AnswersRedo(cat, Redone(cat, s, Groups(bs), subs, j), bs, j, lease, ps[j], subs[j])
               && GroupUndisturbed(cat, s, Groups(bs), subs, j)
    ensures
      var (h1, undone) := PlayedAll(h, lease, Undo, us);
      var (h2, redone) := PlayedAll(h1, lease, Redo, ps[..i]);
      var here := RenamedScene(Flat(subs, i), Before(cat, s, Groups(bs), i));
      && EngineAfter(cat, Before(cat, s, Groups(bs), |bs|), undone) == s
      && EngineAfter(cat, s, redone) == here
      && PreparesTheRecorded(h2, bs[i])
      && (OnTrackAgain(cat, Flat(subs, i), Before(cat, s, Groups(bs), i), bs[i].records)
          <==> GroupUndisturbed(cat, s, Groups(bs), subs, i))
  {
    hide PlayedAll, Holds, RecordedStack, EngineAfter, Before, Redone, Flat, GroupUndisturbed, RenamedScene,
         AnswersRedo, UndoesAll, OnTrackAgain, Prepared, RenamedBlocks, Groups;
    WholeStackIsUndone(cat, h, lease, bs, s, us);
    var h1 := PlayedAll(h, lease, Undo, us).0;
    StackIsRedone(cat, h1, lease, bs, s, ps, subs, i);
    NextIsPrepared(PlayedAll(h1, lease, Redo, ps[..i]).0, lease, RenamedBlocks(bs, subs, i), i);
    GroupAgainIff(cat, s, Groups(bs), subs, i);
  }

  lemma NextIsPrepared(h: Hist, lease: nat, bs: seq<Block>, i: nat)
    requires i < |bs| && Holds(h, lease, bs, i)
    ensures PreparesTheRecorded(h, bs[i])
  {
    hide Prepared, DoneStack, UndoneStack;
    assert BlockOk(bs[i]);
    PreparedIs(h, lease, bs, i, UndoneWalk(map[], bs[i].records), Redo);
  }

  // ---- and undone once more ----

  lemma {:induction false} BeforeRenamedIsRedone(cat: Catalog, s: Scene, bs: seq<Block>, subs: seq<Renaming>, i: nat)
    requires i <= |bs| == |subs|
    ensures Before(cat, s, Groups(RenamedBlocks(bs, subs, |bs|)), i) == Redone(cat, s, Groups(bs), subs, i)
    decreases i
  {
    hide Replay, RenamedRecords;
    if i > 0 { BeforeRenamedIsRedone(cat, s, bs, subs, i - 1); }
  }

  lemma RenamedGroupIsRecorded(cat: Catalog, s: Scene, bs: seq<Block>, subs: seq<Renaming>, i: nat)
    requires RecordedStack(cat, s, Groups(bs)) && i < |bs| == |subs|
    requires forall j | 0 <= j <= i :: GroupUndisturbed(cat, s, Groups(bs), subs, j)
    requires forall j | 0 <= j <= i :: Fixes(subs[j], Redone(cat, s, Groups(bs), subs, j))
    ensures Traced(cat, Redone(cat, s, Groups(bs), subs, i), RenamedRecords(subs[i], bs[i].records))
    ensures AllChange(RenamedRecords(subs[i], bs[i].records))
  {
    hide RecordedStack, GroupUndisturbed, Fixes, Traced, AllChange, Replay, RenamedRecords, OnTrack, RenamedScene,
         Redone, Before, Flat, Groups;
    assert Groups(bs)[i] == bs[i].records;
    RedoneStackIsReadyToUndo(cat, s, Groups(bs), subs, i);
    ReadyIsTraced(cat, Redone(cat, s, Groups(bs), subs, i), bs[i].records, subs[i],
                  Redone(cat, s, Groups(bs), subs, i + 1));
    RenamedStillChange(cat, s, bs, subs, i);
  }

  lemma ReadyIsTraced(cat: Catalog, s: Scene, rs: seq<Record>, sub: Renaming, end: Scene)
    requires OnTrack(cat, Walk(s, rs, sub, RenamedRecords(sub, rs), |rs|, end))
    ensures Traced(cat, s, RenamedRecords(sub, rs))
  {
  }

  lemma {:induction false} RenamedRecordsAre(sub: Renaming, rs: seq<Record>, k: nat)
    requires k < |rs|
    ensures RenamedRecords(sub, rs)[k] == RenamedRecord(sub, rs[k])
    decreases |sub|
  {
    hide SwapRecord, RenamedRecord;
    if sub == [] {
      NothingRenamed(rs[k]);
    } else {
      RenamedRecordStep(sub, rs[k]);
      RenamedRecordsAre(sub[1..], SwapAll(rs, sub[0].0, sub[0].1), k);
    }
  }

  lemma RenamedStillChange(cat: Catalog, s: Scene, bs: seq<Block>, subs: seq<Renaming>, i: nat)
    requires RecordedStack(cat, s, Groups(bs)) && i < |bs| == |subs|
    ensures AllChange(RenamedRecords(subs[i], bs[i].records))
  {
    hide Traced, RenamedRecord, Closed, Changes, Before, RenamedRecords;
    assert AllChange(Groups(bs)[i]);
    forall k | 0 <= k < |bs[i].records| ensures Changes(RenamedRecords(subs[i], bs[i].records)[k]) {
      assert Changes(Groups(bs)[i][k]);
      RenamedRecordsAre(subs[i], bs[i].records, k);
      RenamedStillChanges(subs[i], bs[i].records[k]);
    }
  }

  /** An undisturbed stack undone, redone and undone again gives back the first scene,
      whatever ids the redo was answered with. */
  lemma RedoneStackIsUndoneAgain(cat: Catalog, h: Hist, lease: nat, bs: seq<Block>, s: Scene, ps: seq<Play>,
                                 subs: seq<Renaming>, us: seq<Play>)
    requires Holds(h, lease, bs, 0) && RecordedStack(cat, s, Groups(bs))
    requires |ps| == |subs| == |bs|
    requires forall j | 0 <= j < |bs| ::
               && AnswersRedo(cat, Redone(cat, s, Groups(bs), subs, j), bs, j, lease, ps[j], subs[j])
               && GroupUndisturbed(cat, s, Groups(bs), subs, j)
    requires UndoesAll(cat, s, RenamedBlocks(bs, subs, |bs|), lease, us)
    ensures
      var (h1, redone) := PlayedAll(h, lease, Redo, ps);
      var (h2, undone) := PlayedAll(h1, lease, Undo, us);
      && EngineAfter(cat, s, redone + undone) == s
      && Holds(h2, lease, RenamedBlocks(bs, subs, |bs|), 0)
  {
    hide PlayedAll, Holds, EngineAfter, Before, Redone, GroupUndisturbed, RecordedStack, AnswersRedo, UndoesAll,
         Groups, RenamedBlocks;
    var n, cs := |bs|, RenamedBlocks(bs, subs, |bs|);
    var (h1, redone) := PlayedAll(h, lease, Redo, ps);
    RedoneStackIsHeld(cat, h, lease, bs, s, ps, subs);
    WholeStackIsUndone(cat, h1, lease, cs, s, us);
    EngineAfterConcat(cat, s, redone, PlayedAll(h1, lease, Undo, us).1);
  }

  lemma RedoneStackIsHeld(cat: Catalog, h: Hist, lease: nat, bs: seq<Block>, s: Scene, ps: seq<Play>,
                          subs: seq<Renaming>)
    requires Holds(h, lease, bs, 0) && RecordedStack(cat, s, Groups(bs)) && |ps| == |subs| == |bs|
    requires forall j | 0 <= j < |bs| ::
               && AnswersRedo(cat, Redone(cat, s, Groups(bs), subs, j), bs, j, lease, ps[j], subs[j])
               && GroupUndisturbed(cat, s, Groups(bs), subs, j)
    ensures
      var cs, (h1, redone) := RenamedBlocks(bs, subs, |bs|), PlayedAll(h, lease, Redo, ps);
      && Holds(h1, lease, cs, |bs|) && RecordedStack(cat, s, Groups(cs))
      && EngineAfter(cat, s, redone) == Before(cat, s, Groups(cs), |bs|)
  {
    hide PlayedAll, Holds, EngineAfter, Before, Redone, Flat, GroupUndisturbed, RenamedScene, RecordedStack,
         AnswersRedo, Fixes, Groups, RenamedRecords, RenamedBlocks;
    assert ps[..|bs|] == ps;
    StackIsRedone(cat, h, lease, bs, s, ps, subs, |bs|);
    RenamedStackIsRecorded(cat, s, bs, subs);
    BeforeRenamedIsRedone(cat, s, bs, subs, |bs|);
  }

  lemma RenamedStackIsRecorded(cat: Catalog, s: Scene, bs: seq<Block>, subs: seq<Renaming>)
    requires RecordedStack(cat, s, Groups(bs)) && |bs| == |subs|
    requires forall j | 0 <= j < |bs| :: GroupUndisturbed(cat, s, Groups(bs), subs, j)
    requires forall j | 0 <= j < |bs| :: Fixes(subs[j], Redone(cat, s, Groups(bs), subs, j))
    ensures RecordedStack(cat, s, Groups(RenamedBlocks(bs, subs, |bs|)))
  {
    hide Traced, AllChange, Closed, GroupUndisturbed, Fixes, Before, Redone, RenamedRecords;
    var groups := Groups(RenamedBlocks(bs, subs, |bs|));
    forall i | 0 <= i < |groups| ensures Traced(cat, Before(cat, s, groups, i), groups[i]) && AllChange(groups[i]) {
      BeforeRenamedIsRedone(cat, s, bs, subs, i);
      RenamedGroupIsRecorded(cat, s, bs, subs, i);
    }
  }
}
