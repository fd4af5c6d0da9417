/** Whole runs of a group, through refusals and retries. */
module GroupRuns {
  import opened Options
  import opened Scenes
  import opened History
  import opened GroupActions
  import opened GroupWalks

  /** The step is tried on the leased connection and its outcome is known. */
  predicate Steady(x: Around, lease: nat) {
    x.authorized && x.connected && x.after == Some(lease) && x.reply.Some? && !x.reply.value.NoAnswer?
  }

  /** Along the walk every outcome is known, and every acceptance names an id that
      is usable and fresh. */
  ghost predicate Answered(cat: Catalog, w: Walk, d: Direction, lease: nat, env: seq<Around>)
    decreases |env|
  {
    env == [] ||
    (w.at <= |w.now| && Left(w, d) > 0 && Steady(env[0], lease) &&
     (env[0].reply.value.Accepted? ==>
        var m := MoveFor(d, env[0].reply.value);
        Usable(w, d, env[0].reply.value) && CanMove(w, m) && FreshFor(w, m)
        && Answered(cat, Moved(cat, w, m), d, lease, env[1..])))
  }

  /** The moves of the acceptances before the first refusal. */
  ghost function AcceptedMoves(cat: Catalog, w: Walk, d: Direction, lease: nat, env: seq<Around>): (ms: seq<Move>)
    requires Answered(cat, w, d, lease, env)
    ensures |ms| <= |env|
    ensures Walkable(cat, w, ms)
    decreases |env|
  {
    if env == [] || !env[0].reply.value.Accepted? then []
    else
      var m := MoveFor(d, env[0].reply.value);
      var rest := AcceptedMoves(cat, Moved(cat, w, m), d, lease, env[1..]);
      assert ([m] + rest)[1..] == rest;
      [m] + rest
  }

  predicate IsAccepted(x: Exchange) { x.reply.Some? && x.reply.value.Accepted? }

  /** The scene of an engine that performs the accepted requests and no others. */
  function EngineAfter(cat: Catalog, s: Scene, sent: seq<Exchange>): Scene
    decreases |sent|
  {
    if sent == [] then s
    else if !IsAccepted(sent[0]) then EngineAfter(cat, s, sent[1..])
    else
      var n := sent[0].reply.value.newId;
      EngineAfter(cat, Perform(cat, s, sent[0].request, if n.Some? then n.value else ""), sent[1..])
  }

  function AcceptedIds(sent: seq<Exchange>): seq<nat> {
    if sent == [] then []
    else (if IsAccepted(sent[0]) then [sent[0].entryId] else []) + AcceptedIds(sent[1..])
  }

  /** Entry ids of the group in the order direction `d` works them off. */
  function IdsAhead(sp: Span, w: Walk, d: Direction): (out: seq<nat>)
    requires |sp.ids| == |w.now| && w.at <= |w.now|
    ensures |out| == Left(w, d)
    ensures forall j | 0 <= j < |out| :: out[j] == sp.ids[Ahead(w, d, j)]
  {
    seq(Left(w, d), j requires 0 <= j < Left(w, d) => sp.ids[Ahead(w, d, j)])
  }

  /** The pending group a known refusal leaves behind. */
  function HeldBack(sp: Span, d: Direction, completed: nat): Option<Pending> {
    Some(Pending(d, sp.group, completed, false, true))
  }

  /** What a run of a group does, for any answers: `ms` are its accepted moves. */
  ghost predicate FollowsWalk(cat: Catalog, h: Hist, sp: Span, w: Walk, lease: nat, d: Direction, completed: nat,
                              ms: seq<Move>, r: Run)
    requires |sp.ids| == |w.now| && w.at <= |w.now|
  {
    && |ms| <= Left(w, d)
    && Walkable(cat, w, ms)
    && var w1 := Walked(cat, w, ms);
    && OnTrack(cat, w1)
    && Linked(r.hist, sp, w1)
    && Left(w1, d) == Left(w, d) - |ms|
    && r.hist.generation == Some(lease)
    && r.hist.editUnsupported == h.editUnsupported
    && r.completed == completed + |ms|
    && AcceptedIds(r.sent) == IdsAhead(sp, w, d)[..|ms|]
    && EngineAfter(cat, w.scene, r.sent) == w1.scene
    && (if |ms| < Left(w, d) then
          r.end == Failed && r.hist.pending && r.hist.pendingGroup == HeldBack(sp, d, completed + |ms|)
        else
          && r.end == Finished
          && (h.pendingGroup.Some? && h.pendingGroup.value.group.key == sp.group.key && |ms| > 0 ==>
                !r.hist.pending && r.hist.pendingGroup.None?)
          && (h.pendingGroup.None? ==> r.hist.pending == h.pending && r.hist.pendingGroup.None?))
  }

  /** A tried step of a linked group: its request, and on refusal the pending group. */
  lemma RefusedStepHoldsBack(cat: Catalog, h: Hist, sp: Span, w: Walk, lease: nat, a: Action, completed: nat,
                             queued: Step, x: Around)
    requires Linked(h, sp, w) && Left(w, a.direction) > 0 && h.generation == Some(lease)
    requires a.group == sp.group && queued.entryId == sp.ids[Ahead(w, a.direction, 0)]
    requires Steady(x, lease) && !x.reply.value.Accepted?
    ensures OneStep(h, lease, a, completed, queued, x)
         == (StartPending(h, a, completed, false, true),
             [Exchange(queued.entryId, RequestFor(w.now[Ahead(w, a.direction, 0)], a.direction), x.reply)],
             Some(Failed))
  {
    hide FinishGroupStep, RefreshStep, HasGroup;
    NextStepRefreshes(h, sp, w, a.direction);
  }

  lemma AcceptedStepGoesOn(cat: Catalog, h: Hist, sp: Span, w: Walk, lease: nat, a: Action, completed: nat,
                           queued: Step, x: Around)
    requires Linked(h, sp, w) && OnTrack(cat, w) && Left(w, a.direction) > 0 && h.generation == Some(lease)
    requires a.group == sp.group && queued.entryId == sp.ids[Ahead(w, a.direction, 0)]
    requires PendingRuns(h, sp.group.key, a.direction)
    requires Steady(x, lease) && x.reply.value.Accepted? && Usable(w, a.direction, x.reply.value)
    requires CanMove(w, MoveFor(a.direction, x.reply.value))
    ensures
      var w1 := Moved(cat, w, MoveFor(a.direction, x.reply.value));
      var (h1, sent, end) := OneStep(h, lease, a, completed, queued, x);
      && end.None?
      && sent == [Exchange(queued.entryId, RequestFor(w.now[Ahead(w, a.direction, 0)], a.direction), x.reply)]
      && Linked(h1, sp, w1)
      && CountsPending(h, h1, sp.group.key, Left(w1, a.direction))
      && EngineAfter(cat, w.scene, sent) == w1.scene
  {
    NextStepRefreshes(h, sp, w, a.direction);
    hide FinishGroupStep, RefreshStep, HasGroup, OnTrack, Linked, CountsPending, Moved;
    AcceptedStepMovesWalk(cat, h, sp, w, a, x.reply.value);
    assert StepsAhead(sp, w, a.direction)[0] == Step(queued.entryId, w.now[Ahead(w, a.direction, 0)]);
    RequestMovesScene(cat, w, a.direction, x.reply.value);
  }

  lemma RequestMovesScene(cat: Catalog, w: Walk, d: Direction, r: Reply)
    requires w.at <= |w.now| && Left(w, d) > 0 && r.Accepted? && Usable(w, d, r) && CanMove(w, MoveFor(d, r))
    ensures Perform(cat, w.scene, RequestFor(w.now[Ahead(w, d, 0)], d), if r.newId.Some? then r.newId.value else "")
         == Moved(cat, w, MoveFor(d, r)).scene
  {
    hide Perform, RenRecord;
    if d.Undo? {
      UndoIgnoresNewId(cat, w.scene, w.now[w.at - 1], if r.newId.Some? then r.newId.value else "");
    }
  }

  lemma UndoIgnoresNewId(cat: Catalog, s: Scene, r: Record, n: Id)
    ensures Perform(cat, s, RequestFor(r, Undo), n) == Perform(cat, s, RequestFor(r, Undo), "")
  {
  }

  /** A run that starts with one accepted request and goes on as the rest does. */
  lemma PrependFollows(cat: Catalog, h: Hist, h1: Hist, sp: Span, w: Walk, lease: nat, d: Direction, completed: nat,
                       m: Move, x: Exchange, ms1: seq<Move>, r1: Run)
    requires |sp.ids| == |w.now| && w.at <= |w.now| && Left(w, d) > 0
    requires CanMove(w, m) && FreshFor(w, m) && (m.Back? <==> d.Undo?)
    requires CountsPending(h, h1, sp.group.key, Left(Moved(cat, w, m), d))
    requires IsAccepted(x) && x.entryId == sp.ids[Ahead(w, d, 0)]
    requires EngineAfter(cat, w.scene, [x]) == Moved(cat, w, m).scene
    requires FollowsWalk(cat, h1, sp, Moved(cat, w, m), lease, d, completed + 1, ms1, r1)
    ensures FollowsWalk(cat, h, sp, w, lease, d, completed, [m] + ms1, Prepend([x], r1))
  {
    hide OnTrack, Linked, Moved, Perform, CanMove, FreshFor, Walkable, Walked, AcceptedIds, EngineAfter;
    var w1 := Moved(cat, w, m);
    MovedOneStep(cat, w, m);
    WalkableCons(cat, w, m, ms1);
    AcceptedIdsConcat([x], r1.sent);
    EngineAfterConcat(cat, w.scene, [x], r1.sent);
    OneAcceptedId(x);
    IdsAheadCons(sp, w, w1, d, |ms1|);
  }

  lemma MovedOneStep(cat: Catalog, w: Walk, m: Move)
    requires CanMove(w, m) && w.at <= |w.now|
    ensures |Moved(cat, w, m).now| == |w.now|
    ensures Moved(cat, w, m).at == if m.Back? then w.at - 1 else w.at + 1
  {
    hide Perform, RequestFor, RenRecord;
  }

  lemma WalkableCons(cat: Catalog, w: Walk, m: Move, ms: seq<Move>)
    requires CanMove(w, m) && FreshFor(w, m) && Walkable(cat, Moved(cat, w, m), ms)
    ensures Walkable(cat, w, [m] + ms) && Walked(cat, w, [m] + ms) == Walked(cat, Moved(cat, w, m), ms)
  {
    hide CanMove, FreshFor, Moved;
    assert ([m] + ms)[1..] == ms;
  }

  lemma OneAcceptedId(x: Exchange)
    requires IsAccepted(x)
    ensures AcceptedIds([x]) == [x.entryId]
  {
    assert [x][1..] == [];
  }

  lemma IdsAheadCons(sp: Span, w: Walk, w1: Walk, d: Direction, n: nat)
    requires |sp.ids| == |w.now| == |w1.now| && w.at <= |w.now| && w1.at <= |w1.now|
    requires Left(w, d) == Left(w1, d) + 1 && n <= Left(w1, d)
    ensures IdsAhead(sp, w, d)[..n + 1] == [sp.ids[Ahead(w, d, 0)]] + IdsAhead(sp, w1, d)[..n]
  {
    var left, right := IdsAhead(sp, w, d)[..n + 1], [sp.ids[Ahead(w, d, 0)]] + IdsAhead(sp, w1, d)[..n];
    forall j | 0 <= j <= n ensures left[j] == right[j] {
      if j > 0 { assert Ahead(w, d, j) == Ahead(w1, d, j - 1); }
    }
  }

  lemma RefusedRunFollows(cat: Catalog, h: Hist, sp: Span, w: Walk, lease: nat, a: Action,
                          completed: nat, steps: seq<Step>, env: seq<Around>)
    requires Linked(h, sp, w) && OnTrack(cat, w) && h.generation == Some(lease) && a.group == sp.group
    requires |steps| == |env| == Left(w, a.direction) && steps != []
    requires steps[0].entryId == sp.ids[Ahead(w, a.direction, 0)]
    requires Steady(env[0], lease) && !env[0].reply.value.Accepted?
    ensures FollowsWalk(cat, h, sp, w, lease, a.direction, completed, [],
                        RunSteps(h, lease, a, completed, steps, env))
  {
    RefusedStepHoldsBack(cat, h, sp, w, lease, a, completed, steps[0], env[0]);
    hide OneStep, OnTrack;
    var sent := OneStep(h, lease, a, completed, steps[0], env[0]).1;
    assert sent[1..] == [] && !IsAccepted(sent[0]);
    assert EngineAfter(cat, w.scene, sent) == EngineAfter(cat, w.scene, sent[1..]) == w.scene;
    assert AcceptedIds(sent) == AcceptedIds(sent[1..]) == [];
    assert IdsAhead(sp, w, a.direction)[..0] == [];
    assert Walkable(cat, w, []) && Walked(cat, w, []) == w;
    var held := StartPending(h, a, completed, false, true);
    assert RunSteps(h, lease, a, completed, steps, env) == Run(held, sent, completed, Failed);
    assert Linked(held, sp, w);
  }

  /** The first answer of a walk, when it is an acceptance. */
  lemma AcceptedHead(cat: Catalog, h: Hist, sp: Span, w: Walk, lease: nat, a: Action, completed: nat,
                     steps: seq<Step>, env: seq<Around>)
    requires Linked(h, sp, w) && OnTrack(cat, w) && h.generation == Some(lease)
    requires a.group == sp.group && PendingRuns(h, sp.group.key, a.direction)
    requires |steps| == |env| == Left(w, a.direction) && steps != []
    requires forall j | 0 <= j < |steps| :: steps[j].entryId == sp.ids[Ahead(w, a.direction, j)]
    requires Answered(cat, w, a.direction, lease, env) && env[0].reply.value.Accepted?
    ensures
      var m := MoveFor(a.direction, env[0].reply.value);
      && CanMove(w, m) && FreshFor(w, m) && (m.Back? <==> a.direction.Undo?)
      && var w1 := Moved(cat, w, m);
      && Answered(cat, w1, a.direction, lease, env[1..])
      && AcceptedMoves(cat, w, a.direction, lease, env) == [m] + AcceptedMoves(cat, w1, a.direction, lease, env[1..])
      && OnTrack(cat, w1)
      && |w1.now| == |w.now| && w1.at <= |w1.now| && Left(w1, a.direction) == Left(w, a.direction) - 1
      && (forall j | 0 <= j < Left(w1, a.direction) :: steps[1..][j].entryId == sp.ids[Ahead(w1, a.direction, j)])
  {
    hide Linked, OnTrack, Perform, RequestFor, RenRecord, PendingRuns;
    var m := MoveFor(a.direction, env[0].reply.value);
    if a.direction.Undo? {
      BackStaysOnTrack(cat, w);
    } else {
      AgainStaysOnTrack(cat, w, m.newId);
    }
    var w1 := Moved(cat, w, m);
    assert forall j | 0 <= j < Left(w1, a.direction) :: Ahead(w1, a.direction, j) == Ahead(w, a.direction, j + 1);
  }

  lemma {:induction false} RunFollowsWalk(cat: Catalog, h: Hist, sp: Span, w: Walk, lease: nat, a: Action,
                                          completed: nat, steps: seq<Step>, env: seq<Around>)
    requires Linked(h, sp, w) && OnTrack(cat, w) && h.generation == Some(lease)
    requires a.group == sp.group && PendingRuns(h, sp.group.key, a.direction)
    requires |steps| == |env| == Left(w, a.direction)
    requires forall j | 0 <= j < |steps| :: steps[j].entryId == sp.ids[Ahead(w, a.direction, j)]
    requires Answered(cat, w, a.direction, lease, env)
    ensures FollowsWalk(cat, h, sp, w, lease, a.direction, completed,
                        AcceptedMoves(cat, w, a.direction, lease, env),
                        RunSteps(h, lease, a, completed, steps, env))
    decreases |steps|, 1
  {
    if steps == [] {
      EmptyRunFollows(cat, h, sp, w, lease, a, completed);
    } else if !env[0].reply.value.Accepted? {
      RefusedRunFollows(cat, h, sp, w, lease, a, completed, steps, env);
    } else {
      AcceptedRunFollows(cat, h, sp, w, lease, a, completed, steps, env);
    }
  }

  lemma EmptyRunFollows(cat: Catalog, h: Hist, sp: Span, w: Walk, lease: nat, a: Action, completed: nat)
    requires Linked(h, sp, w) && OnTrack(cat, w) && h.generation == Some(lease) && Left(w, a.direction) == 0
    ensures FollowsWalk(cat, h, sp, w, lease, a.direction, completed, [], RunSteps(h, lease, a, completed, [], []))
  {
    hide OnTrack;
    assert IdsAhead(sp, w, a.direction)[..0] == [];
    assert Walkable(cat, w, []) && Walked(cat, w, []) == w;
  }

  lemma AcceptedRunFollows(cat: Catalog, h: Hist, sp: Span, w: Walk, lease: nat, a: Action,
                           completed: nat, steps: seq<Step>, env: seq<Around>)
    requires Linked(h, sp, w) && OnTrack(cat, w) && h.generation == Some(lease)
    requires a.group == sp.group && PendingRuns(h, sp.group.key, a.direction)
    requires |steps| == |env| == Left(w, a.direction) && steps != []
    requires forall j | 0 <= j < |steps| :: steps[j].entryId == sp.ids[Ahead(w, a.direction, j)]
    requires Answered(cat, w, a.direction, lease, env) && env[0].reply.value.Accepted?
    ensures FollowsWalk(cat, h, sp, w, lease, a.direction, completed,
                        AcceptedMoves(cat, w, a.direction, lease, env),
                        RunSteps(h, lease, a, completed, steps, env))
    decreases |steps|, 0
  {
    hide OneStep, OnTrack, FollowsWalk, Moved, CanMove, FreshFor, EngineAfter, RequestFor, AcceptedMoves,
         DoneEntries, UndoneEntries, HasGroup;
    AcceptedHead(cat, h, sp, w, lease, a, completed, steps, env);
    AcceptedStepGoesOn(cat, h, sp, w, lease, a, completed, steps[0], env[0]);
    var m := MoveFor(a.direction, env[0].reply.value);
    var w1 := Moved(cat, w, m);
    var (h1, sent, _) := OneStep(h, lease, a, completed, steps[0], env[0]);
    RunFollowsWalk(cat, h1, sp, w1, lease, a, completed + 1, steps[1..], env[1..]);
    PrependFollows(cat, h, h1, sp, w, lease, a.direction, completed, m, sent[0],
                   AcceptedMoves(cat, w1, a.direction, lease, env[1..]),
                   RunSteps(h1, lease, a, completed + 1, steps[1..], env[1..]));
  }

  // ---------------------------------------------------------------------------
  // The whole of a group: a first run, then retries of what a refusal held back
  // ---------------------------------------------------------------------------

  /** The history after a known refusal: `completed` requests of the group were
      accepted, and the walk stands exactly there. */
  ghost predicate HeldUp(cat: Catalog, h: Hist, sp: Span, w: Walk, lease: nat, d: Direction, completed: nat) {
    && OnTrack(cat, w)
    && Linked(h, sp, w)
    && h.generation == Some(lease)
    && h.pending
    && h.pendingGroup == HeldBack(sp, d, completed)
    && Left(w, d) > 0
    && completed + Left(w, d) == |w.now|
  }

  /** The group is worked off: the walk is at its end and nothing is pending. */
  ghost predicate WorkedOff(cat: Catalog, h: Hist, sp: Span, w: Walk, lease: nat, d: Direction) {
    && OnTrack(cat, w)
    && Linked(h, sp, w)
    && h.generation == Some(lease)
    && !h.pending
    && h.pendingGroup.None?
    && Left(w, d) == 0
  }

  /** A retry is prepared to do exactly what is left. */
  lemma RetryIsWhatIsLeft(cat: Catalog, h: Hist, sp: Span, w: Walk, lease: nat, d: Direction, completed: nat)
    requires HeldUp(cat, h, sp, w, lease, d, completed)
    ensures PrepareRetry(h) == Some(Action(d, sp.group, StepsAhead(sp, w, d), true))
    ensures StartCount(h, true) == completed
  {
    hide TopSteps, OnTrack;
    PreparedStepsAre(h, sp, w, d);
  }

  lemma {:induction false} WalkedKeepsSize(cat: Catalog, w: Walk, ms: seq<Move>)
    requires Walkable(cat, w, ms)
    ensures |Walked(cat, w, ms).now| == |w.now|
    decreases |ms|
  {
    if ms != [] {
      WalkedKeepsSize(cat, Moved(cat, w, ms[0]), ms[1..]);
    }
  }

  lemma RetryAdvances(cat: Catalog, h: Hist, sp: Span, w: Walk, lease: nat, d: Direction, completed: nat,
                      env: seq<Around>)
    requires HeldUp(cat, h, sp, w, lease, d, completed)
    requires |env| == Left(w, d) && Answered(cat, w, d, lease, env)
    ensures
      var ms := AcceptedMoves(cat, w, d, lease, env);
      var w1 := Walked(cat, w, ms);
      var r := RunGroup(h, lease, Action(d, sp.group, StepsAhead(sp, w, d), true), true, env);
      && |ms| <= Left(w, d) == |w.now| - completed
      && |w1.now| == |w.now| && w1.at <= |w1.now| && Left(w1, d) == Left(w, d) - |ms|
      && AcceptedIds(r.sent) == IdsAhead(sp, w, d)[..|ms|]
      && EngineAfter(cat, w.scene, r.sent) == w1.scene
      && r.completed == completed + |ms|
      && r.hist.editUnsupported == h.editUnsupported
      && (if |ms| < Left(w, d) then HeldUp(cat, r.hist, sp, w1, lease, d, completed + |ms|)
          else WorkedOff(cat, r.hist, sp, w1, lease, d))
  {
    hide OnTrack, RunSteps, AcceptedMoves, Walked, Walkable, Answered, EngineAfter, AcceptedIds, DoneEntries,
         UndoneEntries, HasGroup;
    var a := Action(d, sp.group, StepsAhead(sp, w, d), true);
    RunFollowsWalk(cat, h, sp, w, lease, a, completed, a.steps, env);
    WalkedKeepsSize(cat, w, AcceptedMoves(cat, w, d, lease, env));
  }

  /** Every retry answers as many steps as the history then prepares. */
  ghost predicate Fits(h: Hist, lease: nat, envs: seq<seq<Around>>)
    decreases |envs|
  {
    envs == [] ||
    match PrepareRetry(h)
    case None => Fits(h, lease, envs[1..])
    case Some(a) => |envs[0]| == |a.steps| && Fits(RunGroup(h, lease, a, true, envs[0]).hist, lease, envs[1..])
  }

  /** One retry after another, each on what the one before left. A retry with
      nothing prepared is refused and sends nothing. */
  ghost function Retries(h: Hist, lease: nat, envs: seq<seq<Around>>): (Hist, seq<Exchange>)
    requires Fits(h, lease, envs)
    decreases |envs|
  {
    if envs == [] then (h, [])
    else
      match PrepareRetry(h)
      case None => Retries(h, lease, envs[1..])
      case Some(a) =>
        var r := RunGroup(h, lease, a, true, envs[0]);
        var (h1, more) := Retries(r.hist, lease, envs[1..]);
        (h1, r.sent + more)
  }

  /** All outcomes along all retries are known and every accepted id is fresh. */
  ghost predicate AnsweredAll(cat: Catalog, w: Walk, d: Direction, lease: nat, envs: seq<seq<Around>>)
    decreases |envs|
  {
    envs == [] ||
    (w.at <= |w.now| &&
     (Left(w, d) > 0 ==>
        && |envs[0]| == Left(w, d)
        && Answered(cat, w, d, lease, envs[0])
        && AnsweredAll(cat, Walked(cat, w, AcceptedMoves(cat, w, d, lease, envs[0])), d, lease, envs[1..])))
  }

  ghost function WalkAfter(cat: Catalog, w: Walk, d: Direction, lease: nat, envs: seq<seq<Around>>): Walk
    requires AnsweredAll(cat, w, d, lease, envs)
    decreases |envs|
  {
    if envs == [] || Left(w, d) == 0 then w
    else WalkAfter(cat, Walked(cat, w, AcceptedMoves(cat, w, d, lease, envs[0])), d, lease, envs[1..])
  }

  lemma {:induction false} AcceptedIdsConcat(s: seq<Exchange>, t: seq<Exchange>)
    ensures AcceptedIds(s + t) == AcceptedIds(s) + AcceptedIds(t)
  {
    if s == [] {
      assert s + t == t;
    } else {
      hide IsAccepted;
      AcceptedIdsConcat(s[1..], t);
      var first := if IsAccepted(s[0]) then [s[0].entryId] else [];
      assert (s + t)[0] == s[0] && (s + t)[1..] == s[1..] + t;
      assert AcceptedIds(s + t) == first + (AcceptedIds(s[1..]) + AcceptedIds(t));
    }
  }

  lemma {:induction false} EngineAfterConcat(cat: Catalog, scene: Scene, s: seq<Exchange>, t: seq<Exchange>)
    ensures EngineAfter(cat, scene, s + t) == EngineAfter(cat, EngineAfter(cat, scene, s), t)
    decreases |s|
  {
    if s == [] {
      assert s + t == t;
    } else {
      assert (s + t)[1..] == s[1..] + t;
      if IsAccepted(s[0]) {
        var n := s[0].reply.value.newId;
        EngineAfterConcat(cat, Perform(cat, scene, s[0].request, if n.Some? then n.value else ""), s[1..], t);
      } else {
        EngineAfterConcat(cat, scene, s[1..], t);
      }
    }
  }

  /** Exactly once, in order, whatever the pattern of refusals: however many retries
      follow, the accepted requests are the group's steps from where the refusal
      left it, and the count it reports is the number accepted so far. */
  ghost predicate ExactlyOnce(cat: Catalog, h: Hist, sp: Span, w: Walk, lease: nat, d: Direction, completed: nat,
                              w1: Walk, h1: Hist, sent: seq<Exchange>)
    requires |sp.ids| == |w.now| && w.at <= |w.now|
  {
    && |w1.now| == |w.now| && w1.at <= |w1.now| && Left(w1, d) <= Left(w, d)
    && AcceptedIds(sent) == IdsAhead(sp, w, d)[..Left(w, d) - Left(w1, d)]
    && EngineAfter(cat, w.scene, sent) == w1.scene
    && h1.editUnsupported == h.editUnsupported
    && (if Left(w1, d) > 0 then HeldUp(cat, h1, sp, w1, lease, d, completed + |AcceptedIds(sent)|)
        else WorkedOff(cat, h1, sp, w1, lease, d))
  }

  lemma {:induction false} RetriesAreExactlyOnce(cat: Catalog, h: Hist, sp: Span, w: Walk, lease: nat, d: Direction,
                                                 completed: nat, envs: seq<seq<Around>>)
    requires HeldUp(cat, h, sp, w, lease, d, completed) || WorkedOff(cat, h, sp, w, lease, d)
    requires AnsweredAll(cat, w, d, lease, envs)
    ensures Fits(h, lease, envs)
    ensures ExactlyOnce(cat, h, sp, w, lease, d, completed, WalkAfter(cat, w, d, lease, envs),
                        Retries(h, lease, envs).0, Retries(h, lease, envs).1)
    decreases |envs|
  {
    hide OnTrack, Answered, AcceptedMoves, Walked, Walkable, EngineAfter, RunGroup, DoneEntries, UndoneEntries,
         HasGroup, PrepareRetry, ExactlyOnce, StepsAhead;
    if envs == [] || Left(w, d) == 0 {
      StopsExactlyOnce(cat, h, sp, w, lease, d, completed, envs);
    } else {
      RetryIsWhatIsLeft(cat, h, sp, w, lease, d, completed);
      RetryAdvances(cat, h, sp, w, lease, d, completed, envs[0]);
      var ms := AcceptedMoves(cat, w, d, lease, envs[0]);
      var w1 := Walked(cat, w, ms);
      var r := RunGroup(h, lease, Action(d, sp.group, StepsAhead(sp, w, d), true), true, envs[0]);
      RetriesAreExactlyOnce(cat, r.hist, sp, w1, lease, d, completed + |ms|, envs[1..]);
      ChainExactlyOnce(cat, h, sp, w, lease, d, completed, w1, r.hist, r.sent,
                       WalkAfter(cat, w1, d, lease, envs[1..]),
                       Retries(r.hist, lease, envs[1..]).0, Retries(r.hist, lease, envs[1..]).1);
    }
  }

  lemma StopsExactlyOnce(cat: Catalog, h: Hist, sp: Span, w: Walk, lease: nat, d: Direction, completed: nat,
                         envs: seq<seq<Around>>)
    requires HeldUp(cat, h, sp, w, lease, d, completed) || WorkedOff(cat, h, sp, w, lease, d)
    requires AnsweredAll(cat, w, d, lease, envs) && (envs == [] || Left(w, d) == 0)
    ensures Fits(h, lease, envs)
    ensures ExactlyOnce(cat, h, sp, w, lease, d, completed, WalkAfter(cat, w, d, lease, envs),
                        Retries(h, lease, envs).0, Retries(h, lease, envs).1)
  {
    hide OnTrack, DoneEntries, UndoneEntries, HasGroup;
    assert IdsAhead(sp, w, d)[..0] == [];
    if envs != [] {
      NothingToRetry(cat, h, sp, w, lease, d, completed, envs);
    }
  }

  lemma {:induction false} NothingToRetry(cat: Catalog, h: Hist, sp: Span, w: Walk, lease: nat, d: Direction,
                                          completed: nat, envs: seq<seq<Around>>)
    requires WorkedOff(cat, h, sp, w, lease, d)
    ensures Fits(h, lease, envs)
    ensures Retries(h, lease, envs) == (h, [])
    decreases |envs|
  {
    if envs != [] {
      NothingToRetry(cat, h, sp, w, lease, d, completed, envs[1..]);
    }
  }

  lemma ChainExactlyOnce(cat: Catalog, h: Hist, sp: Span, w: Walk, lease: nat, d: Direction, completed: nat,
                         w1: Walk, h1: Hist, sent: seq<Exchange>, w2: Walk, h2: Hist, more: seq<Exchange>)
    requires |sp.ids| == |w.now| && w.at <= |w.now|
    requires |w1.now| == |w.now| && w1.at <= |w1.now| && Left(w1, d) <= Left(w, d)
    requires AcceptedIds(sent) == IdsAhead(sp, w, d)[..Left(w, d) - Left(w1, d)]
    requires EngineAfter(cat, w.scene, sent) == w1.scene && h1.editUnsupported == h.editUnsupported
    requires ExactlyOnce(cat, h1, sp, w1, lease, d, completed + |AcceptedIds(sent)|, w2, h2, more)
    ensures ExactlyOnce(cat, h, sp, w, lease, d, completed, w2, h2, sent + more)
  {
    hide HeldUp, WorkedOff, EngineAfter, AcceptedIds;
    AcceptedIdsConcat(sent, more);
    EngineAfterConcat(cat, w.scene, sent, more);
    var here, there := Left(w, d), Left(w1, d);
    assert forall j | 0 <= j < there :: Ahead(w1, d, j) == Ahead(w, d, here - there + j);
    assert AcceptedIds(sent + more) == IdsAhead(sp, w, d)[..here - Left(w2, d)];
  }

  /** A whole undo or redo of a closed group, its first run and every retry after
      it: each step is accepted once and in order, the count reported equals the
      number accepted, and the engine's scene is the walk's. */
  lemma GroupIsExactlyOnce(cat: Catalog, h: Hist, sp: Span, w: Walk, lease: nat, d: Direction,
                           first: seq<Around>, envs: seq<seq<Around>>)
    requires Linked(h, sp, w) && OnTrack(cat, w) && h.generation == Some(lease)
    requires !h.pending && h.pendingGroup.None? && Left(w, d) == |w.now| > 0
    requires AnsweredAll(cat, w, d, lease, [first] + envs)
    ensures
      var a := Action(d, sp.group, TopSteps(Stack(h, d), sp.group.key), true);
      && |first| == |a.steps|
      && var r := RunGroup(h, lease, a, false, first);
      && Fits(r.hist, lease, envs)
      && var (h1, more) := Retries(r.hist, lease, envs);
      ExactlyOnce(cat, h, sp, w, lease, d, 0, WalkAfter(cat, w, d, lease, [first] + envs), h1, r.sent + more)
  {
    hide OnTrack, Answered, AcceptedMoves, Walked, Walkable, EngineAfter, RunSteps, DoneEntries, UndoneEntries,
         HasGroup, ExactlyOnce, TopSteps, Retries, Fits;
    PreparedStepsAre(h, sp, w, d);
    var a := Action(d, sp.group, StepsAhead(sp, w, d), true);
    assert ([first] + envs)[1..] == envs;
    RunFollowsWalk(cat, h, sp, w, lease, a, 0, a.steps, first);
    var ms := AcceptedMoves(cat, w, d, lease, first);
    var w1 := Walked(cat, w, ms);
    WalkedKeepsSize(cat, w, ms);
    var r := RunGroup(h, lease, a, false, first);
    RetriesAreExactlyOnce(cat, r.hist, sp, w1, lease, d, |ms|, envs);
    ChainExactlyOnce(cat, h, sp, w, lease, d, 0, w1, r.hist, r.sent,
                     WalkAfter(cat, w1, d, lease, envs), Retries(r.hist, lease, envs).0, Retries(r.hist, lease, envs).1);
  }
}
