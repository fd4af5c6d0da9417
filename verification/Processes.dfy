/** The engine process: one holder of a handle, contended for by launches, their rollbacks,
    the exit monitors, stops and exit hooks. One step is one lock section or one stretch
    without the lock. A handle is its kill sender; sent or dropped, the child is told. */
module Processes {
  import opened Options

  /** How a handle left the holder. */
  datatype How = ByMonitor | ByStop | ByRollback | ByExitHook | ByOverwrite

  datatype MonitorState = Waiting | Reaped(ok: bool) | Emitting | Done

  /** One generation: `told` when its kill sender was sent or dropped, `dropped` when the
      monitor has ended and its child with it, which kills on drop; `left` lists how the
      handle left the holder, `exits` and `signals` count the exit events and the
      disconnected signals of stops. */
  datatype Proc = Proc(
    running: bool, told: bool, dropped: bool, monitor: MonitorState, left: seq<How>, exits: nat, signals: nat)

  datatype Task =
    | Checked
    | Monitored(gen: nat)
    | Stored(gen: nat)
    | RollingBack(gen: nat)
    | Stopping(gen: nat)
    | StopTold(gen: nat)
    | ExitKilling(gen: nat)
    | ExitTold(gen: nat)
    | Ended

  datatype System = System(holder: Option<nat>, next: nat, procs: map<nat, Proc>, tasks: map<nat, Task>)

  datatype Step =
    | Check(i: nat)
    | Spawn(i: nat, ready: bool)
    | Store(i: nat)
    | Connect(i: nat, ok: bool)
    | Stop(i: nat)
    | Exit(i: nat)
    | TaskKills(i: nat)
    | StopSignals(i: nat)
    | ExitAborts(i: nat)
    | ChildDies(g: nat)
    | Reap(g: nat, ok: bool)
    | MonitorClears(g: nat)
    | Emit(g: nat)

  function Start(): System { System(None, 0, map[], map[]) }

  predicate In(s: System, i: nat, t: Task) { i in s.tasks && s.tasks[i] == t }

  function With(s: System, i: nat, t: Task): System { s.(tasks := s.tasks[i := t]) }

  function WithProc(s: System, g: nat, p: Proc): System { s.(procs := s.procs[g := p]) }

  /** Takes the held handle out. */
  function TakeOut(s: System, how: How): System
    requires s.holder.Some?
  {
    var g := s.holder.value;
    var s1 := s.(holder := None);
    if g in s.procs then WithProc(s1, g, s.procs[g].(left := s.procs[g].left + [how])) else s1
  }

  function Tell(s: System, g: nat): System {
    if g in s.procs then WithProc(s, g, s.procs[g].(told := true)) else s
  }

  /** The new handle replaces whatever is held; a replaced one is dropped. */
  function StoreHandle(s: System, g: nat): System {
    var t := if s.holder.Some? then Tell(TakeOut(s, ByOverwrite), s.holder.value) else s;
    t.(holder := Some(g))
  }

  function TakeFor(s: System, i: nat, how: How): System {
    if i in s.tasks then s
    else if s.holder.None? then With(s, i, Ended)
    else
      With(TakeOut(s, how), i, if how.ByStop? then Stopping(s.holder.value) else ExitKilling(s.holder.value))
  }

  /** A failed connect takes the handle back only if it is still its own. */
  function ConnectEnds(s: System, i: nat, g: nat, ok: bool): System {
    if !ok && s.holder == Some(g) then With(TakeOut(s, ByRollback), i, RollingBack(g)) else With(s, i, Ended)
  }

  predicate TakenBy(t: Task, g: nat) { t == RollingBack(g) || t == Stopping(g) || t == ExitKilling(g) }

  predicate Taking(t: Task) { t.RollingBack? || t.Stopping? || t.ExitKilling? }

  function AfterKill(t: Task): Task
    requires Taking(t)
  {
    if t.Stopping? then StopTold(t.gen) else if t.ExitKilling? then ExitTold(t.gen) else Ended
  }

  /** Under the lock, and only for the generation it watches. */
  function Clear(s: System, g: nat): System
    requires g in s.procs && s.procs[g].monitor.Reaped?
  {
    var ok := s.procs[g].monitor.ok;
    if s.holder == Some(g) then
      var t := Tell(TakeOut(s, ByMonitor), g);
      WithProc(t, g, t.procs[g].(dropped := !ok, monitor := if ok then Emitting else Done))
    else WithProc(s, g, s.procs[g].(dropped := true, monitor := Done))
  }

  function ApplyTask(s: System, e: Step): System {
    match e
    case Check(i) => if i in s.tasks then s else With(s, i, if s.holder.None? then Checked else Ended)
    case Spawn(i, ready) =>
      if !In(s, i, Checked) then s
      else if ready then
        With(WithProc(s, s.next, Proc(true, false, false, Waiting, [], 0, 0)).(next := s.next + 1), i, Monitored(s.next))
      else With(s, i, Ended)
    case Store(i) =>
      if i in s.tasks && s.tasks[i].Monitored? then With(StoreHandle(s, s.tasks[i].gen), i, Stored(s.tasks[i].gen)) else s
    case Connect(i, ok) =>
      if i in s.tasks && s.tasks[i].Stored? then ConnectEnds(s, i, s.tasks[i].gen, ok) else s
    case Stop(i) => TakeFor(s, i, ByStop)
    case Exit(i) => TakeFor(s, i, ByExitHook)
    case TaskKills(i) =>
      if i in s.tasks && Taking(s.tasks[i]) then With(Tell(s, s.tasks[i].gen), i, AfterKill(s.tasks[i])) else s
    case StopSignals(i) =>
      if i in s.tasks && s.tasks[i].StopTold? && s.tasks[i].gen in s.procs then
        var g := s.tasks[i].gen;
        With(WithProc(s, g, s.procs[g].(signals := s.procs[g].signals + 1)), i, Ended)
      else s
    case ExitAborts(i) =>
      if i in s.tasks && s.tasks[i].ExitTold? && s.tasks[i].gen in s.procs then
        var g := s.tasks[i].gen;
        With(WithProc(s, g, s.procs[g].(monitor := Done, dropped := true)), i, Ended)
      else s
    case _ => s
  }

  function Apply(s: System, e: Step): System {
    match e
    case ChildDies(g) => if g in s.procs then WithProc(s, g, s.procs[g].(running := false)) else s
    case Reap(g, ok) =>
      if g in s.procs && s.procs[g].monitor.Waiting? && (ok ==> !s.procs[g].running) then
        WithProc(s, g, s.procs[g].(monitor := Reaped(ok)))
      else s
    case MonitorClears(g) => if g in s.procs && s.procs[g].monitor.Reaped? then Clear(s, g) else s
    case Emit(g) =>
      if g in s.procs && s.procs[g].monitor.Emitting? then
        WithProc(s, g, s.procs[g].(monitor := Done, dropped := true, exits := s.procs[g].exits + 1))
      else s
    case _ => ApplyTask(s, e)
  }

  function Run(s: System, steps: seq<Step>): System
    decreases |steps|
  {
    if steps == [] then s else Run(Apply(s, steps[0]), steps[1..])
  }

  // ---- where each handle is ----

  datatype Place = WithLaunch(i: nat) | InHolder | WithTask(i: nat) | Told(i: nat) | Gone

  /** Followed beside the run: a task that kills holds the handle no more. */
  function Moved(s: System, places: map<nat, Place>, e: Step): map<nat, Place> {
    var h := s.holder;
    match e
    case Spawn(i, ready) => if In(s, i, Checked) && ready then places[s.next := WithLaunch(i)] else places
    case Store(i) =>
      if i in s.tasks && s.tasks[i].Monitored? then
        (if h.Some? then places[h.value := Gone] else places)[s.tasks[i].gen := InHolder]
      else places
    case Connect(i, ok) =>
      if i in s.tasks && s.tasks[i].Stored? && !ok && h == Some(s.tasks[i].gen) then places[h.value := WithTask(i)] else places
    case Stop(i) => if i !in s.tasks && h.Some? then places[h.value := WithTask(i)] else places
    case Exit(i) => if i !in s.tasks && h.Some? then places[h.value := WithTask(i)] else places
    case TaskKills(i) =>
      if i in s.tasks && Taking(s.tasks[i]) then
        places[s.tasks[i].gen := if s.tasks[i].Stopping? then Told(i) else Gone]
      else places
    case StopSignals(i) => if i in s.tasks && s.tasks[i].StopTold? then places[s.tasks[i].gen := Gone] else places
    case MonitorClears(g) =>
      if g in s.procs && s.procs[g].monitor.Reaped? && h == Some(g) then places[g := Gone] else places
    case _ => places
  }

  function Places(s: System, places: map<nat, Place>, steps: seq<Step>): map<nat, Place>
    decreases |steps|
  {
    if steps == [] then places else Places(Apply(s, steps[0]), Moved(s, places, steps[0]), steps[1..])
  }

  function HowOf(t: Task): How {
    if t.Stopping? || t.StopTold? then ByStop else if t.RollingBack? then ByRollback else ByExitHook
  }

  predicate PlaceOk(s: System, q: Place, g: nat)
    requires g in s.procs
  {
    var p := s.procs[g];
    match q
    case WithLaunch(i) => In(s, i, Monitored(g)) && s.holder != Some(g) && p.left == [] && !p.told
    case InHolder => s.holder == Some(g) && p.left == [] && !p.told
    case WithTask(i) =>
      && i in s.tasks && TakenBy(s.tasks[i], g) && s.holder != Some(g)
      && p.left == [HowOf(s.tasks[i])] && !p.told
    case Told(i) => In(s, i, StopTold(g)) && s.holder != Some(g) && p.left == [ByStop] && p.told
    case Gone => s.holder != Some(g) && |p.left| == 1 && p.told
  }

  predicate ProcOk(p: Proc, q: Place) {
    && p.exits <= 1 && p.signals <= 1
    && (p.exits > 0 ==> p.monitor.Done? && p.left == [ByMonitor])
    && (p.monitor.Emitting? ==> p.exits == 0 && p.left == [ByMonitor])
    && (p.signals > 0 ==> q.Gone? && p.left == [ByStop])
    && (p.monitor.Done? ==> p.dropped)
  }

  predicate TaskOk(s: System, places: map<nat, Place>, i: nat)
    requires i in s.tasks
  {
    match s.tasks[i]
    case Checked => true
    case Ended => true
    case Monitored(g) => g in s.procs && g in places && places[g] == WithLaunch(i)
    case Stored(g) => g in s.procs
    case RollingBack(g) => g in s.procs && g in places && places[g] == WithTask(i)
    case Stopping(g) => g in s.procs && g in places && places[g] == WithTask(i)
    case ExitKilling(g) => g in s.procs && g in places && places[g] == WithTask(i)
    case StopTold(g) => g in s.procs && g in places && places[g] == Told(i)
    case ExitTold(g) => g in s.procs && s.procs[g].left == [ByExitHook]
  }

  ghost predicate Inv(s: System, places: map<nat, Place>) {
    && places.Keys == s.procs.Keys
    && (forall g :: g in s.procs ==> g < s.next)
    && (s.holder.Some? ==> s.holder.value in s.procs && places[s.holder.value] == InHolder)
    && (forall g :: g in s.procs ==> GenOk(s, places, g))
    && (forall i :: i in s.tasks ==> TaskOk(s, places, i))
  }

  predicate GenOk(s: System, places: map<nat, Place>, g: nat) {
    g in s.procs && g in places && PlaceOk(s, places[g], g) && ProcOk(s.procs[g], places[g])
  }

  predicate ByTask(e: Step) { !e.ChildDies? && !e.Reap? && !e.MonitorClears? && !e.Emit? }

  /** What is known of the command that takes the step, its generation and the held one. */
  lemma Involved(s: System, places: map<nat, Place>, e: Step)
    requires Inv(s, places)
    ensures s.holder.Some? ==> GenOk(s, places, s.holder.value)
    ensures ByTask(e) && e.i in s.tasks ==> TaskOk(s, places, e.i)
    ensures ByTask(e) && e.i in s.tasks && !s.tasks[e.i].Checked? && !s.tasks[e.i].Ended? ==> GenOk(s, places, s.tasks[e.i].gen)
    ensures !ByTask(e) && e.g in s.procs ==> GenOk(s, places, e.g)
    ensures s.next !in s.procs
  {
    hide PlaceOk, ProcOk;
  }

  lemma LaunchingKeepsGen(s: System, places: map<nat, Place>, e: Step, g: nat)
    requires Inv(s, places) && g in Apply(s, e).procs && (e.Check? || e.Spawn?)
    ensures GenOk(Apply(s, e), Moved(s, places, e), g)
  {
    hide Inv;
    Involved(s, places, e);
    KnownGen(s, places, g);
  }

  lemma StoringKeepsGen(s: System, places: map<nat, Place>, e: Step, g: nat)
    requires Inv(s, places) && g in Apply(s, e).procs && (e.Store?)
    ensures GenOk(Apply(s, e), Moved(s, places, e), g)
  {
    hide Inv;
    Involved(s, places, e);
    KnownGen(s, places, g);
  }

  lemma ConnectingKeepsGen(s: System, places: map<nat, Place>, e: Step, g: nat)
    requires Inv(s, places) && g in Apply(s, e).procs && (e.Connect?)
    ensures GenOk(Apply(s, e), Moved(s, places, e), g)
  {
    hide Inv;
    Involved(s, places, e);
    KnownGen(s, places, g);
  }

  lemma TakenKeepsGen(s: System, places: map<nat, Place>, e: Step, g: nat)
    requires Inv(s, places) && g in Apply(s, e).procs && (e.Stop? || e.Exit?)
    ensures GenOk(Apply(s, e), Moved(s, places, e), g)
  {
    hide Inv;
    Involved(s, places, e);
    KnownGen(s, places, g);
  }

  lemma KillingKeepsGen(s: System, places: map<nat, Place>, e: Step, g: nat)
    requires Inv(s, places) && g in Apply(s, e).procs && (e.TaskKills?)
    ensures GenOk(Apply(s, e), Moved(s, places, e), g)
  {
    hide Inv;
    Involved(s, places, e);
    KnownGen(s, places, g);
  }

  lemma EndingKeepsGen(s: System, places: map<nat, Place>, e: Step, g: nat)
    requires Inv(s, places) && g in Apply(s, e).procs && (e.StopSignals? || e.ExitAborts?)
    ensures GenOk(Apply(s, e), Moved(s, places, e), g)
  {
    hide Inv;
    Involved(s, places, e);
    KnownGen(s, places, g);
  }

  lemma DyingKeepsGen(s: System, places: map<nat, Place>, e: Step, g: nat)
    requires Inv(s, places) && g in Apply(s, e).procs && (e.ChildDies? || e.Reap?)
    ensures GenOk(Apply(s, e), Moved(s, places, e), g)
  {
    hide Inv;
    Involved(s, places, e);
    KnownGen(s, places, g);
  }

  lemma WatchingKeepsGen(s: System, places: map<nat, Place>, e: Step, g: nat)
    requires Inv(s, places) && g in Apply(s, e).procs && (e.MonitorClears? || e.Emit?)
    ensures GenOk(Apply(s, e), Moved(s, places, e), g)
  {
    hide Inv;
    Involved(s, places, e);
    KnownGen(s, places, g);
  }

  lemma StepKeepsGen(s: System, places: map<nat, Place>, e: Step, g: nat)
    requires Inv(s, places) && g in Apply(s, e).procs
    ensures GenOk(Apply(s, e), Moved(s, places, e), g)
  {
    hide Inv, Apply, Moved, GenOk;
    if e.Check? || e.Spawn? { LaunchingKeepsGen(s, places, e, g); }
    else if e.Store? { StoringKeepsGen(s, places, e, g); }
    else if e.Connect? { ConnectingKeepsGen(s, places, e, g); }
    else if e.Stop? || e.Exit? { TakenKeepsGen(s, places, e, g); }
    else if e.TaskKills? { KillingKeepsGen(s, places, e, g); }
    else if e.StopSignals? || e.ExitAborts? { EndingKeepsGen(s, places, e, g); }
    else if e.ChildDies? || e.Reap? { DyingKeepsGen(s, places, e, g); }
    else { WatchingKeepsGen(s, places, e, g); }
  }

  lemma KnownGen(s: System, places: map<nat, Place>, g: nat)
    requires Inv(s, places)
    ensures g in s.procs ==> GenOk(s, places, g)
  {}

  lemma KnownTask(s: System, places: map<nat, Place>, j: nat)
    requires Inv(s, places)
    ensures j in s.tasks ==> TaskOk(s, places, j)
  {}

  lemma LaunchingKeepsTask(s: System, places: map<nat, Place>, e: Step, j: nat)
    requires Inv(s, places) && j in Apply(s, e).tasks && (e.Check? || e.Spawn?)
    ensures TaskOk(Apply(s, e), Moved(s, places, e), j)
  {
    hide Inv;
    Involved(s, places, e);
    KnownTask(s, places, j);
  }

  lemma StoringKeepsTask(s: System, places: map<nat, Place>, e: Step, j: nat)
    requires Inv(s, places) && j in Apply(s, e).tasks && (e.Store? || e.Connect?)
    ensures TaskOk(Apply(s, e), Moved(s, places, e), j)
  {
    hide Inv;
    Involved(s, places, e);
    KnownTask(s, places, j);
  }

  lemma TakenKeepsTask(s: System, places: map<nat, Place>, e: Step, j: nat)
    requires Inv(s, places) && j in Apply(s, e).tasks && (e.Stop? || e.Exit?)
    ensures TaskOk(Apply(s, e), Moved(s, places, e), j)
  {
    hide Inv;
    Involved(s, places, e);
    KnownTask(s, places, j);
  }

  lemma KillingKeepsTask(s: System, places: map<nat, Place>, e: Step, j: nat)
    requires Inv(s, places) && j in Apply(s, e).tasks && (e.TaskKills? || e.StopSignals? || e.ExitAborts?)
    ensures TaskOk(Apply(s, e), Moved(s, places, e), j)
  {
    hide Inv;
    Involved(s, places, e);
    KnownTask(s, places, j);
  }

  lemma WatchingKeepsTask(s: System, places: map<nat, Place>, e: Step, j: nat)
    requires Inv(s, places) && j in Apply(s, e).tasks && !ByTask(e)
    ensures TaskOk(Apply(s, e), Moved(s, places, e), j)
  {
    hide Inv;
    Involved(s, places, e);
    KnownTask(s, places, j);
  }

  lemma StepKeepsTask(s: System, places: map<nat, Place>, e: Step, j: nat)
    requires Inv(s, places) && j in Apply(s, e).tasks
    ensures TaskOk(Apply(s, e), Moved(s, places, e), j)
  {
    hide Inv, Apply, Moved, TaskOk;
    if e.Check? || e.Spawn? { LaunchingKeepsTask(s, places, e, j); }
    else if e.Store? || e.Connect? { StoringKeepsTask(s, places, e, j); }
    else if e.Stop? || e.Exit? { TakenKeepsTask(s, places, e, j); }
    else if e.TaskKills? || e.StopSignals? || e.ExitAborts? { KillingKeepsTask(s, places, e, j); }
    else { WatchingKeepsTask(s, places, e, j); }
  }

  lemma StepKeepsRest(s: System, places: map<nat, Place>, e: Step)
    requires Inv(s, places)
    ensures
      var s', q := Apply(s, e), Moved(s, places, e);
      && q.Keys == s'.procs.Keys
      && (forall g :: g in s'.procs ==> g < s'.next)
      && (s'.holder.Some? ==> s'.holder.value in s'.procs && q[s'.holder.value] == InHolder)
  {
    hide PlaceOk, ProcOk;
    Involved(s, places, e);
  }

  lemma StepKeepsInv(s: System, places: map<nat, Place>, e: Step)
    requires Inv(s, places)
    ensures Inv(Apply(s, e), Moved(s, places, e))
  {
    hide Apply, Moved, GenOk, TaskOk;
    StepKeepsRest(s, places, e);
    forall g | g in Apply(s, e).procs ensures GenOk(Apply(s, e), Moved(s, places, e), g) {
      StepKeepsGen(s, places, e, g);
    }
    forall j | j in Apply(s, e).tasks ensures TaskOk(Apply(s, e), Moved(s, places, e), j) {
      StepKeepsTask(s, places, e, j);
    }
  }

  lemma {:induction false} RunKeepsInv(s: System, places: map<nat, Place>, steps: seq<Step>)
    requires Inv(s, places)
    ensures Inv(Run(s, steps), Places(s, places, steps))
    decreases |steps|
  {
    hide Inv, Apply, Moved;
    if steps != [] {
      StepKeepsInv(s, places, steps[0]);
      RunKeepsInv(Apply(s, steps[0]), Moved(s, places, steps[0]), steps[1..]);
    }
  }

  // ---- results over every run ----

  lemma WholeRun(steps: seq<Step>) returns (places: map<nat, Place>)
    ensures Inv(Run(Start(), steps), places)
  {
    hide Apply, Moved;
    places := Places(Start(), map[], steps);
    RunKeepsInv(Start(), map[], steps);
  }

  /** Among monitor, stop, rollback, exit hooks and a concurrent launch, a handle leaves the
      holder at most once. */
  lemma HandleLeavesAtMostOnce(steps: seq<Step>, g: nat)
    requires g in Run(Start(), steps).procs
    ensures |Run(Start(), steps).procs[g].left| <= 1
  {
    hide Apply, Run;
    var places := WholeRun(steps);
    KnownGen(Run(Start(), steps), places, g);
  }

  /** So the exit event fires at most once, only if the monitor took the handle out, and
      never together with the signal of a stop. */
  lemma ExitEventFiresOnce(steps: seq<Step>, g: nat)
    requires g in Run(Start(), steps).procs
    ensures
      var p := Run(Start(), steps).procs[g];
      && p.exits + p.signals <= 1
      && (p.exits == 1 ==> p.left == [ByMonitor])
      && (p.signals == 1 ==> p.left == [ByStop])
  {
    hide Apply, Run;
    var places := WholeRun(steps);
    KnownGen(Run(Start(), steps), places, g);
  }

  ghost predicate StillHolding(s: System, g: nat) { exists i :: i in s.tasks && TakenBy(s.tasks[i], g) }

  /** A handle that has left: its child has been told to die exactly unless the command that
      took it has not come to its kill yet. */
  lemma ToldUnlessStillTaken(steps: seq<Step>, g: nat)
    requires g in Run(Start(), steps).procs && Run(Start(), steps).procs[g].left != []
    ensures Run(Start(), steps).procs[g].told <==> !StillHolding(Run(Start(), steps), g)
  {
    hide Apply, Run;
    var s := Run(Start(), steps);
    var places := WholeRun(steps);
    KnownGen(s, places, g);
    if i :| i in s.tasks && TakenBy(s.tasks[i], g) {
      KnownTask(s, places, i);
    }
    if places[g].WithTask? {
      assert TakenBy(s.tasks[places[g].i], g);
    }
  }

  /** Once no command is at work, every running child but the held one has been told. */
  lemma IdleEngineHasNoOrphan(steps: seq<Step>, g: nat)
    requires
      var s := Run(Start(), steps);
      && g in s.procs && s.procs[g].running
      && forall i :: i in s.tasks ==> s.tasks[i].Ended?
    ensures Run(Start(), steps).holder == Some(g) || Run(Start(), steps).procs[g].told
  {
    hide Apply, Run;
    var places := WholeRun(steps);
    KnownGen(Run(Start(), steps), places, g);
  }

  /** Between taking the handle and killing, a stop tears the bridge down: until then the
      child runs on, untold, though the holder is empty and a new launch is let in. */
  lemma StopLeavesAWindow()
    ensures
      var s := Run(Start(), [Check(0), Spawn(0, true), Store(0), Stop(1), Check(2)]);
      && 0 in s.procs && s.procs[0].running && !s.procs[0].told && s.procs[0].left == [ByStop]
      && s.holder.None? && In(s, 2, Checked)
  {
    var s3 := Apply(Apply(Apply(Start(), Check(0)), Spawn(0, true)), Store(0));
    assert s3.holder == Some(0) && 0 in s3.procs && s3.procs[0] == Proc(true, false, false, Waiting, [], 0, 0);
    var steps := [Check(0), Spawn(0, true), Store(0), Stop(1), Check(2)];
    assert s3.tasks.Keys == {0};
    var s5 := Apply(Apply(s3, Stop(1)), Check(2));
    RunOfFive(Start(), steps);
  }

  lemma RunFrom(s: System, steps: seq<Step>, k: nat)
    requires k < |steps|
    ensures Run(s, steps[k..]) == Run(Apply(s, steps[k]), steps[k + 1..])
  {
    hide Apply;
    assert steps[k..][1..] == steps[k + 1..];
  }

  lemma RunOfFive(s: System, e: seq<Step>)
    requires |e| == 5
    ensures Run(s, e) == Apply(Apply(Apply(Apply(Apply(s, e[0]), e[1]), e[2]), e[3]), e[4])
  {
    hide Apply;
    var s1 := Apply(s, e[0]);
    var s2 := Apply(s1, e[1]);
    var s3 := Apply(s2, e[2]);
    assert e[0..] == e && e[5..] == [];
    RunFrom(s, e, 0);
    RunFrom(s1, e, 1);
    RunFrom(s2, e, 2);
    RunFrom(s3, e, 3);
    RunFrom(Apply(s3, e[3]), e, 4);
  }
}
