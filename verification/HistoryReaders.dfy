/** The history is kept for one generation and read by many. Most callers read the
    generation and lock the history in one step; the actor's group path and the
    confirmation reader take two. Composed with the connection state machine. */
module HistoryReaders {
  import B = BridgeRuns
  import opened Options

  /** An undo or redo record and the generation it was made under. */
  datatype Record = Record(made: nat, id: nat)

  /** `sample` is what the actor read and has not yet used, `samples` the same for the
      confirmation readers. */
  datatype Store = Store(
    bridge: B.System,
    tag: Option<nat>,
    records: set<Record>,
    nextId: nat,
    sample: Option<Option<nat>>,
    samples: map<nat, Option<nat>>)

  datatype Step =
    | Connection(step: B.Step)
    | ReadAtOnce
    | RecordAtOnce(lease: nat)
    | ActorSamples
    | ActorUses
    | ReaderSamples(i: nat)
    | ReaderUses(i: nat)

  function Start(): Store { Store(B.Start(), None, {}, 0, None, map[]) }

  function Current(s: Store): Option<nat> { s.bridge.sh.current }

  /** Another generation clears everything, the same one keeps everything. */
  function Synchronize(s: Store, g: Option<nat>): Store {
    if s.tag == g then s else s.(tag := g, records := {})
  }

  /** The actor alone records, and not while it is between its two steps. What it then
      does to the stacks in the second step moves records and makes none. */
  function Apply(s: Store, e: Step): Store {
    match e
    case Connection(step) => s.(bridge := B.Apply(s.bridge, step))
    case ReadAtOnce => Synchronize(s, Current(s))
    case RecordAtOnce(lease) =>
      if s.sample.Some? then s
      else
        var t := Synchronize(s, Current(s));
        if Current(s) == Some(lease) then t.(records := t.records + {Record(lease, s.nextId)}, nextId := s.nextId + 1)
        else t
    case ActorSamples => if s.sample.None? then s.(sample := Some(Current(s))) else s
    case ActorUses => if s.sample.Some? then Synchronize(s, s.sample.value).(sample := None) else s
    case ReaderSamples(i) => s.(samples := s.samples[i := Current(s)])
    case ReaderUses(i) => if i in s.samples then Synchronize(s, s.samples[i]).(samples := s.samples - {i}) else s
  }

  function Run(s: Store, steps: seq<Step>): Store
    decreases |steps|
  {
    if steps == [] then s else Run(Apply(s, steps[0]), steps[1..])
  }

  /** A record kept under the current generation was made while that generation was
      already current, and so was whatever the actor has sampled since. */
  ghost predicate Inv(s: Store) {
    && B.Inv(s.bridge)
    && (forall r :: r in s.records ==> s.tag == Some(r.made) && r.id < s.nextId && 2 <= B.Stage(s.bridge, r.made))
    && (s.sample.Some? && s.sample.value != Current(s) && Current(s).Some? ==>
          forall r :: r in s.records ==> Some(r.made) != Current(s))
  }

  lemma CurrentIsStageTwo(s: Store, g: nat)
    requires B.Inv(s.bridge)
    ensures Current(s) == Some(g) <==> B.Stage(s.bridge, g) == 2
  {
    B.ConnectedIsStageTwo(s.bridge, g);
  }

  lemma ConnectionKeepsInv(s: Store, step: B.Step)
    requires Inv(s)
    ensures Inv(Apply(s, Connection(step)))
  {
    hide B.Apply, B.Inv, B.Stage;
    var s' := Apply(s, Connection(step));
    B.StepKeepsInv(s.bridge, step);
    forall r | r in s'.records
      ensures 2 <= B.Stage(s'.bridge, r.made)
      ensures Some(r.made) == Current(s') ==> Some(r.made) == Current(s)
    {
      B.StageNeverDrops(s.bridge, step, r.made);
      CurrentIsStageTwo(s, r.made);
      CurrentIsStageTwo(s', r.made);
    }
  }

  lemma StepKeepsInv(s: Store, e: Step)
    requires Inv(s)
    ensures Inv(Apply(s, e))
  {
    hide B.Apply, B.Inv, B.Stage;
    if e.Connection? {
      ConnectionKeepsInv(s, e.step);
    } else if e.RecordAtOnce? {
      CurrentIsStageTwo(s, e.lease);
    }
  }

  lemma {:induction false} RunKeepsInv(s: Store, steps: seq<Step>)
    requires Inv(s)
    ensures Inv(Run(s, steps))
    decreases |steps|
  {
    hide Apply, Inv;
    if steps != [] {
      StepKeepsInv(s, steps[0]);
      RunKeepsInv(Apply(s, steps[0]), steps[1..]);
    }
  }

  lemma StartIsFine()
    ensures Inv(Start())
  {
    B.StartIsFine();
  }

  /** Whatever generation a reader uses, current or stale, the records it sees were made
      under that one. */
  lemma ReadersSeeOnlyTheirGeneration(steps: seq<Step>, g: Option<nat>)
    ensures forall r :: r in Synchronize(Run(Start(), steps), g).records ==> g == Some(r.made)
  {
    hide Apply, Run, B.Inv;
    StartIsFine();
    RunKeepsInv(Start(), steps);
  }

  /** The confirmation reader uses, in its second step, a generation other than `g`. */
  predicate StaleUse(s: Store, e: Step, g: nat) {
    e.ReaderUses? && e.i in s.samples && s.samples[e.i] != Some(g)
  }

  predicate StaleUseIn(s: Store, steps: seq<Step>, g: nat)
    decreases |steps|
  {
    steps != [] && (StaleUse(s, steps[0], g) || StaleUseIn(Apply(s, steps[0]), steps[1..], g))
  }

  lemma StepKeepsRecord(s: Store, e: Step, r: Record)
    requires Inv(s) && r in s.records && Current(s) == Some(r.made)
    ensures r in Apply(s, e).records <==> !StaleUse(s, e, r.made)
  {
    hide B.Apply, B.Inv, B.Stage;
  }

  lemma LostRecordStaysLost(s: Store, e: Step, r: Record)
    requires r !in s.records && r.id < s.nextId
    ensures r !in Apply(s, e).records && r.id < Apply(s, e).nextId
  {
    hide B.Apply;
  }

  lemma {:induction false} LostRecordsStayLost(s: Store, steps: seq<Step>, r: Record)
    requires r !in s.records && r.id < s.nextId
    ensures r !in Run(s, steps).records
    decreases |steps|
  {
    hide Apply;
    if steps != [] {
      LostRecordStaysLost(s, steps[0], r);
      LostRecordsStayLost(Apply(s, steps[0]), steps[1..], r);
    }
  }

  lemma {:induction false} StaysCurrent(s: Store, steps: seq<Step>, g: nat)
    requires Inv(s) && 2 <= B.Stage(s.bridge, g)
    requires Current(Run(s, steps)) == Some(g)
    ensures Current(s) == Some(g)
    decreases |steps|
  {
    hide B.Apply, B.Inv, B.Stage;
    if steps == [] {
    } else {
      if steps[0].Connection? { B.StageNeverDrops(s.bridge, steps[0].step, g); }
      StepKeepsInv(s, steps[0]);
      StaysCurrent(Apply(s, steps[0]), steps[1..], g);
      CurrentIsStageTwo(s, g);
      CurrentIsStageTwo(Apply(s, steps[0]), g);
    }
  }

  /** As long as its generation is current a record is kept, whatever connects,
      disconnects, reads, or goes through the actor's two steps: it is lost exactly when
      a confirmation reader uses another generation it read before. */
  lemma {:induction false} RecordIsKeptIffNoStaleUse(s: Store, steps: seq<Step>, r: Record)
    requires Inv(s) && r in s.records
    requires Current(Run(s, steps)) == Some(r.made)
    ensures r in Run(s, steps).records <==> !StaleUseIn(s, steps, r.made)
    decreases |steps|
  {
    hide Apply, B.Inv, StaleUse;
    if steps != [] {
      StaysCurrent(s, steps, r.made);
      StepKeepsRecord(s, steps[0], r);
      StepKeepsInv(s, steps[0]);
      if r in Apply(s, steps[0]).records {
        RecordIsKeptIffNoStaleUse(Apply(s, steps[0]), steps[1..], r);
      } else {
        KeepsIds(s, steps[0]);
        LostRecordsStayLost(Apply(s, steps[0]), steps[1..], r);
      }
    }
  }

  lemma KeepsIds(s: Store, e: Step)
    ensures s.nextId <= Apply(s, e).nextId
  {
    hide B.Apply;
  }

  /** So without confirmation readers the two steps of the actor lose nothing. */
  lemma ActorLosesNoRecord(before: seq<Step>, after: seq<Step>, r: Record)
    requires r in Run(Start(), before).records
    requires Current(Run(Run(Start(), before), after)) == Some(r.made)
    requires forall e :: e in after ==> !e.ReaderUses?
    ensures r in Run(Run(Start(), before), after).records
  {
    hide Apply, Run, B.Inv;
    StartIsFine();
    RunKeepsInv(Start(), before);
    NoReaderNoStaleUse(Run(Start(), before), after, r.made);
    RecordIsKeptIffNoStaleUse(Run(Start(), before), after, r);
  }

  lemma {:induction false} NoReaderNoStaleUse(s: Store, steps: seq<Step>, g: nat)
    requires forall e :: e in steps ==> !e.ReaderUses?
    ensures !StaleUseIn(s, steps, g)
    decreases |steps|
  {
    hide Apply;
    if steps != [] {
      assert !steps[0].ReaderUses?;
      NoReaderNoStaleUse(Apply(s, steps[0]), steps[1..], g);
    }
  }

  // ---- the confirmation reader does lose records ----

  function ConnectSteps(): seq<B.Step> {
    [B.Draw(false), B.Enter(0), B.CompletePublish, B.Dialed(0, true), B.SetUp(0, true), B.CheckPhase(0),
     B.Subscribed(0, true), B.Finished(0), B.Decide(0)]
  }

  function Steps(connection: seq<B.Step>): seq<Step> {
    seq(|connection|, i requires 0 <= i < |connection| => Connection(connection[i]))
  }

  lemma {:induction false} ConnectionStepsRun(s: Store, connection: seq<B.Step>, rest: seq<Step>)
    ensures Run(s, Steps(connection) + rest) == Run(s.(bridge := B.Run(s.bridge, connection)), rest)
    decreases |connection|
  {
    hide B.Apply;
    if connection == [] {
      assert Steps(connection) + rest == rest;
    } else {
      var t := s.(bridge := B.Apply(s.bridge, connection[0]));
      assert Steps(connection)[0] == Connection(connection[0]);
      assert (Steps(connection) + rest)[1..] == Steps(connection[1..]) + rest;
      ConnectionStepsRun(t, connection[1..], rest);
    }
  }

  lemma ConnectStepsConnect()
    ensures B.Run(B.Start(), ConnectSteps()).sh.current == Some(0)
  {
    hide B.Apply, B.Run;
    var all := ConnectSteps();
    var s3 := B.RunOfThree(B.Start(), B.Draw(false), B.Enter(0), B.CompletePublish);
    var s6 := B.RunOfThree(s3, B.Dialed(0, true), B.SetUp(0, true), B.CheckPhase(0));
    var s9 := B.RunOfThree(s6, B.Subscribed(0, true), B.Finished(0), B.Decide(0));
    ConnectsHalfWay(s3);
    ConnectsFurther(s3, s6);
    ConnectsAllTheWay(s6, s9);
    B.RunSplits(B.Start(), all, 3);
    B.RunSplits(s3, all[3..], 3);
    assert all[..3] == [B.Draw(false), B.Enter(0), B.CompletePublish];
    assert all[3..][..3] == [B.Dialed(0, true), B.SetUp(0, true), B.CheckPhase(0)];
    assert all[3..][3..] == [B.Subscribed(0, true), B.Finished(0), B.Decide(0)];
  }

  lemma ConnectsHalfWay(s3: B.System)
    requires s3 == B.Apply(B.Apply(B.Apply(B.Start(), B.Draw(false)), B.Enter(0)), B.CompletePublish)
    ensures B.In(s3, 0, B.Dialing) && s3.sh.mid.None? && s3.sh.phase == B.Bridge.Connecting(0) && s3.sh.cancelled == {}
  {}

  lemma ConnectsFurther(s3: B.System, s6: B.System)
    requires B.In(s3, 0, B.Dialing) && s3.sh.mid.None? && s3.sh.phase == B.Bridge.Connecting(0) && s3.sh.cancelled == {}
    requires s6 == B.Apply(B.Apply(B.Apply(s3, B.Dialed(0, true)), B.SetUp(0, true)), B.CheckPhase(0))
    ensures B.In(s6, 0, B.AwaitingLogs) && s6.sh.mid.None? && s6.sh.phase == B.Bridge.Connecting(0)
  {}

  lemma ConnectsAllTheWay(s6: B.System, s9: B.System)
    requires B.In(s6, 0, B.AwaitingLogs) && s6.sh.mid.None? && s6.sh.phase == B.Bridge.Connecting(0)
    requires s9 == B.Apply(B.Apply(B.Apply(s6, B.Subscribed(0, true)), B.Finished(0)), B.Decide(0))
    ensures s9.sh.current == Some(0)
  {}

  /** A confirmation reader that read the generation before a connection came up empties
      the history made since. */
  lemma ConfirmationReaderCanLoseRecords()
    ensures
      var before := [ReaderSamples(0)] + Steps(ConnectSteps()) + [RecordAtOnce(0)];
      var s := Run(Start(), before);
      && Current(s) == Some(0) && s.records == {Record(0, 0)}
      && Current(Apply(s, ReaderUses(0))) == Some(0) && Apply(s, ReaderUses(0)).records == {}
  {
    hide B.Apply, B.Run;
    ConnectStepsConnect();
    var s1 := Apply(Start(), ReaderSamples(0));
    var rest := Steps(ConnectSteps()) + [RecordAtOnce(0)];
    var before := [ReaderSamples(0)] + Steps(ConnectSteps()) + [RecordAtOnce(0)];
    assert before == [ReaderSamples(0)] + rest;
    assert before[0] == ReaderSamples(0) && before[1..] == rest;
    ConnectionStepsRun(s1, ConnectSteps(), [RecordAtOnce(0)]);
    var s2 := s1.(bridge := B.Run(s1.bridge, ConnectSteps()));
    assert [RecordAtOnce(0)][1..] == [];
    assert Run(s2, [RecordAtOnce(0)]) == Apply(s2, RecordAtOnce(0));
  }
}
