/** Running a group's undo or redo: requests go out one at a time, each for the
    record its step stands for at that moment, and the run stops at the first
    answer that is not an acceptance. */
module GroupActions {
  import opened Options
  import opened Scenes
  import opened History
  import opened HistoryStates

  /** `Accepted` carries the new id the answer names, if any. `NotAccepted` and
      `EngineError` are known refusals; `NoAnswer` leaves the outcome open. */
  datatype Reply = Accepted(newId: Option<Id>) | NotAccepted | EngineError | NoAnswer

  /** What happens around one step: whether the caller's authorization and the
      connection still hold before it, the answer (none when the actor drops the
      action while waiting), and the generation read after the answer. */
  datatype Around = Around(authorized: bool, connected: bool, reply: Option<Reply>, after: Option<nat>)

  datatype Exchange = Exchange(entryId: nat, request: Request, reply: Option<Reply>)

  datatype End = Finished | Cancelled | Disconnected | Failed | Interrupted

  datatype Run = Run(hist: Hist, sent: seq<Exchange>, completed: nat, end: End)

  /** The history after an answer, and how the run ends if it does. */
  function AfterReply(h: Hist, lease: nat, a: Action, completed: nat, step: Step, reply: Reply, after: Option<nat>)
    : (r: (Hist, Option<End>))
    ensures r.1 != Some(Finished)
  {
    var h1 := History.Synchronize(h, after);
    if after != Some(lease) then (h1, Some(Disconnected))
    else if !reply.Accepted? then
      (History.StartPending(h1, a, completed, reply.NoAnswer?, !reply.NoAnswer?), Some(Failed))
    else
      var (h2, o) := History.FinishGroupStep(h1, a, step, reply.newId);
      if o.Applied? then (h2, None) else (History.StartPending(h2, a, completed, true, false), Some(Failed))
  }

  /** One turn of the loop: the guards, the request for the refreshed record, and
      what its answer does. No end means the step was accepted and recorded. */
  function OneStep(h: Hist, lease: nat, a: Action, completed: nat, queued: Step, x: Around)
    : (r: (Hist, seq<Exchange>, Option<End>))
    ensures r.2 != Some(Finished)
  {
    if !x.authorized then
      (if completed == 0 then h else History.StartPending(h, a, completed, false, false), [], Some(Cancelled))
    else if !x.connected then (h, [], Some(Disconnected))
    else
      var now := RefreshStep(h, a.direction, a.group.key, queued.entryId);
      if now.None? then (h, [], Some(Disconnected))
      else
        var sent := [Exchange(now.value.entryId, RequestFor(now.value.record, a.direction), x.reply)];
        if x.reply.None? then (h, sent, Some(Interrupted))
        else
          var (h1, end) := AfterReply(h, lease, a, completed, now.value, x.reply.value, x.after);
          (h1, sent, end)
  }

  function RunSteps(h: Hist, lease: nat, a: Action, completed: nat, steps: seq<Step>, env: seq<Around>): Run
    requires |env| == |steps|
    decreases |steps|
  {
    if steps == [] then Run(h, [], completed, Finished)
    else
      var (h1, sent, end) := OneStep(h, lease, a, completed, steps[0], env[0]);
      if end.Some? then Run(h1, sent, completed, end.value)
      else
        var rest := RunSteps(h1, lease, a, completed + 1, steps[1..], env[1..]);
        Prepend(sent, rest)
  }

  function StartCount(h: Hist, retrying: bool): nat {
    if retrying && h.pendingGroup.Some? then h.pendingGroup.value.completed else 0
  }

  function RunGroup(h: Hist, lease: nat, a: Action, retrying: bool, env: seq<Around>): Run
    requires |env| == |a.steps|
  {
    var r := RunSteps(h, lease, a, StartCount(h, retrying), a.steps, env);
    if r.end.Finished? && retrying then r.(hist := History.ClearCompletedPending(r.hist, a.group.key)) else r
  }

  method SettleReply(history: HistoryState, lease: nat, a: Action, completed: nat, step: Step, reply: Reply,
                     after: Option<nat>)
    returns (end: Option<End>)
    modifies history
    ensures (history.View(), end) == AfterReply(old(history.View()), lease, a, completed, step, reply, after)
  {
    history.Synchronize(after);
    if after != Some(lease) {
      return Some(Disconnected);
    }
    match reply {
      case Accepted(newId) =>
        var o := history.FinishGroupStep(a, step, newId);
        if o.Applied? {
          return None;
        }
        history.StartPending(a, completed, true, false);
        return Some(Failed);
      case NoAnswer =>
        history.StartPending(a, completed, true, false);
        return Some(Failed);
      case _ =>
        history.StartPending(a, completed, false, true);
        return Some(Failed);
    }
  }

  method TryStep(history: HistoryState, lease: nat, a: Action, completed: nat, queued: Step, x: Around)
    returns (sent: seq<Exchange>, end: Option<End>)
    modifies history
    ensures (history.View(), sent, end) == OneStep(old(history.View()), lease, a, completed, queued, x)
  {
    hide AfterReply, RefreshStep, RequestFor;
    sent := [];
    if !x.authorized {
      if completed > 0 {
        history.StartPending(a, completed, false, false);
      }
      end := Some(Cancelled);
    } else if !x.connected {
      end := Some(Disconnected);
    } else {
      var now := RefreshStep(history.View(), a.direction, a.group.key, queued.entryId);
      if now.None? {
        end := Some(Disconnected);
      } else {
        sent := [Exchange(now.value.entryId, RequestFor(now.value.record, a.direction), x.reply)];
        if x.reply.None? {
          end := Some(Interrupted);
        } else {
          end := SettleReply(history, lease, a, completed, now.value, x.reply.value, x.after);
        }
      }
    }
  }

  method RunGroupHistoryAction(history: HistoryState, lease: nat, a: Action, retrying: bool, env: seq<Around>)
    returns (sent: seq<Exchange>, completed: nat, end: End)
    requires |env| == |a.steps|
    modifies history
    ensures Run(history.View(), sent, completed, end) == RunGroup(old(history.View()), lease, a, retrying, env)
  {
    hide OneStep, History.ClearCompletedPending;
    completed := if retrying && history.pendingGroup.Some? then history.pendingGroup.value.completed else 0;
    sent := [];
    var i := 0;
    ghost var whole := RunSteps(history.View(), lease, a, completed, a.steps, env);
    assert a.steps[0..] == a.steps && env[0..] == env;
    while i < |a.steps|
      invariant 0 <= i <= |a.steps|
      invariant whole == Prepend(sent, RunSteps(history.View(), lease, a, completed, a.steps[i..], env[i..]))
    {
      assert a.steps[i..][1..] == a.steps[i + 1..] && env[i..][1..] == env[i + 1..];
      ghost var before := sent;
      var more, stop := TryStep(history, lease, a, completed, a.steps[i], env[i]);
      sent := sent + more;
      if stop.Some? {
        end := stop.value;
        return;
      }
      completed := completed + 1;
      PrependTwice(before, more, RunSteps(history.View(), lease, a, completed, a.steps[i + 1..], env[i + 1..]));
      i := i + 1;
    }
    end := Finished;
    if retrying {
      history.ClearCompletedPending(a.group.key);
    }
  }

  function Prepend(sent: seq<Exchange>, r: Run): Run { r.(sent := sent + r.sent) }

  lemma PrependTwice(s: seq<Exchange>, t: seq<Exchange>, r: Run)
    ensures Prepend(s, Prepend(t, r)) == Prepend(s + t, r)
  {
    assert s + (t + r.sent) == (s + t) + r.sent;
  }
}
