/** What an accepted edit is recorded as. */
module EditRecords {
  import opened Options
  import opened Scenes

  /** An edit as prepared for recording. Old values come from the caller's capture, if it
      had a usable one. */
  datatype Prepared =
    | NewObject(parentId: Option<Id>, kind: Option<string>)
    | Copy(sourceId: Id, parentId: Option<Id>)
    | Move(objectId: Id, newParent: Option<Id>, oldParent: Option<Option<Id>>)
    | Write(objectId: Id, property: string, requested: Value, oldValue: Option<Value>)

  /** What the edit itself read before it wrote. */
  datatype Prior = NothingRead | ParentRead(parent: Option<Id>) | ValueRead(value: Value)

  /** An accepted answer: the id of a new object, the value actually applied. */
  datatype Answer = Answer(newId: Option<Id>, applied: Option<Value>)

  function UsableId(a: Answer): Option<Id> { if a.newId == Some("") then None else a.newId }

  function NewValue(p: Prepared, a: Answer): Value
    requires p.Write?
  {
    if a.applied.Some? then a.applied.value else p.requested
  }

  function OldParent(p: Prepared, prior: Prior): Option<Option<Id>>
    requires p.Move?
  {
    if p.oldParent.Some? then p.oldParent else if prior.ParentRead? then Some(prior.parent) else None
  }

  function OldValue(p: Prepared, prior: Prior): Option<Value>
    requires p.Write?
  {
    if p.oldValue.Some? then p.oldValue else if prior.ValueRead? then Some(prior.value) else None
  }

  function RecordFor(p: Prepared, a: Answer, prior: Prior): Option<Record> {
    match p
    case NewObject(parent, kind) =>
      if UsableId(a).Some? then Some(Create(UsableId(a).value, parent, kind)) else None
    case Copy(source, parent) =>
      if UsableId(a).Some? then Some(Duplicate(source, UsableId(a).value, parent)) else None
    case Move(o, next, _) =>
      var was := OldParent(p, prior);
      if was.Some? && was.value != next then Some(Reparent(o, was.value, next)) else None
    case Write(o, k, _, _) =>
      var was := OldValue(p, prior);
      if was.Some? && was.value != NewValue(p, a) then Some(SetProperty(o, k, was.value, NewValue(p, a))) else None
  }

  /** The scene the engine leaves when it accepts the edit with that answer. */
  function Edited(cat: Catalog, s: Scene, p: Prepared, a: Answer): Scene {
    var id := if a.newId.Some? then a.newId.value else "";
    match p
    case NewObject(parent, kind) => Perform(cat, s, CreateObject(parent, kind), id)
    case Copy(source, parent) => Perform(cat, s, DuplicateObject(source, parent), id)
    case Move(o, next, _) => Perform(cat, s, ReparentObject(o, next), id)
    case Write(o, k, _, _) => Perform(cat, s, WriteProperty(o, k, NewValue(p, a)), id)
  }

  /** The engine accepts only what fits the scene, new ids are new, and old values, where
      known, are those of the scene. */
  predicate Fitting(s: Scene, p: Prepared, a: Answer, prior: Prior) {
    match p
    case NewObject(parent, _) => Present(s, parent) && (a.newId.Some? ==> a.newId.value !in s)
    case Copy(source, parent) => source in s && Present(s, parent) && (a.newId.Some? ==> a.newId.value !in s)
    case Move(o, next, _) =>
      o in s && Present(s, next) && (OldParent(p, prior).Some? ==> OldParent(p, prior).value == s[o].parent)
    case Write(o, k, _, _) =>
      o in s && k in s[o].props && (OldValue(p, prior).Some? ==> OldValue(p, prior).value == s[o].props[k])
  }

  /** The record of an accepted edit is true of the scene before it, changes something, and
      applied there gives exactly the scene the edit left: so edits recorded one after the
      other can be walked back. */
  lemma RecordIsTheEdit(cat: Catalog, s: Scene, p: Prepared, a: Answer, prior: Prior)
    requires Fitting(s, p, a, prior) && RecordFor(p, a, prior).Some?
    ensures
      var r := RecordFor(p, a, prior).value;
      Recorded(s, r) && Changes(r) && Forward(cat, s, r) == Edited(cat, s, p, a)
  {
  }

  /** And none is kept exactly if there is nothing to take back or no telling how: a create
      or copy without an id, a change from an unknown value, or no change. */
  lemma NoRecordIff(cat: Catalog, s: Scene, p: Prepared, a: Answer, prior: Prior)
    requires Fitting(s, p, a, prior)
    ensures
      RecordFor(p, a, prior).None? <==>
        match p
        case NewObject(_, _) => a.newId.None? || a.newId.value == ""
        case Copy(_, _) => a.newId.None? || a.newId.value == ""
        case Move(_, _, _) => OldParent(p, prior).None? || Edited(cat, s, p, a) == s
        case Write(_, _, _, _) => OldValue(p, prior).None? || Edited(cat, s, p, a) == s
  {
    if p.Move? {
      var o := s[p.objectId];
      assert o.(parent := p.newParent).parent == p.newParent;
      assert o.(parent := o.parent) == o;
    } else if p.Write? {
      var o := s[p.objectId];
      assert o.(props := o.props[p.property := NewValue(p, a)]).props[p.property] == NewValue(p, a);
      assert o.props[p.property := o.props[p.property]] == o.props;
    }
  }

  // ---- edits one after the other ----

  datatype Edit = Edit(prepared: Prepared, answer: Answer, prior: Prior) {
    function Record(): Option<Record> { RecordFor(prepared, answer, prior) }
  }

  function SceneAfter(cat: Catalog, s: Scene, edits: seq<Edit>, n: nat): Scene
    requires n <= |edits|
  {
    if n == 0 then s else Edited(cat, SceneAfter(cat, s, edits, n - 1), edits[n - 1].prepared, edits[n - 1].answer)
  }

  function Records(edits: seq<Edit>, n: nat): seq<Record>
    requires n <= |edits|
  {
    if n == 0 then []
    else
      var r := edits[n - 1].Record();
      Records(edits, n - 1) + if r.Some? then [r.value] else []
  }

  /** The edit fits the scene it meets, and is recorded unless it changes nothing. */
  predicate Kept(cat: Catalog, s: Scene, edits: seq<Edit>, i: nat)
    requires i < |edits|
  {
    var here, e := SceneAfter(cat, s, edits, i), edits[i];
    && Fitting(here, e.prepared, e.answer, e.prior)
    && (e.Record().Some? || Edited(cat, here, e.prepared, e.answer) == here)
  }

  lemma TracedOneMore(cat: Catalog, s: Scene, rs: seq<Record>, r: Record)
    requires Traced(cat, s, rs) && Recorded(Replay(cat, s, rs, |rs|), r)
    ensures Traced(cat, s, rs + [r])
    ensures Replay(cat, s, rs + [r], |rs| + 1) == Forward(cat, Replay(cat, s, rs, |rs|), r)
  {
    hide Forward, Recorded;
    forall k | 0 <= k < |rs| + 1 ensures RecordedAt(cat, s, rs + [r], k) {
      ReplayAgrees(cat, s, rs + [r], rs, k);
      if k < |rs| { assert RecordedAt(cat, s, rs, k); }
    }
    ReplayAgrees(cat, s, rs + [r], rs, |rs|);
  }

  /** A run of kept edits leaves records that are a trace of it: replayed from the scene it
      met they give the scene it left. That is what a group is undone and redone by. */
  lemma {:induction false} KeptEditsAreTraced(cat: Catalog, s: Scene, edits: seq<Edit>, n: nat)
    requires n <= |edits| && forall i | 0 <= i < n :: Kept(cat, s, edits, i)
    ensures
      var rs := Records(edits, n);
      && Traced(cat, s, rs) && Replay(cat, s, rs, |rs|) == SceneAfter(cat, s, edits, n)
      && forall k | 0 <= k < |rs| :: Changes(rs[k])
    decreases n
  {
    hide Fitting, RecordFor, Edited, Forward, Recorded, Traced, Changes;
    if n == 0 {
      NothingTraced(cat, s);
    } else {
      KeptEditsAreTraced(cat, s, edits, n - 1);
      assert Kept(cat, s, edits, n - 1);
      var e := edits[n - 1];
      if e.Record().Some? {
        RecordIsTheEdit(cat, SceneAfter(cat, s, edits, n - 1), e.prepared, e.answer, e.prior);
        TracedOneMore(cat, s, Records(edits, n - 1), e.Record().value);
      } else {
        assert Records(edits, n) == Records(edits, n - 1);
      }
    }
  }

  lemma NothingTraced(cat: Catalog, s: Scene)
    ensures Traced(cat, s, [])
  {
  }
}
