/** Groups one above the other. A redo renames created ids in the records of its own group
    only; what that means for the groups redone after it. */
module GroupStacks {
  import opened Options
  import opened Scenes
  import opened History

  // ---- a whole renaming, id by id and record by record ----

  function RenamedId(sub: Renaming, x: Id): Id {
    if sub == [] then x else RenamedId(sub[1..], Swap(x, sub[0].0, sub[0].1))
  }

  function RenamedOpt(sub: Renaming, p: Option<Id>): Option<Id> {
    if p.Some? then Some(RenamedId(sub, p.value)) else None
  }

  /** The record with every id it names renamed. */
  function RenamedRecord(sub: Renaming, r: Record): Record {
    match r
    case Create(c, p, k) => Create(RenamedId(sub, c), RenamedOpt(sub, p), k)
    case Duplicate(o, c, p) => Duplicate(RenamedId(sub, o), RenamedId(sub, c), RenamedOpt(sub, p))
    case Reparent(o, prior, next) => Reparent(RenamedId(sub, o), RenamedOpt(sub, prior), RenamedOpt(sub, next))
    case SetProperty(o, k, v, w) => SetProperty(RenamedId(sub, o), k, v, w)
  }

  /** The record names no id that the renaming moves. */
  predicate NamesNoMovedId(sub: Renaming, r: Record) { forall x <- Ids(r) :: RenamedId(sub, x) == x }

  lemma UnmovedIffSameRecord(sub: Renaming, r: Record)
    ensures RenamedRecord(sub, r) == r <==> NamesNoMovedId(sub, r)
  {
    hide RenamedId;
    match r
    case Create(c, p, _) =>
      assert c in Ids(r);
      assert p.Some? ==> p.value in Ids(r);
    case Duplicate(o, c, p) =>
      assert o in Ids(r) && c in Ids(r);
      assert p.Some? ==> p.value in Ids(r);
    case Reparent(o, prior, next) =>
      assert o in Ids(r);
      assert prior.Some? ==> prior.value in Ids(r);
      assert next.Some? ==> next.value in Ids(r);
    case SetProperty(o, _, _, _) =>
      assert o in Ids(r);
  }

  lemma RenamedRecordStep(sub: Renaming, r: Record)
    requires sub != []
    ensures RenamedRecord(sub, r) == RenamedRecord(sub[1..], SwapRecord(r, sub[0].0, sub[0].1))
  {
  }

  lemma {:induction false} ForwardCommutesWithRenaming(cat: Catalog, s: Scene, r: Record, sub: Renaming)
    requires Recorded(s, r)
    ensures Recorded(RenamedScene(sub, s), RenamedRecord(sub, r))
    ensures Forward(cat, RenamedScene(sub, s), RenamedRecord(sub, r)) == RenamedScene(sub, Forward(cat, s, r))
    decreases |sub|
  {
    hide Forward, Recorded, SwapScene, SwapRecord, RenamedRecord;
    if sub == [] {
      NothingRenamed(r);
    } else {
      var (a, b) := sub[0];
      RenamedRecordStep(sub, r);
      SwapKeepsRecorded(s, r, a, b);
      ForwardCommutesWithSwap(cat, s, r, a, b);
      ForwardCommutesWithRenaming(cat, SwapScene(s, a, b), SwapRecord(r, a, b), sub[1..]);
    }
  }

  lemma NothingRenamed(r: Record)
    ensures RenamedRecord([], r) == r
  {
  }

  lemma {:induction false} RenamedSceneOfConcat(a: Renaming, b: Renaming, s: Scene)
    ensures RenamedScene(a + b, s) == RenamedScene(b, RenamedScene(a, s))
    decreases |a|
  {
    hide SwapScene;
    if a == [] {
      assert a + b == b;
    } else {
      assert (a + b)[0] == a[0] && (a + b)[1..] == a[1..] + b;
      RenamedSceneOfConcat(a[1..], b, SwapScene(s, a[0].0, a[0].1));
    }
  }

  lemma SwapKeepsClosed(s: Scene, a: Id, b: Id)
    requires Closed(s)
    ensures Closed(SwapScene(s, a, b))
  {
    hide SwapScene, Swap;
    var t := SwapScene(s, a, b);
    forall y | y in t ensures Present(t, t[y].parent) {
      var x := Swap(y, a, b);
      SwapLookup(s, y, a, b);
      SwapLookup(s, x, a, b);
      assert Present(s, s[x].parent);
      if s[x].parent.Some? { SwapLookup(s, s[x].parent.value, a, b); }
    }
  }

  lemma {:induction false} RenamingKeepsClosed(sub: Renaming, s: Scene)
    requires Closed(s)
    ensures Closed(RenamedScene(sub, s))
    decreases |sub|
  {
    hide SwapScene, Closed;
    if sub != [] {
      SwapKeepsClosed(s, sub[0].0, sub[0].1);
      RenamingKeepsClosed(sub[1..], SwapScene(s, sub[0].0, sub[0].1));
    }
  }

  lemma {:induction false} TracedUnderItsRenaming(cat: Catalog, s: Scene, rs: seq<Record>, sub: Renaming)
    requires Closed(s) && Traced(cat, s, rs) && Fixes(sub, s)
    ensures Traced(cat, s, RenamedRecords(sub, rs))
    decreases |sub|
  {
    hide Traced, SwapScene, Closed;
    if sub != [] {
      var (a, b) := sub[0];
      TracedCommutesWithSwap(cat, s, rs, a, b);
      SwapFixesScene(s, a, b);
      TracedUnderItsRenaming(cat, s, SwapAll(rs, a, b), sub[1..]);
    }
  }

  // ---- one record in a renamed scene ----

  /** A duplicate whose copy comes out the same from either of two sources. */
  predicate TwinCopy(t: Scene, r: Record, q: Record) {
    && r.Duplicate? && q.Duplicate? && r.createdId == q.createdId && r.parentId == q.parentId
    && r.sourceId in t && q.sourceId in t
    && t[r.sourceId].(parent := if r.parentId.Some? then r.parentId else t[r.sourceId].parent)
       == t[q.sourceId].(parent := if q.parentId.Some? then q.parentId else t[q.sourceId].parent)
  }

  lemma {:induction false} RenamedIdIsInjective(sub: Renaming, x: Id, y: Id)
    requires RenamedId(sub, x) == RenamedId(sub, y)
    ensures x == y
    decreases |sub|
  {
    if sub != [] {
      RenamedIdIsInjective(sub[1..], Swap(x, sub[0].0, sub[0].1), Swap(y, sub[0].0, sub[0].1));
    }
  }

  lemma RenamedStillChanges(sub: Renaming, r: Record)
    requires Changes(r)
    ensures Changes(RenamedRecord(sub, r))
  {
    hide RenamedId;
    if r.Reparent? && r.oldParent.Some? && r.newParent.Some? && RenamedOpt(sub, r.oldParent) == RenamedOpt(sub, r.newParent) {
      RenamedIdIsInjective(sub, r.oldParent.value, r.newParent.value);
    }
  }

  /** Where the renamed record fits, the unrenamed one fits and does the same exactly if it
      is the same record, or copies a twin. */
  lemma SameEffectIff(cat: Catalog, t: Scene, r: Record, sub: Renaming)
    requires Recorded(t, RenamedRecord(sub, r)) && Changes(r)
    ensures
      var q := RenamedRecord(sub, r);
      Recorded(t, r) && Forward(cat, t, r) == Forward(cat, t, q) <==> r == q || TwinCopy(t, r, q)
  {
    hide RenamedId, TwinCopy;
    RenamedStillChanges(sub, r);
    match r
    case Create(_, _, _) => SameCreateIff(cat, t, r, RenamedRecord(sub, r));
    case Duplicate(_, _, _) => SameDuplicateIff(cat, t, r, RenamedRecord(sub, r));
    case Reparent(_, _, _) => SameReparentIff(cat, t, r, RenamedRecord(sub, r));
    case SetProperty(_, _, _, _) => SamePropertyIff(cat, t, r, RenamedRecord(sub, r));
  }

  lemma SameCreateIff(cat: Catalog, t: Scene, r: Record, q: Record)
    requires r.Create? && q.Create? && r.kind == q.kind && Recorded(t, q)
    ensures Recorded(t, r) && Forward(cat, t, r) == Forward(cat, t, q) <==> r == q
    ensures !TwinCopy(t, r, q)
  {
    if Recorded(t, r) && Forward(cat, t, r) == Forward(cat, t, q) {
      assert r.createdId in Forward(cat, t, q);
      assert Forward(cat, t, r)[r.createdId].parent == r.parentId;
    }
  }

  lemma SameDuplicateIff(cat: Catalog, t: Scene, r: Record, q: Record)
    requires r.Duplicate? && q.Duplicate? && (r.parentId.Some? <==> q.parentId.Some?) && Recorded(t, q)
    ensures Recorded(t, r) && Forward(cat, t, r) == Forward(cat, t, q) <==> r == q || TwinCopy(t, r, q)
  {
    if Recorded(t, r) && Forward(cat, t, r) == Forward(cat, t, q) {
      assert r.createdId in Forward(cat, t, q);
      assert r.createdId == q.createdId;
      assert Forward(cat, t, r)[r.createdId] == Forward(cat, t, q)[q.createdId];
    }
  }

  lemma SameReparentIff(cat: Catalog, t: Scene, r: Record, q: Record)
    requires r.Reparent? && q.Reparent? && Changes(r) && Changes(q) && Recorded(t, q)
    ensures Recorded(t, r) && Forward(cat, t, r) == Forward(cat, t, q) <==> r == q
    ensures !TwinCopy(t, r, q)
  {
    if Recorded(t, r) && Forward(cat, t, r) == Forward(cat, t, q) {
      assert Forward(cat, t, r)[r.objectId].parent == r.newParent;
    }
  }

  lemma SamePropertyIff(cat: Catalog, t: Scene, r: Record, q: Record)
    requires r.SetProperty? && q.SetProperty? && Changes(r) && Recorded(t, q)
    requires r.property == q.property && r.oldValue == q.oldValue && r.newValue == q.newValue
    ensures Recorded(t, r) && Forward(cat, t, r) == Forward(cat, t, q) <==> r == q
    ensures !TwinCopy(t, r, q)
  {
    if Recorded(t, r) && Forward(cat, t, r) == Forward(cat, t, q) {
      assert Forward(cat, t, r)[r.objectId].props[r.property] == r.newValue;
    }
  }

  // ---- a group above one whose redo renamed ids ----

  /** In the renamed scene the group's records, as they stand, can be redone, and do at
      every step what they first did, renamed. */
  ghost predicate OnTrackAgain(cat: Catalog, sub: Renaming, s: Scene, rs: seq<Record>) {
    && Traced(cat, RenamedScene(sub, s), rs)
    && forall k | 0 <= k <= |rs| :: StepAgrees(cat, sub, s, rs, k)
  }

  predicate StepAgrees(cat: Catalog, sub: Renaming, s: Scene, rs: seq<Record>, k: nat)
    requires k <= |rs|
  {
    Replay(cat, RenamedScene(sub, s), rs, k) == RenamedScene(sub, Replay(cat, s, rs, k))
  }

  /** The `k`-th record names no moved id, or copies a twin. */
  predicate Undisturbed(cat: Catalog, sub: Renaming, s: Scene, rs: seq<Record>, k: nat)
    requires k < |rs|
  {
    NamesNoMovedId(sub, rs[k]) || TwinCopy(RenamedScene(sub, Replay(cat, s, rs, k)), rs[k], RenamedRecord(sub, rs[k]))
  }

  ghost predicate AllChange(rs: seq<Record>) { forall k | 0 <= k < |rs| :: Changes(rs[k]) }

  lemma NextStepAgreesIff(cat: Catalog, sub: Renaming, s: Scene, rs: seq<Record>, k: nat)
    requires k < |rs| && Traced(cat, s, rs) && Changes(rs[k]) && StepAgrees(cat, sub, s, rs, k)
    ensures
      RecordedAt(cat, RenamedScene(sub, s), rs, k) && StepAgrees(cat, sub, s, rs, k + 1) <==> Undisturbed(cat, sub, s, rs, k)
  {
    hide Forward, Recorded, TwinCopy, RenamedRecord, NamesNoMovedId, RenamedScene;
    assert RecordedAt(cat, s, rs, k);
    ForwardCommutesWithRenaming(cat, Replay(cat, s, rs, k), rs[k], sub);
    SameEffectIff(cat, RenamedScene(sub, Replay(cat, s, rs, k)), rs[k], sub);
    UnmovedIffSameRecord(sub, rs[k]);
  }

  lemma {:induction false} UndisturbedAgrees(cat: Catalog, sub: Renaming, s: Scene, rs: seq<Record>, k: nat)
    requires k <= |rs| && Traced(cat, s, rs) && AllChange(rs)
    requires forall i | 0 <= i < k :: Undisturbed(cat, sub, s, rs, i)
    ensures StepAgrees(cat, sub, s, rs, k)
    ensures forall i | 0 <= i < k :: RecordedAt(cat, RenamedScene(sub, s), rs, i)
    decreases k
  {
    hide RecordedAt, Undisturbed, Traced, RenamedScene;
    if k > 0 {
      UndisturbedAgrees(cat, sub, s, rs, k - 1);
      NextStepAgreesIff(cat, sub, s, rs, k - 1);
    }
  }

  /** After a redo below it renamed ids, a group is on track again exactly if each of its
      records names none of the ids that moved, or copies a twin of its source. */
  lemma OnTrackAgainIff(cat: Catalog, sub: Renaming, s: Scene, rs: seq<Record>)
    requires Traced(cat, s, rs) && AllChange(rs)
    ensures OnTrackAgain(cat, sub, s, rs) <==> forall k | 0 <= k < |rs| :: Undisturbed(cat, sub, s, rs, k)
  {
    hide RecordedAt, Undisturbed, StepAgrees, RenamedScene;
    if OnTrackAgain(cat, sub, s, rs) {
      forall k | 0 <= k < |rs| ensures Undisturbed(cat, sub, s, rs, k) {
        assert StepAgrees(cat, sub, s, rs, k) && StepAgrees(cat, sub, s, rs, k + 1);
        assert RecordedAt(cat, RenamedScene(sub, s), rs, k);
        NextStepAgreesIff(cat, sub, s, rs, k);
      }
    }
    if forall k | 0 <= k < |rs| :: Undisturbed(cat, sub, s, rs, k) {
      forall k | 0 <= k <= |rs| ensures StepAgrees(cat, sub, s, rs, k) {
        UndisturbedAgrees(cat, sub, s, rs, k);
      }
      UndisturbedAgrees(cat, sub, s, rs, |rs|);
    }
  }

  /** No id the renaming took from an object was given to another. */
  predicate Retires(sub: Renaming, s: Scene) {
    forall x <- s :: RenamedId(sub, x) == x || x !in RenamedScene(sub, s)
  }

  /** Then twins are no way out. */
  lemma OnTrackAgainIffNoMovedIdIsNamed(cat: Catalog, sub: Renaming, s: Scene, rs: seq<Record>)
    requires Closed(s) && Traced(cat, s, rs) && AllChange(rs) && Retires(sub, s)
    ensures OnTrackAgain(cat, sub, s, rs) <==> forall k | 0 <= k < |rs| :: NamesNoMovedId(sub, rs[k])
  {
    hide Undisturbed, Traced, RenamedScene, Replay, NamesNoMovedId, Closed;
    OnTrackAgainIff(cat, sub, s, rs);
    if OnTrackAgain(cat, sub, s, rs) {
      forall k | 0 <= k < |rs| ensures NamesNoMovedId(sub, rs[k]) {
        NoTwinWhereIdsRetire(cat, sub, s, rs, k);
      }
    } else if forall k | 0 <= k < |rs| :: NamesNoMovedId(sub, rs[k]) {
      forall k | 0 <= k < |rs| ensures Undisturbed(cat, sub, s, rs, k) {
        UnnamedIsUndisturbed(cat, sub, s, rs, k);
      }
    }
  }

  lemma UnnamedIsUndisturbed(cat: Catalog, sub: Renaming, s: Scene, rs: seq<Record>, k: nat)
    requires k < |rs| && NamesNoMovedId(sub, rs[k])
    ensures Undisturbed(cat, sub, s, rs, k)
  {
  }

  lemma {:induction false} NoTwinWhereIdsRetire(cat: Catalog, sub: Renaming, s: Scene, rs: seq<Record>, k: nat)
    requires Closed(s) && Traced(cat, s, rs) && OnTrackAgain(cat, sub, s, rs) && Retires(sub, s)
    requires forall i | 0 <= i < |rs| :: Undisturbed(cat, sub, s, rs, i)
    requires k < |rs|
    ensures NamesNoMovedId(sub, rs[k])
    decreases k
  {
    hide Traced, RenamedScene, Replay, Closed, RenamedId, Ids, StepAgrees, OnTrackAgain;
    assert Undisturbed(cat, sub, s, rs, k);
    UnmovedIffSameRecord(sub, rs[k]);
    if !NamesNoMovedId(sub, rs[k]) {
      var o := rs[k].sourceId;
      SourcesOfTwin(cat, sub, s, rs, k);
      OtherSourceIsMoved(sub, rs[k]);
      CreatedIdsAre(rs, k, o);
      var i :| 0 <= i < k && rs[i].Creates() && rs[i].createdId == o;
      NamesItsCreatedId(rs[i]);
      NoTwinWhereIdsRetire(cat, sub, s, rs, i);
    }
  }

  lemma NamesItsCreatedId(r: Record)
    requires r.Creates()
    ensures r.createdId in Ids(r)
  {
  }

  lemma OtherSourceIsMoved(sub: Renaming, r: Record)
    requires r.Duplicate? && RenamedRecord(sub, r) != r
    requires RenamedId(sub, r.createdId) == r.createdId && RenamedOpt(sub, r.parentId) == r.parentId
    ensures RenamedId(sub, r.sourceId) != r.sourceId
  {
  }

  /** The source of a disturbed duplicate that still fits is one the group made itself. */
  lemma SourcesOfTwin(cat: Catalog, sub: Renaming, s: Scene, rs: seq<Record>, k: nat)
    requires Closed(s) && Traced(cat, s, rs) && OnTrackAgain(cat, sub, s, rs) && Retires(sub, s) && k < |rs|
    requires TwinCopy(RenamedScene(sub, Replay(cat, s, rs, k)), rs[k], RenamedRecord(sub, rs[k]))
    requires RenamedRecord(sub, rs[k]) != rs[k]
    ensures rs[k].sourceId !in s && rs[k].sourceId in CreatedIds(rs, k)
  {
    hide RenamedScene, Closed, RenamedId;
    var o := rs[k].sourceId;
    assert StepAgrees(cat, sub, s, rs, k);
    assert RecordedAt(cat, s, rs, k);
    ReplayKeys(cat, s, rs, k);
    RenamingKeepsClosed(sub, s);
    ReplayKeys(cat, RenamedScene(sub, s), rs, k);
    OtherSourceIsMoved(sub, rs[k]);
    if o in s {
      CreatedIdsAre(rs, k, o);
      var i :| 0 <= i < k && rs[i].Creates() && rs[i].createdId == o;
      MentionedIds(cat, s, rs, i);
    }
  }

  // ---- a whole stack of groups ----

  /** The scene before group `i`, as first recorded. */
  function Before(cat: Catalog, s: Scene, groups: seq<seq<Record>>, i: nat): Scene
    requires i <= |groups|
  {
    if i == 0 then s else Replay(cat, Before(cat, s, groups, i - 1), groups[i - 1], |groups[i - 1]|)
  }

  /** The scene after the first `i` groups were undone with all others and redone, group
      `j` with its own ids renamed by `subs[j]`. */
  function Redone(cat: Catalog, s: Scene, groups: seq<seq<Record>>, subs: seq<Renaming>, i: nat): Scene
    requires i <= |groups| == |subs|
  {
    if i == 0 then s
    else Replay(cat, Redone(cat, s, groups, subs, i - 1), RenamedRecords(subs[i - 1], groups[i - 1]), |groups[i - 1]|)
  }

  function Flat(subs: seq<Renaming>, i: nat): Renaming
    requires i <= |subs|
  {
    if i == 0 then [] else Flat(subs, i - 1) + subs[i - 1]
  }

  ghost predicate RecordedStack(cat: Catalog, s: Scene, groups: seq<seq<Record>>) {
    Closed(s) && forall i | 0 <= i < |groups| :: Traced(cat, Before(cat, s, groups, i), groups[i]) && AllChange(groups[i])
  }

  ghost predicate GroupAgain(cat: Catalog, s: Scene, groups: seq<seq<Record>>, subs: seq<Renaming>, i: nat)
    requires i < |groups| == |subs|
  {
    OnTrackAgain(cat, Flat(subs, i), Before(cat, s, groups, i), groups[i])
  }

  ghost predicate GroupUndisturbed(cat: Catalog, s: Scene, groups: seq<seq<Record>>, subs: seq<Renaming>, i: nat)
    requires i < |groups| == |subs|
  {
    forall k | 0 <= k < |groups[i]| :: Undisturbed(cat, Flat(subs, i), Before(cat, s, groups, i), groups[i], k)
  }

  lemma {:induction false} BeforeIsClosed(cat: Catalog, s: Scene, groups: seq<seq<Record>>, i: nat)
    requires RecordedStack(cat, s, groups) && i <= |groups|
    ensures Closed(Before(cat, s, groups, i))
    decreases i
  {
    hide Traced, Closed, Replay, AllChange;
    if i > 0 {
      BeforeIsClosed(cat, s, groups, i - 1);
      ReplayKeys(cat, Before(cat, s, groups, i - 1), groups[i - 1], |groups[i - 1]|);
    }
  }

  /** One more group redone from a renamed scene gives the next scene, renamed further. */
  lemma OneMoreGroupRedone(cat: Catalog, s: Scene, rs: seq<Record>, before: Renaming, sub: Renaming)
    requires Closed(s) && OnTrackAgain(cat, before, s, rs) && Fixes(sub, RenamedScene(before, s))
    ensures
      Replay(cat, RenamedScene(before, s), RenamedRecords(sub, rs), |rs|)
      == RenamedScene(before + sub, Replay(cat, s, rs, |rs|))
  {
    hide Closed, Replay, RenamedScene, Fixes, Traced;
    assert StepAgrees(cat, before, s, rs, |rs|);
    RenamingKeepsClosed(before, s);
    ReplayCommutesWithRenaming(cat, RenamedScene(before, s), rs, sub);
    RenamedSceneOfConcat(before, sub, Replay(cat, s, rs, |rs|));
  }

  /** As long as every group below was undisturbed, the stack redone so far is the stack as
      it was, under all the renamings so far. */
  lemma {:induction false} RedoneIsRenamed(cat: Catalog, s: Scene, groups: seq<seq<Record>>, subs: seq<Renaming>, i: nat)
    requires RecordedStack(cat, s, groups) && i <= |groups| == |subs|
    requires forall j | 0 <= j < i :: GroupUndisturbed(cat, s, groups, subs, j)
    requires forall j | 0 <= j < i :: Fixes(subs[j], Redone(cat, s, groups, subs, j))
    ensures Redone(cat, s, groups, subs, i) == RenamedScene(Flat(subs, i), Before(cat, s, groups, i))
    ensures forall j | 0 <= j < i :: GroupAgain(cat, s, groups, subs, j)
    decreases i
  {
    hide RecordedStack, GroupAgain, GroupUndisturbed, Fixes, Redone, Before, Flat, RenamedScene;
    if i == 0 {
      NothingRedone(cat, s, groups, subs);
    } else {
      RedoneIsRenamed(cat, s, groups, subs, i - 1);
      NextRedoneIsRenamed(cat, s, groups, subs, i - 1);
    }
  }

  lemma NextRedoneIsRenamed(cat: Catalog, s: Scene, groups: seq<seq<Record>>, subs: seq<Renaming>, i: nat)
    requires RecordedStack(cat, s, groups) && i < |groups| == |subs|
    requires GroupUndisturbed(cat, s, groups, subs, i) && Fixes(subs[i], Redone(cat, s, groups, subs, i))
    requires Redone(cat, s, groups, subs, i) == RenamedScene(Flat(subs, i), Before(cat, s, groups, i))
    ensures Redone(cat, s, groups, subs, i + 1) == RenamedScene(Flat(subs, i + 1), Before(cat, s, groups, i + 1))
    ensures GroupAgain(cat, s, groups, subs, i)
  {
    hide RecordedStack, Closed, Replay, OnTrackAgain, RenamedScene, GroupUndisturbed, Fixes;
    BeforeIsClosed(cat, s, groups, i);
    GroupAgainIff(cat, s, groups, subs, i);
    OneMoreGroupRedone(cat, Before(cat, s, groups, i), groups[i], Flat(subs, i), subs[i]);
  }

  lemma NothingRedone(cat: Catalog, s: Scene, groups: seq<seq<Record>>, subs: seq<Renaming>)
    requires |groups| == |subs|
    ensures Redone(cat, s, groups, subs, 0) == RenamedScene(Flat(subs, 0), Before(cat, s, groups, 0))
  {
  }

  lemma GroupAgainIff(cat: Catalog, s: Scene, groups: seq<seq<Record>>, subs: seq<Renaming>, i: nat)
    requires RecordedStack(cat, s, groups) && i < |groups| == |subs|
    ensures GroupAgain(cat, s, groups, subs, i) <==> GroupUndisturbed(cat, s, groups, subs, i)
  {
    hide Traced, Closed, AllChange, OnTrackAgain, Undisturbed, Before, Flat;
    OnTrackAgainIff(cat, Flat(subs, i), Before(cat, s, groups, i), groups[i]);
  }

  /** Undo all, redo all: the scene before each group is the one it was recorded in,
      renamed, with the group on track again, exactly if no group is disturbed by the
      renamings of those redone before it. */
  lemma StackIsOnTrackAgainIff(cat: Catalog, s: Scene, groups: seq<seq<Record>>, subs: seq<Renaming>)
    requires RecordedStack(cat, s, groups) && |groups| == |subs|
    requires forall i | 0 <= i < |groups| :: Fixes(subs[i], Redone(cat, s, groups, subs, i))
    ensures
      (forall i | 0 <= i < |groups| ::
         && Redone(cat, s, groups, subs, i) == RenamedScene(Flat(subs, i), Before(cat, s, groups, i))
         && GroupAgain(cat, s, groups, subs, i)) <==>
      (forall i | 0 <= i < |groups| :: GroupUndisturbed(cat, s, groups, subs, i))
  {
    hide RecordedStack, GroupAgain, GroupUndisturbed, Before, Flat, Redone, RenamedScene, Fixes;
    forall i | 0 <= i < |groups|
      ensures GroupAgain(cat, s, groups, subs, i) <==> GroupUndisturbed(cat, s, groups, subs, i)
    {
      GroupAgainIff(cat, s, groups, subs, i);
    }
    if forall i | 0 <= i < |groups| :: GroupUndisturbed(cat, s, groups, subs, i) {
      forall i | 0 <= i < |groups|
        ensures Redone(cat, s, groups, subs, i) == RenamedScene(Flat(subs, i), Before(cat, s, groups, i))
      {
        RedoneIsRenamed(cat, s, groups, subs, i);
      }
    }
  }

  /** An undisturbed stack redone is the stack as it was up to the renamings, and each of
      its groups stands ready to be undone to where it was redone from. */
  lemma RedoneStackIsReadyToUndo(cat: Catalog, s: Scene, groups: seq<seq<Record>>, subs: seq<Renaming>, i: nat)
    requires RecordedStack(cat, s, groups) && i < |groups| == |subs|
    requires forall j | 0 <= j <= i :: GroupUndisturbed(cat, s, groups, subs, j)
    requires forall j | 0 <= j <= i :: Fixes(subs[j], Redone(cat, s, groups, subs, j))
    ensures
      var rs := groups[i];
      OnTrack(cat, Walk(Redone(cat, s, groups, subs, i), rs, subs[i], RenamedRecords(subs[i], rs), |rs|,
                        Redone(cat, s, groups, subs, i + 1)))
    ensures Redone(cat, s, groups, subs, i + 1) == RenamedScene(Flat(subs, i + 1), Before(cat, s, groups, i + 1))
  {
    hide Closed, Replay, AllChange, RenamedScene, Undisturbed, Fixes, GroupUndisturbed, Traced, StepAgrees;
    RedoneIsRenamed(cat, s, groups, subs, i + 1);
    RedoneIsRenamed(cat, s, groups, subs, i);
    assert GroupAgain(cat, s, groups, subs, i);
    BeforeIsClosed(cat, s, groups, i);
    RenamingKeepsClosed(Flat(subs, i), Before(cat, s, groups, i));
    TracedUnderItsRenaming(cat, Redone(cat, s, groups, subs, i), groups[i], subs[i]);
  }

  // ---- what the history does, and an everyday input ----

  lemma {:induction false} RemapLeavesOtherGroups(st: seq<Entry>, k: GroupKey, a: Id, b: Id)
    ensures WithoutGroup(RemapStack(st, k, a, b), k) == WithoutGroup(st, k)
    decreases |st|
  {
    if st != [] {
      assert RemapStack(st, k, a, b)[1..] == RemapStack(st[1..], k, a, b);
      RemapLeavesOtherGroups(st[1..], k, a, b);
    }
  }

  lemma {:induction false} WithoutGroupOfAppend(st: seq<Entry>, e: Entry, k: GroupKey)
    requires e.group.key == k
    ensures WithoutGroup(st + [e], k) == WithoutGroup(st, k)
    decreases |st|
  {
    if st != [] {
      assert (st + [e])[1..] == st[1..] + [e];
      WithoutGroupOfAppend(st[1..], e, k);
    }
  }

  /** Redoing or undoing a step of one group leaves the records of all others as they are. */
  lemma OtherGroupsKeepTheirRecords(h: Hist, a: Action, step: Step, newId: Option<Id>)
    requires FinishGroupStep(h, a, step, newId).1.Applied?
    ensures
      var h1, k := FinishGroupStep(h, a, step, newId).0, a.group.key;
      WithoutGroup(h1.undo, k) == WithoutGroup(h.undo, k) && WithoutGroup(h1.redo, k) == WithoutGroup(h.redo, k)
  {
    hide WithoutGroup, RemapStack, CountPendingStep, UpdatedRecord, HasGroup;
    var k, u := a.group.key, UpdatedRecord(step.record, a.direction, newId).value;
    var before, after := CreatedId(step.record), CreatedId(u);
    var top := Stack(h, a.direction)[|Stack(h, a.direction)| - 1];
    var rest := PopTop(h, a.direction);
    WithoutGroupOfAppend(Stack(rest, a.direction), top, k);
    assert Stack(rest, a.direction) + [top] == Stack(h, a.direction);
    RemapLeavesOtherGroups(rest.undo, k, before, after);
    RemapLeavesOtherGroups(rest.redo, k, before, after);
    var e := top.(record := u);
    var other := if a.direction.Undo? then rest.redo else rest.undo;
    WithoutGroupOfAppend(other, e, k);
    WithoutGroupOfAppend(RemapStack(other, k, before, after), e, k);
  }

  /** An ungrouped undo or redo that is accepted. */
  function Single(h: Hist, d: Direction, newId: Option<Id>): Hist {
    var a := Prepared(h, d);
    if a.None? || a.value.steps == [] then h else FinishSingle(h, a.value, true, newId)
  }

  /** Two edits recorded on a new connection, and both undone. */
  function EverydayHistory(create: Record, edit: Record): Hist {
    var h := Hist(Some(1), 0, 0, [], [], false, false, None, None);
    var h1 := RecordSuccess(h, Some(create), Context(Ui, 1, 1, None));
    var h2 := RecordSuccess(h1, Some(edit), Context(Ui, 2, 1, None));
    Single(Single(h2, Undo, None), Undo, None)
  }

  lemma EverydayHistoryIs(create: Record, edit: Record)
    ensures EverydayHistory(create, edit)
         == Hist(Some(1), 4, 4, [], [Entry(2, 1, edit, Group(GroupKey(1, 2), Ui, 1, false)),
                                     Entry(1, 1, create, Group(GroupKey(1, 1), Ui, 1, false))],
                 false, false, None, None)
  {
    var e1 := Entry(1, 1, create, Group(GroupKey(1, 1), Ui, 1, false));
    var e2 := Entry(2, 1, edit, Group(GroupKey(1, 2), Ui, 1, false));
    var h2 := Hist(Some(1), 2, 2, [e1, e2], [], false, false, None, None);
    var h3 := Hist(Some(1), 3, 3, [e1], [e2], false, false, None, None);
    hide Single, RecordSuccess;
    var h0 := Hist(Some(1), 0, 0, [], [], false, false, None, None);
    SingleEditIs(h0, create, 1);
    SingleEditIs(Hist(Some(1), 1, 1, [e1], [], false, false, None, None), edit, 2);
    assert [] + [e1] == [e1] && [e1] + [e2] == [e1, e2] && [] + [e2] == [e2] && [e2] + [e1] == [e2, e1];
    SingleUndoIs(h2, [e1], e2);
    SingleUndoIs(h3, [], e1);
  }

  lemma SingleEditIs(h: Hist, r: Record, id: nat)
    requires h.active.None?
    ensures RecordSuccess(h, Some(r), Context(Ui, id, 1, None))
         == h.(undo := h.undo + [Entry(id, 1, r, Group(GroupKey(1, id), Ui, 1, false))], redo := [],
               applied := h.applied + 1, revision := h.revision + 1)
  {
  }

  lemma SingleIsPrepared(h: Hist, d: Direction, below: seq<Entry>, e: Entry)
    requires Stack(h, d) == below + [e] && h.active.None? && !h.pending && !h.editUnsupported
    requires below == [] || below[|below| - 1].group.key != e.group.key
    ensures Prepared(h, d) == Some(Action(d, e.group, [Step(e.id, e.record)], e.group.named))
  {
    hide TopSteps;
    TopIsAlone(below, e);
  }

  lemma SingleUndoIs(h: Hist, below: seq<Entry>, e: Entry)
    requires h.undo == below + [e] && h.active.None? && !h.pending && !h.editUnsupported
    requires below == [] || below[|below| - 1].group.key != e.group.key
    ensures Single(h, Undo, None)
         == h.(undo := below, redo := h.redo + [e], applied := h.applied + 1, revision := h.revision + 1)
  {
    hide Prepared;
    SingleIsPrepared(h, Undo, below, e);
    assert h.undo[..|h.undo| - 1] == below;
  }

  lemma SingleRedoIs(h: Hist, below: seq<Entry>, e: Entry, n: Id)
    requires h.redo == below + [e] && h.active.None? && !h.pending && !h.editUnsupported
    requires below == [] || below[|below| - 1].group.key != e.group.key
    requires e.record.Creates() && n != ""
    ensures Single(h, Redo, Some(n))
         == h.(redo := below, undo := h.undo + [e.(record := e.record.(createdId := n))],
               applied := h.applied + 1, revision := h.revision + 1)
  {
    hide Prepared;
    SingleIsPrepared(h, Redo, below, e);
    assert h.redo[..|h.redo| - 1] == below;
  }

  lemma TopIsAlone(below: seq<Entry>, e: Entry)
    requires below == [] || below[|below| - 1].group.key != e.group.key
    ensures TopSteps(below + [e], e.group.key) == [Step(e.id, e.record)]
  {
    assert (below + [e])[..|below|] == below;
  }

  /** Create an object and set its property, undo both, redo both. The first redo is
      answered with a new id; the second still names the old one and changes nothing. */
  lemma RedoOfTwoEditsLosesTheSecond()
    ensures
      var cat: Catalog := map[None := map["p" := "0"]];
      var create, setProp := Create("a", None, None), SetProperty("a", "p", "0", "1");
      var made, h := Forward(cat, map[], create), EverydayHistory(create, setProp);
      && Recorded(map[], create) && Recorded(made, setProp) && Forward(cat, made, setProp) != made
      && Prepared(h, Redo).Some? && Prepared(h, Redo).value.steps == [Step(1, create)]
      && var h1 := Single(h, Redo, Some("b"));
      && h1.undo[0].record == Create("b", None, None)
      && Prepared(h1, Redo).Some? && Prepared(h1, Redo).value.steps == [Step(2, setProp)]
      && var again := Perform(cat, map[], RequestFor(create, Redo), "b");
      && "a" !in again && Perform(cat, again, RequestFor(setProp, Redo), "") == again
  {
    hide Single, Prepared, EverydayHistory;
    var create, setProp := Create("a", None, None), SetProperty("a", "p", "0", "1");
    var h := EverydayHistory(create, setProp);
    EverydayHistoryIs(create, setProp);
    var e1, e2 := h.redo[1], h.redo[0];
    assert h.redo == [e2] + [e1] && [] + [e2] == [e2];
    SingleIsPrepared(h, Redo, [e2], e1);
    SingleRedoIs(h, [e2], e1, "b");
    SingleIsPrepared(Single(h, Redo, Some("b")), Redo, [], e2);
    SecondRedoIsLost();
  }

  lemma SecondRedoIsLost()
    ensures
      var cat: Catalog := map[None := map["p" := "0"]];
      var create, setProp := Create("a", None, None), SetProperty("a", "p", "0", "1");
      var made, again := Forward(cat, map[], create), Perform(cat, map[], RequestFor(create, Redo), "b");
      && Recorded(map[], create) && Recorded(made, setProp) && Forward(cat, made, setProp) != made
      && "a" !in again && Perform(cat, again, RequestFor(setProp, Redo), "") == again
  {
    var cat: Catalog := map[None := map["p" := "0"]];
    var made := Forward(cat, map[], Create("a", None, None));
    assert made["a"].props["p"] == "0";
    assert Forward(cat, made, SetProperty("a", "p", "0", "1"))["a"].props["p"] == "1";
  }
}
