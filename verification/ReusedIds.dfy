/** What becomes of a group once a redo was answered with an id that a record still to be
    redone stands for. */
module ReusedIds {
  import opened Options
  import opened Scenes

  /** Moves the engine can perform, whatever ids it answers with. */
  ghost predicate Performable(cat: Catalog, w: Walk, ms: seq<Move>)
    decreases |ms|
  {
    ms == [] || (CanMove(w, ms[0]) && Performable(cat, Moved(cat, w, ms[0]), ms[1..]))
  }

  ghost function After(cat: Catalog, w: Walk, ms: seq<Move>): Walk
    requires Performable(cat, w, ms)
    decreases |ms|
  {
    if ms == [] then w else After(cat, Moved(cat, w, ms[0]), ms[1..])
  }

  function Redos(ids: seq<Id>): (ms: seq<Move>)
    ensures |ms| == |ids| && forall i | 0 <= i < |ids| :: ms[i] == Again(ids[i])
  {
    seq(|ids|, i requires 0 <= i < |ids| => Again(ids[i]))
  }

  function Undos(n: nat): (ms: seq<Move>)
    ensures |ms| == n && forall i | 0 <= i < n :: ms[i] == Back
  {
    seq(n, i => Back)
  }

  predicate StandsFor(r: Record, n: Id) { r.Creates() && r.createdId == n }

  /** The scene holds an object no record of the group stands for. */
  predicate Orphaned(w: Walk, n: Id) {
    && n in w.scene && w.at <= |w.now|
    && forall j | 0 <= j < |w.now| :: !StandsFor(w.now[j], n)
  }

  /** The object is in the scene, and the first record ahead that stands for it is `k`. */
  predicate Claimed(w: Walk, n: Id, k: nat) {
    && n in w.scene && w.at <= k < |w.now| && StandsFor(w.now[k], n)
    && forall j | w.at <= j < k :: !StandsFor(w.now[j], n)
  }

  /** Nothing the group does takes an orphaned object away. */
  lemma OrphanStays(cat: Catalog, w: Walk, m: Move, n: Id)
    requires Orphaned(w, n) && CanMove(w, m)
    ensures Orphaned(Moved(cat, w, m), n)
  {
    if m.Back? {
      assert !StandsFor(w.now[w.at - 1], n);
    }
  }

  lemma {:induction false} OrphanStaysAlways(cat: Catalog, w: Walk, ms: seq<Move>, n: Id)
    requires Orphaned(w, n) && Performable(cat, w, ms)
    ensures Orphaned(After(cat, w, ms), n)
    decreases |ms|
  {
    hide Orphaned, Moved, CanMove;
    if ms != [] {
      OrphanStays(cat, w, ms[0], n);
      OrphanStaysAlways(cat, Moved(cat, w, ms[0]), ms[1..], n);
    }
  }

  /** Redoing the record that claims the object renames both records away from it. */
  lemma RedoBringsTheClaimCloser(cat: Catalog, w: Walk, m: Id, n: Id, k: nat)
    requires Claimed(w, n, k) && CanMove(w, Again(m))
    ensures
      var w1 := Moved(cat, w, Again(m));
      if w.at == k then Orphaned(w1, n) else Claimed(w1, n, k)
  {
    hide Perform;
    RedoKeepsObjects(cat, w.scene, w.now[w.at], m);
    var w1 := Moved(cat, w, Again(m));
    if w.at == k {
      forall j | 0 <= j < |w.now| ensures !StandsFor(w1.now[j], n) {
        assert w1.now[j] == RenRecord(w.now[j], n, m);
      }
    }
  }

  lemma RedoKeepsObjects(cat: Catalog, s: Scene, r: Record, m: Id)
    ensures s.Keys <= Perform(cat, s, RequestFor(r, Redo), m).Keys
    ensures r.Create? ==> m in Perform(cat, s, RequestFor(r, Redo), m)
    ensures r.Duplicate? && r.sourceId in s ==> m in Perform(cat, s, RequestFor(r, Redo), m)
  {
  }

  /** Redoing the rest, under any ids, and then going anywhere leaves the object behind. */
  lemma {:induction false} ClaimedObjectStays(cat: Catalog, w: Walk, n: Id, k: nat, ids: seq<Id>, ms: seq<Move>)
    requires Claimed(w, n, k) && |ids| == |w.now| - w.at && Performable(cat, w, Redos(ids) + ms)
    ensures n in After(cat, w, Redos(ids) + ms).scene
    decreases |ids|
  {
    hide Moved, CanMove, StandsFor;
    var all := Redos(ids) + ms;
    assert all[0] == Again(ids[0]) && all[1..] == Redos(ids[1..]) + ms;
    RedoBringsTheClaimCloser(cat, w, ids[0], n, k);
    var w1 := Moved(cat, w, Again(ids[0]));
    MovedForward(cat, w, ids[0]);
    if w.at == k {
      OrphanStaysAlways(cat, w1, all[1..], n);
    } else {
      ClaimedObjectStays(cat, w1, n, k, ids[1..], ms);
    }
  }

  lemma MovedForward(cat: Catalog, w: Walk, m: Id)
    requires CanMove(w, Again(m))
    ensures Moved(cat, w, Again(m)).at == w.at + 1 && |Moved(cat, w, Again(m)).now| == |w.now|
    ensures Moved(cat, w, Again(m)).start == w.start
  {
    hide Perform, RequestFor, RenRecord;
  }

  lemma {:induction false} FirstClaim(w: Walk, n: Id, k: nat) returns (first: nat)
    requires n in w.scene && w.at <= k < |w.now| && StandsFor(w.now[k], n)
    ensures Claimed(w, n, first)
    decreases k
  {
    hide StandsFor;
    if j :| w.at <= j < k && StandsFor(w.now[j], n) {
      first := FirstClaim(w, n, j);
    } else {
      first := k;
    }
  }

  /** A redo answered with an id that a record ahead stands for: once the rest is redone,
      under whatever ids, the object of that id stays in the scene wherever the group is
      walked, wholly undone included, and it was not there at the start. */
  lemma ReusedIdStaysBehind(cat: Catalog, w: Walk, n: Id, ids: seq<Id>, ms: seq<Move>)
    requires OnTrack(cat, w) && CanMove(w, Again(n)) && !FreshFor(w, Again(n))
    requires |ids| == |w.now| - w.at - 1
    requires Performable(cat, Moved(cat, w, Again(n)), Redos(ids) + ms)
    ensures n in After(cat, Moved(cat, w, Again(n)), Redos(ids) + ms).scene && n !in w.start
  {
    var w1 := Moved(cat, w, Again(n));
    var k := ReusedIdIsClaimed(cat, w, n);
    MovedForward(cat, w, n);
    var first := FirstClaim(w1, n, k);
    ClaimedObjectStays(cat, w1, n, first, ids, ms);
  }

  lemma ReusedIdIsClaimed(cat: Catalog, w: Walk, n: Id) returns (k: nat)
    requires OnTrack(cat, w) && CanMove(w, Again(n)) && !FreshFor(w, Again(n))
    ensures
      var w1 := Moved(cat, w, Again(n));
      n in w1.scene && w1.at <= k < |w1.now| && StandsFor(w1.now[k], n)
    ensures n !in w.start
  {
    hide Perform, Replay, Closed, Traced, RenamedRecords;
    k :| w.at < k < |w.now| && w.now[k].Creates() && w.now[k].createdId == n;
    MentionedIds(cat, w.start, w.now, k);
    SourceIsThere(cat, w);
    RedoKeepsObjects(cat, w.scene, w.now[w.at], n);
  }

  lemma SourceIsThere(cat: Catalog, w: Walk)
    requires OnTrack(cat, w) && w.at < |w.now|
    ensures w.now[w.at].Duplicate? ==> w.now[w.at].sourceId in w.scene
  {
    assert RecordedAt(cat, w.start, w.now, w.at);
  }

  // ---- the redo that spoils the undo exists whenever the id is not fresh ----

  lemma {:induction false} LongerThanAll(ids: set<Id>) returns (n: nat)
    ensures forall x <- ids :: |x| < n
    decreases |ids|
  {
    if ids == {} {
      n := 0;
    } else {
      var x :| x in ids;
      var m := LongerThanAll(ids - {x});
      n := if m > |x| then m else |x| + 1;
    }
  }

  lemma NewId(ids: set<Id>) returns (x: Id)
    ensures x !in ids
  {
    var n := LongerThanAll(ids);
    x := seq(n, i => 'x');
    assert |x| == n;
  }

  /** Some redo of everything that is left, each create under an id new to all. */
  lemma {:induction false} RedoTheRest(cat: Catalog, w: Walk) returns (ids: seq<Id>)
    requires w.at <= |w.now|
    ensures |ids| == |w.now| - w.at
    ensures Walkable(cat, w, Redos(ids))
    ensures Walked(cat, w, Redos(ids)).at == |w.now| == |Walked(cat, w, Redos(ids)).now|
    decreases |w.now| - w.at
  {
    hide Moved;
    if w.at == |w.now| {
      ids := [];
    } else {
      var x := NewId(w.scene.Keys + CreatedIds(w.now, |w.now|));
      forall j | 0 <= j < |w.now| && w.now[j].Creates() ensures w.now[j].createdId != x {
        CreatedIdsAre(w.now, |w.now|, w.now[j].createdId);
      }
      MovedForward(cat, w, x);
      var rest := RedoTheRest(cat, Moved(cat, w, Again(x)));
      ids := [x] + rest;
      assert Redos(ids)[0] == Again(x) && Redos(ids)[1..] == Redos(rest);
    }
  }

  lemma {:induction false} UndoTheLot(cat: Catalog, w: Walk, n: nat)
    requires n == w.at <= |w.now|
    ensures Walkable(cat, w, Undos(n)) && Walked(cat, w, Undos(n)).at == 0
    decreases n
  {
    hide Perform, RequestFor;
    if n > 0 {
      assert Undos(n)[0] == Back && Undos(n)[1..] == Undos(n - 1);
      UndoTheLot(cat, Moved(cat, w, Back), n - 1);
    }
  }

  lemma {:induction false} WalkedOfConcat(cat: Catalog, w: Walk, a: seq<Move>, b: seq<Move>)
    requires Walkable(cat, w, a) && Walkable(cat, Walked(cat, w, a), b)
    ensures Walkable(cat, w, a + b) && Walked(cat, w, a + b) == Walked(cat, Walked(cat, w, a), b)
    decreases |a|
  {
    hide Moved, CanMove, FreshFor;
    if a == [] {
      assert a + b == b;
    } else {
      assert (a + b)[0] == a[0] && (a + b)[1..] == a[1..] + b;
      WalkedOfConcat(cat, Moved(cat, w, a[0]), a[1..], b);
    }
  }

  lemma {:induction false} WalkableIsPerformable(cat: Catalog, w: Walk, ms: seq<Move>)
    requires Walkable(cat, w, ms)
    ensures Performable(cat, w, ms) && After(cat, w, ms) == Walked(cat, w, ms)
    decreases |ms|
  {
    hide Moved, CanMove, FreshFor;
    if ms != [] {
      WalkableIsPerformable(cat, Moved(cat, w, ms[0]), ms[1..]);
    }
  }

  /** Later answers being fresh, undoing the group wholly gives back its start. */
  ghost predicate UndoStillRestores(cat: Catalog, w: Walk, start: Scene) {
    forall ms | Walkable(cat, w, ms) && Walked(cat, w, ms).at == 0 :: Walked(cat, w, ms).scene == start
  }

  /** Undo can be relied on after a redo exactly if its new id was fresh: if it was not,
      redoing the rest under new ids and undoing it all does not give back the start. */
  lemma UndoRestoresIffIdIsFresh(cat: Catalog, w: Walk, n: Id)
    requires OnTrack(cat, w) && CanMove(w, Again(n))
    ensures UndoStillRestores(cat, Moved(cat, w, Again(n)), w.start) <==> FreshFor(w, Again(n))
  {
    hide OnTrack, Moved, CanMove, FreshFor, Walkable, Walked;
    var w1 := Moved(cat, w, Again(n));
    MovedForward(cat, w, n);
    if FreshFor(w, Again(n)) {
      AgainStaysOnTrack(cat, w, n);
      forall ms | Walkable(cat, w1, ms) && Walked(cat, w1, ms).at == 0
        ensures Walked(cat, w1, ms).scene == w.start
      {
        WalkingRestores(cat, w1, ms);
      }
    } else {
      AtInRange(w, n);
      var ids := RedoTheRest(cat, w1);
      var full := Walked(cat, w1, Redos(ids));
      UndoTheLot(cat, full, full.at);
      WalkedOfConcat(cat, w1, Redos(ids), Undos(full.at));
      WalkableIsPerformable(cat, w1, Redos(ids) + Undos(full.at));
      ReusedIdStaysBehind(cat, w, n, ids, Undos(full.at));
    }
  }

  lemma AtInRange(w: Walk, n: Id)
    requires CanMove(w, Again(n))
    ensures w.at < |w.now|
  {
  }
}
