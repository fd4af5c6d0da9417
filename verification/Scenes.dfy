/** The engine scene as the edit history sees it, the four recorded edits, the
    requests that undo and redo them, and what a change of a created id does.

    A scene maps object ids to parent, kind and properties. Ids and property
    values are both strings on purpose: a property value may spell an id, and
    renaming must still leave it alone. */
module Scenes {
  import opened Options

  type Id = string
  type Value = string

  datatype Obj = Obj(parent: Option<Id>, kind: Option<string>, props: map<string, Value>)
  type Scene = map<Id, Obj>

  /** The properties the engine gives a new object of each kind. */
  type Catalog = map<Option<string>, map<string, Value>>

  datatype Direction = Undo | Redo

  datatype Record =
    | Create(createdId: Id, parentId: Option<Id>, kind: Option<string>)
    | Duplicate(sourceId: Id, createdId: Id, parentId: Option<Id>)
    | Reparent(objectId: Id, oldParent: Option<Id>, newParent: Option<Id>)
    | SetProperty(objectId: Id, property: string, oldValue: Value, newValue: Value)
  {
    predicate Creates() { Create? || Duplicate? }
  }

  datatype Request =
    | CreateObject(under: Option<Id>, ofKind: Option<string>)
    | DuplicateObject(source: Id, under: Option<Id>)
    | DeleteObject(target: Id)
    | ReparentObject(target: Id, under: Option<Id>)
    | WriteProperty(target: Id, property: string, value: Value)

  /** The request an entry sends when it is undone or redone. */
  function RequestFor(r: Record, d: Direction): Request {
    match (r, d)
    case (Create(c, _, _), Undo) => DeleteObject(c)
    case (Duplicate(_, c, _), Undo) => DeleteObject(c)
    case (Create(_, p, k), Redo) => CreateObject(p, k)
    case (Duplicate(o, _, p), Redo) => DuplicateObject(o, p)
    case (Reparent(o, prior, _), Undo) => ReparentObject(o, prior)
    case (Reparent(o, _, next), Redo) => ReparentObject(o, next)
    case (SetProperty(o, k, v, _), Undo) => WriteProperty(o, k, v)
    case (SetProperty(o, k, _, v), Redo) => WriteProperty(o, k, v)
  }

  function InitialProps(cat: Catalog, kind: Option<string>): map<string, Value> {
    if kind in cat then cat[kind] else map[]
  }

  /** The engine's side of an accepted request. A duplicate copies one object and,
      without a parent, lands beside its source; a delete takes one object away. */
  function Perform(cat: Catalog, s: Scene, q: Request, newId: Id): Scene {
    match q
    case CreateObject(p, k) => s[newId := Obj(p, k, InitialProps(cat, k))]
    case DuplicateObject(o, p) =>
      if o in s then s[newId := s[o].(parent := if p.Some? then p else s[o].parent)] else s
    case DeleteObject(o) => s - {o}
    case ReparentObject(o, p) => if o in s then s[o := s[o].(parent := p)] else s
    case WriteProperty(o, k, v) => if o in s then s[o := s[o].(props := s[o].props[k := v])] else s
  }

  function CreatedId(r: Record): Id {
    if r.Creates() then r.createdId else ""
  }

  /** Applying the recorded edit itself, its own created id included. */
  function Forward(cat: Catalog, s: Scene, r: Record): Scene {
    Perform(cat, s, RequestFor(r, Redo), CreatedId(r))
  }

  predicate Present(s: Scene, p: Option<Id>) { p.Some? ==> p.value in s }

  /** `r` records an edit made in scene `s`: its old values are those of `s`, its
      created id is new to `s`, and the ids it names exist. */
  predicate Recorded(s: Scene, r: Record) {
    match r
    case Create(c, p, _) => c !in s && Present(s, p)
    case Duplicate(o, c, p) => o in s && c !in s && Present(s, p)
    case Reparent(o, prior, next) => o in s && s[o].parent == prior && Present(s, next)
    case SetProperty(o, k, prior, _) => o in s && k in s[o].props && s[o].props[k] == prior
  }

  /** Only changes are recorded: a reparent to the same parent and a property set to its
      own value leave no record. */
  predicate Changes(r: Record) {
    && (r.Reparent? ==> r.oldParent != r.newParent)
    && (r.SetProperty? ==> r.oldValue != r.newValue)
  }

  /** Every parent link stays inside the scene. */
  predicate Closed(s: Scene) { forall x <- s :: Present(s, s[x].parent) }

  /** The scene after the first `k` of the records. */
  function Replay(cat: Catalog, s: Scene, rs: seq<Record>, k: nat): Scene
    requires k <= |rs|
  {
    if k == 0 then s else Forward(cat, Replay(cat, s, rs, k - 1), rs[k - 1])
  }

  predicate RecordedAt(cat: Catalog, s: Scene, rs: seq<Record>, k: nat)
    requires k < |rs|
  {
    Recorded(Replay(cat, s, rs, k), rs[k])
  }

  /** `rs` were recorded one after the other, starting in `s`. */
  ghost predicate Traced(cat: Catalog, s: Scene, rs: seq<Record>) {
    forall k | 0 <= k < |rs| :: RecordedAt(cat, s, rs, k)
  }

  lemma {:induction false} ReplayAgrees(cat: Catalog, s: Scene, rs: seq<Record>, qs: seq<Record>, k: nat)
    requires k <= |rs| && k <= |qs|
    requires forall i | 0 <= i < k :: rs[i] == qs[i]
    ensures Replay(cat, s, rs, k) == Replay(cat, s, qs, k)
  {
    if k > 0 {
      ReplayAgrees(cat, s, rs, qs, k - 1);
    }
  }

  /** Undo inverts the recorded edit exactly. */
  lemma UndoInvertsForward(cat: Catalog, s: Scene, r: Record)
    requires Recorded(s, r)
    ensures Perform(cat, Forward(cat, s, r), RequestFor(r, Undo), "") == s
  {
    if r.SetProperty? {
      var o := s[r.objectId];
      assert o.props[r.property := r.newValue][r.property := r.oldValue] == o.props;
    } else if r.Reparent? {
      var o := s[r.objectId];
      assert o.(parent := r.newParent).(parent := r.oldParent) == o;
    }
  }

  lemma ForwardKeepsClosed(cat: Catalog, s: Scene, r: Record)
    requires Closed(s) && Recorded(s, r)
    ensures Closed(Forward(cat, s, r))
    ensures Forward(cat, s, r).Keys == s.Keys + (if r.Creates() then {r.createdId} else {})
  {
  }

  /** Ids created by the first `k` of the records. */
  function CreatedIds(rs: seq<Record>, k: nat): set<Id>
    requires k <= |rs|
  {
    if k == 0 then {} else CreatedIds(rs, k - 1) + (if rs[k - 1].Creates() then {rs[k - 1].createdId} else {})
  }

  lemma {:induction false} CreatedIdsAre(rs: seq<Record>, k: nat, x: Id)
    requires k <= |rs|
    ensures x in CreatedIds(rs, k) <==> exists i :: 0 <= i < k && rs[i].Creates() && rs[i].createdId == x
  {
    if k > 0 {
      CreatedIdsAre(rs, k - 1, x);
    }
  }

  function OptIds(p: Option<Id>): set<Id> { if p.Some? then {p.value} else {} }

  /** Every id a record names, in every id position. */
  function Ids(r: Record): set<Id> {
    match r
    case Create(c, p, _) => {c} + OptIds(p)
    case Duplicate(o, c, p) => {o, c} + OptIds(p)
    case Reparent(o, prior, next) => {o} + OptIds(prior) + OptIds(next)
    case SetProperty(o, _, _, _) => {o}
  }

  lemma {:induction false} ReplayKeys(cat: Catalog, s: Scene, rs: seq<Record>, k: nat)
    requires Closed(s) && Traced(cat, s, rs) && k <= |rs|
    ensures Closed(Replay(cat, s, rs, k))
    ensures Replay(cat, s, rs, k).Keys == s.Keys + CreatedIds(rs, k)
  {
    hide Forward, Recorded, Closed;
    if k > 0 {
      ReplayKeys(cat, s, rs, k - 1);
      assert RecordedAt(cat, s, rs, k - 1);
      ForwardKeepsClosed(cat, Replay(cat, s, rs, k - 1), rs[k - 1]);
    }
  }

  /** A traced group names only ids of its starting scene and ids created by then,
      and creates no id twice. */
  lemma MentionedIds(cat: Catalog, s: Scene, rs: seq<Record>, k: nat)
    requires Closed(s) && Traced(cat, s, rs) && k < |rs|
    ensures Ids(rs[k]) <= s.Keys + CreatedIds(rs, k + 1)
    ensures rs[k].Creates() ==> rs[k].createdId !in s.Keys + CreatedIds(rs, k)
  {
    ReplayKeys(cat, s, rs, k);
    assert RecordedAt(cat, s, rs, k);
    var here := Replay(cat, s, rs, k);
    if rs[k].Reparent? {
      assert Present(here, here[rs[k].objectId].parent);
    }
  }

  // ---------------------------------------------------------------------------
  // Renaming. The code replaces one id by another; on ids that are new this is
  // the exchange of the two ids, and exchanging ids commutes with every edit.
  // ---------------------------------------------------------------------------

  function Ren(x: Id, a: Id, b: Id): Id { if x == a then b else x }

  function RenOpt(p: Option<Id>, a: Id, b: Id): Option<Id> {
    if p == Some(a) then Some(b) else p
  }

  /** Replaces `a` by `b` in the id positions of a record, never in its values. */
  function RenRecord(r: Record, a: Id, b: Id): (out: Record)
    ensures out.SetProperty? <==> r.SetProperty?
    ensures r.SetProperty? ==>
              out.property == r.property && out.oldValue == r.oldValue && out.newValue == r.newValue
  {
    match r
    case Create(c, p, k) => Create(Ren(c, a, b), RenOpt(p, a, b), k)
    case Duplicate(o, c, p) => Duplicate(Ren(o, a, b), Ren(c, a, b), RenOpt(p, a, b))
    case Reparent(o, prior, next) => Reparent(Ren(o, a, b), RenOpt(prior, a, b), RenOpt(next, a, b))
    case SetProperty(o, k, v, w) => SetProperty(Ren(o, a, b), k, v, w)
  }

  function RenAll(rs: seq<Record>, a: Id, b: Id): (out: seq<Record>)
    ensures |out| == |rs|
    ensures forall i | 0 <= i < |rs| :: out[i] == RenRecord(rs[i], a, b)
  {
    seq(|rs|, i requires 0 <= i < |rs| => RenRecord(rs[i], a, b))
  }

  function Swap(x: Id, a: Id, b: Id): Id {
    if x == a then b else if x == b then a else x
  }

  function SwapOpt(p: Option<Id>, a: Id, b: Id): Option<Id> {
    if p.Some? then Some(Swap(p.value, a, b)) else None
  }

  function SwapObj(o: Obj, a: Id, b: Id): Obj { o.(parent := SwapOpt(o.parent, a, b)) }

  function SwapScene(s: Scene, a: Id, b: Id): Scene {
    map y | y in s.Keys + {a, b} && Swap(y, a, b) in s :: SwapObj(s[Swap(y, a, b)], a, b)
  }

  function SwapRecord(r: Record, a: Id, b: Id): Record {
    match r
    case Create(c, p, k) => Create(Swap(c, a, b), SwapOpt(p, a, b), k)
    case Duplicate(o, c, p) => Duplicate(Swap(o, a, b), Swap(c, a, b), SwapOpt(p, a, b))
    case Reparent(o, prior, next) => Reparent(Swap(o, a, b), SwapOpt(prior, a, b), SwapOpt(next, a, b))
    case SetProperty(o, k, v, w) => SetProperty(Swap(o, a, b), k, v, w)
  }

  function SwapAll(rs: seq<Record>, a: Id, b: Id): (out: seq<Record>)
    ensures |out| == |rs|
    ensures forall i | 0 <= i < |rs| :: out[i] == SwapRecord(rs[i], a, b)
  {
    seq(|rs|, i requires 0 <= i < |rs| => SwapRecord(rs[i], a, b))
  }

  lemma RenIsSwap(r: Record, a: Id, b: Id)
    requires a == b || b !in Ids(r)
    ensures RenRecord(r, a, b) == SwapRecord(r, a, b)
  {
  }

  lemma SwapFixesScene(s: Scene, a: Id, b: Id)
    requires Closed(s) && a !in s && b !in s
    ensures SwapScene(s, a, b) == s
  {
    assert forall x <- s :: SwapObj(s[x], a, b) == s[x] by {
      forall x | x in s ensures SwapObj(s[x], a, b) == s[x] {
        assert Present(s, s[x].parent);
      }
    }
  }

  lemma SwapLookup(s: Scene, x: Id, a: Id, b: Id)
    ensures Swap(Swap(x, a, b), a, b) == x
    ensures Swap(x, a, b) in SwapScene(s, a, b) <==> x in s
    ensures x in s ==> SwapScene(s, a, b)[Swap(x, a, b)] == SwapObj(s[x], a, b)
  {
  }

  lemma SwapUpdate(s: Scene, x: Id, o: Obj, a: Id, b: Id)
    ensures SwapScene(s[x := o], a, b) == SwapScene(s, a, b)[Swap(x, a, b) := SwapObj(o, a, b)]
  {
    hide SwapScene, Swap, SwapObj;
    var left := SwapScene(s[x := o], a, b);
    var right := SwapScene(s, a, b)[Swap(x, a, b) := SwapObj(o, a, b)];
    forall y
      ensures y in left <==> y in right
      ensures y in left ==> left[y] == right[y]
    {
      var z := Swap(y, a, b);
      SwapLookup(s, y, a, b);
      SwapLookup(s, x, a, b);
      SwapLookup(s, z, a, b);
      SwapLookup(s[x := o], z, a, b);
    }
  }

  lemma SwapKeepsRecorded(s: Scene, r: Record, a: Id, b: Id)
    requires Recorded(s, r)
    ensures Recorded(SwapScene(s, a, b), SwapRecord(r, a, b))
  {
    hide SwapScene, Swap;
    forall x ensures Swap(x, a, b) in SwapScene(s, a, b) <==> x in s
             ensures x in s ==> SwapScene(s, a, b)[Swap(x, a, b)] == SwapObj(s[x], a, b)
    {
      SwapLookup(s, x, a, b);
    }
  }

  /** Exchanging two ids commutes with applying a recorded edit. */
  lemma ForwardCommutesWithSwap(cat: Catalog, s: Scene, r: Record, a: Id, b: Id)
    requires Recorded(s, r)
    ensures Forward(cat, SwapScene(s, a, b), SwapRecord(r, a, b)) == SwapScene(Forward(cat, s, r), a, b)
  {
    hide SwapScene, Swap;
    match r
    case Create(c, p, k) =>
      SwapUpdate(s, c, Obj(p, k, InitialProps(cat, k)), a, b);
    case Duplicate(o, c, p) =>
      SwapLookup(s, o, a, b);
      SwapUpdate(s, c, s[o].(parent := if p.Some? then p else s[o].parent), a, b);
    case Reparent(o, prior, next) =>
      SwapLookup(s, o, a, b);
      SwapUpdate(s, o, s[o].(parent := next), a, b);
    case SetProperty(o, k, v, w) =>
      SwapLookup(s, o, a, b);
      SwapUpdate(s, o, s[o].(props := s[o].props[k := w]), a, b);
  }

  lemma {:induction false} ReplayCommutesWithSwap(cat: Catalog, s: Scene, rs: seq<Record>, a: Id, b: Id, k: nat)
    requires Traced(cat, s, rs) && k <= |rs|
    ensures Replay(cat, SwapScene(s, a, b), SwapAll(rs, a, b), k) == SwapScene(Replay(cat, s, rs, k), a, b)
  {
    hide Forward, Recorded, SwapScene, SwapRecord;
    if k > 0 {
      ReplayCommutesWithSwap(cat, s, rs, a, b, k - 1);
      assert RecordedAt(cat, s, rs, k - 1);
      ForwardCommutesWithSwap(cat, Replay(cat, s, rs, k - 1), rs[k - 1], a, b);
    }
  }

  lemma TracedCommutesWithSwap(cat: Catalog, s: Scene, rs: seq<Record>, a: Id, b: Id)
    requires Traced(cat, s, rs)
    ensures Traced(cat, SwapScene(s, a, b), SwapAll(rs, a, b))
  {
    forall k | 0 <= k < |rs|
      ensures RecordedAt(cat, SwapScene(s, a, b), SwapAll(rs, a, b), k)
    {
      assert RecordedAt(cat, s, rs, k);
      ReplayCommutesWithSwap(cat, s, rs, a, b, k);
      SwapKeepsRecorded(Replay(cat, s, rs, k), rs[k], a, b);
    }
  }

  /** A list of exchanges applied one after the other: a renaming. */
  type Renaming = seq<(Id, Id)>

  function RenamedScene(sub: Renaming, s: Scene): Scene {
    if sub == [] then s else RenamedScene(sub[1..], SwapScene(s, sub[0].0, sub[0].1))
  }

  function RenamedRecords(sub: Renaming, rs: seq<Record>): (out: seq<Record>)
    ensures |out| == |rs|
  {
    if sub == [] then rs else RenamedRecords(sub[1..], SwapAll(rs, sub[0].0, sub[0].1))
  }

  lemma {:induction false} RenamedRecordsAppend(sub: Renaming, a: Id, b: Id, rs: seq<Record>)
    ensures RenamedRecords(sub + [(a, b)], rs) == SwapAll(RenamedRecords(sub, rs), a, b)
  {
    var more := sub + [(a, b)];
    if sub == [] {
      assert more[1..] == [];
    } else {
      assert more[0] == sub[0] && more[1..] == sub[1..] + [(a, b)];
      RenamedRecordsAppend(sub[1..], a, b, SwapAll(rs, sub[0].0, sub[0].1));
    }
  }

  /** The renaming moves no id of scene `s`. */
  predicate Fixes(sub: Renaming, s: Scene) {
    forall i | 0 <= i < |sub| :: sub[i].0 !in s && sub[i].1 !in s
  }

  lemma {:induction false} ReplayCommutesWithRenaming(cat: Catalog, s: Scene, rs: seq<Record>, sub: Renaming)
    requires Closed(s) && Traced(cat, s, rs) && Fixes(sub, s)
    ensures Replay(cat, s, RenamedRecords(sub, rs), |rs|) == RenamedScene(sub, Replay(cat, s, rs, |rs|))
    decreases |sub|
  {
    hide Replay, Traced, SwapScene, Closed;
    if sub != [] {
      var (a, b) := sub[0];
      ReplayCommutesWithSwap(cat, s, rs, a, b, |rs|);
      TracedCommutesWithSwap(cat, s, rs, a, b);
      SwapFixesScene(s, a, b);
      ReplayCommutesWithRenaming(cat, s, SwapAll(rs, a, b), sub[1..]);
    }
  }

  // ---------------------------------------------------------------------------
  // A group being walked back and forth, one accepted request at a time.
  // ---------------------------------------------------------------------------

  /** `at` of the records of `now` are applied to `start`; `now` is `before` with
      the created ids renamed by `sub`. */
  datatype Walk = Walk(start: Scene, before: seq<Record>, sub: Renaming, now: seq<Record>, at: nat, scene: Scene)

  ghost predicate OnTrack(cat: Catalog, w: Walk) {
    && Closed(w.start)
    && Traced(cat, w.start, w.before)
    && Traced(cat, w.start, w.now)
    && Fixes(w.sub, w.start)
    && w.now == RenamedRecords(w.sub, w.before)
    && w.at <= |w.now|
    && w.scene == Replay(cat, w.start, w.now, w.at)
  }

  datatype Move = Back | Again(newId: Id)

  predicate CanMove(w: Walk, m: Move) {
    match m
    case Back => 0 < w.at <= |w.now|
    case Again(n) => w.at < |w.now| && (w.now[w.at].Creates() ==> n !in w.scene)
  }

  /** The group's records once a redo request was answered with `n`. */
  function RedoneRecords(rs: seq<Record>, at: nat, n: Id): seq<Record>
    requires at < |rs|
  {
    if rs[at].Creates() && n != rs[at].createdId then RenAll(rs, rs[at].createdId, n) else rs
  }

  /** One accepted undo or redo request, with the record changes it causes. */
  function Moved(cat: Catalog, w: Walk, m: Move): Walk
    requires CanMove(w, m)
  {
    match m
    case Back =>
      w.(at := w.at - 1, scene := Perform(cat, w.scene, RequestFor(w.now[w.at - 1], Undo), ""))
    case Again(n) =>
      var r := w.now[w.at];
      w.(at := w.at + 1,
         scene := Perform(cat, w.scene, RequestFor(r, Redo), n),
         now := RedoneRecords(w.now, w.at, n),
         sub := if r.Creates() && n != r.createdId then w.sub + [(r.createdId, n)] else w.sub)
  }

  /** The engine's answer to a redone create reuses no id that a record further
      along still stands for. */
  predicate FreshFor(w: Walk, m: Move) {
    m.Again? && w.at < |w.now| && w.now[w.at].Creates() ==>
      forall j | w.at < j < |w.now| && w.now[j].Creates() :: w.now[j].createdId != m.newId
  }

  lemma BackStaysOnTrack(cat: Catalog, w: Walk)
    requires OnTrack(cat, w) && CanMove(w, Back)
    ensures OnTrack(cat, Moved(cat, w, Back))
  {
    hide Forward, Perform, Recorded, RequestFor, RenamedRecords;
    assert RecordedAt(cat, w.start, w.now, w.at - 1);
    UndoInvertsForward(cat, Replay(cat, w.start, w.now, w.at - 1), w.now[w.at - 1]);
  }

  lemma AgainIsNewToTheGroup(cat: Catalog, w: Walk, n: Id, i: nat)
    requires OnTrack(cat, w) && CanMove(w, Again(n)) && w.now[w.at].Creates()
    requires FreshFor(w, Again(n)) && n != w.now[w.at].createdId && i < |w.now|
    ensures n !in w.start && w.now[w.at].createdId !in w.start
    ensures n !in Ids(w.now[i])
    ensures i < w.at ==> w.now[w.at].createdId !in Ids(w.now[i])
  {
    hide Replay, Traced, Ids, Closed, Perform, RenamedRecords;
    ReplayKeys(cat, w.start, w.now, w.at);
    MentionedIds(cat, w.start, w.now, i);
    MentionedIds(cat, w.start, w.now, w.at);
    CreatedIdsAre(w.now, i + 1, n);
    CreatedIdsAre(w.now, w.at, n);
    CreatedIdsAre(w.now, i + 1, w.now[w.at].createdId);
    CreatedIdsAre(w.now, w.at, w.now[w.at].createdId);
  }

  /** Replacing the created id in the group's records is exchanging it with the
      fresh one, and leaves the records already redone as they are. */
  lemma RedoneRecordsAreSwapped(cat: Catalog, w: Walk, n: Id)
    requires OnTrack(cat, w) && CanMove(w, Again(n)) && FreshFor(w, Again(n))
    requires w.now[w.at].Creates() && n != w.now[w.at].createdId
    ensures n !in w.start && w.now[w.at].createdId !in w.start
    ensures RedoneRecords(w.now, w.at, n) == SwapAll(w.now, w.now[w.at].createdId, n)
    ensures forall i | 0 <= i < w.at :: RedoneRecords(w.now, w.at, n)[i] == w.now[i]
  {
    hide OnTrack, FreshFor, RenRecord, SwapRecord;
    var a := w.now[w.at].createdId;
    AgainIsNewToTheGroup(cat, w, n, w.at);
    forall i | 0 <= i < |w.now|
      ensures RenRecord(w.now[i], a, n) == SwapRecord(w.now[i], a, n)
      ensures i < w.at ==> RenRecord(w.now[i], a, n) == w.now[i]
    {
      AgainIsNewToTheGroup(cat, w, n, i);
      RenIsSwap(w.now[i], a, n);
      if i < w.at {
        RenOfOtherId(w.now[i], a, n);
      }
    }
  }

  lemma RenOfOtherId(r: Record, a: Id, b: Id)
    requires a !in Ids(r)
    ensures RenRecord(r, a, b) == r
  {
  }

  lemma RedoRequestMakesTheRenamedRecord(cat: Catalog, s: Scene, r: Record, n: Id)
    requires r.Creates() && Recorded(s, r)
    ensures Perform(cat, s, RequestFor(r, Redo), n) == Forward(cat, s, RenRecord(r, r.createdId, n))
  {
  }

  lemma RedoRequestRepeatsTheEdit(cat: Catalog, s: Scene, r: Record, n: Id)
    requires r.Creates() ==> n == r.createdId
    ensures Perform(cat, s, RequestFor(r, Redo), n) == Forward(cat, s, r)
  {
  }

  lemma RenamedRecordsStayTraced(cat: Catalog, w: Walk, n: Id)
    requires OnTrack(cat, w) && CanMove(w, Again(n)) && FreshFor(w, Again(n))
    requires w.now[w.at].Creates() && n != w.now[w.at].createdId
    ensures
      var a, now := w.now[w.at].createdId, RedoneRecords(w.now, w.at, n);
      && Traced(cat, w.start, now)
      && Fixes(w.sub + [(a, n)], w.start)
      && now == RenamedRecords(w.sub + [(a, n)], w.before)
      && Replay(cat, w.start, now, w.at) == w.scene
  {
    hide Traced, Recorded, SwapScene, SwapRecord, RenRecord, FreshFor, Closed, Ids;
    var a, now := w.now[w.at].createdId, RedoneRecords(w.now, w.at, n);
    RedoneRecordsAreSwapped(cat, w, n);
    TracedCommutesWithSwap(cat, w.start, w.now, a, n);
    SwapFixesScene(w.start, a, n);
    ReplayAgrees(cat, w.start, now, w.now, w.at);
    RenamedRecordsAppend(w.sub, a, n, w.before);
  }

  lemma RenamedRedoStaysOnTrack(cat: Catalog, w: Walk, n: Id)
    requires OnTrack(cat, w) && CanMove(w, Again(n)) && FreshFor(w, Again(n))
    requires w.now[w.at].Creates() && n != w.now[w.at].createdId
    ensures OnTrack(cat, Moved(cat, w, Again(n)))
  {
    assert RecordedAt(cat, w.start, w.now, w.at);
    hide Recorded, Closed, Forward, Perform, RequestFor, Traced, RenRecord, RenamedRecords, Fixes, FreshFor;
    RenamedRecordsStayTraced(cat, w, n);
    RedoRequestMakesTheRenamedRecord(cat, w.scene, w.now[w.at], n);
  }

  lemma AgainStaysOnTrack(cat: Catalog, w: Walk, n: Id)
    requires OnTrack(cat, w) && CanMove(w, Again(n)) && FreshFor(w, Again(n))
    ensures OnTrack(cat, Moved(cat, w, Again(n)))
  {
    if w.now[w.at].Creates() && n != w.now[w.at].createdId {
      RenamedRedoStaysOnTrack(cat, w, n);
    } else {
      hide Forward, Perform, RequestFor, Recorded, Closed, RenamedRecords, FreshFor;
      RedoRequestRepeatsTheEdit(cat, w.scene, w.now[w.at], n);
    }
  }

  /** A redo answered with an id outside the scene keeps the group's records true
      exactly when that id is none of those the records still to redo stand for. */
  lemma RedoKeepsRecordsIffIdIsFresh(cat: Catalog, w: Walk, n: Id)
    requires OnTrack(cat, w) && CanMove(w, Again(n))
    ensures Traced(cat, w.start, RedoneRecords(w.now, w.at, n)) <==> FreshFor(w, Again(n))
  {
    if FreshFor(w, Again(n)) {
      AgainStaysOnTrack(cat, w, n);
    } else {
      var a := w.now[w.at].createdId;
      var k :| w.at < k < |w.now| && w.now[k].Creates() && w.now[k].createdId == n;
      MentionedIds(cat, w.start, w.now, k);
      CreatedIdsAre(w.now, k, a);
      CreatedIdsAre(w.now, k, n);
      var now := RedoneRecords(w.now, w.at, n);
      assert now[w.at].Creates() && now[w.at].createdId == n;
      assert now[k].Creates() && now[k].createdId == n;
      if Traced(cat, w.start, now) {
        MentionedIds(cat, w.start, now, k);
        CreatedIdsAre(now, k, n);
        assert false;
      }
    }
  }

  ghost function Walked(cat: Catalog, w: Walk, ms: seq<Move>): Walk
    requires Walkable(cat, w, ms)
    decreases |ms|
  {
    if ms == [] then w else Walked(cat, Moved(cat, w, ms[0]), ms[1..])
  }

  ghost predicate Walkable(cat: Catalog, w: Walk, ms: seq<Move>)
    decreases |ms|
  {
    ms == [] || (CanMove(w, ms[0]) && FreshFor(w, ms[0]) && Walkable(cat, Moved(cat, w, ms[0]), ms[1..]))
  }

  /** On track means: wholly undone, the group's scene is the one it started from;
      wholly redone, it is the scene the group first made with created ids renamed. */
  lemma OnTrackEnds(cat: Catalog, w: Walk)
    requires OnTrack(cat, w)
    ensures w.at == 0 ==> w.scene == w.start
    ensures w.at == |w.before| ==> w.scene == RenamedScene(w.sub, Replay(cat, w.start, w.before, |w.before|))
  {
    ReplayCommutesWithRenaming(cat, w.start, w.before, w.sub);
  }

  /** However often a recorded group is walked back and forth, undoing it wholly
      restores its starting scene and redoing it wholly restores its result up to
      a renaming that moves no id of the starting scene. */
  lemma {:induction false} WalkingRestores(cat: Catalog, w: Walk, ms: seq<Move>)
    requires OnTrack(cat, w) && Walkable(cat, w, ms)
    ensures
      var end := Walked(cat, w, ms);
      && OnTrack(cat, end)
      && Fixes(end.sub, w.start)
      && (end.at == 0 ==> end.scene == w.start)
      && (end.at == |w.before| ==> end.scene == RenamedScene(end.sub, Replay(cat, w.start, w.before, |w.before|)))
    decreases |ms|
  {
    if ms == [] {
      OnTrackEnds(cat, w);
    } else {
      if ms[0].Back? {
        BackStaysOnTrack(cat, w);
      } else {
        AgainStaysOnTrack(cat, w, ms[0].newId);
      }
      WalkingRestores(cat, Moved(cat, w, ms[0]), ms[1..]);
    }
  }

  /** Why freshness against the scene alone is not enough: the engine hands the
      id of a still-deleted object to another redone create, the two records
      become one id, and the next undo no longer restores the scene. */
  lemma ReusedIdBreaksTheNextUndo()
    ensures
      var made := [Create("a", None, None), Create("b", None, None)];
      var w := Walk(map[], made, [], made, 0, map[]);
      && OnTrack(map[], w)
      && CanMove(w, Again("b"))
      && CanMove(Moved(map[], w, Again("b")), Again("c"))
      && var full := Moved(map[], Moved(map[], w, Again("b")), Again("c"));
      && CanMove(full, Back)
      && CanMove(Moved(map[], full, Back), Back)
      && Moved(map[], Moved(map[], full, Back), Back).scene != w.start
  {
    var made := [Create("a", None, None), Create("b", None, None)];
    var w := Walk(map[], made, [], made, 0, map[]);
    assert Replay(map[], map[], made, 1) == Forward(map[], Replay(map[], map[], made, 0), made[0]);
    assert OnTrack(map[], w);
    var one := Moved(map[], w, Again("b"));
    assert one.now == [Create("b", None, None), Create("b", None, None)];
    var full := Moved(map[], one, Again("c"));
    assert full.now == [Create("c", None, None), Create("c", None, None)];
    assert "b" in Moved(map[], Moved(map[], full, Back), Back).scene;
  }
}
