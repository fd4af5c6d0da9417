/** The rows a scene tree shows and the arrow keys that move among them. */
module SceneKeys {
  import opened Options
  import opened SceneTrees
  import opened SceneRows

  datatype VisibleRow = VisibleRow(id: string, parentId: Option<string>, hasChildren: bool, isCollapsed: bool) {
    predicate Expanded() { hasChildren && !isCollapsed }
  }

  function VisibleRowOf(t: Node, collapsed: set<string>, parent: Option<string>): VisibleRow {
    VisibleRow(t.id, parent, t.children != [], t.children != [] && t.id in collapsed)
  }

  function Flatten(t: Node, collapsed: set<string>, parent: Option<string>): (r: seq<VisibleRow>)
    ensures r != [] && r[0] == VisibleRowOf(t, collapsed, parent)
    decreases t
  {
    var row := VisibleRowOf(t, collapsed, parent);
    [row] + if row.isCollapsed then [] else FlattenIn(t.children, collapsed, t.id)
  }

  function FlattenIn(ts: seq<Node>, collapsed: set<string>, parent: string): (r: seq<VisibleRow>)
    ensures ts != [] ==> r != [] && r[0] == VisibleRowOf(ts[0], collapsed, Some(parent))
    decreases ts
  {
    if ts == [] then [] else Flatten(ts[0], collapsed, Some(parent)) + FlattenIn(ts[1..], collapsed, parent)
  }

  lemma {:induction false} FlattenInConcat(a: seq<Node>, b: seq<Node>, collapsed: set<string>, parent: string)
    ensures FlattenIn(a + b, collapsed, parent) == FlattenIn(a, collapsed, parent) + FlattenIn(b, collapsed, parent)
    decreases |a|
  {
    if a == [] {
      assert a + b == b;
    } else {
      assert (a + b)[1..] == a[1..] + b;
      FlattenInConcat(a[1..], b, collapsed, parent);
    }
  }

  method FlattenVisibleRows(node: Node, collapsed: set<string>, parent: Option<string>) returns (rows: seq<VisibleRow>)
    ensures rows == Flatten(node, collapsed, parent)
    decreases node
  {
    var hasChildren := |node.children| > 0;
    var isCollapsed := hasChildren && node.id in collapsed;
    rows := [VisibleRow(node.id, parent, hasChildren, isCollapsed)];
    if !isCollapsed {
      var i := 0;
      while i < |node.children|
        invariant 0 <= i <= |node.children|
        invariant rows == [VisibleRowOf(node, collapsed, parent)] + FlattenIn(node.children[..i], collapsed, node.id)
      {
        var more := FlattenVisibleRows(node.children[i], collapsed, Some(node.id));
        rows := rows + more;
        assert node.children[..i + 1] == node.children[..i] + [node.children[i]];
        FlattenInConcat(node.children[..i], [node.children[i]], collapsed, node.id);
        i := i + 1;
      }
      assert node.children[..i] == node.children;
    }
  }

  // ---- which nodes are shown ----

  /** No strict ancestor is collapsed. */
  ghost predicate Shown(rows: seq<Row>, collapsed: set<string>, k: nat) {
    forall j :: 0 <= j < |rows| && Ancestor(rows, j, k) ==> rows[j].id !in collapsed
  }

  ghost function ShownRows(rows: seq<Row>, collapsed: set<string>): seq<Row> {
    Select(rows, (k: nat) => Shown(rows, collapsed, k), |rows|)
  }

  function RowIds(rows: seq<Row>): (r: seq<string>)
    ensures |r| == |rows| && forall k :: 0 <= k < |r| ==> r[k] == rows[k].id
  {
    seq(|rows|, k requires 0 <= k < |rows| => rows[k].id)
  }

  function VisibleIds(rows: seq<VisibleRow>): (r: seq<string>)
    ensures |r| == |rows| && forall k :: 0 <= k < |r| ==> r[k] == rows[k].id
  {
    seq(|rows|, k requires 0 <= k < |rows| => rows[k].id)
  }

  lemma ShownInFirst(a: seq<Row>, b: seq<Row>, depth: nat, collapsed: set<string>, k: nat)
    requires forall i :: 0 <= i < |a| ==> a[i].depth >= depth
    requires b != [] ==> b[0].depth == depth
    requires k < |a|
    ensures Shown(a + b, collapsed, k) <==> Shown(a, collapsed, k)
  {
    hide Ancestor;
    var all := a + b;
    forall j | 0 <= j < |a|
      ensures Ancestor(all, j, k) <==> Ancestor(a, j, k)
      ensures all[j] == a[j]
    { AncestorInFirst(a, b, depth, j, k); }
    forall j | |a| <= j < |all| ensures !Ancestor(all, j, k) { NoLaterAncestor(all, j, k); }
  }

  lemma NoLaterAncestor(rows: seq<Row>, j: nat, k: nat)
    requires k <= j
    ensures !Ancestor(rows, j, k)
  {}

  lemma ShownInSecond(a: seq<Row>, b: seq<Row>, collapsed: set<string>, k: nat, m: nat)
    requires m == |a| + k
    requires forall j :: 0 <= j < |a| ==> !(Ancestor(a + b, j, m) && a[j].id in collapsed)
    ensures Shown(a + b, collapsed, m) <==> Shown(b, collapsed, k)
  {
    hide Ancestor;
    var all := a + b;
    forall j | 0 <= j < |b|
      ensures Ancestor(all, |a| + j, m) <==> Ancestor(b, j, k)
      ensures all[|a| + j] == b[j]
    { AncestorInSecond(a, b, j, k); }
    if Shown(all, collapsed, m) {
      forall j | 0 <= j < |b| && Ancestor(b, j, k) ensures b[j].id !in collapsed {
        assert Ancestor(all, |a| + j, m);
      }
    }
    if Shown(b, collapsed, k) {
      forall j | 0 <= j < |all| && Ancestor(all, j, m) ensures all[j].id !in collapsed {
        if j >= |a| {
          assert |a| + (j - |a|) == j;
          assert Ancestor(b, j - |a|, k);
        } else {
          assert all[j] == a[j];
        }
      }
    }
  }

  lemma ShownOfConcat(a: seq<Row>, b: seq<Row>, depth: nat, collapsed: set<string>)
    requires forall i :: 0 <= i < |a| ==> a[i].depth >= depth
    requires b != [] ==> b[0].depth == depth
    ensures ShownRows(a + b, collapsed) == ShownRows(a, collapsed) + ShownRows(b, collapsed)
  {
    hide Shown, Select, Ancestor;
    forall k | 0 <= k < |a| ensures Shown(a + b, collapsed, k) == Shown(a, collapsed, k) {
      ShownInFirst(a, b, depth, collapsed, k);
    }
    forall k | 0 <= k < |b| ensures Shown(a + b, collapsed, |a| + k) == Shown(b, collapsed, k) {
      var m := |a| + k;
      forall j | 0 <= j < |a| ensures !Ancestor(a + b, j, m) {
        AncestorInFirst(a, b, depth, j, m);
        BeyondEnd(a, j, m);
      }
      ShownInSecond(a, b, collapsed, k, m);
    }
    SelectInTwo(a, b, (k: nat) => Shown(a + b, collapsed, k), (k: nat) => Shown(a, collapsed, k),
      (k: nat) => Shown(b, collapsed, k));
  }

  lemma BeyondEnd(rows: seq<Row>, j: nat, k: nat)
    requires k >= |rows|
    ensures !Ancestor(rows, j, k)
  {}

  lemma RootAbove(r: Row, below: seq<Row>, k: nat)
    requires forall i :: 0 <= i < |below| ==> below[i].depth > r.depth
    requires 0 < k <= |below|
    ensures Ancestor([r] + below, 0, k)
  {
    forall i | 0 < i <= k ensures r.depth < ([r] + below)[i].depth {
      assert ([r] + below)[i] == below[i - 1];
    }
  }

  lemma RootIsShown(rows: seq<Row>, collapsed: set<string>)
    ensures Shown(rows, collapsed, 0)
  {
    forall j | 0 <= j < |rows| ensures !Ancestor(rows, j, 0) { NoLaterAncestor(rows, j, 0); }
  }

  lemma CollapsedRootHidesTheRest(r: Row, below: seq<Row>, collapsed: set<string>)
    requires r.id in collapsed
    requires forall i :: 0 <= i < |below| ==> below[i].depth > r.depth
    ensures ShownRows([r] + below, collapsed) == [r]
  {
    hide Select, Ancestor;
    var all := [r] + below;
    RootIsShown(all, collapsed);
    var never := (k: nat) => false;
    forall k | 0 <= k < |below| ensures Shown(all, collapsed, |[r]| + k) == never(k) {
      RootAbove(r, below, k + 1);
      assert all[0] == r;
    }
    SelectInTwo([r], below, (k: nat) => Shown(all, collapsed, k), (k: nat) => true, never);
    SelectAll([r], (k: nat) => true, 1);
    SelectNone(below, never, |below|);
  }

  lemma OpenRootShowsTheRest(r: Row, below: seq<Row>, collapsed: set<string>)
    requires r.id !in collapsed
    ensures ShownRows([r] + below, collapsed) == [r] + ShownRows(below, collapsed)
  {
    hide Select, Ancestor;
    var all := [r] + below;
    RootIsShown(all, collapsed);
    forall k | 0 <= k < |below| ensures Shown(all, collapsed, |[r]| + k) == Shown(below, collapsed, k) {
      ShownInSecond([r], below, collapsed, k, k + 1);
    }
    SelectInTwo([r], below, (k: nat) => Shown(all, collapsed, k), (k: nat) => true,
      (k: nat) => Shown(below, collapsed, k));
    SelectAll([r], (k: nat) => true, 1);
  }

  /** The rows are, in preorder, exactly the nodes with no collapsed strict ancestor. */
  lemma {:induction false} VisibleAreShown(t: Node, collapsed: set<string>, parent: Option<string>, depth: nat)
    ensures VisibleIds(Flatten(t, collapsed, parent)) == RowIds(ShownRows(Rows(t, depth), collapsed))
    decreases t
  {
    hide ShownRows;
    var r, below := RowOf(t, depth), RowsIn(t.children, depth + 1);
    if t.id in collapsed {
      CollapsedRootHidesTheRest(r, below, collapsed);
      if t.children == [] {
        assert Flatten(t, collapsed, parent) == [VisibleRowOf(t, collapsed, parent)];
      }
    } else {
      VisibleAreShownIn(t.children, collapsed, t.id, depth + 1);
      OpenRootShowsTheRest(r, below, collapsed);
    }
  }

  lemma {:induction false} VisibleAreShownIn(ts: seq<Node>, collapsed: set<string>, parent: string, depth: nat)
    ensures VisibleIds(FlattenIn(ts, collapsed, parent)) == RowIds(ShownRows(RowsIn(ts, depth), collapsed))
    decreases ts
  {
    hide ShownRows;
    if ts == [] {
      NothingShown(collapsed);
    } else {
      VisibleAreShown(ts[0], collapsed, Some(parent), depth);
      VisibleAreShownIn(ts[1..], collapsed, parent, depth);
      ShownOfConcat(Rows(ts[0], depth), RowsIn(ts[1..], depth), depth, collapsed);
    }
  }

  lemma NothingShown(collapsed: set<string>)
    ensures ShownRows([], collapsed) == []
  {}

  // ---- neighbours ----

  /** The node each visible row stands for. */
  function VisibleNodes(t: Node, collapsed: set<string>): (r: seq<Node>)
    ensures r != [] && r[0] == t
    decreases t
  {
    [t] + if t.children != [] && t.id in collapsed then [] else VisibleNodesIn(t.children, collapsed)
  }

  function VisibleNodesIn(ts: seq<Node>, collapsed: set<string>): (r: seq<Node>)
    ensures ts != [] ==> r != [] && r[0] == ts[0]
    decreases ts
  {
    if ts == [] then [] else VisibleNodes(ts[0], collapsed) + VisibleNodesIn(ts[1..], collapsed)
  }

  /** Row `k` shows the node beside it; expanded, the next row shows its first child; and
      its parent is shown by an earlier expanded row, unless it is the root. */
  ghost predicate WellPlaced(
      rows: seq<VisibleRow>, nodes: seq<Node>, collapsed: set<string>, parent: Option<string>, k: nat)
    requires k < |rows| == |nodes|
  {
    && rows[k] == VisibleRowOf(nodes[k], collapsed, rows[k].parentId)
    && (rows[k].Expanded() ==>
          k + 1 < |rows| && nodes[k].children != [] && nodes[k + 1] == nodes[k].children[0] &&
          rows[k + 1].parentId == Some(rows[k].id))
    && (rows[k].parentId == parent || ParentShown(rows, nodes, k))
  }

  ghost predicate ParentShown(rows: seq<VisibleRow>, nodes: seq<Node>, k: nat)
    requires k < |rows| == |nodes|
  {
    exists j :: 0 <= j < k && rows[k].parentId == Some(rows[j].id) && rows[j].Expanded() && nodes[k] in nodes[j].children
  }

  lemma {:induction false} RowsAreWellPlaced(t: Node, collapsed: set<string>, parent: Option<string>, k: nat)
    requires k < |Flatten(t, collapsed, parent)|
    ensures |Flatten(t, collapsed, parent)| == |VisibleNodes(t, collapsed)|
    ensures WellPlaced(Flatten(t, collapsed, parent), VisibleNodes(t, collapsed), collapsed, parent, k)
    ensures k > 0 ==> ParentShown(Flatten(t, collapsed, parent), VisibleNodes(t, collapsed), k)
    decreases t
  {
    var rows, nodes := Flatten(t, collapsed, parent), VisibleNodes(t, collapsed);
    if !rows[0].isCollapsed {
      var below := FlattenIn(t.children, collapsed, t.id);
      SameLength(t.children, collapsed, t.id);
      if k > 0 {
        RowsInAreWellPlaced(t.children, collapsed, t.id, k - 1);
        ShiftedByOne(rows[0], below, t, VisibleNodesIn(t.children, collapsed), collapsed, t.id, parent, k - 1);
        assert rows == [rows[0]] + below && nodes == [t] + VisibleNodesIn(t.children, collapsed);
      }
    }
  }

  lemma {:induction false} SameLength(ts: seq<Node>, collapsed: set<string>, parent: string)
    ensures |FlattenIn(ts, collapsed, parent)| == |VisibleNodesIn(ts, collapsed)|
    decreases ts
  {
    if ts != [] {
      if !(ts[0].children != [] && ts[0].id in collapsed) { SameLength(ts[0].children, collapsed, ts[0].id); }
      SameLength(ts[1..], collapsed, parent);
    }
  }

  /** Below a common parent, each row is well placed, at the top or under a shown row. */
  lemma {:induction false} RowsInAreWellPlaced(ts: seq<Node>, collapsed: set<string>, parent: string, k: nat)
    requires k < |FlattenIn(ts, collapsed, parent)|
    ensures |FlattenIn(ts, collapsed, parent)| == |VisibleNodesIn(ts, collapsed)|
    ensures
      var rows, nodes := FlattenIn(ts, collapsed, parent), VisibleNodesIn(ts, collapsed);
      && WellPlaced(rows, nodes, collapsed, Some(parent), k)
      && ((nodes[k] in ts && rows[k].parentId == Some(parent)) || ParentShown(rows, nodes, k))
    decreases ts
  {
    SameLength(ts, collapsed, parent);
    var a, b := Flatten(ts[0], collapsed, Some(parent)), FlattenIn(ts[1..], collapsed, parent);
    var n, m := VisibleNodes(ts[0], collapsed), VisibleNodesIn(ts[1..], collapsed);
    SameLength(ts[1..], collapsed, parent);
    if k < |a| {
      RowsAreWellPlaced(ts[0], collapsed, Some(parent), k);
      InFirst(a, b, n, m, collapsed, Some(parent), k);
    } else {
      RowsInAreWellPlaced(ts[1..], collapsed, parent, k - |a|);
      InSecond(a, b, n, m, collapsed, Some(parent), k - |a|, k);
    }
  }

  lemma InFirst(
      a: seq<VisibleRow>, b: seq<VisibleRow>, n: seq<Node>, m: seq<Node>, collapsed: set<string>,
      parent: Option<string>, k: nat)
    requires |a| == |n| && |b| == |m| && k < |a| && WellPlaced(a, n, collapsed, parent, k)
    ensures WellPlaced(a + b, n + m, collapsed, parent, k)
    ensures ParentShown(a, n, k) ==> ParentShown(a + b, n + m, k)
  {
    hide VisibleRowOf;
    var rows, nodes := a + b, n + m;
    forall j | 0 <= j < |a| ensures rows[j] == a[j] && nodes[j] == n[j] {}
    if ParentShown(a, n, k) {
      var j :| 0 <= j < k && a[k].parentId == Some(a[j].id) && a[j].Expanded() && n[k] in n[j].children;
      assert rows[k].parentId == Some(rows[j].id) && rows[j].Expanded() && nodes[k] in nodes[j].children;
    }
  }

  lemma InSecond(
      a: seq<VisibleRow>, b: seq<VisibleRow>, n: seq<Node>, m: seq<Node>, collapsed: set<string>,
      parent: Option<string>, k: nat, i: nat)
    requires |a| == |n| && |b| == |m| && k < |b| && i == |a| + k && WellPlaced(b, m, collapsed, parent, k)
    ensures WellPlaced(a + b, n + m, collapsed, parent, i)
    ensures ParentShown(b, m, k) ==> ParentShown(a + b, n + m, i)
  {
    hide VisibleRowOf, ParentShown;
    assert (a + b)[i] == b[k] && (n + m)[i] == m[k];
    if k + 1 < |b| { assert (a + b)[i + 1] == b[k + 1] && (n + m)[i + 1] == m[k + 1]; }
    if ParentShown(b, m, k) { ParentInSecond(a, b, n, m, k, i); }
  }

  lemma ParentInSecond(a: seq<VisibleRow>, b: seq<VisibleRow>, n: seq<Node>, m: seq<Node>, k: nat, i: nat)
    requires |a| == |n| && |b| == |m| && k < |b| && i == |a| + k && ParentShown(b, m, k)
    ensures ParentShown(a + b, n + m, i)
  {
    var rows, nodes := a + b, n + m;
    var j :| 0 <= j < k && b[k].parentId == Some(b[j].id) && b[j].Expanded() && m[k] in m[j].children;
    var l := |a| + j;
    assert rows[l] == b[j] && nodes[l] == m[j] && rows[i] == b[k] && nodes[i] == m[k];
  }

  lemma ShiftedByOne(
      row: VisibleRow, below: seq<VisibleRow>, t: Node, nodes: seq<Node>, collapsed: set<string>, id: string,
      parent: Option<string>, k: nat)
    requires |below| == |nodes| && k < |below| && WellPlaced(below, nodes, collapsed, Some(id), k)
    requires row.id == id && row.Expanded()
    requires (nodes[k] in t.children && below[k].parentId == Some(id)) || ParentShown(below, nodes, k)
    ensures WellPlaced([row] + below, [t] + nodes, collapsed, parent, k + 1)
    ensures ParentShown([row] + below, [t] + nodes, k + 1)
  {
    InSecond([row], below, [t], nodes, collapsed, Some(id), k, k + 1);
    if !ParentShown(below, nodes, k) {
      var all, ns := [row] + below, [t] + nodes;
      assert all[0] == row && ns[0] == t && all[k + 1] == below[k] && ns[k + 1] == nodes[k];
    }
  }

  // ---- arrow keys ----

  datatype Key = ArrowDown | ArrowUp | ArrowLeft | ArrowRight

  datatype Action = Stay | MoveTo(id: string) | Toggle(id: string)

  /** The first row with that id. */
  function IndexOf(rows: seq<VisibleRow>, focused: Option<string>): (r: Option<nat>)
    ensures r.Some? ==> r.value < |rows| && Some(rows[r.value].id) == focused
    ensures forall k :: 0 <= k < (if r.Some? then r.value else |rows|) ==> Some(rows[k].id) != focused
  {
    if rows == [] then None
    else if Some(rows[0].id) == focused then Some(0)
    else
      var rest := IndexOf(rows[1..], focused);
      if rest.Some? then
        assert forall k :: 0 < k < rest.value + 1 ==> rows[k] == rows[1..][k - 1];
        Some(rest.value + 1)
      else
        assert forall k :: 0 < k < |rows| ==> rows[k] == rows[1..][k - 1];
        None
  }

  function Arrow(rows: seq<VisibleRow>, focused: Option<string>, key: Key): Action {
    var index := IndexOf(rows, focused);
    if index.None? then if key.ArrowDown? && rows != [] then MoveTo(rows[0].id) else Stay
    else
      var i, row := index.value, rows[index.value];
      match key
      case ArrowDown => if i + 1 < |rows| then MoveTo(rows[i + 1].id) else Stay
      case ArrowUp => if i > 0 then MoveTo(rows[i - 1].id) else Stay
      case ArrowRight =>
        if row.hasChildren && row.isCollapsed then Toggle(row.id)
        else if row.hasChildren && i + 1 < |rows| then MoveTo(rows[i + 1].id)
        else Stay
      case ArrowLeft =>
        if row.hasChildren && !row.isCollapsed then Toggle(row.id)
        else if row.parentId.Some? then MoveTo(row.parentId.value)
        else Stay
  }

  ghost predicate OnScreen(rows: seq<VisibleRow>, id: string) { exists k :: 0 <= k < |rows| && rows[k].id == id }

  /** Every move lands on a visible row, and only rows with children are toggled. */
  lemma ArrowsLandOnVisibleRows(t: Node, collapsed: set<string>, focused: Option<string>, key: Key)
    ensures
      var rows := Flatten(t, collapsed, None);
      match Arrow(rows, focused, key)
      case Stay => true
      case MoveTo(id) => OnScreen(rows, id)
      case Toggle(id) => OnScreen(rows, id) && Some(id) == focused
  {
    var rows := Flatten(t, collapsed, None);
    var index := IndexOf(rows, focused);
    if index.Some? { RowsAreWellPlaced(t, collapsed, None, index.value); }
  }

  /** Right on an expanded row goes to its first child; left from a row that is not
      expanded goes back to its parent, which is shown above it, and stays only at the
      root. */
  lemma RightGoesToFirstChildLeftToParent(t: Node, collapsed: set<string>, focused: Option<string>)
    ensures
      var rows, nodes, index := Flatten(t, collapsed, None), VisibleNodes(t, collapsed), IndexOf(Flatten(t, collapsed, None), focused);
      index.Some? && |rows| == |nodes| ==>
        var i := index.value;
        && (rows[i].Expanded() ==>
              nodes[i].children != [] && Arrow(rows, focused, ArrowRight) == MoveTo(nodes[i].children[0].id))
        && (!rows[i].Expanded() && i > 0 ==>
              exists j :: 0 <= j < i && nodes[i] in nodes[j].children && Arrow(rows, focused, ArrowLeft) == MoveTo(rows[j].id))
        && (!rows[i].Expanded() && i == 0 ==> Arrow(rows, focused, ArrowLeft) == Stay)
    ensures |Flatten(t, collapsed, None)| == |VisibleNodes(t, collapsed)|
  {
    var rows, nodes := Flatten(t, collapsed, None), VisibleNodes(t, collapsed);
    var index := IndexOf(rows, focused);
    RowsAreWellPlaced(t, collapsed, None, 0);
    if index.Some? {
      var i := index.value;
      RowsAreWellPlaced(t, collapsed, None, i);
      if rows[i].Expanded() {
        RowsAreWellPlaced(t, collapsed, None, i + 1);
      } else if i > 0 {
        var j :| 0 <= j < i && rows[i].parentId == Some(rows[j].id) && rows[j].Expanded() && nodes[i] in nodes[j].children;
        assert Arrow(rows, focused, ArrowLeft) == MoveTo(rows[j].id);
      }
    }
  }
}
