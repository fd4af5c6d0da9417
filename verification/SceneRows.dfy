/** Preorder rows of a scene tree, and choosing some of them. A row's depth is enough to
    tell ancestors and descendants, so the rows are a reference the tree operations can be
    measured against. */
module SceneRows {
  import opened Options
  import opened SceneTrees

  datatype Row = Row(depth: nat, id: string, name: Option<string>, kind: Option<string>)

  function RowOf(t: Node, depth: nat): Row { Row(depth, t.id, t.name, t.kind) }

  function Rows(t: Node, depth: nat): (r: seq<Row>)
    ensures |r| > 0 && r[0] == RowOf(t, depth) && forall k :: 0 <= k < |r| ==> r[k].depth >= depth
    ensures forall k :: 0 < k < |r| ==> r[k].depth > depth
    decreases t
  {
    [RowOf(t, depth)] + RowsIn(t.children, depth + 1)
  }

  function RowsIn(ts: seq<Node>, depth: nat): (r: seq<Row>)
    ensures forall k :: 0 <= k < |r| ==> r[k].depth >= depth
    ensures r != [] ==> r[0].depth == depth
    decreases ts
  {
    if ts == [] then [] else Rows(ts[0], depth) + RowsIn(ts[1..], depth)
  }

  /** Row `j` is a strict ancestor of row `k`. */
  predicate Ancestor(rows: seq<Row>, j: nat, k: nat) {
    j < k < |rows| && forall i :: j < i <= k ==> rows[j].depth < rows[i].depth
  }

  /** The rows `chosen` by their position, in order. */
  function Select(rows: seq<Row>, chosen: nat -> bool, n: nat): seq<Row>
    requires n <= |rows|
  {
    if n == 0 then [] else Select(rows, chosen, n - 1) + if chosen(n - 1) then [rows[n - 1]] else []
  }

  lemma {:induction false} SelectAgrees(rows: seq<Row>, others: seq<Row>, c: nat -> bool, d: nat -> bool, n: nat)
    requires n <= |rows| && n <= |others|
    requires forall k :: 0 <= k < n ==> rows[k] == others[k] && c(k) == d(k)
    ensures Select(rows, c, n) == Select(others, d, n)
    decreases n
  {
    if n > 0 { SelectAgrees(rows, others, c, d, n - 1); }
  }

  /** Choosing from a concatenation, part by part. */
  lemma {:induction false} SelectOfConcat(a: seq<Row>, b: seq<Row>, c: nat -> bool, d: nat -> bool, n: nat)
    requires n <= |b|
    requires forall k :: 0 <= k < |b| ==> c(|a| + k) == d(k)
    ensures Select(a + b, c, |a| + n) == Select(a + b, c, |a|) + Select(b, d, n)
    decreases n
  {
    if n > 0 { SelectOfConcat(a, b, c, d, n - 1); }
  }

  lemma SelectInTwo(a: seq<Row>, b: seq<Row>, c: nat -> bool, d: nat -> bool, e: nat -> bool)
    requires forall k :: 0 <= k < |a| ==> c(k) == d(k)
    requires forall k :: 0 <= k < |b| ==> c(|a| + k) == e(k)
    ensures Select(a + b, c, |a + b|) == Select(a, d, |a|) + Select(b, e, |b|)
  {
    hide Select;
    assert forall k :: 0 <= k < |a| ==> (a + b)[k] == a[k];
    SelectOfConcat(a, b, c, e, |b|);
    SelectAgrees(a + b, a, c, d, |a|);
  }

  lemma {:induction false} SelectAll(rows: seq<Row>, c: nat -> bool, n: nat)
    requires n <= |rows| && forall k :: 0 <= k < n ==> c(k)
    ensures Select(rows, c, n) == rows[..n]
    decreases n
  {
    if n > 0 { SelectAll(rows, c, n - 1); }
  }

  lemma {:induction false} SelectNone(rows: seq<Row>, c: nat -> bool, n: nat)
    requires n <= |rows| && forall k :: 0 <= k < n ==> !c(k)
    ensures Select(rows, c, n) == []
    decreases n
  {
    if n > 0 { SelectNone(rows, c, n - 1); }
  }

  /** Neighbouring subtrees have no ancestor between them. */
  lemma AncestorInFirst(a: seq<Row>, b: seq<Row>, depth: nat, j: nat, k: nat)
    requires forall i :: 0 <= i < |a| ==> a[i].depth >= depth
    requires b != [] ==> b[0].depth == depth
    requires j < |a|
    ensures Ancestor(a + b, j, k) <==> Ancestor(a, j, k)
  {
    if k < |a| {
      assert forall i :: j < i <= k ==> (a + b)[i] == a[i];
    } else if k < |a + b| {
      assert (a + b)[|a|] == b[0] && (a + b)[j] == a[j];
    }
  }

  lemma AncestorInSecond(a: seq<Row>, b: seq<Row>, j: nat, k: nat)
    ensures Ancestor(a + b, |a| + j, |a| + k) <==> Ancestor(b, j, k)
  {
    if j < k < |b| {
      assert forall i :: j < i <= k ==> (a + b)[|a| + i] == b[i];
      if Ancestor(a + b, |a| + j, |a| + k) {
        forall i | j < i <= k ensures b[j].depth < b[i].depth {
          assert (a + b)[|a| + j].depth < (a + b)[|a| + i].depth;
        }
      }
      if Ancestor(b, j, k) {
        forall i | |a| + j < i <= |a| + k ensures (a + b)[|a| + j].depth < (a + b)[i].depth {
          assert (a + b)[i] == b[i - |a|];
        }
      }
    }
  }
}
