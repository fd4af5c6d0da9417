/** Narrowing a scene tree to a query. */
module SceneFilter {
  import opened Options
  import opened Texts
  import opened SceneTrees
  import opened SceneRows

  predicate TextMatches(id: string, name: Option<string>, kind: Option<string>, needle: string) {
    || Contains(Lower(if name.Some? then name.value else id), needle)
    || Contains(Lower(id), needle)
    || Contains(Lower(if kind.Some? then kind.value else ""), needle)
  }

  predicate NodeMatches(t: Node, needle: string) { TextMatches(t.id, t.name, t.kind, needle) }

  function Filter(t: Node, needle: string): Option<Node>
    decreases t
  {
    if NodeMatches(t, needle) then Some(t)
    else
      var kept := FilterIn(t.children, needle);
      if kept == [] then None else Some(t.(children := kept))
  }

  function FilterIn(ts: seq<Node>, needle: string): seq<Node>
    decreases ts
  {
    if ts == [] then []
    else
      var first := Filter(ts[0], needle);
      (if first.Some? then [first.value] else []) + FilterIn(ts[1..], needle)
  }

  function FilterSceneTree(t: Node, query: string): Option<Node> {
    var needle := Lower(Trim(query));
    if needle == "" then Some(t) else Filter(t, needle)
  }

  // ---- the rows that survive ----

  predicate Matches(r: Row, needle: string) { TextMatches(r.id, r.name, r.kind, needle) }

  ghost predicate SomeMatch(rows: seq<Row>, needle: string) {
    exists k :: 0 <= k < |rows| && Matches(rows[k], needle)
  }

  /** The row itself, an ancestor or a descendant matches. */
  ghost predicate Worth(rows: seq<Row>, needle: string, k: nat) {
    k < |rows| &&
    (|| Matches(rows[k], needle)
     || (exists j :: 0 <= j < |rows| && Ancestor(rows, j, k) && Matches(rows[j], needle))
     || (exists j :: 0 <= j < |rows| && Ancestor(rows, k, j) && Matches(rows[j], needle)))
  }

  ghost function Survivors(rows: seq<Row>, needle: string): seq<Row> {
    Select(rows, (k: nat) => Worth(rows, needle, k), |rows|)
  }

  lemma WorthInFirst(a: seq<Row>, b: seq<Row>, depth: nat, needle: string, k: nat)
    requires forall i :: 0 <= i < |a| ==> a[i].depth >= depth
    requires b != [] ==> b[0].depth == depth
    requires k < |a|
    ensures Worth(a + b, needle, k) <==> Worth(a, needle, k)
  {
    hide Ancestor, Matches;
    var all := a + b;
    assert all[k] == a[k];
    forall j | 0 <= j < |a|
      ensures Ancestor(all, j, k) <==> Ancestor(a, j, k)
      ensures all[j] == a[j]
    { AncestorInFirst(a, b, depth, j, k); }
    forall j | 0 <= j < |all|
      ensures Ancestor(all, k, j) <==> Ancestor(a, k, j)
      ensures Ancestor(all, k, j) ==> j < |a|
      ensures Ancestor(all, j, k) ==> j < |a|
    {
      AncestorInFirst(a, b, depth, k, j);
      AncestorBefore(a, k, j);
      AncestorBefore(all, j, k);
    }
  }

  lemma AncestorBefore(rows: seq<Row>, j: nat, k: nat)
    ensures Ancestor(rows, j, k) ==> j < k < |rows|
  {}

  lemma WorthInSecond(a: seq<Row>, b: seq<Row>, depth: nat, needle: string, k: nat)
    requires forall i :: 0 <= i < |a| ==> a[i].depth >= depth
    requires b != [] ==> b[0].depth == depth
    ensures Worth(a + b, needle, |a| + k) <==> Worth(b, needle, k)
  {
    hide Ancestor, Matches;
    var m := |a| + k;
    forall j | 0 <= j < |a| ensures !Ancestor(a + b, j, m) {
      AncestorInFirst(a, b, depth, j, m);
      AncestorBefore(a, j, m);
    }
    SecondPart(a, b, needle, k, m);
  }

  /** Provided no ancestor of the row is in the first part. */
  lemma SecondPart(a: seq<Row>, b: seq<Row>, needle: string, k: nat, m: nat)
    requires m == |a| + k
    requires forall j :: 0 <= j < |a| ==> !(Ancestor(a + b, j, m) && Matches((a + b)[j], needle))
    ensures Worth(a + b, needle, m) <==> Worth(b, needle, k)
  {
    hide Ancestor, Matches;
    var all := a + b;
    var n := |a|;
    if k < |b| {
      assert all[n + k] == b[k];
      forall j | 0 <= j < |b|
        ensures Ancestor(all, n + j, n + k) <==> Ancestor(b, j, k)
        ensures Ancestor(all, n + k, n + j) <==> Ancestor(b, k, j)
        ensures all[n + j] == b[j]
      {
        AncestorInSecond(a, b, j, k);
        AncestorInSecond(a, b, k, j);
      }
      if Worth(all, needle, n + k) && !Matches(b[k], needle) {
        if j :| 0 <= j < |all| && Ancestor(all, j, n + k) && Matches(all[j], needle) {
          assert j >= n && n + (j - n) == j;
          assert Ancestor(b, j - n, k);
        } else {
          var j :| 0 <= j < |all| && Ancestor(all, n + k, j) && Matches(all[j], needle);
          AncestorBefore(all, n + k, j);
          assert n + (j - n) == j;
          assert Ancestor(b, k, j - n);
        }
      }
      if Worth(b, needle, k) && !Matches(b[k], needle) {
        if j :| 0 <= j < |b| && Ancestor(b, j, k) && Matches(b[j], needle) {
          assert Ancestor(all, n + j, n + k) && Matches(all[n + j], needle);
        } else {
          var j :| 0 <= j < |b| && Ancestor(b, k, j) && Matches(b[j], needle);
          assert Ancestor(all, n + k, n + j) && Matches(all[n + j], needle);
        }
      }
    }
  }

  lemma SurvivorsOfConcat(a: seq<Row>, b: seq<Row>, depth: nat, needle: string)
    requires forall i :: 0 <= i < |a| ==> a[i].depth >= depth
    requires b != [] ==> b[0].depth == depth
    ensures Survivors(a + b, needle) == Survivors(a, needle) + Survivors(b, needle)
  {
    hide Worth, Select;
    forall k | 0 <= k < |a| ensures Worth(a + b, needle, k) == Worth(a, needle, k) {
      WorthInFirst(a, b, depth, needle, k);
    }
    forall k | 0 <= k < |b| ensures Worth(a + b, needle, |a| + k) == Worth(b, needle, k) {
      WorthInSecond(a, b, depth, needle, k);
    }
    SelectInTwo(a, b, (k: nat) => Worth(a + b, needle, k), (k: nat) => Worth(a, needle, k), (k: nat) => Worth(b, needle, k));
  }

  lemma NoMatchNoSurvivor(rows: seq<Row>, needle: string)
    requires !SomeMatch(rows, needle)
    ensures Survivors(rows, needle) == []
  {
    hide Matches;
    forall k | 0 <= k < |rows| ensures !Worth(rows, needle, k) {
      assert !Matches(rows[k], needle);
    }
    SelectNone(rows, (k: nat) => Worth(rows, needle, k), |rows|);
  }

  lemma RootIsAncestorOfAll(rows: seq<Row>, k: nat)
    requires 0 < k < |rows| && forall i :: 0 < i < |rows| ==> rows[i].depth > rows[0].depth
    ensures Ancestor(rows, 0, k)
  {}

  lemma MatchingRootKeepsAll(rows: seq<Row>, needle: string)
    requires rows != [] && Matches(rows[0], needle)
    requires forall i :: 0 < i < |rows| ==> rows[i].depth > rows[0].depth
    ensures Survivors(rows, needle) == rows
  {
    hide Matches, Ancestor;
    forall k | 0 <= k < |rows| ensures Worth(rows, needle, k) {
      if k > 0 { RootIsAncestorOfAll(rows, k); }
    }
    SelectAll(rows, (k: nat) => Worth(rows, needle, k), |rows|);
    assert rows[..|rows|] == rows;
  }

  /** A root that does not match survives with what is below it, if anything does. */
  lemma OtherRootKeepsTheRest(r: Row, below: seq<Row>, needle: string)
    requires !Matches(r, needle) && SomeMatch(below, needle)
    requires forall i :: 0 <= i < |below| ==> below[i].depth > r.depth
    ensures Survivors([r] + below, needle) == [r] + Survivors(below, needle)
  {
    hide Matches, Ancestor, Select;
    var all := [r] + below;
    forall k | 0 <= k < |below| ensures Worth(all, needle, |[r]| + k) == Worth(below, needle, k) {
      SecondPart([r], below, needle, k, k + 1);
    }
    assert Worth(all, needle, 0) by {
      var j :| 0 <= j < |below| && Matches(below[j], needle);
      assert all[j + 1] == below[j];
      RootIsAncestorOfAll(all, j + 1);
    }
    SelectInTwo([r], below, (k: nat) => Worth(all, needle, k), (k: nat) => true, (k: nat) => Worth(below, needle, k));
    SelectAll([r], (k: nat) => true, 1);
  }

  lemma SomeMatchUnder(r: Row, below: seq<Row>, needle: string)
    requires !Matches(r, needle)
    ensures SomeMatch([r] + below, needle) <==> SomeMatch(below, needle)
  {
    SomeMatchInConcat([r], below, needle);
  }

  lemma RootMatchIsAMatch(rows: seq<Row>, needle: string)
    requires rows != [] && Matches(rows[0], needle)
    ensures SomeMatch(rows, needle)
  {}

  /** A node survives exactly when it, an ancestor or a descendant matches, in order and at
      its depth; the result is undefined exactly when nothing matches. */
  lemma {:induction false} FilterKeepsSurvivors(t: Node, needle: string, depth: nat)
    ensures Filter(t, needle).Some? <==> SomeMatch(Rows(t, depth), needle)
    ensures Filter(t, needle).Some? ==> Rows(Filter(t, needle).value, depth) == Survivors(Rows(t, depth), needle)
    decreases t
  {
    hide TextMatches, Survivors, SomeMatch;
    var rows := Rows(t, depth);
    if NodeMatches(t, needle) {
      RootMatchIsAMatch(rows, needle);
      MatchingRootKeepsAll(rows, needle);
    } else {
      var below := RowsIn(t.children, depth + 1);
      FilterInKeepsSurvivors(t.children, needle, depth + 1);
      SomeMatchUnder(RowOf(t, depth), below, needle);
      if SomeMatch(below, needle) { OtherRootKeepsTheRest(RowOf(t, depth), below, needle); }
    }
  }

  lemma {:induction false} FilterInKeepsSurvivors(ts: seq<Node>, needle: string, depth: nat)
    ensures FilterIn(ts, needle) != [] <==> SomeMatch(RowsIn(ts, depth), needle)
    ensures RowsIn(FilterIn(ts, needle), depth) == Survivors(RowsIn(ts, depth), needle)
    decreases ts
  {
    hide TextMatches, Survivors, Matches;
    if ts == [] {
      NoMatchNoSurvivor([], needle);
    } else {
      var a, b := Rows(ts[0], depth), RowsIn(ts[1..], depth);
      FilterKeepsSurvivors(ts[0], needle, depth);
      FilterInKeepsSurvivors(ts[1..], needle, depth);
      SurvivorsOfConcat(a, b, depth, needle);
      SomeMatchInConcat(a, b, needle);
      if Filter(ts[0], needle).None? {
        NoMatchNoSurvivor(a, needle);
        assert FilterIn(ts, needle) == FilterIn(ts[1..], needle);
      } else {
        assert FilterIn(ts, needle)[1..] == FilterIn(ts[1..], needle);
      }
    }
  }

  lemma SomeMatchInConcat(a: seq<Row>, b: seq<Row>, needle: string)
    ensures SomeMatch(a + b, needle) <==> SomeMatch(a, needle) || SomeMatch(b, needle)
  {
    hide Matches;
    var all := a + b;
    forall k | 0 <= k < |a| ensures all[k] == a[k] {}
    forall k | 0 <= k < |b| ensures all[|a| + k] == b[k] {}
    if k :| 0 <= k < |b| && Matches(b[k], needle) {
      assert Matches(all[|a| + k], needle);
    }
    if k :| 0 <= k < |all| && Matches(all[k], needle) {
      assert all[k] == if k < |a| then a[k] else b[k - |a|];
    }
  }

  /** Every ancestor of a survivor survives. */
  lemma AncestorsOfSurvivorsSurvive(rows: seq<Row>, needle: string, j: nat, k: nat)
    requires Worth(rows, needle, k) && Ancestor(rows, j, k)
    ensures Worth(rows, needle, j)
  {
    hide Matches;
    if Matches(rows[k], needle) {
      assert Ancestor(rows, j, k);
    } else if i :| 0 <= i < |rows| && Ancestor(rows, i, k) && Matches(rows[i], needle) {
      if i < j {
        assert Ancestor(rows, i, j);
      } else if j < i {
        assert Ancestor(rows, j, i);
      }
    } else {
      var i :| 0 <= i < |rows| && Ancestor(rows, k, i) && Matches(rows[i], needle);
      assert Ancestor(rows, j, i);
    }
  }

  lemma {:induction false} FilterTwice(t: Node, needle: string)
    ensures Filter(t, needle).Some? ==> Filter(Filter(t, needle).value, needle) == Filter(t, needle)
    decreases t
  {
    hide TextMatches;
    FilterInTwice(t.children, needle);
  }

  lemma {:induction false} FilterInTwice(ts: seq<Node>, needle: string)
    ensures FilterIn(FilterIn(ts, needle), needle) == FilterIn(ts, needle)
    decreases ts
  {
    hide TextMatches;
    if ts != [] {
      FilterTwice(ts[0], needle);
      FilterInTwice(ts[1..], needle);
      var first := Filter(ts[0], needle);
      if first.Some? {
        assert FilterIn(ts, needle)[1..] == FilterIn(ts[1..], needle);
      } else {
        assert FilterIn(ts, needle) == FilterIn(ts[1..], needle);
      }
    }
  }

  /** The panel's function, for any query: a blank one keeps the tree, filtering twice is
      filtering once, and what is left are the survivors of the tree's rows. */
  lemma FilterSceneTreeIsRight(t: Node, query: string)
    ensures
      var needle, f := Lower(Trim(query)), FilterSceneTree(t, query);
      && (f.Some? ==> FilterSceneTree(f.value, query) == f)
      && (if needle == "" then f == Some(t)
          else
            && (f.Some? <==> SomeMatch(Rows(t, 0), needle))
            && (f.Some? ==> Rows(f.value, 0) == Survivors(Rows(t, 0), needle)))
  {
    hide Filter, Survivors, SomeMatch, Rows;
    var needle := Lower(Trim(query));
    FilterTwice(t, needle);
    FilterKeepsSurvivors(t, needle, 0);
  }
}
