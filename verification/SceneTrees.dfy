/** Scene trees and the drag that moves a node under another. */
module SceneTrees {
  import opened Options

  datatype Node = Node(id: string, name: Option<string>, kind: Option<string>, children: seq<Node>)

  datatype Drop = Refused | Accepted(newParent: Option<string>)

  function Find(t: Node, id: string): Option<Node>
    decreases t
  {
    if t.id == id then Some(t) else FindIn(t.children, id)
  }

  function FindIn(ts: seq<Node>, id: string): Option<Node>
    decreases ts
  {
    if ts == [] then None
    else
      var found := Find(ts[0], id);
      if found.Some? then found else FindIn(ts[1..], id)
  }

  predicate SubtreeContains(t: Node, id: string)
    decreases t
  {
    t.id == id || AnyContains(t.children, id)
  }

  predicate AnyContains(ts: seq<Node>, id: string)
    decreases ts
  {
    ts != [] && (SubtreeContains(ts[0], id) || AnyContains(ts[1..], id))
  }

  predicate AnySubtreeContains(t: Node, dragged: string, target: string)
    decreases t
  {
    (t.id == dragged && SubtreeContains(t, target)) || AnySubtreeIn(t.children, dragged, target)
  }

  predicate AnySubtreeIn(ts: seq<Node>, dragged: string, target: string)
    decreases ts
  {
    ts != [] && (AnySubtreeContains(ts[0], dragged, target) || AnySubtreeIn(ts[1..], dragged, target))
  }

  function FindParentId(t: Node, id: string): Option<string>
    decreases t
  {
    ParentAmong(t.children, t.id, id)
  }

  function ParentAmong(ts: seq<Node>, parent: string, id: string): Option<string>
    decreases ts
  {
    if ts == [] then None
    else if ts[0].id == id then Some(parent)
    else
      var found := FindParentId(ts[0], id);
      if found.Some? then found else ParentAmong(ts[1..], parent, id)
  }

  function NormalizeOldParent(root: Node, id: string): Option<string> {
    var parent := FindParentId(root, id);
    if parent == Some(root.id) then None else parent
  }

  function ResolveDropTarget(root: Node, dragged: string, target: string): Drop {
    if dragged == target || dragged == root.id then Refused
    else if Find(root, dragged).None? || Find(root, target).None? then Refused
    else if AnySubtreeContains(root, dragged, target) then Refused
    else
      var newParent := if target == root.id then None else Some(target);
      if NormalizeOldParent(root, dragged) == newParent then Refused else Accepted(newParent)
  }

  lemma {:induction false} FindInConcat(a: seq<Node>, b: seq<Node>, id: string)
    ensures FindIn(a + b, id) == if FindIn(a, id).Some? then FindIn(a, id) else FindIn(b, id)
    decreases |a|
  {
    if a == [] {
      assert a + b == b;
    } else {
      assert (a + b)[1..] == a[1..] + b;
      FindInConcat(a[1..], b, id);
    }
  }

  method FindNode(node: Node, id: string) returns (found: Option<Node>)
    ensures found == Find(node, id)
    decreases node
  {
    if node.id == id {
      return Some(node);
    }
    var i := 0;
    while i < |node.children|
      invariant 0 <= i <= |node.children|
      invariant FindIn(node.children[..i], id).None?
    {
      found := FindNode(node.children[i], id);
      assert node.children == node.children[..i] + node.children[i..];
      FindInConcat(node.children[..i], node.children[i..], id);
      if found.Some? {
        return;
      }
      assert node.children[..i + 1] == node.children[..i] + [node.children[i]];
      FindInConcat(node.children[..i], [node.children[i]], id);
      i := i + 1;
    }
    assert node.children[..i] == node.children;
    return None;
  }

  // ---- ids, nodes and edges of a tree ----

  function Ids(t: Node): multiset<string>
    decreases t
  {
    multiset{t.id} + IdsIn(t.children)
  }

  function IdsIn(ts: seq<Node>): multiset<string>
    decreases ts
  {
    if ts == [] then multiset{} else Ids(ts[0]) + IdsIn(ts[1..])
  }

  /** Every node of the tree, itself first. */
  function Nodes(t: Node): seq<Node>
    decreases t
  {
    [t] + NodesIn(t.children)
  }

  function NodesIn(ts: seq<Node>): seq<Node>
    decreases ts
  {
    if ts == [] then [] else Nodes(ts[0]) + NodesIn(ts[1..])
  }

  /** Parent and child, by their ids. */
  function Edges(t: Node): set<(string, string)>
    decreases t
  {
    EdgesFrom(t.id, t.children)
  }

  function EdgesFrom(parent: string, ts: seq<Node>): set<(string, string)>
    decreases ts
  {
    if ts == [] then {} else {(parent, ts[0].id)} + Edges(ts[0]) + EdgesFrom(parent, ts[1..])
  }

  ghost predicate Unique(m: multiset<string>) { forall id :: m[id] <= 1 }

  lemma {:induction false} ContainsIffIn(t: Node, id: string)
    ensures SubtreeContains(t, id) <==> id in Ids(t)
    ensures Find(t, id).Some? <==> id in Ids(t)
    ensures Find(t, id).Some? ==> Find(t, id).value.id == id && Ids(Find(t, id).value) <= Ids(t)
    decreases t
  {
    ContainsIffAmong(t.children, id);
  }

  lemma {:induction false} ContainsIffAmong(ts: seq<Node>, id: string)
    ensures AnyContains(ts, id) <==> id in IdsIn(ts)
    ensures FindIn(ts, id).Some? <==> id in IdsIn(ts)
    ensures FindIn(ts, id).Some? ==> FindIn(ts, id).value.id == id && Ids(FindIn(ts, id).value) <= IdsIn(ts)
    decreases ts
  {
    if ts != [] {
      ContainsIffIn(ts[0], id);
      ContainsIffAmong(ts[1..], id);
    }
  }

  /** With repeated ids too: some node carrying the dragged id has the target in its
      subtree. */
  lemma {:induction false} AnySubtreeIffSomeNode(t: Node, dragged: string, target: string)
    ensures AnySubtreeContains(t, dragged, target) <==>
      exists n :: n in Nodes(t) && n.id == dragged && target in Ids(n)
    decreases t
  {
    ContainsIffIn(t, target);
    AnySubtreeIffSomeNodeIn(t.children, dragged, target);
    assert t in Nodes(t);
    assert forall n :: n in Nodes(t) <==> n == t || n in NodesIn(t.children);
  }

  lemma {:induction false} AnySubtreeIffSomeNodeIn(ts: seq<Node>, dragged: string, target: string)
    ensures AnySubtreeIn(ts, dragged, target) <==>
      exists n :: n in NodesIn(ts) && n.id == dragged && target in Ids(n)
    decreases ts
  {
    if ts != [] {
      AnySubtreeIffSomeNode(ts[0], dragged, target);
      AnySubtreeIffSomeNodeIn(ts[1..], dragged, target);
      assert forall n :: n in NodesIn(ts) <==> n in Nodes(ts[0]) || n in NodesIn(ts[1..]);
    }
  }

  /** An accepted target lies in no subtree rooted at any node with the dragged id, ids
      repeated or not. */
  lemma AcceptedTargetIsOutside(root: Node, dragged: string, target: string, n: Node)
    requires ResolveDropTarget(root, dragged, target).Accepted?
    requires n in Nodes(root) && n.id == dragged
    ensures target !in Ids(n)
  {
    AnySubtreeIffSomeNode(root, dragged, target);
  }

  // ---- performing the move ----

  function Without(t: Node, id: string): Node
    decreases t
  {
    t.(children := WithoutIn(t.children, id))
  }

  function WithoutIn(ts: seq<Node>, id: string): seq<Node>
    decreases ts
  {
    if ts == [] then []
    else if ts[0].id == id then WithoutIn(ts[1..], id)
    else [Without(ts[0], id)] + WithoutIn(ts[1..], id)
  }

  function Under(t: Node, parent: string, n: Node): Node
    decreases t
  {
    var children := UnderIn(t.children, parent, n);
    t.(children := if t.id == parent then children + [n] else children)
  }

  function UnderIn(ts: seq<Node>, parent: string, n: Node): seq<Node>
    decreases ts
  {
    if ts == [] then [] else [Under(ts[0], parent, n)] + UnderIn(ts[1..], parent, n)
  }

  /** What the engine does with an accepted drop; a new child comes last. */
  function Move(root: Node, dragged: string, target: string): Node {
    var found := Find(root, dragged);
    if found.None? then root else Under(Without(root, dragged), target, found.value)
  }

  lemma {:induction false} WithoutAbsent(t: Node, id: string)
    requires id !in IdsIn(t.children)
    ensures Without(t, id) == t
    decreases t
  {
    WithoutAbsentIn(t.children, id);
  }

  lemma {:induction false} WithoutAbsentIn(ts: seq<Node>, id: string)
    requires id !in IdsIn(ts)
    ensures WithoutIn(ts, id) == ts
    decreases ts
  {
    if ts != [] {
      assert id !in Ids(ts[0]);
      WithoutAbsent(ts[0], id);
      WithoutAbsentIn(ts[1..], id);
    }
  }

  lemma {:induction false} IdsAfterWithout(t: Node, id: string)
    requires Unique(Ids(t)) && t.id != id && Find(t, id).Some?
    ensures Ids(Without(t, id)) + Ids(Find(t, id).value) == Ids(t)
    decreases t
  {
    assert Unique(IdsIn(t.children)) by { LessIsUnique(IdsIn(t.children), Ids(t)); }
    IdsAfterWithoutIn(t.children, id);
  }

  lemma LessIsUnique(a: multiset<string>, b: multiset<string>)
    requires Unique(b) && a <= b
    ensures Unique(a)
  {}

  lemma {:induction false} IdsAfterWithoutIn(ts: seq<Node>, id: string)
    requires Unique(IdsIn(ts)) && FindIn(ts, id).Some?
    ensures IdsIn(WithoutIn(ts, id)) + Ids(FindIn(ts, id).value) == IdsIn(ts)
    decreases ts
  {
    ContainsIffIn(ts[0], id);
    ContainsIffAmong(ts[1..], id);
    LessIsUnique(Ids(ts[0]), IdsIn(ts));
    LessIsUnique(IdsIn(ts[1..]), IdsIn(ts));
    assert IdsIn(ts)[id] <= 1;
    if ts[0].id == id {
      WithoutAbsentIn(ts[1..], id);
    } else if Find(ts[0], id).Some? {
      IdsAfterWithout(ts[0], id);
      WithoutAbsentIn(ts[1..], id);
      assert WithoutIn(ts, id)[1..] == ts[1..];
    } else {
      WithoutAbsent(ts[0], id);
      IdsAfterWithoutIn(ts[1..], id);
      assert WithoutIn(ts, id)[1..] == WithoutIn(ts[1..], id);
    }
  }

  lemma {:induction false} UnderAbsent(ts: seq<Node>, parent: string, n: Node)
    requires parent !in IdsIn(ts)
    ensures UnderIn(ts, parent, n) == ts
    decreases ts
  {
    if ts != [] {
      assert parent !in Ids(ts[0]);
      UnderAbsent(ts[0].children, parent, n);
      UnderAbsent(ts[1..], parent, n);
    }
  }

  lemma {:induction false} IdsInConcat(a: seq<Node>, b: seq<Node>)
    ensures IdsIn(a + b) == IdsIn(a) + IdsIn(b)
    decreases |a|
  {
    if a == [] {
      assert a + b == b;
    } else {
      assert (a + b)[1..] == a[1..] + b;
      IdsInConcat(a[1..], b);
    }
  }

  lemma {:induction false} IdsAfterUnder(t: Node, parent: string, n: Node)
    requires Unique(Ids(t))
    ensures Ids(Under(t, parent, n)) == if parent in Ids(t) then Ids(t) + Ids(n) else Ids(t)
    decreases t
  {
    LessIsUnique(IdsIn(t.children), Ids(t));
    IdsAfterUnderIn(t.children, parent, n);
    if t.id == parent {
      assert Ids(t)[parent] <= 1;
      UnderAbsent(t.children, parent, n);
      IdsInConcat(t.children, [n]);
    }
  }

  lemma {:induction false} IdsAfterUnderIn(ts: seq<Node>, parent: string, n: Node)
    requires Unique(IdsIn(ts))
    ensures IdsIn(UnderIn(ts, parent, n)) == if parent in IdsIn(ts) then IdsIn(ts) + Ids(n) else IdsIn(ts)
    decreases ts
  {
    if ts != [] {
      assert IdsIn(ts)[parent] <= 1;
      LessIsUnique(Ids(ts[0]), IdsIn(ts));
      LessIsUnique(IdsIn(ts[1..]), IdsIn(ts));
      IdsAfterUnder(ts[0], parent, n);
      IdsAfterUnderIn(ts[1..], parent, n);
      assert UnderIn(ts, parent, n)[1..] == UnderIn(ts[1..], parent, n);
    }
  }

  /** A move loses no node exactly if the target lies outside the dragged subtree: inside
      it, the subtree would hang on itself and be cut off from the root. */
  lemma MoveKeepsIdsIffOutside(root: Node, dragged: string, target: string)
    requires Unique(Ids(root)) && dragged != root.id && dragged in Ids(root) && target in Ids(root)
    ensures
      var n := Find(root, dragged);
      n.Some? && (Ids(Move(root, dragged, target)) == Ids(root) <==> target !in Ids(n.value))
  {
    ContainsIffIn(root, dragged);
    var n := Find(root, dragged).value;
    IdsAfterWithout(root, dragged);
    var rest := Without(root, dragged);
    assert Ids(rest) <= Ids(root);
    LessIsUnique(Ids(rest), Ids(root));
    IdsAfterUnder(rest, target, n);
    assert Ids(root)[target] == Ids(rest)[target] + Ids(n)[target] <= 1;
    assert n.id == dragged && Ids(n)[dragged] > 0;
    assert Ids(root)[dragged] == Ids(rest)[dragged] + Ids(n)[dragged];
  }

  // ---- parents ----

  lemma {:induction false} EdgesAmongIds(t: Node)
    ensures forall e :: e in Edges(t) ==> e.0 in Ids(t) && e.1 in IdsIn(t.children)
    decreases t
  {
    EdgesAmongIdsFrom(t.id, t.children);
  }

  lemma {:induction false} EdgesAmongIdsFrom(parent: string, ts: seq<Node>)
    ensures forall e :: e in EdgesFrom(parent, ts) ==> (e.0 == parent || e.0 in IdsIn(ts)) && e.1 in IdsIn(ts)
    decreases ts
  {
    if ts != [] {
      EdgesAmongIds(ts[0]);
      EdgesAmongIdsFrom(parent, ts[1..]);
    }
  }

  /** With unique ids the parent found is the one edge that leads to the node. */
  lemma {:induction false} ParentIsTheEdge(t: Node, id: string, p: string)
    requires Unique(Ids(t)) && id != t.id
    ensures FindParentId(t, id) == Some(p) <==> (p, id) in Edges(t)
    decreases t, 1
  {
    LessIsUnique(IdsIn(t.children), Ids(t));
    assert Ids(t)[t.id] <= 1;
    ParentAmongIsTheEdge(t.children, t.id, id, p);
  }

  lemma {:induction false} ParentAmongIsTheEdge(ts: seq<Node>, parent: string, id: string, p: string)
    requires Unique(IdsIn(ts)) && parent !in IdsIn(ts)
    ensures ParentAmong(ts, parent, id) == Some(p) <==> (p, id) in EdgesFrom(parent, ts)
    ensures ParentAmong(ts, parent, id).Some? <==> id in IdsIn(ts)
    decreases ts
  {
    if ts != [] {
      var t := ts[0];
      assert IdsIn(ts) == Ids(t) + IdsIn(ts[1..]);
      assert IdsIn(ts)[id] <= 1;
      LessIsUnique(Ids(t), IdsIn(ts));
      LessIsUnique(IdsIn(t.children), Ids(t));
      LessIsUnique(IdsIn(ts[1..]), IdsIn(ts));
      EdgesAmongIds(t);
      EdgesAmongIdsFrom(parent, ts[1..]);
      ParentAmongIsTheEdge(ts[1..], parent, id, p);
      assert Ids(t)[t.id] <= 1;
      if t.id != id {
        ParentAmongIsTheEdge(t.children, t.id, id, p);
      }
    }
  }

  lemma {:induction false} EdgesFromConcat(parent: string, a: seq<Node>, b: seq<Node>)
    ensures EdgesFrom(parent, a + b) == EdgesFrom(parent, a) + EdgesFrom(parent, b)
    decreases |a|
  {
    if a == [] {
      assert a + b == b;
    } else {
      assert (a + b)[1..] == a[1..] + b;
      EdgesFromConcat(parent, a[1..], b);
    }
  }

  lemma {:induction false} EdgesAfterUnder(t: Node, parent: string, n: Node)
    requires Unique(Ids(t)) && parent in Ids(t)
    ensures Edges(Under(t, parent, n)) == Edges(t) + {(parent, n.id)} + Edges(n)
    decreases t
  {
    LessIsUnique(IdsIn(t.children), Ids(t));
    if t.id == parent {
      assert Ids(t)[parent] <= 1;
      UnderAbsent(t.children, parent, n);
      EdgesFromConcat(parent, t.children, [n]);
      assert EdgesFrom(parent, [n]) == {(parent, n.id)} + Edges(n) + EdgesFrom(parent, [n][1..]);
    } else {
      EdgesAfterUnderIn(t.id, t.children, parent, n);
    }
  }

  lemma {:induction false} EdgesAfterUnderIn(p: string, ts: seq<Node>, parent: string, n: Node)
    requires Unique(IdsIn(ts)) && parent in IdsIn(ts)
    ensures EdgesFrom(p, UnderIn(ts, parent, n)) == EdgesFrom(p, ts) + {(parent, n.id)} + Edges(n)
    decreases ts
  {
    assert IdsIn(ts)[parent] <= 1;
    LessIsUnique(Ids(ts[0]), IdsIn(ts));
    LessIsUnique(IdsIn(ts[1..]), IdsIn(ts));
    assert UnderIn(ts, parent, n)[1..] == UnderIn(ts[1..], parent, n);
    if parent in Ids(ts[0]) {
      EdgesAfterUnder(ts[0], parent, n);
      UnderAbsent(ts[1..], parent, n);
    } else {
      UnderAbsent([ts[0]], parent, n);
      EdgesAfterUnderIn(p, ts[1..], parent, n);
    }
  }

  lemma {:induction false} EdgesAfterWithout(t: Node, id: string, p: string)
    requires Unique(Ids(t)) && t.id != id && FindParentId(t, id) == Some(p) && Find(t, id).Some?
    ensures Edges(Without(t, id)) + {(p, id)} + Edges(Find(t, id).value) == Edges(t)
    decreases t
  {
    LessIsUnique(IdsIn(t.children), Ids(t));
    assert Ids(t)[t.id] <= 1;
    EdgesAfterWithoutIn(t.id, t.children, id, p);
  }

  lemma {:induction false} EdgesAfterWithoutIn(parent: string, ts: seq<Node>, id: string, p: string)
    requires Unique(IdsIn(ts)) && parent !in IdsIn(ts)
    requires ParentAmong(ts, parent, id) == Some(p) && FindIn(ts, id).Some?
    ensures EdgesFrom(parent, WithoutIn(ts, id)) + {(p, id)} + Edges(FindIn(ts, id).value) == EdgesFrom(parent, ts)
    decreases ts
  {
    hide Unique, Without, FindParentId, Find, Edges, Ids;
    var t := ts[0];
    IdAtMostOnce(ts, id);
    ContainsIffIn(t, id);
    if t.id == id {
      WithoutAbsentIn(ts[1..], id);
      FoundAtRoot(t);
    } else if id in Ids(t) {
      ParentInside(t, id);
      EdgesAfterWithout(t, id, p);
      WithoutAbsentIn(ts[1..], id);
      WithoutKeepsId(t, id);
      EdgesOfCons(parent, Without(t, id), ts[1..]);
    } else {
      ParentInside(t, id);
      AbsentBelow(t, id);
      WithoutAbsent(t, id);
      EdgesAfterWithoutIn(parent, ts[1..], id, p);
      EdgesOfCons(parent, t, WithoutIn(ts[1..], id));
    }
  }

  lemma FoundAtRoot(t: Node)
    ensures Find(t, t.id) == Some(t)
  {}

  lemma AbsentBelow(t: Node, id: string)
    requires id !in Ids(t)
    ensures id !in IdsIn(t.children)
  {}

  lemma WithoutKeepsId(t: Node, id: string)
    ensures Without(t, id).id == t.id
  {}

  lemma EdgesOfCons(parent: string, t: Node, ts: seq<Node>)
    ensures EdgesFrom(parent, [t] + ts) == {(parent, t.id)} + Edges(t) + EdgesFrom(parent, ts)
  {
    assert ([t] + ts)[1..] == ts;
  }

  lemma IdAtMostOnce(ts: seq<Node>, id: string)
    requires ts != [] && Unique(IdsIn(ts))
    ensures id in Ids(ts[0]) ==> id !in IdsIn(ts[1..])
    ensures Unique(Ids(ts[0])) && Unique(IdsIn(ts[1..])) && ts[0].id in Ids(ts[0])
  {
    assert IdsIn(ts) == Ids(ts[0]) + IdsIn(ts[1..]);
    assert IdsIn(ts)[id] <= 1;
    LessIsUnique(Ids(ts[0]), IdsIn(ts));
    LessIsUnique(IdsIn(ts[1..]), IdsIn(ts));
  }

  lemma ParentInside(t: Node, id: string)
    requires Unique(Ids(t)) && id != t.id
    ensures FindParentId(t, id).Some? <==> id in Ids(t)
  {
    LessIsUnique(IdsIn(t.children), Ids(t));
    assert Ids(t)[t.id] <= 1;
    ParentAmongIsTheEdge(t.children, t.id, id, t.id);
  }

  // ---- what acceptance means ----

  /** With unique ids a drop is accepted exactly if both nodes exist, the dragged one is not
      the root, the target is outside its subtree and not its parent already. */
  lemma AcceptedIff(root: Node, dragged: string, target: string)
    requires Unique(Ids(root))
    ensures
      ResolveDropTarget(root, dragged, target).Accepted? <==>
        && dragged != root.id && dragged in Ids(root) && target in Ids(root)
        && Find(root, dragged).Some? && target !in Ids(Find(root, dragged).value)
        && (target, dragged) !in Edges(root)
  {
    ContainsIffIn(root, dragged);
    ContainsIffIn(root, target);
    if dragged != root.id && dragged in Ids(root) {
      OnlyNodeWithId(root, dragged, target);
      ParentIsTheEdge(root, dragged, target);
      ParentIsTheEdge(root, dragged, root.id);
      ParentInside(root, dragged);
    }
  }

  lemma {:induction false} OnlyNodeWithId(t: Node, id: string, target: string)
    requires Unique(Ids(t)) && id in Ids(t)
    ensures Find(t, id).Some? && (AnySubtreeContains(t, id, target) <==> target in Ids(Find(t, id).value))
    decreases t
  {
    LessIsUnique(IdsIn(t.children), Ids(t));
    ContainsIffIn(t, target);
    assert Ids(t)[id] <= 1;
    if t.id == id {
      NoOtherNode(t.children, id, target);
    } else {
      OnlyNodeAmong(t.children, id, target);
    }
  }

  lemma {:induction false} OnlyNodeAmong(ts: seq<Node>, id: string, target: string)
    requires Unique(IdsIn(ts)) && id in IdsIn(ts)
    ensures FindIn(ts, id).Some? && (AnySubtreeIn(ts, id, target) <==> target in Ids(FindIn(ts, id).value))
    decreases ts
  {
    LessIsUnique(Ids(ts[0]), IdsIn(ts));
    LessIsUnique(IdsIn(ts[1..]), IdsIn(ts));
    assert IdsIn(ts)[id] <= 1;
    ContainsIffIn(ts[0], id);
    if id in Ids(ts[0]) {
      OnlyNodeWithId(ts[0], id, target);
      NoOtherNode(ts[1..], id, target);
    } else {
      NoOtherNode([ts[0]], id, target);
      OnlyNodeAmong(ts[1..], id, target);
    }
  }

  lemma {:induction false} NoOtherNode(ts: seq<Node>, id: string, target: string)
    requires id !in IdsIn(ts)
    ensures !AnySubtreeIn(ts, id, target)
    decreases ts
  {
    if ts != [] {
      assert id !in Ids(ts[0]);
      NoOtherNode(ts[0].children, id, target);
      NoOtherNode(ts[1..], id, target);
    }
  }

  /** Performing an accepted move keeps every id, so no node is cut off and none is its own
      ancestor; it changes the dragged node's parent to the target and no other parent. */
  lemma AcceptedMoveChangesOneParent(root: Node, dragged: string, target: string)
    requires Unique(Ids(root)) && ResolveDropTarget(root, dragged, target).Accepted?
    ensures Ids(Move(root, dragged, target)) == Ids(root)
    ensures
      var p := FindParentId(root, dragged);
      && p.Some? && p != Some(target)
      && Edges(Move(root, dragged, target)) == Edges(root) - {(p.value, dragged)} + {(target, dragged)}
    ensures FindParentId(Move(root, dragged, target), dragged) == Some(target)
  {
    AcceptedIff(root, dragged, target);
    MoveKeepsIdsIffOutside(root, dragged, target);
    ParentInside(root, dragged);
    var p := FindParentId(root, dragged).value;
    ParentIsTheEdge(root, dragged, p);
    var n := Find(root, dragged).value;
    var rest := Without(root, dragged);
    ContainsIffIn(root, dragged);
    IdsAfterWithout(root, dragged);
    LessIsUnique(Ids(rest), Ids(root));
    assert Ids(root)[dragged] == Ids(rest)[dragged] + Ids(n)[dragged] <= 1;
    assert Ids(root)[target] == Ids(rest)[target] + Ids(n)[target];
    EdgesAfterWithout(root, dragged, p);
    EdgesAfterUnder(rest, target, n);
    NotAmongEdges(rest, n, p);
    ParentIsTheEdge(Move(root, dragged, target), dragged, target);
  }

  lemma NotAmongEdges(rest: Node, n: Node, p: string)
    requires n.id !in Ids(rest) && Ids(n)[n.id] <= 1
    ensures (p, n.id) !in Edges(rest) && (p, n.id) !in Edges(n)
  {
    EdgesAmongIds(rest);
    EdgesAmongIds(n);
  }
}
