/** The part of the arena a `get_set_vars` walk visits (parsing.py:169-188,
    360-371).  From a scope the walk goes into the flows among its statements;
    from a flow it also goes on to the continuation (`next`).  Subscopes are
    only named, never entered.  Because every node but the top is referred to
    exactly once, walks that start at different flows of one scope, or at a
    scope and one of its subscopes, visit disjoint parts of the arena. */
module Walks {
  import opened Nodes
  import opened ScopeTree

  /** The nodes the walk of node `i` visits: `i`, the walks of the flows among
      its statements, and for a flow the walk of its continuation.  All of
      them lie at or after `i`; from a flow, all of them are flows. */
  function Reach(nodes: seq<Node>, i: Id): (r: set<Id>)
    requires WF(nodes) && i < |nodes|
    ensures i in r
    ensures forall j :: j in r ==> i <= j < |nodes|
    ensures nodes[i].kind.FlowScope? ==> forall j :: j in r ==> nodes[j].kind.FlowScope?
    decreases |nodes| - i, 1
  {
    assert NodeOk(nodes, i);
    var k := nodes[i].kind;
    {i} + ReachList(nodes, i, nodes[i].statements)
      + (if k.FlowScope? && k.next.Some? then Reach(nodes, k.next.value) else {})
  }

  /** The nodes the walks of the flows among `chs`, statements of `s`, visit:
      all of them flows after `s`. */
  function ReachList(nodes: seq<Node>, s: Id, chs: seq<Child>): (r: set<Id>)
    requires WF(nodes) && s < |nodes|
    requires forall k :: 0 <= k < |chs| ==> ChildOk(nodes, s, chs[k])
    ensures forall j :: j in r ==> s < j < |nodes| && nodes[j].kind.FlowScope?
    decreases |nodes| - s, 0, |chs|
  {
    if chs == [] then {}
    else
      assert ChildOk(nodes, s, chs[0]);
      (if chs[0].FlowChild? then Reach(nodes, chs[0].flow) else {}) + ReachList(nodes, s, chs[1..])
  }

  /** What the statement loop of `Scope.get_set_vars` on `s` visits. */
  function BodyReach(nodes: seq<Node>, s: Id): (r: set<Id>)
    requires WF(nodes) && s < |nodes|
    ensures forall j :: j in r ==> s < j < |nodes| && nodes[j].kind.FlowScope?
  {
    assert NodeOk(nodes, s);
    ReachList(nodes, s, nodes[s].statements)
  }

  /** The flow whose walk visits a node of a statement list's walk. */
  lemma {:induction false} ReachListMember(nodes: seq<Node>, s: Id, chs: seq<Child>, j: Id) returns (k: nat)
    requires WF(nodes) && s < |nodes|
    requires forall k :: 0 <= k < |chs| ==> ChildOk(nodes, s, chs[k])
    requires j in ReachList(nodes, s, chs)
    ensures k < |chs| && chs[k].FlowChild? && ChildOk(nodes, s, chs[k]) && j in Reach(nodes, chs[k].flow)
    decreases |chs|
  {
    assert ChildOk(nodes, s, chs[0]);
    if chs[0].FlowChild? && j in Reach(nodes, chs[0].flow) {
      k := 0;
    } else {
      var k' := ReachListMember(nodes, s, chs[1..], j);
      assert chs[1..][k'] == chs[k' + 1];
      k := k' + 1;
    }
  }

  /** The walks depend only on the shapes of the nodes, never on the loop
      targets the walks themselves change. */
  lemma {:induction false} ReachShapes(a: seq<Node>, b: seq<Node>, i: Id)
    requires WF(a) && WF(b) && SameShapes(a, b) && i < |a|
    ensures Reach(b, i) == Reach(a, i)
    decreases |a| - i, 1
  {
    assert NodeOk(a, i) && NodeOk(b, i) && Shape(b[i]) == Shape(a[i]);
    ReachListShapes(a, b, i, a[i].statements);
    var k := a[i].kind;
    if k.FlowScope? && k.next.Some? {
      ReachShapes(a, b, k.next.value);
    }
  }

  lemma {:induction false} ReachListShapes(a: seq<Node>, b: seq<Node>, s: Id, chs: seq<Child>)
    requires WF(a) && WF(b) && SameShapes(a, b) && s < |a|
    requires forall k :: 0 <= k < |chs| ==> ChildOk(a, s, chs[k]) && ChildOk(b, s, chs[k])
    ensures ReachList(b, s, chs) == ReachList(a, s, chs)
    decreases |a| - s, 0, |chs|
  {
    if chs != [] {
      assert ChildOk(a, s, chs[0]);
      if chs[0].FlowChild? {
        ReachShapes(a, b, chs[0].flow);
      }
      ReachListShapes(a, b, s, chs[1..]);
    }
  }

  lemma BodyReachShapes(a: seq<Node>, b: seq<Node>, s: Id)
    requires WF(a) && WF(b) && SameShapes(a, b) && s < |a|
    ensures BodyReach(b, s) == BodyReach(a, s)
  {
    assert NodeOk(a, s) && NodeOk(b, s) && Shape(b[s]) == Shape(a[s]);
    ReachListShapes(a, b, s, a[s].statements);
  }

  /** A node refers only to nodes after it. */
  lemma RefsAbove(nodes: seq<Node>, p: nat, j: Id)
    requires WF(nodes) && p < |nodes| && Refs(nodes[p], j) > 0
    ensures p < j < |nodes|
  {
    assert NodeOk(nodes, p);
    var n := nodes[p];
    if j in n.subscopes {
      var k :| 0 <= k < |n.subscopes| && n.subscopes[k] == j;
      assert SubOk(nodes, p, n.subscopes[k]);
    } else if FlowChild(j) in n.statements {
      var k :| 0 <= k < |n.statements| && n.statements[k] == FlowChild(j);
      assert ChildOk(nodes, p, n.statements[k]);
    }
  }

  /** A node other than the top has one referrer, which refers to it once. */
  lemma OneReferrer(nodes: seq<Node>, j: Id, p: nat, q: nat)
    requires WF(nodes) && 0 < j < |nodes| && p < |nodes| && q < |nodes|
    requires Refs(nodes[p], j) > 0 && Refs(nodes[q], j) > 0
    ensures p == q && Refs(nodes[p], j) == 1
  {
    var r := AttachedReferrer(nodes, j);
  }

  /** Every node a walk visits, other than where it starts, is referred to by
      a node the walk visits before it. */
  lemma {:induction false} ReachReferrer(nodes: seq<Node>, i: Id, j: Id) returns (p: nat)
    requires WF(nodes) && i < |nodes| && j in Reach(nodes, i) && j != i
    ensures p in Reach(nodes, i) && p < j && Refs(nodes[p], j) > 0
    decreases |nodes| - i, 1
  {
    assert NodeOk(nodes, i);
    var k := nodes[i].kind;
    var chs := nodes[i].statements;
    if j in ReachList(nodes, i, chs) {
      p := ReachListReferrer(nodes, i, chs, j);
    } else {
      var nx := k.next.value;
      assert NextOk(nodes, i, nx);
      if j == nx {
        p := i;
      } else {
        p := ReachReferrer(nodes, nx, j);
      }
    }
  }

  lemma {:induction false} ReachListReferrer(nodes: seq<Node>, s: Id, chs: seq<Child>, j: Id) returns (p: nat)
    requires WF(nodes) && s < |nodes|
    requires forall k :: 0 <= k < |chs| ==> ChildOk(nodes, s, chs[k]) && chs[k] in nodes[s].statements
    requires j in ReachList(nodes, s, chs)
    ensures p == s || p in ReachList(nodes, s, chs)
    ensures p < j && Refs(nodes[p], j) > 0
    decreases |nodes| - s, 0, |chs|
  {
    assert ChildOk(nodes, s, chs[0]) && chs[0] in nodes[s].statements;
    if chs[0].FlowChild? && j in Reach(nodes, chs[0].flow) {
      var c := chs[0].flow;
      if j == c {
        assert FlowChild(c) in multiset(nodes[s].statements);
        p := s;
      } else {
        p := ReachReferrer(nodes, c, j);
      }
    } else {
      p := ReachListReferrer(nodes, s, chs[1..], j);
    }
  }

  /** A walk that does not visit `p` does not visit what `p` refers to either,
      unless it starts there. */
  lemma NotReachedFrom(nodes: seq<Node>, p: nat, x: Id, y: Id)
    requires WF(nodes) && p < |nodes| && y < |nodes| && Refs(nodes[p], x) > 0
    requires x != y && p !in Reach(nodes, y)
    ensures x !in Reach(nodes, y)
  {
    RefsAbove(nodes, p, x);
    if x in Reach(nodes, y) {
      var q := ReachReferrer(nodes, y, x);
      OneReferrer(nodes, x, p, q);
      assert false;
    }
  }

  /** Two walks, neither of which visits where the other starts, are disjoint. */
  lemma {:induction false} ReachApart(nodes: seq<Node>, x: Id, y: Id, j: Id)
    requires WF(nodes) && x < |nodes| && y < |nodes|
    requires x !in Reach(nodes, y) && y !in Reach(nodes, x)
    ensures !(j in Reach(nodes, x) && j in Reach(nodes, y))
    decreases j
  {
    if j in Reach(nodes, x) && j in Reach(nodes, y) {
      var p := ReachReferrer(nodes, x, j);
      var q := ReachReferrer(nodes, y, j);
      OneReferrer(nodes, j, p, q);
      ReachApart(nodes, x, y, p);
      assert false;
    }
  }

  /** The walks of a scope's flows `chs` never visit the walk of another node
      `y` the same scope refers to. */
  lemma {:induction false} ReachListApart(nodes: seq<Node>, s: Id, chs: seq<Child>, y: Id)
    requires WF(nodes) && s < |nodes| && y < |nodes|
    requires forall k :: 0 <= k < |chs| ==> ChildOk(nodes, s, chs[k]) && chs[k] in nodes[s].statements
    requires Refs(nodes[s], y) > 0 && FlowChild(y) !in chs
    ensures forall j :: j in ReachList(nodes, s, chs) ==> j !in Reach(nodes, y)
    decreases |chs|
  {
    if chs != [] {
      ReachListApart(nodes, s, chs[1..], y);
      assert ChildOk(nodes, s, chs[0]) && chs[0] in nodes[s].statements;
      if chs[0].FlowChild? {
        var c := chs[0].flow;
        assert FlowChild(c) in multiset(nodes[s].statements);
        RefsAbove(nodes, s, y);
        NotReachedFrom(nodes, s, c, y);
        NotReachedFrom(nodes, s, y, c);
        forall j | j in Reach(nodes, c) ensures j !in Reach(nodes, y) {
          ReachApart(nodes, c, y, j);
        }
      }
    }
  }

  /** The walk of a scope's statements and that of one of its subscopes are
      disjoint. */
  lemma BodiesApart(nodes: seq<Node>, c: Id, s: Id)
    requires WF(nodes) && c < |nodes| && SubOk(nodes, c, s)
    ensures forall j :: j in BodyReach(nodes, s) ==> j !in BodyReach(nodes, c)
  {
    assert NodeOk(nodes, c) && NodeOk(nodes, s);
    forall j | j in BodyReach(nodes, s) ensures j !in BodyReach(nodes, c) {
      var kx := ReachListMember(nodes, s, nodes[s].statements, j);
      var cx := nodes[s].statements[kx].flow;
      assert FlowChild(cx) in multiset(nodes[s].statements);
      if j in BodyReach(nodes, c) {
        var ky := ReachListMember(nodes, c, nodes[c].statements, j);
        var cy := nodes[c].statements[ky].flow;
        assert FlowChild(cy) in multiset(nodes[c].statements);
        if cx == cy {
          OneReferrer(nodes, cx, s, c);
        }
        NotReachedFrom(nodes, s, cx, cy);
        NotReachedFrom(nodes, c, cy, cx);
        ReachApart(nodes, cx, cy, j);
        assert false;
      }
    }
  }

  /** No flow is listed twice among a scope's statements. */
  lemma FlowListedOnce(nodes: seq<Node>, s: Id, k: nat, m: nat)
    requires WF(nodes) && s < |nodes| && k < m < |nodes[s].statements|
    requires nodes[s].statements[k].FlowChild?
    ensures nodes[s].statements[m] != nodes[s].statements[k]
  {
    var chs := nodes[s].statements;
    var x := chs[k];
    assert NodeOk(nodes, s) && ChildOk(nodes, s, x);
    if chs[m] == x {
      assert chs == chs[..m] + chs[m..];
      assert x in chs[..m] && x in chs[m..];
      assert multiset(chs)[x] == multiset(chs[..m])[x] + multiset(chs[m..])[x];
      OneReferrer(nodes, x.flow, s, s);
      assert false;
    }
  }
}
