/** The scope tree as an arena: `seq<Node>` indexed by Id, node 0 the top
    scope.  Parents and children refer to each other by index; every child has
    a larger index than the scope that holds it, so every walk down the tree or
    along a `next` chain, and every walk up through `parent`, terminates.
    The functions here say what each mutating method of Scope and Flow
    (parsing.py:87-139, 373-380) does to the arena. */
module ScopeTree {
  import opened Basics
  import opened Nodes

  /** Class and Function scopes: the ones `add_scope` attaches. */
  predicate IsDef(k: Kind) {
    k.ClassScope? || k.FunctionScope?
  }

  /** What a reference to a node requires of it: its parent and its kind. */
  function Header(n: Node): (Option<Id>, nat) {
    (n.parent, match n.kind
               case PlainScope => 0
               case ClassScope(_, _, _) => 1
               case FunctionScope(_, _, _) => 2
               case FlowScope(_, _, _, _) => 3)
  }

  /** A node without the loop targets a Flow accumulates; everything the
      well-formedness of the tree depends on. */
  function Shape(n: Node): Node {
    if n.kind.FlowScope? then n.(kind := n.kind.(setVars := [])) else n
  }

  predicate SubOk(nodes: seq<Node>, i: nat, c: Id) {
    i < c < |nodes| && nodes[c].parent == Some(i) && IsDef(nodes[c].kind)
  }

  predicate ChildOk(nodes: seq<Node>, i: nat, ch: Child) {
    ch.FlowChild? ==>
      i < ch.flow < |nodes| && nodes[ch.flow].parent == Some(i) && nodes[ch.flow].kind.FlowScope?
  }

  /** A continuation shares the parent of the flow it continues. */
  predicate NextOk(nodes: seq<Node>, i: nat, j: Id)
    requires i < |nodes|
  {
    i < j < |nodes| && nodes[j].kind.FlowScope? && nodes[j].parent == nodes[i].parent
  }

  predicate NodeOk(nodes: seq<Node>, i: nat)
    requires i < |nodes|
  {
    var n := nodes[i];
    (i == 0 <==> n.kind.PlainScope?)
    && (i == 0 ==> n.parent == None)
    && (i > 0 ==> n.parent.Some? && n.parent.value < i)
    && (forall k :: 0 <= k < |n.subscopes| ==> SubOk(nodes, i, n.subscopes[k]))
    && (forall k :: 0 <= k < |n.statements| ==> ChildOk(nodes, i, n.statements[k]))
    && (forall k :: 0 <= k < |n.imports| ==> WellShaped(n.imports[k]))
    && (n.kind.FlowScope? && n.kind.next.Some? ==> NextOk(nodes, i, n.kind.next.value))
  }

  /** How many times node `n` refers to index `i`: as a subscope, as a flow
      among its statements, and as its continuation. */
  function Refs(n: Node, i: Id): nat {
    multiset(n.subscopes)[i] + multiset(n.statements)[FlowChild(i)]
    + (if n.kind.FlowScope? && n.kind.next == Some(i) then 1 else 0)
  }

  /** How many times the nodes of `nodes` together refer to index `i`. */
  function Mentions(nodes: seq<Node>, i: Id): nat
    decreases |nodes|
  {
    if nodes == [] then 0 else Mentions(nodes[..|nodes| - 1], i) + Refs(nodes[|nodes| - 1], i)
  }

  /** Every node other than the top scope is referred to exactly once in the
      whole arena: listed once by its parent as a subscope or a flow, or, for
      a continuation, the `next` of one flow (parsing.py:87-101, 373-380). */
  predicate Attached(nodes: seq<Node>) {
    forall i :: 0 < i < |nodes| ==> Mentions(nodes, i) == 1
  }

  /** The arena invariant: a top scope at 0, parents before children, every
      child reference answered by the child's parent link, every import
      naming something (a namespace, or a star), and every node attached
      exactly once. */
  predicate WF(nodes: seq<Node>) {
    |nodes| > 0 && (forall i :: 0 <= i < |nodes| ==> NodeOk(nodes, i)) && Attached(nodes)
  }

  lemma {:induction false} MentionsAppend(nodes: seq<Node>, x: Node, i: Id)
    ensures Mentions(nodes + [x], i) == Mentions(nodes, i) + Refs(x, i)
  {
    assert (nodes + [x])[..|nodes|] == nodes;
  }

  /** Replacing one node changes the count by what that node refers to. */
  lemma {:induction false} MentionsUpdate(nodes: seq<Node>, s: Id, n: Node, i: Id)
    requires s < |nodes|
    ensures Mentions(nodes[s := n], i) + Refs(nodes[s], i) == Mentions(nodes, i) + Refs(n, i)
    decreases |nodes|
  {
    var m := |nodes| - 1;
    if s == m {
      assert nodes[s := n][..m] == nodes[..m];
    } else {
      assert nodes[s := n][..m] == nodes[..m][s := n];
      MentionsUpdate(nodes[..m], s, n, i);
    }
  }

  /** Two arenas whose nodes refer to `i` equally often mention it equally. */
  lemma {:induction false} MentionsSame(nodes: seq<Node>, nodes': seq<Node>, i: Id)
    requires |nodes'| == |nodes|
    requires forall p :: 0 <= p < |nodes| ==> Refs(nodes'[p], i) == Refs(nodes[p], i)
    ensures Mentions(nodes', i) == Mentions(nodes, i)
    decreases |nodes|
  {
    if nodes != [] {
      var m := |nodes| - 1;
      MentionsSame(nodes[..m], nodes'[..m], i);
    }
  }

  lemma RefsAddSub(n: Node, id: Id, i: Id)
    ensures Refs(n.(subscopes := n.subscopes + [id]), i) == Refs(n, i) + (if i == id then 1 else 0)
  {
    assert multiset(n.subscopes + [id]) == multiset(n.subscopes) + multiset{id};
  }

  lemma RefsAddStatement(n: Node, ch: Child, i: Id)
    ensures Refs(n.(statements := n.statements + [ch]), i) == Refs(n, i) + (if ch == FlowChild(i) then 1 else 0)
  {
    assert multiset(n.statements + [ch]) == multiset(n.statements) + multiset{ch};
  }

  lemma RefsDetached(n: Node, i: Id)
    requires Detached(n)
    ensures Refs(n, i) == 0
  {
  }

  /** A node refers to no index at or past the end of the arena. */
  lemma RefsNone(nodes: seq<Node>, p: nat, i: Id)
    requires p < |nodes| && NodeOk(nodes, p) && i >= |nodes|
    ensures Refs(nodes[p], i) == 0
  {
    var n := nodes[p];
    forall k | 0 <= k < |n.subscopes| ensures n.subscopes[k] != i {
      assert SubOk(nodes, p, n.subscopes[k]);
    }
    forall k | 0 <= k < |n.statements| ensures n.statements[k] != FlowChild(i) {
      assert ChildOk(nodes, p, n.statements[k]);
    }
  }

  /** Nothing in the arena refers to an index past its end. */
  lemma {:induction false} MentionsNone(nodes: seq<Node>, m: nat, i: Id)
    requires m <= |nodes| && i >= |nodes|
    requires forall p :: 0 <= p < |nodes| ==> NodeOk(nodes, p)
    ensures Mentions(nodes[..m], i) == 0
    decreases m
  {
    if m > 0 {
      assert nodes[..m][..m - 1] == nodes[..m - 1];
      MentionsNone(nodes, m - 1, i);
      RefsNone(nodes, m - 1, i);
    }
  }

  /** If nothing is mentioned, no node refers to it. */
  lemma {:induction false} MentionsZero(nodes: seq<Node>, i: Id)
    requires Mentions(nodes, i) == 0
    ensures forall q :: 0 <= q < |nodes| ==> Refs(nodes[q], i) == 0
    decreases |nodes|
  {
    if nodes != [] {
      var m := |nodes| - 1;
      MentionsZero(nodes[..m], i);
      assert forall q :: 0 <= q < m ==> nodes[..m][q] == nodes[q];
    }
  }

  /** What is mentioned once is referred to by exactly one node, once. */
  lemma {:induction false} MentionsOne(nodes: seq<Node>, i: Id) returns (p: nat)
    requires Mentions(nodes, i) == 1
    ensures p < |nodes| && Refs(nodes[p], i) == 1
    ensures forall q :: 0 <= q < |nodes| && q != p ==> Refs(nodes[q], i) == 0
    decreases |nodes|
  {
    var m := |nodes| - 1;
    assert forall q :: 0 <= q < m ==> nodes[..m][q] == nodes[q];
    if Refs(nodes[m], i) == 1 {
      MentionsZero(nodes[..m], i);
      p := m;
    } else {
      p := MentionsOne(nodes[..m], i);
    }
  }

  /** The meaning of `Attached`: every node but the top has exactly one
      referrer, which refers to it once; the referrer is its parent, listing
      it as a subscope or a flow, or a flow whose continuation it is. */
  lemma AttachedReferrer(nodes: seq<Node>, i: Id) returns (p: nat)
    requires WF(nodes) && 0 < i < |nodes|
    ensures p < |nodes| && Refs(nodes[p], i) == 1
    ensures forall q :: 0 <= q < |nodes| && q != p ==> Refs(nodes[q], i) == 0
    ensures (nodes[i].parent == Some(p) && (i in nodes[p].subscopes || FlowChild(i) in nodes[p].statements))
            || (nodes[p].kind.FlowScope? && nodes[p].kind.next == Some(i))
  {
    p := MentionsOne(nodes, i);
    var n := nodes[p];
    assert NodeOk(nodes, p);
    if i in n.subscopes {
      var k :| 0 <= k < |n.subscopes| && n.subscopes[k] == i;
      assert SubOk(nodes, p, n.subscopes[k]);
    } else if FlowChild(i) in n.statements {
      var k :| 0 <= k < |n.statements| && n.statements[k] == FlowChild(i);
      assert ChildOk(nodes, p, n.statements[k]);
    }
  }

  /** A node that is not attached yet and holds no children. */
  predicate Detached(n: Node) {
    n.subscopes == [] && n.statements == [] && n.imports == []
    && (n.kind.FlowScope? ==> n.kind.next == None)
  }

  predicate HeadersKept(nodes: seq<Node>, nodes': seq<Node>) {
    |nodes| <= |nodes'| && forall c :: 0 <= c < |nodes| ==> Header(nodes'[c]) == Header(nodes[c])
  }

  /** A node stays well-formed when its shape and the headers of the nodes it
      refers to are kept. */
  lemma NodeOkFrame(nodes: seq<Node>, nodes': seq<Node>, i: nat)
    requires i < |nodes| && NodeOk(nodes, i) && HeadersKept(nodes, nodes')
    requires Shape(nodes'[i]) == Shape(nodes[i])
    ensures NodeOk(nodes', i)
  {
    var n, n' := nodes[i], nodes'[i];
    assert n'.subscopes == n.subscopes && n'.statements == n.statements;
    assert n'.parent == n.parent;
    forall k | 0 <= k < |n'.subscopes| ensures SubOk(nodes', i, n'.subscopes[k]) {
      assert SubOk(nodes, i, n.subscopes[k]);
      assert Header(nodes'[n.subscopes[k]]) == Header(nodes[n.subscopes[k]]);
    }
    forall k | 0 <= k < |n'.statements| ensures ChildOk(nodes', i, n'.statements[k]) {
      assert ChildOk(nodes, i, n.statements[k]);
      if n.statements[k].FlowChild? {
        assert Header(nodes'[n.statements[k].flow]) == Header(nodes[n.statements[k].flow]);
      }
    }
    if n'.kind.FlowScope? && n'.kind.next.Some? {
      assert NextOk(nodes, i, n.kind.next.value);
      assert Header(nodes'[n.kind.next.value]) == Header(nodes[n.kind.next.value]);
    }
  }

  /** Two arenas that differ at most in the loop targets of flows. */
  predicate SameShapes(a: seq<Node>, b: seq<Node>) {
    |b| == |a| && forall i :: 0 <= i < |a| ==> Shape(b[i]) == Shape(a[i])
  }

  /** The arena stays well-formed when every node keeps its shape. */
  lemma WFShapes(nodes: seq<Node>, nodes': seq<Node>)
    requires WF(nodes) && |nodes'| == |nodes|
    requires forall i :: 0 <= i < |nodes| ==> Shape(nodes'[i]) == Shape(nodes[i])
    ensures WF(nodes')
  {
    forall c | 0 <= c < |nodes| ensures Header(nodes'[c]) == Header(nodes[c]) {
      assert Shape(nodes'[c]) == Shape(nodes[c]);
    }
    forall i | 0 <= i < |nodes'| ensures NodeOk(nodes', i) {
      NodeOkFrame(nodes, nodes', i);
    }
    forall i | 0 < i < |nodes'| ensures Mentions(nodes', i) == 1 {
      forall p | 0 <= p < |nodes| ensures Refs(nodes'[p], i) == Refs(nodes[p], i) {
        assert Shape(nodes'[p]) == Shape(nodes[p]);
      }
      MentionsSame(nodes, nodes', i);
    }
  }

  /** Well-formedness after replacing node `s` by `n`, which keeps its header. */
  lemma WFUpdate(nodes: seq<Node>, s: Id, n: Node)
    requires WF(nodes) && s < |nodes|
    requires Header(n) == Header(nodes[s]) && NodeOk(nodes[s := n], s)
    requires forall i :: 0 < i < |nodes| ==> Refs(n, i) == Refs(nodes[s], i)
    ensures WF(nodes[s := n])
  {
    var nodes' := nodes[s := n];
    assert HeadersKept(nodes, nodes') by {
      forall c | 0 <= c < |nodes| ensures Header(nodes'[c]) == Header(nodes[c]) {
      }
    }
    forall i | 0 <= i < |nodes'| ensures NodeOk(nodes', i) {
      if i != s {
        NodeOkFrame(nodes, nodes', i);
      }
    }
    forall i | 0 < i < |nodes'| ensures Mentions(nodes', i) == 1 {
      MentionsUpdate(nodes, s, n, i);
    }
  }

  /** Well-formedness after replacing node `s` by `n` and appending `child`. */
  lemma WFUpdateAppend(nodes: seq<Node>, s: Id, n: Node, child: Node)
    requires WF(nodes) && s < |nodes|
    requires Header(n) == Header(nodes[s])
    requires NodeOk(nodes[s := n] + [child], s) && NodeOk(nodes[s := n] + [child], |nodes|)
    requires forall i :: 0 < i <= |nodes| ==>
      Refs(n, i) + Refs(child, i) == Refs(nodes[s], i) + (if i == |nodes| then 1 else 0)
    ensures WF(nodes[s := n] + [child])
  {
    var nodes' := nodes[s := n] + [child];
    assert HeadersKept(nodes, nodes') by {
      forall c | 0 <= c < |nodes| ensures Header(nodes'[c]) == Header(nodes[c]) {
      }
    }
    forall i | 0 <= i < |nodes'| ensures NodeOk(nodes', i) {
      if i < |nodes| && i != s {
        NodeOkFrame(nodes, nodes', i);
      }
    }
    forall i | 0 < i < |nodes'| ensures Mentions(nodes', i) == 1 {
      MentionsAppend(nodes[s := n], child, i);
      MentionsUpdate(nodes, s, n, i);
      if i == |nodes| {
        MentionsNone(nodes, |nodes|, i);
        assert nodes[..|nodes|] == nodes;
      }
    }
  }

  // ----- Scope.add_scope, add_statement, add_import, add_global -----

  /** `Scope.add_scope` (parsing.py:87-92): `sub` becomes the last subscope of
      `s`, with `s` as parent and the pending decorators. */
  function AttachScope(nodes: seq<Node>, s: Id, sub: Node, decorators: seq<Option<Statement>>)
    : (r: (seq<Node>, Id))
    requires WF(nodes) && s < |nodes| && IsDef(sub.kind) && Detached(sub)
    ensures WF(r.0) && r.1 == |nodes| && |r.0| == |nodes| + 1
    ensures r.0[r.1] == sub.(parent := Some(s), kind := sub.kind.(decorators := decorators))
    ensures r.0[s] == nodes[s].(subscopes := nodes[s].subscopes + [r.1])
    ensures forall i :: 0 <= i < |nodes| && i != s ==> r.0[i] == nodes[i]
  {
    var id := |nodes|;
    var child := sub.(parent := Some(s), kind := sub.kind.(decorators := decorators));
    var n := nodes[s].(subscopes := nodes[s].subscopes + [id]);
    var nodes' := nodes[s := n] + [child];
    assert NodeOk(nodes', s) by {
      assert NodeOk(nodes, s);
      forall k | 0 <= k < |n.subscopes| ensures SubOk(nodes', s, n.subscopes[k]) {
        if k < |nodes[s].subscopes| {
          var c := nodes[s].subscopes[k];
          assert SubOk(nodes, s, c);
          assert nodes'[c].parent == nodes[c].parent by {
            if c == s {} else {}
          }
        }
      }
      forall k | 0 <= k < |n.statements| ensures ChildOk(nodes', s, n.statements[k]) {
        assert ChildOk(nodes, s, n.statements[k]);
      }
      if n.kind.FlowScope? && n.kind.next.Some? {
        assert NextOk(nodes, s, n.kind.next.value);
      }
    }
    forall i | 0 < i <= |nodes|
      ensures Refs(n, i) + Refs(child, i) == Refs(nodes[s], i) + (if i == |nodes| then 1 else 0)
    {
      RefsAddSub(nodes[s], id, i);
      RefsDetached(child, i);
    }
    WFUpdateAppend(nodes, s, n, child);
    (nodes', id)
  }

  /** `Scope.add_statement` (parsing.py:94-101) for a plain Statement. */
  function AttachStatement(nodes: seq<Node>, s: Id, stmt: Statement): (r: seq<Node>)
    requires WF(nodes) && s < |nodes|
    ensures WF(r) && |r| == |nodes|
    ensures r[s] == nodes[s].(statements := nodes[s].statements + [StmtChild(stmt.(parent := Some(s)))])
    ensures forall i :: 0 <= i < |nodes| && i != s ==> r[i] == nodes[i]
  {
    var n := nodes[s].(statements := nodes[s].statements + [StmtChild(stmt.(parent := Some(s)))]);
    assert NodeOk(nodes, s);
    forall i | 0 < i < |nodes| ensures Refs(n, i) == Refs(nodes[s], i) {
      RefsAddStatement(nodes[s], StmtChild(stmt.(parent := Some(s))), i);
    }
    WFUpdateChildren(nodes, s, n);
    nodes[s := n]
  }

  /** `Scope.add_statement` (parsing.py:94-101) for a Flow, which is a scope:
      it gets a new index and `s` as parent. */
  function AttachFlow(nodes: seq<Node>, s: Id, f: Node): (r: (seq<Node>, Id))
    requires WF(nodes) && s < |nodes| && f.kind.FlowScope? && Detached(f)
    ensures WF(r.0) && r.1 == |nodes| && |r.0| == |nodes| + 1
    ensures r.0[r.1] == f.(parent := Some(s))
    ensures r.0[s] == nodes[s].(statements := nodes[s].statements + [FlowChild(r.1)])
    ensures forall i :: 0 <= i < |nodes| && i != s ==> r.0[i] == nodes[i]
  {
    var id := |nodes|;
    var child := f.(parent := Some(s));
    var n := nodes[s].(statements := nodes[s].statements + [FlowChild(id)]);
    var nodes' := nodes[s := n] + [child];
    assert NodeOk(nodes', s) by {
      assert NodeOk(nodes, s);
      forall k | 0 <= k < |n.subscopes| ensures SubOk(nodes', s, n.subscopes[k]) {
        assert SubOk(nodes, s, n.subscopes[k]);
      }
      forall k | 0 <= k < |n.statements| ensures ChildOk(nodes', s, n.statements[k]) {
        if k < |nodes[s].statements| {
          assert ChildOk(nodes, s, n.statements[k]);
        }
      }
      if n.kind.FlowScope? && n.kind.next.Some? {
        assert NextOk(nodes, s, n.kind.next.value);
      }
    }
    forall i | 0 < i <= |nodes|
      ensures Refs(n, i) + Refs(child, i) == Refs(nodes[s], i) + (if i == |nodes| then 1 else 0)
    {
      RefsAddStatement(nodes[s], FlowChild(id), i);
      RefsDetached(child, i);
    }
    WFUpdateAppend(nodes, s, n, child);
    (nodes', id)
  }

  /** A node whose child lists are unchanged keeps the arena well-formed. */
  lemma WFUpdateChildren(nodes: seq<Node>, s: Id, n: Node)
    requires WF(nodes) && s < |nodes|
    requires n.parent == nodes[s].parent && n.kind == nodes[s].kind
    requires n.subscopes == nodes[s].subscopes
    requires forall k :: 0 <= k < |n.statements| ==>
      (k < |nodes[s].statements| && n.statements[k] == nodes[s].statements[k]) || n.statements[k].StmtChild?
    requires forall k :: 0 <= k < |n.imports| ==> WellShaped(n.imports[k])
    requires forall i :: 0 < i < |nodes| ==> Refs(n, i) == Refs(nodes[s], i)
    ensures WF(nodes[s := n])
  {
    var nodes' := nodes[s := n];
    assert NodeOk(nodes', s) by {
      assert NodeOk(nodes, s);
      forall k | 0 <= k < |n.subscopes| ensures SubOk(nodes', s, n.subscopes[k]) {
        assert SubOk(nodes, s, n.subscopes[k]);
      }
      forall k | 0 <= k < |n.statements| ensures ChildOk(nodes', s, n.statements[k]) {
        if n.statements[k].FlowChild? {
          assert ChildOk(nodes, s, nodes[s].statements[k]);
        }
      }
      if n.kind.FlowScope? && n.kind.next.Some? {
        assert NextOk(nodes, s, n.kind.next.value);
      }
    }
    WFUpdate(nodes, s, n);
  }

  /** `Scope.add_import` (parsing.py:127-128).  It does not set the import's
      parent. */
  function AttachImport(nodes: seq<Node>, s: Id, imp: Import): (r: seq<Node>)
    requires WF(nodes) && s < |nodes| && WellShaped(imp)
    ensures WF(r) && |r| == |nodes|
    ensures r[s] == nodes[s].(imports := nodes[s].imports + [imp])
    ensures forall i :: 0 <= i < |nodes| && i != s ==> r[i] == nodes[i]
  {
    var n := nodes[s].(imports := nodes[s].imports + [imp]);
    assert NodeOk(nodes, s);
    WFUpdateChildren(nodes, s, n);
    nodes[s := n]
  }

  /** `Scope.add_global` (parsing.py:130-139). */
  function AttachGlobal(nodes: seq<Node>, s: Id, name: Name): (r: seq<Node>)
    requires WF(nodes) && s < |nodes|
    ensures WF(r) && |r| == |nodes|
    ensures r[s] == nodes[s].(globalVars := nodes[s].globalVars + [name])
    ensures forall i :: 0 <= i < |nodes| && i != s ==> r[i] == nodes[i]
  {
    var n := nodes[s].(globalVars := nodes[s].globalVars + [name]);
    assert NodeOk(nodes, s);
    WFUpdateChildren(nodes, s, n);
    nodes[s := n]
  }

  /** The assignment `self.docstr = d` that ends `add_docstr` (parsing.py:125). */
  function WithDocstr(nodes: seq<Node>, s: Id, d: string): (r: seq<Node>)
    requires WF(nodes) && s < |nodes|
    ensures WF(r) && |r| == |nodes|
    ensures r[s] == nodes[s].(docstr := d)
    ensures forall i :: 0 <= i < |nodes| && i != s ==> r[i] == nodes[i]
  {
    var n := nodes[s].(docstr := d);
    assert NodeOk(nodes, s);
    WFUpdateChildren(nodes, s, n);
    nodes[s := n]
  }

  /** `self.scope.line_end = self.line_nr` when a scope is closed
      (parsing.py:860, 871). */
  function Closed(nodes: seq<Node>, s: Id, line: int): (r: seq<Node>)
    requires WF(nodes) && s < |nodes|
    ensures WF(r) && |r| == |nodes|
    ensures r[s] == nodes[s].(lineEnd := Some(line))
    ensures forall i :: 0 <= i < |nodes| && i != s ==> r[i] == nodes[i]
  {
    var n := nodes[s].(lineEnd := Some(line));
    assert NodeOk(nodes, s);
    WFUpdateChildren(nodes, s, n);
    nodes[s := n]
  }

  // ----- Flow.set_next -----

  /** The last flow of the continuation chain that starts at `h`. */
  function ChainTail(nodes: seq<Node>, h: Id): (t: Id)
    requires WF(nodes) && h < |nodes| && nodes[h].kind.FlowScope?
    ensures h <= t < |nodes| && nodes[t].kind.FlowScope? && nodes[t].kind.next == None
    ensures nodes[t].parent == nodes[h].parent
    decreases |nodes| - h
  {
    match nodes[h].kind.next
    case None => h
    case Some(j) =>
      assert NodeOk(nodes, h) && NextOk(nodes, h, j);
      ChainTail(nodes, j)
  }

  /** `Flow.set_next` (parsing.py:373-380), following the chain from `h` the way
      the source recurses: the new flow `f` gets the next free index, becomes
      the `next` of the chain's tail and takes the tail's parent, which is the
      head's parent.  The result is the arena and the index of `f`. */
  function LinkNext(nodes: seq<Node>, h: Id, f: Node): (r: (seq<Node>, Id))
    requires WF(nodes) && h < |nodes| && nodes[h].kind.FlowScope?
    requires f.kind.FlowScope? && Detached(f)
    ensures WF(r.0) && r.1 == |nodes| && |r.0| == |nodes| + 1
    ensures r.0[r.1] == f.(parent := nodes[h].parent)
    ensures var t := ChainTail(nodes, h);
      r.0[t] == nodes[t].(kind := nodes[t].kind.(next := Some(r.1)))
      && forall i :: 0 <= i < |nodes| && i != t ==> r.0[i] == nodes[i]
    decreases |nodes| - h
  {
    match nodes[h].kind.next
    case Some(j) =>
      assert NodeOk(nodes, h) && NextOk(nodes, h, j);
      LinkNext(nodes, j, f)
    case None =>
      var id := |nodes|;
      var n := nodes[h].(kind := nodes[h].kind.(next := Some(id)));
      var child := f.(parent := nodes[h].parent);
      var nodes' := nodes[h := n] + [child];
      assert NodeOk(nodes', h) by {
        assert NodeOk(nodes, h);
        forall k | 0 <= k < |n.subscopes| ensures SubOk(nodes', h, n.subscopes[k]) {
          assert SubOk(nodes, h, n.subscopes[k]);
        }
        forall k | 0 <= k < |n.statements| ensures ChildOk(nodes', h, n.statements[k]) {
          assert ChildOk(nodes, h, n.statements[k]);
        }
      }
      assert NodeOk(nodes', id);
      forall i | 0 < i <= |nodes|
        ensures Refs(n, i) + Refs(child, i) == Refs(nodes[h], i) + (if i == |nodes| then 1 else 0)
      {
        RefsDetached(child, i);
      }
      WFUpdateAppend(nodes, h, n, child);
      (nodes', id)
  }

  /** `set_next` never records the continuation as a statement: no child list
      of the arena refers to the index it returns. */
  lemma LinkNextNotAStatement(nodes: seq<Node>, h: Id, f: Node, p: Id)
    requires WF(nodes) && h < |nodes| && nodes[h].kind.FlowScope?
    requires f.kind.FlowScope? && Detached(f)
    requires p < |nodes| + 1
    ensures var r := LinkNext(nodes, h, f);
      FlowChild(r.1) !in r.0[p].statements && r.1 !in r.0[p].subscopes
  {
    var r := LinkNext(nodes, h, f);
    if p == |nodes| {
      assert r.0[p].statements == [] && r.0[p].subscopes == [];
    } else {
      assert NodeOk(nodes, p);
      assert r.0[p].statements == nodes[p].statements && r.0[p].subscopes == nodes[p].subscopes;
      forall k | 0 <= k < |nodes[p].statements| ensures nodes[p].statements[k] != FlowChild(r.1) {
        assert ChildOk(nodes, p, nodes[p].statements[k]);
      }
      forall k | 0 <= k < |nodes[p].subscopes| ensures nodes[p].subscopes[k] != r.1 {
        assert SubOk(nodes, p, nodes[p].subscopes[k]);
      }
    }
  }

  /** `Scope.is_empty` (parsing.py:190-195) in terms of the whole tree: an empty
      scope is no node's parent.  A continuation names the scope as its parent
      without being listed there, but it hangs off a chain whose head is one
      of the scope's statements. */
  lemma {:induction false} EmptyScopeIsNoParent(nodes: seq<Node>, s: Id, i: Id)
    requires WF(nodes) && s < |nodes| && i < |nodes|
    ensures IsEmpty(nodes[s]) ==> nodes[i].parent != Some(s)
    decreases i
  {
    if i > 0 && nodes[i].parent == Some(s) {
      var p := AttachedReferrer(nodes, i);
      if !(nodes[i].parent == Some(p) && (i in nodes[p].subscopes || FlowChild(i) in nodes[p].statements)) {
        assert NodeOk(nodes, p) && NextOk(nodes, p, i);
        EmptyScopeIsNoParent(nodes, s, p);
      }
    } else if i == 0 {
      assert NodeOk(nodes, 0);
    }
  }

  // ----- Scope.get_simple_for_line -----

  /** The objects `get_simple_for_line` looks at: statements (plain ones and
      flows) and imports. */
  datatype Simple = SimpleStmt(stmt: Statement) | SimpleFlow(flow: Id) | SimpleImport(imp: Import)

  function AsSimple(ch: Child): Simple {
    match ch
    case StmtChild(st) => SimpleStmt(st)
    case FlowChild(f) => SimpleFlow(f)
  }

  /** The candidates in the order `get_simple_for_line` builds them: the
      statements (plain ones and flows) in order, then the imports in order. */
  function SimplesOf(n: Node): (r: seq<Simple>)
    ensures |r| == |n.statements| + |n.imports|
    ensures forall k :: 0 <= k < |n.statements| ==> r[k] == AsSimple(n.statements[k])
    ensures forall k :: 0 <= k < |n.imports| ==> r[|n.statements| + k] == SimpleImport(n.imports[k])
  {
    seq(|n.statements|, k requires 0 <= k < |n.statements| => AsSimple(n.statements[k]))
      + seq(|n.imports|, k requires 0 <= k < |n.imports| => SimpleImport(n.imports[k]))
  }

  /** Whether the object spans `line`.  A flow that was never closed has no
      end line; Python 2 orders None below every number, so it never spans a
      line. */
  predicate OnLine(nodes: seq<Node>, x: Simple, line: int) {
    match x
    case SimpleStmt(st) => st.lineNr <= line <= st.lineEnd
    case SimpleImport(i) => i.lineNr <= line <= i.lineEnd
    case SimpleFlow(f) =>
      f < |nodes| && nodes[f].lineEnd.Some? && nodes[f].lineNr <= line <= nodes[f].lineEnd.value
  }

  /** The positions from `from` on in `xs` of the objects that span `line`:
      every such position, each once, in increasing order. */
  function OnLineIndices(nodes: seq<Node>, xs: seq<Simple>, line: int, from: nat): (idx: seq<nat>)
    requires from <= |xs|
    ensures forall k :: 0 <= k < |idx| ==> from <= idx[k] < |xs| && OnLine(nodes, xs[idx[k]], line)
    ensures forall k, l :: 0 <= k < l < |idx| ==> idx[k] < idx[l]
    decreases |xs| - from
  {
    if from == |xs| then []
    else
      var rest := OnLineIndices(nodes, xs, line, from + 1);
      if OnLine(nodes, xs[from], line) then [from] + rest else rest
  }

  /** No position of an object that spans `line` is missed. */
  lemma {:induction false} OnLineIndicesComplete(nodes: seq<Node>, xs: seq<Simple>, line: int, from: nat, j: nat)
    requires from <= j < |xs| && OnLine(nodes, xs[j], line)
    ensures j in OnLineIndices(nodes, xs, line, from)
    decreases j - from
  {
    if from < j {
      OnLineIndicesComplete(nodes, xs, line, from + 1, j);
    }
  }

  /** The list comprehension of `get_simple_for_line`. */
  function FilterOnLine(nodes: seq<Node>, xs: seq<Simple>, line: int): (r: seq<Simple>)
    ensures forall x :: x in r <==> x in xs && OnLine(nodes, x, line)
    ensures |r| <= |xs|
  {
    if xs == [] then []
    else
      var rest := FilterOnLine(nodes, xs[1..], line);
      assert xs == [xs[0]] + xs[1..];
      if OnLine(nodes, xs[0], line) then [xs[0]] + rest else rest
  }

  /** The filter keeps exactly the objects at the positions `OnLineIndices`
      picks, in that order: no object is dropped, repeated or moved. */
  lemma {:induction false} FilterPicks(nodes: seq<Node>, xs: seq<Simple>, line: int, from: nat)
    requires from <= |xs|
    ensures var r, idx := FilterOnLine(nodes, xs[from..], line), OnLineIndices(nodes, xs, line, from);
      |r| == |idx| && forall k :: 0 <= k < |r| ==> r[k] == xs[idx[k]]
    decreases |xs| - from
  {
    if from < |xs| {
      FilterPicks(nodes, xs, line, from + 1);
      var ys := xs[from..];
      assert ys[0] == xs[from] && ys[1..] == xs[from + 1..];
      var rest, restIdx := FilterOnLine(nodes, xs[from + 1..], line), OnLineIndices(nodes, xs, line, from + 1);
      var r, idx := FilterOnLine(nodes, ys, line), OnLineIndices(nodes, xs, line, from);
      if OnLine(nodes, xs[from], line) {
        PicksCons(xs, from, rest, restIdx);
      } else {
        assert r == rest && idx == restIdx;
      }
    }
  }

  /** Picking `xs[from]` in front of a picking of positions. */
  lemma PicksCons(xs: seq<Simple>, from: nat, rest: seq<Simple>, restIdx: seq<nat>)
    requires from < |xs| && |rest| == |restIdx|
    requires forall k :: 0 <= k < |rest| ==> restIdx[k] < |xs| && rest[k] == xs[restIdx[k]]
    ensures var r, idx := [xs[from]] + rest, [from] + restIdx;
      |r| == |idx| && forall k :: 0 <= k < |r| ==> r[k] == xs[idx[k]]
  {
    var r, idx := [xs[from]] + rest, [from] + restIdx;
    forall k | 0 < k < |r| ensures r[k] == xs[idx[k]] {
      assert r[k] == rest[k - 1] && idx[k] == restIdx[k - 1];
    }
  }

  /** `Scope.get_simple_for_line` (parsing.py:197-203): exactly the statements
      and imports of scope `s` that span `line`, each once and in the order of
      the candidate list. */
  function GetSimpleForLine(nodes: seq<Node>, s: Id, line: int): (r: seq<Simple>)
    requires s < |nodes|
    ensures var xs := SimplesOf(nodes[s]);
      var idx := OnLineIndices(nodes, xs, line, 0);
      |r| == |idx| && forall k :: 0 <= k < |r| ==> r[k] == xs[idx[k]]
    ensures forall x :: x in r <==> x in SimplesOf(nodes[s]) && OnLine(nodes, x, line)
  {
    var xs := SimplesOf(nodes[s]);
    FilterPicks(nodes, xs, line, 0);
    assert xs[0..] == xs;
    FilterOnLine(nodes, xs, line)
  }

  /** In the answer of `get_simple_for_line` the statements come before the
      imports: once an import appears, everything after it is an import. */
  lemma SimpleForLineStatementsFirst(nodes: seq<Node>, s: Id, line: int, k: nat, l: nat)
    requires s < |nodes|
    requires k < l < |GetSimpleForLine(nodes, s, line)|
    requires GetSimpleForLine(nodes, s, line)[k].SimpleImport?
    ensures GetSimpleForLine(nodes, s, line)[l].SimpleImport?
  {
    var n := nodes[s];
    var xs := SimplesOf(n);
    var idx := OnLineIndices(nodes, xs, line, 0);
    var r := GetSimpleForLine(nodes, s, line);
    assert r[k] == xs[idx[k]] && r[l] == xs[idx[l]];
    assert idx[k] < idx[l];
    assert forall i :: 0 <= i < |n.statements| ==> !xs[i].SimpleImport?;
    var m := idx[l] - |n.statements|;
    assert xs[|n.statements| + m] == SimpleImport(n.imports[m]);
  }
}
