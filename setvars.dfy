/** `get_set_vars` on Scope, Flow, Function and Class (parsing.py:169-188,
    251-265, 300-305, 360-371), as functions that thread the arena through the
    walk.  `Flow.get_set_vars` starts from `n = self.set_vars` and extends that
    list in place, so every flow the walk visits ends up holding, as its own
    `set_vars`, the list it returned; the threaded arena records exactly that. */
module SetVars {
  import opened Basics
  import opened Nodes
  import opened ScopeTree
  import opened Walks

  /** The arena after a walk, and the list the walk returned. */
  datatype Gathered = Gathered(nodes: seq<Node>, vars: seq<Entry>)

  /** The names of a class, or the exception its walk raised. */
  datatype Outcome = Names(vars: seq<Entry>) | Fails(fault: Fault)

  datatype ClassGathered = ClassGathered(nodes: seq<Node>, out: Outcome)

  /** Nodes with an index up to `hi` are untouched. */
  predicate KeptUpTo(a: seq<Node>, b: seq<Node>, hi: int)
    requires |b| == |a|
  {
    forall i :: 0 <= i <= hi && i < |a| ==> b[i] == a[i]
  }

  /** What every walk guarantees: only the `set_vars` of flows change, so the
      arena stays well-formed, and nothing at or before `hi` changes. */
  predicate Keeps(nodes: seq<Node>, g: Gathered, hi: int) {
    SameShapes(nodes, g.nodes) && WF(g.nodes) && KeptUpTo(nodes, g.nodes, hi)
  }

  lemma ChildrenKeepOk(a: seq<Node>, b: seq<Node>, s: Id, chs: seq<Child>)
    requires SameShapes(a, b)
    requires forall k :: 0 <= k < |chs| ==> ChildOk(a, s, chs[k])
    ensures forall k :: 0 <= k < |chs| ==> ChildOk(b, s, chs[k])
  {
    forall k | 0 <= k < |chs| ensures ChildOk(b, s, chs[k]) {
      assert ChildOk(a, s, chs[k]);
      if chs[k].FlowChild? {
        assert Shape(b[chs[k].flow]) == Shape(a[chs[k].flow]);
      }
    }
  }

  /** Every name a plain statement of `chs` sets is in `vars`. */
  predicate HasStmtNames(chs: seq<Child>, vars: seq<Entry>) {
    forall k, j ::
      0 <= k < |chs| && chs[k].StmtChild? && 0 <= j < |chs[k].stmt.setVars| ==>
        NameEntry(chs[k].stmt.setVars[j]) in vars
  }

  predicate Includes(small: seq<Entry>, vars: seq<Entry>) {
    forall e :: e in small ==> e in vars
  }

  /** The names of the subscopes of `s`, in order. */
  function SubNames(nodes: seq<Node>, s: Id): (r: seq<Entry>)
    requires WF(nodes) && s < |nodes|
    ensures |r| == |nodes[s].subscopes|
    ensures forall k :: 0 <= k < |r| ==> r[k] == NameEntry(nodes[nodes[s].subscopes[k]].kind.name)
  {
    assert NodeOk(nodes, s);
    var subs := nodes[s].subscopes;
    seq(|subs|, k requires 0 <= k < |subs| =>
      assert SubOk(nodes, s, subs[k]);
      NameEntry(nodes[subs[k]].kind.name))
  }

  /** The names of a list of imports, each by `Import.get_names`. */
  function ImportNames(imps: seq<Import>): (r: seq<Entry>)
    requires forall k :: 0 <= k < |imps| ==> WellShaped(imps[k])
    ensures forall k :: 0 <= k < |imps| ==> GetNames(imps[k])[0] in r
  {
    if imps == [] then []
    else
      var rest := ImportNames(imps[1..]);
      assert forall k :: 1 <= k < |imps| ==> imps[k] == imps[1..][k - 1];
      GetNames(imps[0]) + rest
  }

  /** The names a statement sets, if there is one. */
  function OwnNames(st: Option<Statement>): seq<Entry> {
    if st.Some? then Entries(st.value.setVars) else []
  }

  /** The entries of a list, as a set. */
  function Elems(xs: seq<Entry>): set<Entry> {
    set e | e in xs
  }

  // ----- What the walks find, read off the arena they start from -----

  /** The names `Scope.get_set_vars` on `s` finds: those of its statements
      (a flow's by `FlowNames`), its subscopes' names, its globals and the
      names of its imports. */
  function ScopeNames(nodes: seq<Node>, s: Id): set<Entry>
    requires WF(nodes) && s < |nodes|
    decreases |nodes| - s, 1
  {
    assert NodeOk(nodes, s);
    ListNames(nodes, s, nodes[s].statements) + Elems(SubNames(nodes, s))
      + Elems(Entries(nodes[s].globalVars)) + Elems(ImportNames(nodes[s].imports))
  }

  /** The names found for the statements `chs` of `s`. */
  function ListNames(nodes: seq<Node>, s: Id, chs: seq<Child>): set<Entry>
    requires WF(nodes) && s < |nodes|
    requires forall k :: 0 <= k < |chs| ==> ChildOk(nodes, s, chs[k])
    decreases |nodes| - s, 0, |chs|
  {
    if chs == [] then {}
    else
      assert ChildOk(nodes, s, chs[0]);
      var here := match chs[0]
        case StmtChild(st) => Elems(Entries(st.setVars))
        case FlowChild(c) => FlowNames(nodes, c);
      here + ListNames(nodes, s, chs[1..])
  }

  /** The names `Flow.get_set_vars` on `f` finds: the flow's `set_vars` as
      they were, its statement's names, the continuation's names and the
      Scope part. */
  function FlowNames(nodes: seq<Node>, f: Id): set<Entry>
    requires WF(nodes) && f < |nodes| && nodes[f].kind.FlowScope?
    decreases |nodes| - f, 2
  {
    assert NodeOk(nodes, f);
    var k := nodes[f].kind;
    Elems(k.setVars + OwnNames(k.statement))
      + (if k.next.Some? then FlowNames(nodes, k.next.value) else {})
      + ScopeNames(nodes, f)
  }

  /** Every statement of `chs` contributes its names: a plain statement what
      it sets, a flow everything its own walk finds. */
  lemma {:induction false} ListNamesHas(nodes: seq<Node>, s: Id, chs: seq<Child>, k: nat)
    requires WF(nodes) && s < |nodes| && k < |chs|
    requires forall k :: 0 <= k < |chs| ==> ChildOk(nodes, s, chs[k])
    ensures chs[k].StmtChild? ==> Elems(Entries(chs[k].stmt.setVars)) <= ListNames(nodes, s, chs)
    ensures chs[k].FlowChild? ==> ChildOk(nodes, s, chs[k]) && FlowNames(nodes, chs[k].flow) <= ListNames(nodes, s, chs)
    decreases |chs|
  {
    assert ChildOk(nodes, s, chs[k]);
    if k > 0 {
      assert chs[1..][k - 1] == chs[k];
      ListNamesHas(nodes, s, chs[1..], k - 1);
    }
  }

  /** What the walk of a flow finds depends only on the nodes it visits. */
  lemma {:induction false} FlowNamesFrame(a: seq<Node>, b: seq<Node>, f: Id)
    requires WF(a) && WF(b) && SameShapes(a, b) && f < |a| && a[f].kind.FlowScope?
    requires forall j :: j in Reach(a, f) ==> b[j] == a[j]
    ensures FlowNames(b, f) == FlowNames(a, f)
    decreases |a| - f, 2
  {
    assert NodeOk(a, f);
    var k := a[f].kind;
    if k.next.Some? {
      assert NextOk(a, f, k.next.value);
      FlowNamesFrame(a, b, k.next.value);
    }
    ScopeNamesFrame(a, b, f);
  }

  lemma {:induction false} ScopeNamesFrame(a: seq<Node>, b: seq<Node>, s: Id)
    requires WF(a) && WF(b) && SameShapes(a, b) && s < |a|
    requires forall j :: j in BodyReach(a, s) ==> b[j] == a[j]
    ensures ScopeNames(b, s) == ScopeNames(a, s)
    decreases |a| - s, 1
  {
    assert NodeOk(a, s) && NodeOk(b, s) && Shape(b[s]) == Shape(a[s]);
    ListNamesFrame(a, b, s, a[s].statements);
    SubsKept(a, b, s, a[s].subscopes);
    assert SubNames(b, s) == SubNames(a, s);
  }

  lemma {:induction false} ListNamesFrame(a: seq<Node>, b: seq<Node>, s: Id, chs: seq<Child>)
    requires WF(a) && WF(b) && SameShapes(a, b) && s < |a|
    requires forall k :: 0 <= k < |chs| ==> ChildOk(a, s, chs[k]) && ChildOk(b, s, chs[k])
    requires forall j :: j in ReachList(a, s, chs) ==> b[j] == a[j]
    ensures ListNames(b, s, chs) == ListNames(a, s, chs)
    decreases |a| - s, 0, |chs|
  {
    if chs != [] {
      assert ChildOk(a, s, chs[0]);
      if chs[0].FlowChild? {
        FlowNamesFrame(a, b, chs[0].flow);
      }
      ListNamesFrame(a, b, s, chs[1..]);
    }
  }

  /** `Flow.get_set_vars` (parsing.py:360-371): the flow's own `set_vars`, then
      its statement's, then the continuation's, then the Scope part.  The
      flow's `set_vars` becomes the returned list. */
  function FlowVars(nodes: seq<Node>, f: Id): (g: Gathered)
    requires WF(nodes) && f < |nodes| && nodes[f].kind.FlowScope?
    ensures Keeps(nodes, g, f - 1)
    ensures g.nodes[f].kind.FlowScope? && g.nodes[f].kind.setVars == g.vars
    ensures nodes[f].kind.setVars + OwnNames(nodes[f].kind.statement) <= g.vars
    ensures nodes[f].kind.statement.Some? ==>
      forall x :: x in nodes[f].kind.statement.value.setVars ==> NameEntry(x) in g.vars
    decreases |nodes| - f, 2, 0
  {
    var k := nodes[f].kind;
    assert NodeOk(nodes, f);
    var own := k.setVars + OwnNames(k.statement);
    var a := if k.next.Some? then FlowVars(nodes, k.next.value) else Gathered(nodes, []);
    assert Keeps(nodes, a, f);
    var b := ScopeVars(a.nodes, f);
    var all := own + a.vars + b.vars;
    var nodes' := WithFlowVars(b.nodes, f, all);
    OwnNamesIn(k.setVars, k.statement, a.vars, b.vars);
    Gathered(nodes', all)
  }

  /** One step of the flow walk visits only the flow, its continuation's walk
      and its statements' walk, and finds what `FlowNames` says. */
  lemma FlowStepFound(nodes: seq<Node>, f: Id, a: Gathered, b: Gathered)
    requires WF(nodes) && f < |nodes| && nodes[f].kind.FlowScope? && NodeOk(nodes, f)
    requires Keeps(nodes, a, f) && Keeps(a.nodes, b, f)
    requires nodes[f].kind.next.None? ==> a == Gathered(nodes, [])
    requires nodes[f].kind.next.Some? ==>
      (forall j :: 0 <= j < |nodes| && j !in Reach(nodes, nodes[f].kind.next.value) ==> a.nodes[j] == nodes[j])
      && Elems(a.vars) == FlowNames(nodes, nodes[f].kind.next.value)
    requires forall j :: 0 <= j < |nodes| && j !in BodyReach(a.nodes, f) ==> b.nodes[j] == a.nodes[j]
    requires Elems(b.vars) == ScopeNames(a.nodes, f)
    ensures var all := nodes[f].kind.setVars + OwnNames(nodes[f].kind.statement) + a.vars + b.vars;
      (forall j :: 0 <= j < |nodes| && j !in Reach(nodes, f) ==> WithFlowVars(b.nodes, f, all)[j] == nodes[j])
      && Elems(all) == FlowNames(nodes, f)
  {
    var k := nodes[f].kind;
    var own := k.setVars + OwnNames(k.statement);
    BodyReachShapes(nodes, a.nodes, f);
    assert forall j :: j in BodyReach(nodes, f) ==> a.nodes[j] == nodes[j] by {
      if k.next.Some? {
        NextApart(nodes, f);
      }
    }
    ScopeNamesFrame(nodes, a.nodes, f);
    ElemsConcat(own, a.vars);
    ElemsConcat(own + a.vars, b.vars);
  }

  lemma ElemsConcat(xs: seq<Entry>, ys: seq<Entry>)
    ensures Elems(xs + ys) == Elems(xs) + Elems(ys)
  {
  }

  /** The walk of a flow's statements never visits its continuation. */
  lemma NextApart(nodes: seq<Node>, f: Id)
    requires WF(nodes) && f < |nodes| && nodes[f].kind.FlowScope? && nodes[f].kind.next.Some?
    requires NodeOk(nodes, f)
    ensures forall j :: j in BodyReach(nodes, f) ==> j !in Reach(nodes, nodes[f].kind.next.value)
  {
    assert NodeOk(nodes, f);
    var nx := nodes[f].kind.next.value;
    assert NextOk(nodes, f, nx);
    OneReferrer(nodes, nx, f, f);
    assert multiset(nodes[f].statements)[FlowChild(nx)] == 0;
    ReachListApart(nodes, f, nodes[f].statements, nx);
  }

  /** The arena with the `set_vars` of flow `f` replaced. */
  function WithFlowVars(nodes: seq<Node>, f: Id, vars: seq<Entry>): (r: seq<Node>)
    requires WF(nodes) && f < |nodes| && nodes[f].kind.FlowScope?
    ensures SameShapes(nodes, r) && WF(r)
    ensures r[f].kind.FlowScope? && r[f].kind.setVars == vars
    ensures forall i :: 0 <= i < |nodes| && i != f ==> r[i] == nodes[i]
  {
    var n := nodes[f];
    var r := nodes[f := n.(kind := n.kind.(setVars := vars))];
    assert SameShapes(nodes, r);
    WFShapes(nodes, r);
    r
  }

  lemma OwnNamesIn(pre: seq<Entry>, st: Option<Statement>, mid: seq<Entry>, post: seq<Entry>)
    ensures st.Some? ==> forall x :: x in st.value.setVars ==> NameEntry(x) in pre + OwnNames(st) + mid + post
  {
    if st.Some? {
      forall x | x in st.value.setVars ensures NameEntry(x) in pre + OwnNames(st) + mid + post {
        var j :| 0 <= j < |st.value.setVars| && st.value.setVars[j] == x;
        assert OwnNames(st)[j] == NameEntry(x);
        assert (pre + OwnNames(st) + mid + post)[|pre| + j] == NameEntry(x);
      }
    }
  }

  /** One step of the flow walk, taken apart for the method that performs
      it: the continuation's walk `a`, then the Scope walk `b`. */
  lemma FlowVarsStep(nodes: seq<Node>, f: Id, a: Gathered, b: Gathered)
    requires WF(nodes) && f < |nodes| && nodes[f].kind.FlowScope? && NodeOk(nodes, f)
    requires a == if nodes[f].kind.next.Some? then FlowVars(nodes, nodes[f].kind.next.value)
                  else Gathered(nodes, [])
    requires Keeps(nodes, a, f)
    requires b == ScopeVars(a.nodes, f)
    ensures var all := nodes[f].kind.setVars + OwnNames(nodes[f].kind.statement) + a.vars + b.vars;
      FlowVars(nodes, f) == Gathered(b.nodes[f := b.nodes[f].(kind := b.nodes[f].kind.(setVars := all))], all)
  {
  }

  /** `Scope.get_set_vars` (parsing.py:169-188): what the statements set (a
      flow by its own walk), then the subscope names, the globals and the
      names of the imports. */
  function ScopeVars(nodes: seq<Node>, s: Id): (g: Gathered)
    requires WF(nodes) && s < |nodes|
    ensures Keeps(nodes, g, s)
    ensures HasStmtNames(nodes[s].statements, g.vars)
    ensures Includes(SubNames(nodes, s), g.vars)
    ensures forall x :: x in nodes[s].globalVars ==> NameEntry(x) in g.vars
    ensures forall k :: 0 <= k < |nodes[s].imports| ==>
      WellShaped(nodes[s].imports[k]) && GetNames(nodes[s].imports[k])[0] in g.vars
    decreases |nodes| - s, 1, 0
  {
    assert NodeOk(nodes, s);
    var c := ChildrenVars(nodes, s, nodes[s].statements);
    var subs := SubNames(nodes, s);
    var all := c.vars + subs + Entries(nodes[s].globalVars) + ImportNames(nodes[s].imports);
    ScopePartsIn(c.vars, subs, nodes[s].globalVars, nodes[s].imports);
    StmtNamesGrow(nodes[s].statements, c.vars, all);
    Gathered(c.nodes, all)
  }

  /** Each part of the Scope walk's list is in the list. */
  lemma ScopePartsIn(cv: seq<Entry>, subs: seq<Entry>, globs: seq<Name>, imps: seq<Import>)
    requires forall k :: 0 <= k < |imps| ==> WellShaped(imps[k])
    ensures var all := cv + subs + Entries(globs) + ImportNames(imps);
      Includes(cv, all) && Includes(subs, all)
      && (forall x :: x in globs ==> NameEntry(x) in all)
      && (forall k :: 0 <= k < |imps| ==> GetNames(imps[k])[0] in all)
  {
    var all := cv + subs + Entries(globs) + ImportNames(imps);
    forall x | x in globs ensures NameEntry(x) in all {
      var j :| 0 <= j < |globs| && globs[j] == x;
      assert all[|cv| + |subs| + j] == NameEntry(x);
    }
  }

  lemma StmtNamesGrow(chs: seq<Child>, small: seq<Entry>, big: seq<Entry>)
    requires HasStmtNames(chs, small) && Includes(small, big)
    ensures HasStmtNames(chs, big)
  {
  }

  /** The loop over `self.statements` in `Scope.get_set_vars`, from the
      statement list `chs` on. */
  function ChildrenVars(nodes: seq<Node>, s: Id, chs: seq<Child>): (g: Gathered)
    requires WF(nodes) && s < |nodes|
    requires forall k :: 0 <= k < |chs| ==> ChildOk(nodes, s, chs[k])
    ensures Keeps(nodes, g, s)
    ensures HasStmtNames(chs, g.vars)
    decreases |nodes| - s, 0, |chs|
  {
    if chs == [] then Gathered(nodes, [])
    else
      assert ChildOk(nodes, s, chs[0]);
      var a := match chs[0]
        case StmtChild(st) => Gathered(nodes, Entries(st.setVars))
        case FlowChild(c) => FlowVars(nodes, c);
      assert Keeps(nodes, a, s);
      ChildrenKeepOk(nodes, a.nodes, s, chs[1..]);
      var rest := ChildrenVars(a.nodes, s, chs[1..]);
      var all := a.vars + rest.vars;
      assert HasStmtNames(chs, all) by {
        forall k, j | 0 <= k < |chs| && chs[k].StmtChild? && 0 <= j < |chs[k].stmt.setVars|
          ensures NameEntry(chs[k].stmt.setVars[j]) in all
        {
          if k == 0 {
            assert a.vars[j] == NameEntry(chs[k].stmt.setVars[j]);
          } else {
            assert chs[k] == chs[1..][k - 1];
          }
        }
      }
      Gathered(rest.nodes, all)
  }

  /** `chs` is what is left of the statement list `stmts` after its first
      few entries. */
  predicate IsTail(chs: seq<Child>, stmts: seq<Child>) {
    |chs| <= |stmts| && chs == stmts[|stmts| - |chs|..]
  }

  /** The rest of a tail is a tail, also after a walk. */
  lemma TailRest(a: seq<Node>, b: seq<Node>, s: Id, chs: seq<Child>)
    requires SameShapes(a, b) && s < |a| && |chs| > 0 && IsTail(chs, a[s].statements)
    ensures IsTail(chs[1..], b[s].statements)
  {
    assert Shape(b[s]) == Shape(a[s]);
    var stmts := a[s].statements;
    assert chs[1..] == stmts[|stmts| - |chs| + 1..];
  }

  /** The walk of the first flow of a tail never visits what the walks of the
      rest visit. */
  lemma HeadApart(nodes: seq<Node>, s: Id, chs: seq<Child>)
    requires WF(nodes) && s < |nodes| && |chs| > 0 && IsTail(chs, nodes[s].statements)
    requires chs[0].FlowChild?
    ensures NodeOk(nodes, s)
    ensures forall k :: 0 <= k < |chs| ==> ChildOk(nodes, s, chs[k])
    ensures forall j :: j in ReachList(nodes, s, chs[1..]) ==> j !in Reach(nodes, chs[0].flow)
  {
    assert NodeOk(nodes, s);
    var stmts := nodes[s].statements;
    var off := |stmts| - |chs|;
    forall k | 0 <= k < |chs| ensures ChildOk(nodes, s, chs[k]) && chs[k] in stmts {
      assert chs[k] == stmts[off + k];
    }
    forall m | 0 <= m < |chs[1..]| ensures chs[1..][m] != chs[0] {
      assert chs[0] == stmts[off] && chs[1..][m] == stmts[off + 1 + m];
      FlowListedOnce(nodes, s, off, off + 1 + m);
    }
    assert FlowChild(chs[0].flow) in multiset(stmts);
    ReachListApart(nodes, s, chs[1..], chs[0].flow);
  }

  /** The walk of the first statement of `chs` on its own. */
  function HeadVars(nodes: seq<Node>, s: Id, chs: seq<Child>): (a: Gathered)
    requires WF(nodes) && s < |nodes| && |chs| > 0 && ChildOk(nodes, s, chs[0])
    ensures Keeps(nodes, a, s)
  {
    match chs[0]
    case StmtChild(st) => Gathered(nodes, Entries(st.setVars))
    case FlowChild(c) => FlowVars(nodes, c)
  }

  /** One step of the statement loop, taken apart for the method that
      performs it. */
  lemma ChildrenVarsStep(nodes: seq<Node>, s: Id, chs: seq<Child>)
    requires WF(nodes) && s < |nodes| && |chs| > 0
    requires forall k :: 0 <= k < |chs| ==> ChildOk(nodes, s, chs[k])
    ensures var a := HeadVars(nodes, s, chs);
      (forall k :: 0 <= k < |chs[1..]| ==> ChildOk(a.nodes, s, chs[1..][k]))
      && ChildrenVars(nodes, s, chs)
         == Gathered(ChildrenVars(a.nodes, s, chs[1..]).nodes, a.vars + ChildrenVars(a.nodes, s, chs[1..]).vars)
  {
    var a := HeadVars(nodes, s, chs);
    ChildrenKeepOk(nodes, a.nodes, s, chs[1..]);
  }

  /** Through `Scope.get_set_vars`, every flow among the statements brings
      in its loop targets, its statement's names, its continuation's names
      and its own body's names (parsing.py:177-178, 363-371). */
  lemma ScopeVarsHasFlows(nodes: seq<Node>, s: Id, k: nat)
    requires WF(nodes) && s < |nodes| && k < |nodes[s].statements| && nodes[s].statements[k].FlowChild?
    ensures var f := nodes[s].statements[k].flow;
      var g := ScopeVars(nodes, s);
      f < |nodes| && nodes[f].kind.FlowScope?
      && Elems(nodes[f].kind.setVars + OwnNames(nodes[f].kind.statement)) <= Elems(g.vars)
      && (nodes[f].kind.next.Some? ==>
            nodes[f].kind.next.value < |nodes| && nodes[nodes[f].kind.next.value].kind.FlowScope?
            && FlowNames(nodes, nodes[f].kind.next.value) <= Elems(g.vars))
      && ScopeNames(nodes, f) <= Elems(g.vars)
  {
    assert NodeOk(nodes, s);
    var f := nodes[s].statements[k].flow;
    ScopeVarsFound(nodes, s);
    ListNamesHas(nodes, s, nodes[s].statements, k);
    assert NodeOk(nodes, f);
    if nodes[f].kind.next.Some? {
      assert NextOk(nodes, f, nodes[f].kind.next.value);
    }
  }

  /** What the statement loop of `Scope.get_set_vars` keeps: after the first
      `i` statements of `chs`, with `n` gathered and the arena at `cur`, the
      rest of the loop finishes the walk the loop started on `nodes`. */
  predicate StmtLoop(nodes: seq<Node>, s: Id, chs: seq<Child>, i: nat, n: seq<Entry>, cur: seq<Node>)
  {
    WF(nodes) && s < |nodes| && NodeOk(nodes, s) && chs == nodes[s].statements && i <= |chs|
    && WF(cur) && |cur| == |nodes|
    && (forall k :: 0 <= k < |chs[i..]| ==> ChildOk(cur, s, chs[i..][k]))
    && ChildrenVars(nodes, s, chs)
       == Gathered(ChildrenVars(cur, s, chs[i..]).nodes, n + ChildrenVars(cur, s, chs[i..]).vars)
  }

  lemma StmtLoopStart(nodes: seq<Node>, s: Id)
    requires WF(nodes) && s < |nodes| && NodeOk(nodes, s)
    ensures StmtLoop(nodes, s, nodes[s].statements, 0, [], nodes)
  {
    var chs := nodes[s].statements;
    assert chs[0..] == chs;
    assert [] + ChildrenVars(nodes, s, chs).vars == ChildrenVars(nodes, s, chs).vars;
  }

  /** One turn of the statement loop: `more` is what the `i`-th statement
      gave and `cur'` the arena after its walk. */
  lemma StmtLoopStep(nodes: seq<Node>, s: Id, chs: seq<Child>, i: nat, n: seq<Entry>, cur: seq<Node>,
                     more: seq<Entry>, cur': seq<Node>)
    requires StmtLoop(nodes, s, chs, i, n, cur) && i < |chs|
    requires ChildOk(cur, s, chs[i])
    requires chs[i].StmtChild? ==> cur' == cur && more == Entries(chs[i].stmt.setVars)
    requires chs[i].FlowChild? ==> Gathered(cur', more) == FlowVars(cur, chs[i].flow)
    ensures StmtLoop(nodes, s, chs, i + 1, n + more, cur')
  {
    var tail := chs[i..];
    assert tail[0] == chs[i] && tail[1..] == chs[i + 1..];
    assert HeadVars(cur, s, tail) == Gathered(cur', more);
    ChildrenVarsStep(cur, s, tail);
    StmtLoopJoin(ChildrenVars(nodes, s, chs), ChildrenVars(cur, s, tail), ChildrenVars(cur', s, chs[i + 1..]), n, more);
  }

  lemma StmtLoopJoin(whole: Gathered, here: Gathered, rest: Gathered, n: seq<Entry>, more: seq<Entry>)
    requires whole == Gathered(here.nodes, n + here.vars)
    requires here == Gathered(rest.nodes, more + rest.vars)
    ensures whole == Gathered(rest.nodes, (n + more) + rest.vars)
  {
    assert n + (more + rest.vars) == (n + more) + rest.vars;
  }

  lemma StmtLoopEnd(nodes: seq<Node>, s: Id, chs: seq<Child>, n: seq<Entry>, cur: seq<Node>)
    requires StmtLoop(nodes, s, chs, |chs|, n, cur)
    ensures ChildrenVars(nodes, s, chs) == Gathered(cur, n)
  {
    assert chs[|chs|..] == [];
    assert n + [] == n;
  }

  /** The Scope walk, taken apart: the statement loop, then the rest. */
  lemma ScopeVarsStep(nodes: seq<Node>, s: Id)
    requires WF(nodes) && s < |nodes| && NodeOk(nodes, s)
    ensures var c := ChildrenVars(nodes, s, nodes[s].statements);
      ScopeVars(nodes, s) == Gathered(c.nodes,
        c.vars + SubNames(nodes, s) + Entries(nodes[s].globalVars) + ImportNames(nodes[s].imports))
  {
  }

  /** The names a parameter contributes: what it sets, or else what it uses. */
  function ParamNames(p: Statement): seq<Name> {
    if |p.setVars| > 0 then p.setVars else p.usedVars
  }

  /** Every name a parameter of `params` contributes is in `vars`. */
  predicate HasParamNames(params: seq<Statement>, vars: seq<Entry>) {
    forall k, j ::
      0 <= k < |params| && 0 <= j < |ParamNames(params[k])| ==>
        NameEntry(ParamNames(params[k])[j]) in vars
  }

  /** The loop over the parameters in `Function.get_set_vars`: each one's
      names, in order. */
  function ParamsVars(params: seq<Statement>): seq<Entry> {
    if params == [] then [] else Entries(ParamNames(params[0])) + ParamsVars(params[1..])
  }

  /** Every name a parameter contributes is among the parameters' names. */
  lemma {:induction false} ParamsVarsNames(params: seq<Statement>)
    ensures HasParamNames(params, ParamsVars(params))
    decreases |params|
  {
    if params != [] {
      ParamsVarsNames(params[1..]);
      var all := ParamsVars(params);
      assert forall k :: 1 <= k < |params| ==> params[k] == params[1..][k - 1];
      assert forall j :: 0 <= j < |ParamNames(params[0])| ==> all[j] == NameEntry(ParamNames(params[0])[j]);
    }
  }

  /** `Function.get_set_vars` (parsing.py:300-305): the parameters' names, then
      the Scope part. */
  function FunctionVars(nodes: seq<Node>, s: Id): (g: Gathered)
    requires WF(nodes) && s < |nodes| && nodes[s].kind.FunctionScope?
    ensures Keeps(nodes, g, s)
    ensures HasParamNames(nodes[s].kind.params, g.vars)
    ensures HasStmtNames(nodes[s].statements, g.vars)
    ensures Includes(SubNames(nodes, s), g.vars)
  {
    var b := ScopeVars(nodes, s);
    ParamsVarsNames(nodes[s].kind.params);
    Gathered(b.nodes, ParamsVars(nodes[s].kind.params) + b.vars)
  }

  /** `s.params[0].used_vars[0].names[0]`, or None where Python's `try`
      catches the failure (a class has no `params`; a list may be empty). */
  function SelfName(k: Kind): (r: Option<string>)
    ensures r.Some? <==>
      (k.FunctionScope? && |k.params| > 0 && |k.params[0].usedVars| > 0
       && |k.params[0].usedVars[0].names| > 0)
  {
    if k.FunctionScope? && |k.params| > 0 && |k.params[0].usedVars| > 0
      && |k.params[0].usedVars[0].names| > 0
    then Some(k.params[0].usedVars[0].names[0])
    else None
  }

  /** An attribute of the instance: `selfname.x`. */
  predicate IsAttr(e: Entry, selfname: string) {
    e.NameEntry? && |e.name.names| == 2 && e.name.names[0] == selfname
  }

  /** The filter of Class.get_set_vars (parsing.py:262-263) over a function's
      names.  `n2.names` raises on an Import, `names[0]` on a Name without
      segments. */
  function SelectAttrs(es: seq<Entry>, selfname: string): (r: Outcome)
    ensures r.Names? ==> forall e :: e in r.vars ==> e in es && IsAttr(e, selfname)
    ensures r.Names? ==> forall e :: e in es && IsAttr(e, selfname) ==> e in r.vars
    ensures r.Fails? <==> exists k :: 0 <= k < |es| && (es[k].ImportEntry? || |es[k].name.names| == 0)
  {
    if es == [] then Names([])
    else
      assert forall k :: 1 <= k < |es| ==> es[k] == es[1..][k - 1];
      match es[0]
      case ImportEntry(_) => Fails(ImportHasNoNames)
      case NameEntry(n) =>
        if |n.names| == 0 then Fails(EmptyNameIndex)
        else
          var rest := SelectAttrs(es[1..], selfname);
          if rest.Fails? then rest
          else if IsAttr(es[0], selfname) then Names([es[0]] + rest.vars)
          else rest
  }

  /** `e` is an attribute `selfname.x` for the self name of one of `subs`. */
  predicate AttrOfSubs(nodes: seq<Node>, subs: seq<Id>, e: Entry) {
    exists k :: 0 <= k < |subs| && subs[k] < |nodes| && SelfName(nodes[subs[k]].kind).Some?
      && IsAttr(e, SelfName(nodes[subs[k]].kind).value)
  }

  /** A Class or Function node keeps everything when its shape is kept. */
  lemma ShapeOfDef(x: Node, y: Node)
    requires Shape(x) == Shape(y) && IsDef(y.kind)
    ensures x == y
  {
  }

  /** The subscopes of `c` keep their kinds through a walk. */
  lemma SubsKept(nodes: seq<Node>, nodes': seq<Node>, c: Id, subs: seq<Id>)
    requires SameShapes(nodes, nodes')
    requires forall k :: 0 <= k < |subs| ==> SubOk(nodes, c, subs[k])
    ensures forall k :: 0 <= k < |subs| ==> SubOk(nodes', c, subs[k]) && nodes'[subs[k]] == nodes[subs[k]]
  {
    forall k | 0 <= k < |subs| ensures SubOk(nodes', c, subs[k]) && nodes'[subs[k]] == nodes[subs[k]] {
      assert SubOk(nodes, c, subs[k]);
      ShapeOfDef(nodes'[subs[k]], nodes[subs[k]]);
    }
  }

  lemma AttrOfSubsCons(nodes: seq<Node>, nodes': seq<Node>, subs: seq<Id>, e: Entry)
    requires |subs| > 0 && (forall k :: 0 <= k < |subs| ==> subs[k] < |nodes| && subs[k] < |nodes'|)
    requires forall k :: 0 <= k < |subs| ==> nodes'[subs[k]] == nodes[subs[k]]
    requires AttrOfSubs(nodes', subs[1..], e)
    ensures AttrOfSubs(nodes, subs, e)
  {
    var k :| 0 <= k < |subs[1..]| && subs[1..][k] < |nodes'| && SelfName(nodes'[subs[1..][k]].kind).Some?
      && IsAttr(e, SelfName(nodes'[subs[1..][k]].kind).value);
    assert subs[1..][k] == subs[k + 1];
  }

  /** The attributes of the first subscope and those of the rest are all
      attributes of some subscope. */
  lemma AttrsOfSubsJoin(nodes: seq<Node>, nodes': seq<Node>, subs: seq<Id>, here: seq<Entry>, rest: seq<Entry>)
    requires |subs| > 0 && (forall k :: 0 <= k < |subs| ==> subs[k] < |nodes| && subs[k] < |nodes'|)
    requires forall k :: 0 <= k < |subs| ==> nodes'[subs[k]] == nodes[subs[k]]
    requires forall e :: e in here ==>
      SelfName(nodes[subs[0]].kind).Some? && IsAttr(e, SelfName(nodes[subs[0]].kind).value)
    requires forall e :: e in rest ==> AttrOfSubs(nodes', subs[1..], e)
    ensures forall e :: e in here + rest ==> AttrOfSubs(nodes, subs, e)
  {
    forall e | e in here + rest ensures AttrOfSubs(nodes, subs, e) {
      if e !in here {
        AttrOfSubsCons(nodes, nodes', subs, e);
      }
    }
  }

  /** No subscope in `subs` is a function with a self name. */
  predicate NoSelfNames(nodes: seq<Node>, subs: seq<Id>) {
    forall k :: 0 <= k < |subs| && subs[k] < |nodes| ==> SelfName(nodes[subs[k]].kind).None?
  }

  /** The loop over the subscopes in Class.get_set_vars (parsing.py:253-263),
      from the subscope list `subs` on: each function subscope with a self
      name is walked (changing its flows) and its attributes are kept. */
  function SubsAttrs(nodes: seq<Node>, c: Id, subs: seq<Id>): (g: ClassGathered)
    requires WF(nodes) && c < |nodes|
    requires forall k :: 0 <= k < |subs| ==> SubOk(nodes, c, subs[k])
    ensures SameShapes(nodes, g.nodes) && WF(g.nodes) && KeptUpTo(nodes, g.nodes, c)
    ensures g.out.Names? ==> forall e :: e in g.out.vars ==> AttrOfSubs(nodes, subs, e)
    ensures NoSelfNames(nodes, subs) ==> g == ClassGathered(nodes, Names([]))
    decreases |subs|
  {
    if subs == [] then ClassGathered(nodes, Names([]))
    else
      var s := subs[0];
      assert SubOk(nodes, c, s);
      var name := SelfName(nodes[s].kind);
      var a := if name.Some? then FunctionVars(nodes, s) else Gathered(nodes, []);
      assert Keeps(nodes, a, c);
      var here := if name.Some? then SelectAttrs(a.vars, name.value) else Names([]);
      if here.Fails? then ClassGathered(a.nodes, here)
      else
        SubsKept(nodes, a.nodes, c, subs);
        assert forall k :: 1 <= k < |subs| ==> subs[k] == subs[1..][k - 1];
        var rest := SubsAttrs(a.nodes, c, subs[1..]);
        if rest.out.Fails? then rest
        else
          var all := here.vars + rest.out.vars;
          AttrsOfSubsJoin(nodes, a.nodes, subs, here.vars, rest.out.vars);
          ClassGathered(rest.nodes, Names(all))
  }

  /** The subscope loop of a class never changes a node the walk of the
      class's own statements visits: a method's walk stays inside the
      method. */
  lemma {:induction false} SubsAttrsKeepsBody(nodes: seq<Node>, c: Id, subs: seq<Id>)
    requires WF(nodes) && c < |nodes|
    requires forall k :: 0 <= k < |subs| ==> SubOk(nodes, c, subs[k])
    ensures forall j :: j in BodyReach(nodes, c) ==> SubsAttrs(nodes, c, subs).nodes[j] == nodes[j]
    decreases |subs|
  {
    if subs != [] {
      var s := subs[0];
      assert SubOk(nodes, c, s);
      var name := SelfName(nodes[s].kind);
      var a := if name.Some? then FunctionVars(nodes, s) else Gathered(nodes, []);
      if name.Some? {
        FunctionVarsFound(nodes, s);
        BodiesApart(nodes, c, s);
      }
      SubsKept(nodes, a.nodes, c, subs);
      assert forall k :: 1 <= k < |subs| ==> subs[k] == subs[1..][k - 1];
      SubsAttrsKeepsBody(a.nodes, c, subs[1..]);
      BodyReachShapes(nodes, a.nodes, c);
    }
  }

  /** The arena when the subscope loop of Class.get_set_vars reaches the
      `k`-th subscope of `subs`: the walks of the earlier ones have extended
      their flows' `set_vars`, and the subscopes themselves are unchanged. */
  function ArenaBefore(nodes: seq<Node>, c: Id, subs: seq<Id>, k: nat): (r: seq<Node>)
    requires WF(nodes) && c < |nodes| && k <= |subs|
    requires forall j :: 0 <= j < |subs| ==> SubOk(nodes, c, subs[j])
    ensures SameShapes(nodes, r) && WF(r)
    ensures forall j :: 0 <= j < |subs| ==> SubOk(r, c, subs[j]) && r[subs[j]] == nodes[subs[j]]
    decreases k
  {
    if k == 0 then
      SubsKept(nodes, nodes, c, subs);
      nodes
    else
      var s := subs[0];
      assert SubOk(nodes, c, s);
      var name := SelfName(nodes[s].kind);
      var a := if name.Some? then FunctionVars(nodes, s).nodes else nodes;
      SubsKept(nodes, a, c, subs);
      assert forall j :: 0 <= j < |subs[1..]| ==> subs[1..][j] == subs[j + 1];
      var r := ArenaBefore(a, c, subs[1..], k - 1);
      assert SameShapes(nodes, r);
      SubsKept(nodes, r, c, subs);
      r
  }

  /** When the subscope loop does not raise, neither did its first turn:
      its attributes come first and the rest of the loop's follow. */
  lemma SubsAttrsHead(nodes: seq<Node>, c: Id, subs: seq<Id>)
    requires WF(nodes) && c < |nodes| && |subs| > 0
    requires forall j :: 0 <= j < |subs| ==> SubOk(nodes, c, subs[j])
    requires SubsAttrs(nodes, c, subs).out.Names?
    ensures SubOk(nodes, c, subs[0])
    ensures var name := SelfName(nodes[subs[0]].kind);
      var a := if name.Some? then FunctionVars(nodes, subs[0]).nodes else nodes;
      var here := if name.Some? then SelectAttrs(FunctionVars(nodes, subs[0]).vars, name.value) else Names([]);
      SameShapes(nodes, a) && WF(a)
      && (forall j :: 0 <= j < |subs[1..]| ==> SubOk(a, c, subs[1..][j]) && a[subs[1..][j]] == nodes[subs[1..][j]])
      && here.Names? && SubsAttrs(a, c, subs[1..]).out.Names?
      && SubsAttrs(nodes, c, subs).out.vars == here.vars + SubsAttrs(a, c, subs[1..]).out.vars
      && ArenaBefore(nodes, c, subs, 1) == a
  {
    var s := subs[0];
    assert SubOk(nodes, c, s);
    var name := SelfName(nodes[s].kind);
    var a := if name.Some? then FunctionVars(nodes, s) else Gathered(nodes, []);
    SubsKept(nodes, a.nodes, c, subs);
    assert forall j :: 0 <= j < |subs[1..]| ==> subs[1..][j] == subs[j + 1];
    assert ArenaBefore(a.nodes, c, subs[1..], 0) == a.nodes;
  }

  /** What the subscope loop finds for the `k`-th subscope of `subs`: the
      filter of that method's walk on the arena the earlier turns left, or
      nothing for a subscope without a self name. */
  function AttrsAt(nodes: seq<Node>, c: Id, subs: seq<Id>, k: nat): Outcome
    requires WF(nodes) && c < |nodes| && k < |subs|
    requires forall j :: 0 <= j < |subs| ==> SubOk(nodes, c, subs[j])
  {
    var cur := ArenaBefore(nodes, c, subs, k);
    var name := SelfName(nodes[subs[k]].kind);
    if name.Some? then SelectAttrs(FunctionVars(cur, subs[k]).vars, name.value) else Names([])
  }

  /** The converse of the ensures of SubsAttrs: when the loop does not raise,
      every attribute `selfname.x` that the walk of a method with a self name
      returned is among the class's attributes (parsing.py:253-263). */
  lemma {:induction false} SubsAttrsComplete(nodes: seq<Node>, c: Id, subs: seq<Id>, k: nat)
    requires WF(nodes) && c < |nodes| && k < |subs|
    requires forall j :: 0 <= j < |subs| ==> SubOk(nodes, c, subs[j])
    requires SubsAttrs(nodes, c, subs).out.Names?
    ensures AttrsAt(nodes, c, subs, k).Names?
    ensures Includes(AttrsAt(nodes, c, subs, k).vars, SubsAttrs(nodes, c, subs).out.vars)
    decreases k
  {
    if k == 0 {
      SubsAttrsCompleteFirst(nodes, c, subs);
    } else {
      var a := SubsAttrsRest(nodes, c, subs, k);
      var rest := subs[1..];
      SubsAttrsComplete(a, c, rest, k - 1);
      IncludesTrans(AttrsAt(a, c, rest, k - 1).vars, SubsAttrs(a, c, rest).out.vars,
                    SubsAttrs(nodes, c, subs).out.vars);
    }
  }

  lemma IncludesTrans(xs: seq<Entry>, ys: seq<Entry>, zs: seq<Entry>)
    requires Includes(xs, ys) && Includes(ys, zs)
    ensures Includes(xs, zs)
  {
  }

  /** The rest of the loop, from the arena after the first subscope's walk:
      what it finds for the `k`-th subscope is what the whole loop finds, and
      its attributes are among the whole loop's. */
  lemma SubsAttrsRest(nodes: seq<Node>, c: Id, subs: seq<Id>, k: nat) returns (a: seq<Node>)
    requires WF(nodes) && c < |nodes| && 0 < k < |subs|
    requires forall j :: 0 <= j < |subs| ==> SubOk(nodes, c, subs[j])
    requires SubsAttrs(nodes, c, subs).out.Names?
    ensures a == ArenaBefore(nodes, c, subs, 1)
    ensures WF(a) && c < |a| && (forall j :: 0 <= j < |subs[1..]| ==> SubOk(a, c, subs[1..][j]))
    ensures SubsAttrs(a, c, subs[1..]).out.Names?
    ensures AttrsAt(nodes, c, subs, k) == AttrsAt(a, c, subs[1..], k - 1)
    ensures Includes(SubsAttrs(a, c, subs[1..]).out.vars, SubsAttrs(nodes, c, subs).out.vars)
  {
    a := ArenaBefore(nodes, c, subs, 1);
    SubsAttrsHead(nodes, c, subs);
    ArenaBeforeStep(nodes, c, subs, k);
    assert subs[1..][k - 1] == subs[k];
  }

  /** The first subscope's attributes are among the loop's. */
  lemma SubsAttrsCompleteFirst(nodes: seq<Node>, c: Id, subs: seq<Id>)
    requires WF(nodes) && c < |nodes| && 0 < |subs|
    requires forall j :: 0 <= j < |subs| ==> SubOk(nodes, c, subs[j])
    requires SubsAttrs(nodes, c, subs).out.Names?
    ensures AttrsAt(nodes, c, subs, 0).Names?
    ensures Includes(AttrsAt(nodes, c, subs, 0).vars, SubsAttrs(nodes, c, subs).out.vars)
  {
    SubsAttrsHead(nodes, c, subs);
    var name := SelfName(nodes[subs[0]].kind);
    var a := if name.Some? then FunctionVars(nodes, subs[0]).nodes else nodes;
    var here := if name.Some? then SelectAttrs(FunctionVars(nodes, subs[0]).vars, name.value) else Names([]);
    assert ArenaBefore(nodes, c, subs, 0) == nodes;
    IncludesLeft(here.vars, SubsAttrs(a, c, subs[1..]).out.vars);
  }

  lemma IncludesLeft(xs: seq<Entry>, ys: seq<Entry>)
    ensures Includes(xs, xs + ys)
  {
  }

  /** The arena before the `k`-th subscope, `k > 0`, is the arena before the
      `k-1`-th of the rest, starting from the arena after the first walk. */
  lemma ArenaBeforeStep(nodes: seq<Node>, c: Id, subs: seq<Id>, k: nat)
    requires WF(nodes) && c < |nodes| && 0 < k <= |subs|
    requires forall j :: 0 <= j < |subs| ==> SubOk(nodes, c, subs[j])
    ensures SubOk(nodes, c, subs[0])
    ensures var name := SelfName(nodes[subs[0]].kind);
      var a := if name.Some? then FunctionVars(nodes, subs[0]).nodes else nodes;
      WF(a) && (forall j :: 0 <= j < |subs[1..]| ==> SubOk(a, c, subs[1..][j]))
      && ArenaBefore(nodes, c, subs, k) == ArenaBefore(a, c, subs[1..], k - 1)
  {
    assert SubOk(nodes, c, subs[0]);
    var name := SelfName(nodes[subs[0]].kind);
    var a := if name.Some? then FunctionVars(nodes, subs[0]).nodes else nodes;
    SubsKept(nodes, a, c, subs);
    assert forall j :: 0 <= j < |subs[1..]| ==> subs[1..][j] == subs[j + 1];
  }

  /** `acc` in front of the names of `o`; an exception stays as it is. */
  function PrependNames(acc: seq<Entry>, o: Outcome): Outcome {
    if o.Fails? then o else Names(acc + o.vars)
  }

  function PrependAttrs(acc: seq<Entry>, g: ClassGathered): ClassGathered {
    ClassGathered(g.nodes, PrependNames(acc, g.out))
  }

  /** One step of the filter loop, taken apart for the method that performs
      it. */
  lemma SelectAttrsStep(es: seq<Entry>, selfname: string, acc: seq<Entry>)
    requires |es| > 0
    ensures es[0].ImportEntry? ==> PrependNames(acc, SelectAttrs(es, selfname)) == Fails(ImportHasNoNames)
    ensures es[0].NameEntry? && |es[0].name.names| == 0 ==>
      PrependNames(acc, SelectAttrs(es, selfname)) == Fails(EmptyNameIndex)
    ensures es[0].NameEntry? && |es[0].name.names| > 0 ==>
      PrependNames(acc, SelectAttrs(es, selfname))
      == PrependNames(acc + (if IsAttr(es[0], selfname) then [es[0]] else []), SelectAttrs(es[1..], selfname))
  {
    if es[0].NameEntry? && |es[0].name.names| > 0 {
      var rest := SelectAttrs(es[1..], selfname);
      assert SelectAttrs(es, selfname)
        == if rest.Fails? then rest else if IsAttr(es[0], selfname) then Names([es[0]] + rest.vars) else rest;
      if rest.Names? && IsAttr(es[0], selfname) {
        assert acc + ([es[0]] + rest.vars) == (acc + [es[0]]) + rest.vars;
      } else {
        assert acc + [] == acc;
      }
    }
  }

  /** One step of the subscope loop of Class.get_set_vars, taken apart for the
      method that performs it. */
  lemma SubsAttrsStep(nodes: seq<Node>, c: Id, subs: seq<Id>, acc: seq<Entry>)
    requires WF(nodes) && c < |nodes| && |subs| > 0
    requires forall k :: 0 <= k < |subs| ==> SubOk(nodes, c, subs[k])
    ensures SubOk(nodes, c, subs[0])
    ensures var s := subs[0];
      var name := SelfName(nodes[s].kind);
      var a := if name.Some? then FunctionVars(nodes, s) else Gathered(nodes, []);
      var here := if name.Some? then SelectAttrs(a.vars, name.value) else Names([]);
      Keeps(nodes, a, c)
      && (here.Fails? ==> PrependAttrs(acc, SubsAttrs(nodes, c, subs)) == ClassGathered(a.nodes, here))
      && (here.Names? ==>
            (forall k :: 0 <= k < |subs[1..]| ==> SubOk(a.nodes, c, subs[1..][k]))
            && PrependAttrs(acc, SubsAttrs(nodes, c, subs))
               == PrependAttrs(acc + here.vars, SubsAttrs(a.nodes, c, subs[1..])))
  {
    var s := subs[0];
    assert SubOk(nodes, c, s);
    var name := SelfName(nodes[s].kind);
    var a := if name.Some? then FunctionVars(nodes, s) else Gathered(nodes, []);
    var here := if name.Some? then SelectAttrs(a.vars, name.value) else Names([]);
    if here.Names? {
      SubsKept(nodes, a.nodes, c, subs);
      assert forall k :: 0 <= k < |subs[1..]| ==> subs[1..][k] == subs[k + 1];
      var rest := SubsAttrs(a.nodes, c, subs[1..]);
      if rest.out.Names? {
        assert acc + (here.vars + rest.out.vars) == (acc + here.vars) + rest.out.vars;
      }
    }
  }

  /** What the subscope loop of `Class.get_set_vars` keeps: after the first
      `i` subscopes, with attributes `acc` gathered and the arena at `cur`,
      the rest of the loop finishes the walk of the class. */
  predicate ClassLoop(nodes: seq<Node>, c: Id, i: nat, acc: seq<Entry>, cur: seq<Node>)
  {
    WF(nodes) && c < |nodes| && NodeOk(nodes, c) && i <= |nodes[c].subscopes|
    && WF(cur) && c < |cur|
    && (forall k :: 0 <= k < |nodes[c].subscopes[i..]| ==> SubOk(cur, c, nodes[c].subscopes[i..][k]))
    && SubsAttrs(nodes, c, nodes[c].subscopes)
       == PrependAttrs(acc, SubsAttrs(cur, c, nodes[c].subscopes[i..]))
  }

  /** One turn of the subscope loop: `here` is what the turn found for the
      `i`-th subscope and `cur'` the arena after its walk. */
  lemma ClassLoopStep(nodes: seq<Node>, c: Id, i: nat, acc: seq<Entry>, cur: seq<Node>,
                      here: Outcome, cur': seq<Node>)
    requires ClassLoop(nodes, c, i, acc, cur) && i < |nodes[c].subscopes|
    requires var s := nodes[c].subscopes[i];
      s < |cur| &&
      var name := SelfName(cur[s].kind);
      var a := if name.Some? then FunctionVars(cur, s) else Gathered(cur, []);
      cur' == a.nodes && here == if name.Some? then SelectAttrs(a.vars, name.value) else Names([])
    ensures here.Fails? ==> SubsAttrs(nodes, c, nodes[c].subscopes) == ClassGathered(cur', here)
    ensures here.Names? ==> ClassLoop(nodes, c, i + 1, acc + here.vars, cur')
  {
    var subs := nodes[c].subscopes;
    assert subs[i..][0] == subs[i] && subs[i..][1..] == subs[i + 1..];
    SubsAttrsStep(cur, c, subs[i..], acc);
  }

  /** The class walk when its subscope loop ended with the attributes `acc`:
      the Scope part follows. */
  lemma ClassVarsDone(nodes: seq<Node>, c: Id, acc: seq<Entry>, after: seq<Node>)
    requires WF(nodes) && c < |nodes| && nodes[c].kind.ClassScope? && NodeOk(nodes, c)
    requires SubsAttrs(nodes, c, nodes[c].subscopes) == ClassGathered(after, Names(acc))
    ensures WF(after) && c < |after|
    ensures ClassVars(nodes, c) == ClassGathered(ScopeVars(after, c).nodes, Names(acc + ScopeVars(after, c).vars))
  {
  }

  /** `Class.get_set_vars` (parsing.py:251-265): the instance attributes set
      in the methods, then the Scope part; or the exception the filter
      raised, with the flows walked so far already extended. */
  function ClassVars(nodes: seq<Node>, c: Id): (g: ClassGathered)
    requires WF(nodes) && c < |nodes| && nodes[c].kind.ClassScope?
    ensures SameShapes(nodes, g.nodes) && WF(g.nodes)
    ensures g.out.Names? ==> HasStmtNames(nodes[c].statements, g.out.vars)
    ensures g.out.Names? ==> Includes(SubNames(nodes, c), g.out.vars)
    ensures g.out.Names? ==> forall x :: x in nodes[c].globalVars ==> NameEntry(x) in g.out.vars
    ensures g.out.Names? ==> forall k :: 0 <= k < |nodes[c].imports| ==>
      WellShaped(nodes[c].imports[k]) && GetNames(nodes[c].imports[k])[0] in g.out.vars
  {
    assert NodeOk(nodes, c);
    var a := SubsAttrs(nodes, c, nodes[c].subscopes);
    if a.out.Fails? then a
    else
      var b := ScopeVars(a.nodes, c);
      SubsKept(nodes, a.nodes, c, nodes[c].subscopes);
      assert SubNames(a.nodes, c) == SubNames(nodes, c);
      ClassGathered(b.nodes, Names(a.out.vars + b.vars))
  }

  /** Every attribute `selfname.x` that the walk of a method with a self name
      returned is among the names of the class (parsing.py:253-265). */
  lemma ClassVarsAttrs(nodes: seq<Node>, c: Id, k: nat)
    requires WF(nodes) && c < |nodes| && nodes[c].kind.ClassScope? && NodeOk(nodes, c)
    requires k < |nodes[c].subscopes| && SelfName(nodes[nodes[c].subscopes[k]].kind).Some?
    requires ClassVars(nodes, c).out.Names?
    ensures var subs := nodes[c].subscopes;
      var h := SelectAttrs(FunctionVars(ArenaBefore(nodes, c, subs, k), subs[k]).vars,
                           SelfName(nodes[subs[k]].kind).value);
      h.Names? && Includes(h.vars, ClassVars(nodes, c).out.vars)
  {
    var subs := nodes[c].subscopes;
    SubsAttrsComplete(nodes, c, subs, k);
    IncludesTrans(AttrsAt(nodes, c, subs, k).vars, SubsAttrs(nodes, c, subs).out.vars,
                  ClassVars(nodes, c).out.vars);
  }

  // ----- What the walks find -----

  /** `Flow.get_set_vars` changes no node outside its walk, and the names it
      returns are exactly `FlowNames`: the flow's loop targets, its
      statement's names, everything the continuation's walk finds and the
      Scope part over its body. */
  lemma {:induction false} FlowVarsFound(nodes: seq<Node>, f: Id)
    requires WF(nodes) && f < |nodes| && nodes[f].kind.FlowScope?
    ensures var g := FlowVars(nodes, f);
      (forall j :: 0 <= j < |nodes| && j !in Reach(nodes, f) ==> g.nodes[j] == nodes[j])
      && Elems(g.vars) == FlowNames(nodes, f)
    decreases |nodes| - f, 2
  {
    var k := nodes[f].kind;
    assert NodeOk(nodes, f);
    var a := if k.next.Some? then FlowVars(nodes, k.next.value) else Gathered(nodes, []);
    if k.next.Some? {
      assert NextOk(nodes, f, k.next.value);
      FlowVarsFound(nodes, k.next.value);
    }
    assert Keeps(nodes, a, f);
    var b := ScopeVars(a.nodes, f);
    ScopeVarsFound(a.nodes, f);
    FlowStepFound(nodes, f, a, b);
  }

  /** `Scope.get_set_vars` changes only flows its statement loop visits, and
      the names it returns are exactly `ScopeNames`. */
  lemma {:induction false} ScopeVarsFound(nodes: seq<Node>, s: Id)
    requires WF(nodes) && s < |nodes|
    ensures var g := ScopeVars(nodes, s);
      (forall j :: 0 <= j < |nodes| && j !in BodyReach(nodes, s) ==> g.nodes[j] == nodes[j])
      && Elems(g.vars) == ScopeNames(nodes, s)
    decreases |nodes| - s, 1
  {
    assert NodeOk(nodes, s);
    var stmts := nodes[s].statements;
    assert stmts[|stmts| - |stmts|..] == stmts;
    ChildrenVarsFound(nodes, s, stmts);
    ScopeVarsStep(nodes, s);
    var cv := ChildrenVars(nodes, s, stmts).vars;
    var subs := SubNames(nodes, s);
    ElemsConcat(cv, subs);
    ElemsConcat(cv + subs, Entries(nodes[s].globalVars));
    ElemsConcat(cv + subs + Entries(nodes[s].globalVars), ImportNames(nodes[s].imports));
  }

  /** The statement loop, from any point of a scope's statement list on,
      changes only flows it visits and finds exactly `ListNames`. */
  lemma {:induction false} ChildrenVarsFound(nodes: seq<Node>, s: Id, chs: seq<Child>)
    requires WF(nodes) && s < |nodes|
    requires forall k :: 0 <= k < |chs| ==> ChildOk(nodes, s, chs[k])
    requires IsTail(chs, nodes[s].statements)
    ensures var g := ChildrenVars(nodes, s, chs);
      (forall j :: 0 <= j < |nodes| && j !in ReachList(nodes, s, chs) ==> g.nodes[j] == nodes[j])
      && Elems(g.vars) == ListNames(nodes, s, chs)
    decreases |nodes| - s, 0, |chs|
  {
    if chs != [] {
      assert ChildOk(nodes, s, chs[0]);
      var a := HeadVars(nodes, s, chs);
      if chs[0].FlowChild? {
        FlowVarsFound(nodes, chs[0].flow);
      }
      ChildrenVarsStep(nodes, s, chs);
      TailRest(nodes, a.nodes, s, chs);
      ChildrenVarsFound(a.nodes, s, chs[1..]);
      ChildrenStepFound(nodes, s, chs, a, ChildrenVars(a.nodes, s, chs[1..]));
    }
  }

  /** One step of the statement loop changes only flows it visits and finds
      exactly `ListNames`, given that the first statement's walk `a` and the
      rest of the loop `rest` do so for theirs. */
  lemma ChildrenStepFound(nodes: seq<Node>, s: Id, chs: seq<Child>, a: Gathered, rest: Gathered)
    requires WF(nodes) && s < |nodes| && |chs| > 0
    requires forall k :: 0 <= k < |chs| ==> ChildOk(nodes, s, chs[k])
    requires IsTail(chs, nodes[s].statements)
    requires a == HeadVars(nodes, s, chs)
    requires chs[0].FlowChild? ==>
      (forall j :: 0 <= j < |nodes| && j !in Reach(nodes, chs[0].flow) ==> a.nodes[j] == nodes[j])
      && Elems(a.vars) == FlowNames(nodes, chs[0].flow)
    requires forall k :: 0 <= k < |chs[1..]| ==> ChildOk(a.nodes, s, chs[1..][k])
    requires Keeps(a.nodes, rest, s)
    requires forall j :: 0 <= j < |nodes| && j !in ReachList(a.nodes, s, chs[1..]) ==> rest.nodes[j] == a.nodes[j]
    requires Elems(rest.vars) == ListNames(a.nodes, s, chs[1..])
    ensures (forall j :: 0 <= j < |nodes| && j !in ReachList(nodes, s, chs) ==> rest.nodes[j] == nodes[j])
      && Elems(a.vars + rest.vars) == ListNames(nodes, s, chs)
  {
    assert ChildOk(nodes, s, chs[0]);
    ReachListShapes(nodes, a.nodes, s, chs[1..]);
    if chs[0].FlowChild? {
      HeadApart(nodes, s, chs);
    }
    ListNamesFrame(nodes, a.nodes, s, chs[1..]);
    ElemsConcat(a.vars, rest.vars);
  }

  /** `Function.get_set_vars` changes only flows of the function's body, and
      the names it returns are exactly the parameters' names and
      `ScopeNames` of the function. */
  lemma FunctionVarsFound(nodes: seq<Node>, s: Id)
    requires WF(nodes) && s < |nodes| && nodes[s].kind.FunctionScope?
    ensures var g := FunctionVars(nodes, s);
      (forall j :: 0 <= j < |nodes| && j !in BodyReach(nodes, s) ==> g.nodes[j] == nodes[j])
      && Elems(g.vars) == Elems(ParamsVars(nodes[s].kind.params)) + ScopeNames(nodes, s)
  {
    ScopeVarsFound(nodes, s);
    ElemsConcat(ParamsVars(nodes[s].kind.params), ScopeVars(nodes, s).vars);
  }

  /** When `Class.get_set_vars` does not raise, its names include everything
      `ScopeNames` gives for the class, and every other name is a
      `selfname.x` attribute of one of its methods. */
  lemma ClassVarsFound(nodes: seq<Node>, c: Id)
    requires WF(nodes) && c < |nodes| && nodes[c].kind.ClassScope?
    ensures var g := ClassVars(nodes, c);
      g.out.Names? ==>
        ScopeNames(nodes, c) <= Elems(g.out.vars)
        && forall e :: e in g.out.vars && e !in ScopeNames(nodes, c) ==> AttrOfSubs(nodes, nodes[c].subscopes, e)
  {
    assert NodeOk(nodes, c);
    var a := SubsAttrs(nodes, c, nodes[c].subscopes);
    if a.out.Names? {
      var b := ScopeVars(a.nodes, c);
      ScopeVarsFound(a.nodes, c);
      SubsAttrsKeepsBody(nodes, c, nodes[c].subscopes);
      ScopeNamesFrame(nodes, a.nodes, c);
      ElemsConcat(a.out.vars, b.vars);
      ClassVarsDone(nodes, c, a.out.vars, a.nodes);
    }
  }

  // ----- Properties -----

  /** The import names of a list grow one import at a time, as the `for`
      loop of `Scope.get_set_vars` adds them. */
  lemma {:induction false} ImportNamesSnoc(imps: seq<Import>, i: Import)
    requires forall k :: 0 <= k < |imps| ==> WellShaped(imps[k])
    requires WellShaped(i)
    ensures ImportNames(imps + [i]) == ImportNames(imps) + GetNames(i)
    decreases |imps|
  {
    if imps == [] {
      assert imps + [i] == [i];
    } else {
      assert (imps + [i])[1..] == imps[1..] + [i];
      ImportNamesSnoc(imps[1..], i);
    }
  }

  /** Likewise the parameter names, as the `for` loop of
      `Function.get_set_vars` adds them. */
  lemma {:induction false} ParamsVarsSnoc(params: seq<Statement>, p: Statement)
    ensures ParamsVars(params + [p]) == ParamsVars(params) + Entries(ParamNames(p))
    decreases |params|
  {
    if params == [] {
      assert params + [p] == [p];
    } else {
      assert (params + [p])[1..] == params[1..] + [p];
      ParamsVarsSnoc(params[1..], p);
    }
  }

  /** `Flow.get_set_vars` is not idempotent: because the returned list is the
      flow's own `set_vars`, a second walk starts from the first walk's result
      and appends the statement's names again. */
  lemma FlowVarsGrows(nodes: seq<Node>, f: Id)
    requires WF(nodes) && f < |nodes| && nodes[f].kind.FlowScope?
    requires nodes[f].kind.statement.Some? && |nodes[f].kind.statement.value.setVars| > 0
    ensures var g := FlowVars(nodes, f);
      g.vars < FlowVars(g.nodes, f).vars
  {
    var g := FlowVars(nodes, f);
    var g2 := FlowVars(g.nodes, f);
    var st := nodes[f].kind.statement.value;
    assert g.nodes[f].kind.statement == nodes[f].kind.statement by {
      assert Shape(g.nodes[f]) == Shape(nodes[f]);
    }
    assert g.vars + OwnNames(Some(st)) <= g2.vars;
    assert |OwnNames(Some(st))| > 0;
  }
}
