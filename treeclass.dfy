/** The scope tree as the parser holds it: one object whose methods change the
    arena in place, each proved to do what the matching function of ScopeTree
    or SetVars says. */
module Trees {
  import opened Basics
  import opened Nodes
  import opened ScopeTree
  import opened SetVars
  import Docstr

  class Tree {
    var nodes: seq<Node>

    ghost predicate Valid()
      reads this
    {
      WF(nodes)
    }

    /** `self.top = Scope(0, 0)` (parsing.py:515). */
    constructor ()
      ensures Valid() && nodes == [NewScope(PlainScope, 0, 0)]
    {
      nodes := [NewScope(PlainScope, 0, 0)];
    }

    /** `Scope.add_scope` (parsing.py:87-92). */
    method AddScope(s: Id, sub: Node, decorators: seq<Option<Statement>>) returns (id: Id)
      requires Valid() && s < |nodes| && IsDef(sub.kind) && Detached(sub)
      modifies this
      ensures Valid() && (nodes, id) == AttachScope(old(nodes), s, sub, decorators)
      ensures !IsEmpty(nodes[s]) && nodes[id].parent == Some(s)
    {
      ghost var r := AttachScope(nodes, s, sub, decorators);
      id := |nodes|;
      var child := sub.(parent := Some(s), kind := sub.kind.(decorators := decorators));
      nodes := nodes[s := nodes[s].(subscopes := nodes[s].subscopes + [id])] + [child];
      assert forall i :: 0 <= i < |nodes| ==> nodes[i] == r.0[i];
    }

    /** `Scope.add_statement` (parsing.py:94-101) with a plain Statement. */
    method AddStatement(s: Id, stmt: Statement)
      requires Valid() && s < |nodes|
      modifies this
      ensures Valid() && nodes == AttachStatement(old(nodes), s, stmt)
      ensures !IsEmpty(nodes[s])
    {
      ghost var r := AttachStatement(nodes, s, stmt);
      var st := stmt.(parent := Some(s));
      nodes := nodes[s := nodes[s].(statements := nodes[s].statements + [StmtChild(st)])];
      assert forall i :: 0 <= i < |nodes| ==> nodes[i] == r[i];
    }

    /** `Scope.add_statement` (parsing.py:94-101) with a Flow. */
    method AddFlow(s: Id, f: Node) returns (id: Id)
      requires Valid() && s < |nodes| && f.kind.FlowScope? && Detached(f)
      modifies this
      ensures Valid() && (nodes, id) == AttachFlow(old(nodes), s, f)
      ensures !IsEmpty(nodes[s]) && nodes[id].parent == Some(s)
    {
      ghost var r := AttachFlow(nodes, s, f);
      id := |nodes|;
      nodes := nodes[s := nodes[s].(statements := nodes[s].statements + [FlowChild(id)])]
        + [f.(parent := Some(s))];
      assert forall i :: 0 <= i < |nodes| ==> nodes[i] == r.0[i];
    }

    /** `Scope.add_import` (parsing.py:127-128). */
    method AddImport(s: Id, imp: Import)
      requires Valid() && s < |nodes| && WellShaped(imp)
      modifies this
      ensures Valid() && nodes == AttachImport(old(nodes), s, imp)
      ensures !IsEmpty(nodes[s])
    {
      ghost var r := AttachImport(nodes, s, imp);
      nodes := nodes[s := nodes[s].(imports := nodes[s].imports + [imp])];
      assert forall i :: 0 <= i < |nodes| ==> nodes[i] == r[i];
    }

    /** `Scope.add_global` (parsing.py:130-139). */
    method AddGlobal(s: Id, name: Name)
      requires Valid() && s < |nodes|
      modifies this
      ensures Valid() && nodes == AttachGlobal(old(nodes), s, name)
    {
      ghost var r := AttachGlobal(nodes, s, name);
      nodes := nodes[s := nodes[s].(globalVars := nodes[s].globalVars + [name])];
      assert forall i :: 0 <= i < |nodes| ==> nodes[i] == r[i];
    }

    /** `Scope.add_docstr` (parsing.py:103-125); `raised` when the clean-up
        empties the string and `d[0]` raises IndexError, leaving the scope as
        it was. */
    method AddDocstr(s: Id, str: string) returns (raised: bool)
      requires Valid() && s < |nodes|
      modifies this
      ensures Valid() && (raised <==> Docstr.DocClean(str).None?)
      ensures !raised ==> nodes == WithDocstr(old(nodes), s, Docstr.DocClean(str).value)
      ensures raised ==> nodes == old(nodes)
    {
      var d := Docstr.CleanDocstring(str);
      if d.None? {
        return true;
      }
      ghost var r := WithDocstr(nodes, s, d.value);
      nodes := nodes[s := nodes[s].(docstr := d.value)];
      assert forall i :: 0 <= i < |nodes| ==> nodes[i] == r[i];
      raised := false;
    }

    /** `self.scope.line_end = self.line_nr` (parsing.py:860, 871). */
    method Close(s: Id, line: int)
      requires Valid() && s < |nodes|
      modifies this
      ensures Valid() && nodes == Closed(old(nodes), s, line)
    {
      ghost var r := Closed(nodes, s, line);
      nodes := nodes[s := nodes[s].(lineEnd := Some(line))];
      assert forall i :: 0 <= i < |nodes| ==> nodes[i] == r[i];
    }

    /** `Flow.set_next` (parsing.py:373-380), recursing along the chain. */
    method SetNext(h: Id, f: Node) returns (id: Id)
      requires Valid() && h < |nodes| && nodes[h].kind.FlowScope?
      requires f.kind.FlowScope? && Detached(f)
      modifies this
      ensures Valid() && (nodes, id) == LinkNext(old(nodes), h, f)
      decreases |nodes| - h
    {
      var k := nodes[h].kind;
      if k.next.Some? {
        assert NodeOk(nodes, h) && NextOk(nodes, h, k.next.value);
        id := SetNext(k.next.value, f);
      } else {
        ghost var r := LinkNext(nodes, h, f);
        id := |nodes|;
        nodes := nodes[h := nodes[h].(kind := k.(next := Some(id)))] + [f.(parent := nodes[h].parent)];
        assert forall i :: 0 <= i < |nodes| ==> nodes[i] == r.0[i];
      }
    }

    // ----- get_set_vars -----

    /** `Flow.get_set_vars` (parsing.py:360-371).  `n` stands for the flow's
        own list, which the source extends in place: no other step of the walk
        reads this flow, so writing `n` back at the end leaves the same state. */
    method FlowSetVars(f: Id) returns (n: seq<Entry>)
      requires Valid() && f < |nodes| && nodes[f].kind.FlowScope?
      modifies this
      ensures Gathered(nodes, n) == FlowVars(old(nodes), f)
      decreases |nodes| - f, 2, 0
    {
      var k := nodes[f].kind;
      assert NodeOk(nodes, f);
      ghost var o := nodes;
      n := k.setVars;
      if k.statement.Some? {
        n := n + Entries(k.statement.value.setVars);
      }
      var nextVars := [];
      if k.next.Some? {
        nextVars := FlowSetVars(k.next.value);
      }
      ghost var a := Gathered(nodes, nextVars);
      assert Keeps(o, a, f);
      assert n == k.setVars + OwnNames(k.statement);
      var more := ScopeSetVars(f);
      ghost var b := Gathered(nodes, more);
      assert b == ScopeVars(a.nodes, f);
      n := n + nextVars + more;
      nodes := nodes[f := nodes[f].(kind := nodes[f].kind.(setVars := n))];
      FlowVarsStep(o, f, a, b);
    }

    /** `Function.get_set_vars` (parsing.py:300-305). */
    method FunctionSetVars(s: Id) returns (n: seq<Entry>)
      requires Valid() && s < |nodes| && nodes[s].kind.FunctionScope?
      modifies this
      ensures Gathered(nodes, n) == FunctionVars(old(nodes), s)
    {
      n := CollectParamNames(nodes[s].kind.params);
      var more := ScopeSetVars(s);
      n := n + more;
    }

    /** `Class.get_set_vars` (parsing.py:251-265).  The walk stops with the
        exception the filter raises, leaving the flows walked so far
        extended. */
    method ClassSetVars(c: Id) returns (out: Outcome)
      requires Valid() && c < |nodes| && nodes[c].kind.ClassScope?
      modifies this
      ensures ClassGathered(nodes, out) == ClassVars(old(nodes), c)
    {
      assert NodeOk(nodes, c);
      ghost var o := nodes;
      var attrs := SubscopesAttrs(c);
      if attrs.Fails? {
        out := attrs;
        return;
      }
      ClassVarsDone(o, c, attrs.vars, nodes);
      var more := ScopeSetVars(c);
      out := Names(attrs.vars + more);
    }

    /** The subscope loop of `Class.get_set_vars` (parsing.py:253-263).  The
        `try` around the self name is `SelfName`. */
    method SubscopesAttrs(c: Id) returns (out: Outcome)
      requires Valid() && c < |nodes| && NodeOk(nodes, c)
      modifies this
      ensures ClassGathered(nodes, out) == SubsAttrs(old(nodes), c, old(nodes)[c].subscopes)
      ensures |nodes| == |old(nodes)| && nodes[c] == old(nodes)[c]
    {
      ghost var o := nodes;
      var subs := nodes[c].subscopes;
      var attrs := [];
      var i := 0;
      ClassLoopStart(nodes, c);
      while i < |subs|
        invariant 0 <= i <= |subs| && Valid() && |nodes| == |o| && nodes[c] == o[c]
        invariant ClassLoop(o, c, i, attrs, nodes)
        decreases |subs| - i
      {
        assert SubOk(nodes, c, subs[i..][0]);
        ghost var before := nodes;
        var here := SubscopeAttrs(subs[i]);
        ClassLoopStep(o, c, i, attrs, before, here, nodes);
        if here.Fails? {
          out := here;
          return;
        }
        attrs := attrs + here.vars;
        i := i + 1;
      }
      ClassLoopEnd(o, c, attrs, nodes);
      out := Names(attrs);
    }

    /** The body of the subscope loop of `Class.get_set_vars`
        (parsing.py:254-263): the self name, if the `try` finds one, and the
        attributes among the names of the subscope's own walk. */
    method SubscopeAttrs(s: Id) returns (here: Outcome)
      requires Valid() && s < |nodes|
      modifies this
      ensures var name := SelfName(old(nodes)[s].kind);
        var a := if name.Some? then FunctionVars(old(nodes), s) else Gathered(old(nodes), []);
        nodes == a.nodes && here == if name.Some? then SelectAttrs(a.vars, name.value) else Names([])
    {
      var name := SelfName(nodes[s].kind);
      here := Names([]);
      if name.Some? {
        var fv := FunctionSetVars(s);
        here := SelectAttributes(fv, name.value);
      }
    }

    /** `Scope.get_set_vars` (parsing.py:169-188). */
    method ScopeSetVars(s: Id) returns (n: seq<Entry>)
      requires Valid() && s < |nodes|
      modifies this
      ensures Gathered(nodes, n) == ScopeVars(old(nodes), s)
      decreases |nodes| - s, 1, 0
    {
      assert NodeOk(nodes, s);
      ghost var o := nodes;
      n := StatementsSetVars(s);
      assert Keeps(o, Gathered(nodes, n), s);
      assert nodes[s] == o[s];
      ScopeVarsStep(o, s);
      ghost var c := n;
      SubsKept(o, nodes, s, nodes[s].subscopes);
      assert SubNames(nodes, s) == SubNames(o, s);
      n := n + SubNames(nodes, s);
      n := n + Entries(nodes[s].globalVars);
      var names := CollectImportNames(nodes[s].imports);
      n := n + names;
      ghost var cv := ChildrenVars(o, s, o[s].statements);
      assert cv == Gathered(nodes, c);
      assert Gathered(cv.nodes, cv.vars + SubNames(o, s) + Entries(o[s].globalVars) + ImportNames(o[s].imports))
        == Gathered(nodes, n);
    }

    /** The loop `for stmt in self.statements: n += stmt.get_set_vars()` of
        `Scope.get_set_vars` (parsing.py:177-178). */
    method StatementsSetVars(s: Id) returns (n: seq<Entry>)
      requires Valid() && s < |nodes| && NodeOk(nodes, s)
      modifies this
      ensures Gathered(nodes, n) == ChildrenVars(old(nodes), s, old(nodes)[s].statements)
      decreases |nodes| - s, 0, 1
    {
      ghost var o := nodes;
      var chs := nodes[s].statements;
      n := [];
      var i := 0;
      StmtLoopStart(nodes, s);
      while i < |chs|
        invariant 0 <= i <= |chs| && Valid() && StmtLoop(o, s, chs, i, n, nodes)
        decreases |chs| - i
      {
        assert chs[i..][0] == chs[i];
        ghost var before := nodes;
        var more := ChildSetVars(s, chs[i]);
        StmtLoopStep(o, s, chs, i, n, before, more, nodes);
        n := n + more;
        i := i + 1;
      }
      StmtLoopEnd(o, s, chs, n, nodes);
    }

    /** `stmt.get_set_vars()` for one entry of a scope's statements: a plain
        statement's names, or the walk of a flow. */
    method ChildSetVars(s: Id, ch: Child) returns (more: seq<Entry>)
      requires Valid() && s < |nodes| && ChildOk(nodes, s, ch)
      modifies this
      ensures Valid() && |nodes| == |old(nodes)|
      ensures ch.StmtChild? ==> nodes == old(nodes) && more == Entries(ch.stmt.setVars)
      ensures ch.FlowChild? ==> Gathered(nodes, more) == FlowVars(old(nodes), ch.flow)
      decreases |nodes| - s, 0, 0
    {
      match ch {
        case StmtChild(st) =>
          more := Entries(st.setVars);
        case FlowChild(c) =>
          more := FlowSetVars(c);
      }
    }
  }

  /** The loop `for i in self.imports: n += i.get_names()` of
      `Scope.get_set_vars` (parsing.py:185-186). */
  method CollectImportNames(imps: seq<Import>) returns (n: seq<Entry>)
    requires forall k :: 0 <= k < |imps| ==> WellShaped(imps[k])
    ensures n == ImportNames(imps)
  {
    n := [];
    var i := 0;
    while i < |imps|
      invariant 0 <= i <= |imps|
      invariant n == ImportNames(imps[..i])
      decreases |imps| - i
    {
      ImportNamesSnoc(imps[..i], imps[i]);
      assert imps[..i + 1] == imps[..i] + [imps[i]];
      n := n + GetNames(imps[i]);
      i := i + 1;
    }
    assert imps[..i] == imps;
  }

  /** The loop `for i, p in enumerate(self.params): n += p.set_vars or
      p.used_vars` of `Function.get_set_vars` (parsing.py:302-303). */
  method CollectParamNames(params: seq<Statement>) returns (n: seq<Entry>)
    ensures n == ParamsVars(params)
  {
    n := [];
    var i := 0;
    while i < |params|
      invariant 0 <= i <= |params|
      invariant n == ParamsVars(params[..i])
      decreases |params| - i
    {
      var p := params[i];
      var names := if |p.setVars| > 0 then p.setVars else p.usedVars;
      assert names == ParamNames(p);
      assert params[..i + 1] == params[..i] + [p];
      ParamsVarsSnoc(params[..i], p);
      n := n + Entries(names);
      i := i + 1;
    }
    assert params[..i] == params;
  }

  /** The inner loop of Class.get_set_vars (parsing.py:258-263): the names
      `selfname.x` among `es`, or the exception `n2.names[0]` raises. */
  method SelectAttributes(es: seq<Entry>, selfname: string) returns (out: Outcome)
    ensures out == SelectAttrs(es, selfname)
  {
    var acc := [];
    var i := 0;
    while i < |es|
      invariant 0 <= i <= |es|
      invariant SelectAttrs(es, selfname) == PrependNames(acc, SelectAttrs(es[i..], selfname))
      decreases |es| - i
    {
      SelectAttrsStep(es[i..], selfname, acc);
      assert es[i..][0] == es[i] && es[i..][1..] == es[i + 1..];
      match es[i] {
        case ImportEntry(_) =>
          return Fails(ImportHasNoNames);
        case NameEntry(n2) =>
          if |n2.names| == 0 {
            return Fails(EmptyNameIndex);
          }
          if n2.names[0] == selfname && |n2.names| == 2 {
            acc := acc + [es[i]];
          }
      }
      i := i + 1;
    }
    assert es[i..] == [];
    out := Names(acc);
  }

  /** Before the subscope loop of a class, nothing has been gathered. */
  lemma ClassLoopStart(nodes: seq<Node>, c: Id)
    requires WF(nodes) && c < |nodes| && NodeOk(nodes, c)
    ensures ClassLoop(nodes, c, 0, [], nodes)
  {
    assert nodes[c].subscopes[0..] == nodes[c].subscopes;
    PrependNothing(SubsAttrs(nodes, c, nodes[c].subscopes));
  }

  /** After the subscope loop of a class, the attributes gathered are the
      loop's. */
  lemma ClassLoopEnd(nodes: seq<Node>, c: Id, acc: seq<Entry>, cur: seq<Node>)
    requires c < |nodes| && ClassLoop(nodes, c, |nodes[c].subscopes|, acc, cur)
    ensures SubsAttrs(nodes, c, nodes[c].subscopes) == ClassGathered(cur, Names(acc))
  {
    var subs := nodes[c].subscopes;
    assert subs[|subs|..] == [];
    assert SubsAttrs(cur, c, subs[|subs|..]) == ClassGathered(cur, Names([]));
    assert acc + [] == acc;
  }

  lemma PrependNothing(g: ClassGathered)
    ensures PrependAttrs([], g) == g
  {
    if g.out.Names? {
      assert [] + g.out.vars == g.out.vars;
    }
  }

  lemma ConcatAssoc<T>(a: seq<T>, b: seq<T>, c: seq<T>)
    ensures a + (b + c) == (a + b) + c
  {
  }
}
