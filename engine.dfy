/** What `PyFuzzyParser.parse` (parsing.py:829-982) computes: one turn of its
    `while True` loop is `Step`, the whole loop is `Run`.  The loop's state is
    the tree, the current scope, the decorator buffer, the `freshscope` flag
    and the cursor; the token in hand, `(token_type, tok, indent)`, is always
    the last token consumed. */
module Engine {
  import opened Basics
  import opened Tokens
  import opened Nodes
  import opened ScopeTree
  import opened Readers
  import Docstr

  datatype PState = PState(
    tree: seq<Node>, scope: Id, decorators: seq<Option<Statement>>, freshScope: bool, pos: nat)

  /** How a turn of the loop ends: the loop goes on, the token stream ran out
      (StopIteration, caught at parsing.py:980-981, so the tree as it stands is
      the result), or an exception escapes the parser. */
  datatype Loop = Going(st: PState) | Ended(tree: seq<Node>) | Failed(fault: Fault)

  /** The result of parsing a whole token sequence. */
  datatype Parse = Parsed(top: seq<Node>) | Raises(fault: Fault)

  predicate Inv(toks: seq<Token>, st: PState) {
    WF(st.tree) && st.scope < |st.tree| && st.pos <= |toks|
  }

  /** A turn ends in a state that keeps the invariant and has not gone back. */
  predicate Continues(toks: seq<Token>, st: PState, r: Loop) {
    (r.Going? ==> Inv(toks, r.st) && st.pos <= r.st.pos) && (r.Ended? ==> WF(r.tree))
  }

  /** `self.top = Scope(0, 0)`, `decorators = []`, `freshscope = True`. */
  function Init(): (st: PState)
    ensures WF(st.tree) && st.scope == 0 && st.pos == 0
  {
    PState([NewScope(PlainScope, 0, 0)], 0, [], true, 0)
  }

  // ----- ancestry -----

  /** `a` is `s` or one of its enclosing scopes. */
  predicate Ancestor(nodes: seq<Node>, a: Id, s: Id)
    requires WF(nodes) && s < |nodes|
    decreases s
  {
    a == s || (s != 0 && (assert NodeOk(nodes, s); Ancestor(nodes, a, nodes[s].parent.value)))
  }

  lemma {:induction false} AncestorBelow(nodes: seq<Node>, a: Id, s: Id)
    requires WF(nodes) && s < |nodes| && Ancestor(nodes, a, s)
    ensures a <= s
    decreases s
  {
    if a != s {
      assert NodeOk(nodes, s);
      AncestorBelow(nodes, a, nodes[s].parent.value);
    }
  }

  lemma {:induction false} AncestorTrans(nodes: seq<Node>, a: Id, b: Id, s: Id)
    requires WF(nodes) && s < |nodes| && b < |nodes|
    requires Ancestor(nodes, b, s) && Ancestor(nodes, a, b)
    ensures Ancestor(nodes, a, s)
    decreases s
  {
    if b != s {
      assert NodeOk(nodes, s);
      AncestorTrans(nodes, a, b, nodes[s].parent.value);
    }
  }

  /** Ancestry only depends on the parent links, which closing keeps. */
  lemma {:induction false} AncestorKept(nodes: seq<Node>, nodes': seq<Node>, a: Id, s: Id)
    requires WF(nodes) && WF(nodes') && s < |nodes| && |nodes'| == |nodes|
    requires forall i :: 0 <= i < |nodes| ==> nodes'[i].parent == nodes[i].parent
    ensures Ancestor(nodes', a, s) == Ancestor(nodes, a, s)
    decreases s
  {
    if s != 0 {
      assert NodeOk(nodes, s);
      AncestorKept(nodes, nodes', a, nodes[s].parent.value);
    }
  }

  /** `nodes'` is `nodes` with some ancestors of `s` other than the top scope
      given a `line_end`, and nothing else changed. */
  predicate ClosesAbove(nodes: seq<Node>, nodes': seq<Node>, s: Id)
    requires WF(nodes) && s < |nodes|
  {
    |nodes'| == |nodes|
    && forall i :: 0 <= i < |nodes| && nodes'[i] != nodes[i] ==>
         i != 0 && Ancestor(nodes, i, s) && nodes'[i].lineEnd.Some?
         && nodes'[i] == nodes[i].(lineEnd := nodes'[i].lineEnd)
  }

  lemma CloseOne(nodes: seq<Node>, s: Id, line: int)
    requires WF(nodes) && 0 < s < |nodes|
    ensures ClosesAbove(nodes, Closed(nodes, s, line), s)
    ensures forall i :: 0 <= i < |nodes| ==> Closed(nodes, s, line)[i].parent == nodes[i].parent
  {
  }

  lemma {:induction false} ClosesAboveTrans(a: seq<Node>, b: seq<Node>, c: seq<Node>, s: Id, s': Id)
    requires WF(a) && WF(b) && s < |a| && s' < |a| && ClosesAbove(a, b, s)
    requires forall i :: 0 <= i < |a| ==> b[i].parent == a[i].parent
    requires ClosesAbove(b, c, s') && Ancestor(a, s', s)
    ensures ClosesAbove(a, c, s)
  {
    forall i | 0 <= i < |a| && c[i] != a[i]
      ensures i != 0 && Ancestor(a, i, s) && c[i].lineEnd.Some? && c[i] == a[i].(lineEnd := c[i].lineEnd)
    {
      if c[i] != b[i] {
        AncestorKept(a, b, i, s');
        AncestorTrans(a, i, s', s);
      }
    }
  }

  /** Closing `s` and then closing above its parent closes above `s`. */
  lemma PopThenClose(a: seq<Node>, s: Id, line: int, c: seq<Node>, s2: Id)
    requires WF(a) && 0 < s < |a| && NodeOk(a, s)
    requires var b := Closed(a, s, line);
      var up := a[s].parent.value;
      ClosesAbove(b, c, up) && Ancestor(b, s2, up)
      && forall i :: 0 <= i < |b| ==> c[i].parent == b[i].parent
    ensures ClosesAbove(a, c, s) && Ancestor(a, s2, s)
    ensures forall i :: 0 <= i < |a| ==> c[i].parent == a[i].parent
  {
    var b := Closed(a, s, line);
    var up := a[s].parent.value;
    CloseOne(a, s, line);
    AncestorKept(a, b, up, s);
    ClosesAboveTrans(a, b, c, s, up);
    AncestorKept(a, b, s2, up);
    AncestorTrans(a, s2, up, s);
  }

  // ----- the two closing loops (parsing.py:856-872) -----

  /** The DEDENT loop: while the token in hand is a DEDENT and the scope is
      not the top, read a token and close the scope if that token is not
      indented past it. */
  function DedentLoop(toks: seq<Token>, st: PState): (r: Loop)
    requires Inv(toks, st) && st.pos > 0
    ensures r.Going? ==> Inv(toks, r.st) && st.pos <= r.st.pos
    ensures r.Going? ==> r.st.decorators == st.decorators && r.st.freshScope == st.freshScope
    ensures r.Ended? ==> WF(r.tree)
    ensures !r.Failed?
    decreases |toks| - st.pos
  {
    if toks[st.pos - 1].kind == DedentTok && st.scope != 0 then
      if st.pos == |toks| then Ended(st.tree)
      else
        var t := toks[st.pos];
        if t.col <= st.tree[st.scope].indent then
          assert NodeOk(st.tree, st.scope);
          DedentLoop(toks, st.(tree := Closed(st.tree, st.scope, t.line),
                               scope := st.tree[st.scope].parent.value, pos := st.pos + 1))
        else DedentLoop(toks, st.(pos := st.pos + 1))
    else Going(st)
  }

  /** The DEDENT loop stops at a token that is not a DEDENT or at the top
      scope; only the parent of the current scope replaces it, so the scope
      it ends in encloses the one it started from; and it gives a `line_end`
      to enclosing scopes only, never to the top scope. */
  lemma {:induction false} DedentLoopCloses(toks: seq<Token>, st: PState)
    requires Inv(toks, st) && st.pos > 0
    ensures var r := DedentLoop(toks, st);
      (r.Going? ==>
        (toks[r.st.pos - 1].kind != DedentTok || r.st.scope == 0)
        && Ancestor(st.tree, r.st.scope, st.scope) && ClosesAbove(st.tree, r.st.tree, st.scope)
        && forall i :: 0 <= i < |st.tree| ==> r.st.tree[i].parent == st.tree[i].parent)
      && (r.Ended? ==> ClosesAbove(st.tree, r.tree, st.scope))
    decreases |toks| - st.pos
  {
    var r := DedentLoop(toks, st);
    if toks[st.pos - 1].kind == DedentTok && st.scope != 0 && st.pos < |toks| {
      var t := toks[st.pos];
      if t.col <= st.tree[st.scope].indent {
        assert NodeOk(st.tree, st.scope);
        var up := st.tree[st.scope].parent.value;
        var st' := st.(tree := Closed(st.tree, st.scope, t.line), scope := up, pos := st.pos + 1);
        DedentLoopCloses(toks, st');
        if r.Going? {
          PopThenClose(st.tree, st.scope, t.line, r.st.tree, r.st.scope);
        } else {
          PopThenClose(st.tree, st.scope, t.line, r.tree, up);
        }
      } else {
        DedentLoopCloses(toks, st.(pos := st.pos + 1));
      }
    }
  }

  /** `nodes'` is `nodes` after popping every enclosing scope of `s` that lies
      strictly inside `e`: each of them, and nothing else, got as `line_end` the
      line of a token in `toks[lo..hi]` that was not indented past it. */
  predicate PoppedTo(toks: seq<Token>, lo: nat, hi: nat, nodes: seq<Node>, nodes': seq<Node>, s: Id, e: Id)
    requires WF(nodes) && s < |nodes| && hi <= |toks|
  {
    |nodes'| == |nodes|
    && forall i :: 0 <= i < |nodes| ==>
         if e < i && Ancestor(nodes, i, s) then
           exists j :: lo <= j < hi && toks[j].col <= nodes[i].indent
                       && nodes'[i] == nodes[i].(lineEnd := Some(toks[j].line))
         else nodes'[i] == nodes[i]
  }

  /** Popping nothing leaves the arena as it is. */
  lemma PoppedNone(toks: seq<Token>, lo: nat, hi: nat, nodes: seq<Node>, s: Id)
    requires WF(nodes) && s < |nodes| && hi <= |toks|
    ensures PoppedTo(toks, lo, hi, nodes, nodes, s, s)
  {
    forall i | 0 <= i < |nodes| && Ancestor(nodes, i, s) ensures i <= s {
      AncestorBelow(nodes, i, s);
    }
  }

  /** One pop on top of the pops that follow it: closing `s` with the token at
      `lo` and then popping from its parent up to `e` pops from `s` up to `e`. */
  lemma PopStep(toks: seq<Token>, lo: nat, hi: nat, nodes: seq<Node>, nodes': seq<Node>, s: Id, e: Id)
    requires WF(nodes) && 0 < s < |nodes| && lo < hi <= |toks| && NodeOk(nodes, s)
    requires toks[lo].col <= nodes[s].indent
    requires var up := nodes[s].parent.value;
      var nodes1 := Closed(nodes, s, toks[lo].line);
      Ancestor(nodes1, e, up) && PoppedTo(toks, lo + 1, hi, nodes1, nodes', up, e)
    ensures Ancestor(nodes, e, s) && PoppedTo(toks, lo, hi, nodes, nodes', s, e)
  {
    var up := nodes[s].parent.value;
    var nodes1 := Closed(nodes, s, toks[lo].line);
    AncestorKept(nodes, nodes1, e, up);
    AncestorBelow(nodes, e, up);
    forall i | 0 <= i < |nodes|
      ensures if e < i && Ancestor(nodes, i, s) then
                exists j :: lo <= j < hi && toks[j].col <= nodes[i].indent
                            && nodes'[i] == nodes[i].(lineEnd := Some(toks[j].line))
              else nodes'[i] == nodes[i]
    {
      AncestorKept(nodes, nodes1, i, up);
      if i == s {
        if Ancestor(nodes, s, up) {
          AncestorBelow(nodes, s, up);
        }
        assert nodes'[s] == nodes1[s];
        assert lo <= lo < hi && toks[lo].col <= nodes[i].indent;
      } else {
        assert Ancestor(nodes, i, s) == Ancestor(nodes, i, up);
      }
    }
  }

  /** The DEDENT loop pops exactly the scopes between the one it started from
      and the one it ends in, and every popped scope got as `line_end` the line
      of the token read in the turn that popped it, which was not indented past
      it (parsing.py:858-861).  When the tokens run out the same holds for the
      scope the loop had reached. */
  lemma {:induction false} DedentLoopPops(toks: seq<Token>, st: PState)
    requires Inv(toks, st) && st.pos > 0
    ensures var r := DedentLoop(toks, st);
      (r.Going? ==> PoppedTo(toks, st.pos, r.st.pos, st.tree, r.st.tree, st.scope, r.st.scope))
      && (r.Ended? ==> exists e :: 0 <= e < |st.tree| && Ancestor(st.tree, e, st.scope)
                                   && PoppedTo(toks, st.pos, |toks|, st.tree, r.tree, st.scope, e))
    decreases |toks| - st.pos
  {
    var r := DedentLoop(toks, st);
    if toks[st.pos - 1].kind == DedentTok && st.scope != 0 && st.pos < |toks| {
      var t := toks[st.pos];
      if t.col <= st.tree[st.scope].indent {
        assert NodeOk(st.tree, st.scope);
        var up := st.tree[st.scope].parent.value;
        var st' := st.(tree := Closed(st.tree, st.scope, t.line), scope := up, pos := st.pos + 1);
        DedentLoopPops(toks, st');
        DedentLoopCloses(toks, st');
        if r.Going? {
          PopStep(toks, st.pos, r.st.pos, st.tree, r.st.tree, st.scope, r.st.scope);
        } else {
          var e :| 0 <= e < |st'.tree| && Ancestor(st'.tree, e, up)
                   && PoppedTo(toks, st'.pos, |toks|, st'.tree, r.tree, up, e);
          PopStep(toks, st.pos, |toks|, st.tree, r.tree, st.scope, e);
        }
      } else {
        DedentLoopPops(toks, st.(pos := st.pos + 1));
      }
    } else {
      PoppedNone(toks, st.pos, st.pos, st.tree, st.scope);
      if r.Ended? {
        PoppedNone(toks, st.pos, |toks|, st.tree, st.scope);
      }
    }
  }

  /** The recovery loop: while the token in hand is a NAME not indented past
      the scope, and the scope is not the top, close the scope and go up. */
  function Recover(nodes: seq<Node>, s: Id, t: Token): (r: (seq<Node>, Id))
    requires WF(nodes) && s < |nodes|
    ensures WF(r.0) && r.1 < |r.0| && Ancestor(nodes, r.1, s)
    ensures ClosesAbove(nodes, r.0, s)
    ensures forall i :: 0 <= i < |nodes| ==> r.0[i].parent == nodes[i].parent
    decreases s
  {
    if t.col <= nodes[s].indent && t.kind == NameTok && s != 0 then
      assert NodeOk(nodes, s);
      var up := nodes[s].parent.value;
      var r := Recover(Closed(nodes, s, t.line), up, t);
      PopThenClose(nodes, s, t.line, r.0, r.1);
      r
    else (nodes, s)
  }

  /** After the recovery loop the scope is the top, or the token is not a
      NAME, or it is indented past the scope; every scope it closed got the
      token's line as `line_end`. */
  lemma {:induction false} RecoverExit(nodes: seq<Node>, s: Id, t: Token)
    requires WF(nodes) && s < |nodes|
    ensures var r := Recover(nodes, s, t);
      (r.1 == 0 || t.kind != NameTok || t.col > r.0[r.1].indent)
      && (forall i :: 0 <= i < |nodes| && r.0[i] != nodes[i] ==> r.0[i] == nodes[i].(lineEnd := Some(t.line)))
      && (r.1 != s ==> r.0[s].lineEnd == Some(t.line))
    decreases s
  {
    if t.col <= nodes[s].indent && t.kind == NameTok && s != 0 {
      assert NodeOk(nodes, s);
      var up := nodes[s].parent.value;
      var nodes' := Closed(nodes, s, t.line);
      RecoverExit(nodes', up, t);
      var r := Recover(nodes', up, t);
      AncestorBelow(nodes', r.1, up);
      assert r.0[s] == nodes'[s];
    }
  }

  /** Neither loop closes the top scope. */
  lemma TopNeverClosed(toks: seq<Token>, st: PState, t: Token)
    requires Inv(toks, st) && st.pos > 0
    ensures var r := DedentLoop(toks, st);
      (r.Going? ==> r.st.tree[0] == st.tree[0]) && (r.Ended? ==> r.tree[0] == st.tree[0])
    ensures Recover(st.tree, st.scope, t).0[0] == st.tree[0]
  {
    DedentLoopCloses(toks, st);
  }

  // ----- building imports (parsing.py:889-913) -----

  /** `Import(indent, start_line, self.line_nr, m, alias)` for each pair. */
  function PlainImports(pairs: seq<Pair>, indent: int, start: int, end: int): (r: seq<Import>)
    ensures |r| == |pairs|
    ensures forall k :: 0 <= k < |pairs| ==>
      r[k] == Import(indent, start, end, Some(pairs[k].name), pairs[k].alias, None, false)
  {
    seq(|pairs|, k requires 0 <= k < |pairs| =>
      Import(indent, start, end, Some(pairs[k].name), pairs[k].alias, None, false))
  }

  /** One Import of `from mod import name as alias`: a star import drops the name. */
  function FromImport(pr: Pair, indent: int, start: int, end: int, mod: Name): Import
    requires |pr.name.names| > 0
  {
    var star := pr.name.names[0] == "*";
    Import(indent, start, end, if star then None else Some(pr.name), pr.alias, Some(mod), star)
  }

  function FromImports(pairs: seq<Pair>, indent: int, start: int, end: int, mod: Name): (r: seq<Import>)
    requires forall k :: 0 <= k < |pairs| ==> |pairs[k].name.names| > 0
    ensures |r| == |pairs|
    ensures forall k :: 0 <= k < |pairs| ==> r[k] == FromImport(pairs[k], indent, start, end, mod)
  {
    seq(|pairs|, k requires 0 <= k < |pairs| => FromImport(pairs[k], indent, start, end, mod))
  }

  /** A from-import names its module; it is a star import exactly when the
      name is `*`, and then it has no namespace; otherwise the namespace is
      the name.  So `get_names` gives the Import itself for a star, else the
      alias if there is one, else the name. */
  lemma FromImportShape(pr: Pair, indent: int, start: int, end: int, mod: Name)
    requires |pr.name.names| > 0
    ensures var i := FromImport(pr, indent, start, end, mod);
      WellShaped(i) && i.fromNs == Some(mod) && i.alias == pr.alias
      && (i.star <==> pr.name.names[0] == "*")
      && (i.namespace.None? <==> i.star)
      && (!i.star ==> i.namespace == Some(pr.name))
      && GetNames(i) == (if i.star then [ImportEntry(i)]
                          else if pr.alias.Some? then [NameEntry(pr.alias.value)]
                          else [NameEntry(pr.name)])
  {
  }

  /** The `for` loop over the imports: `add_import` once per Import, in order. */
  function AddImports(nodes: seq<Node>, s: Id, imps: seq<Import>): (r: seq<Node>)
    requires WF(nodes) && s < |nodes| && forall k :: 0 <= k < |imps| ==> WellShaped(imps[k])
    ensures WF(r) && |r| == |nodes|
    ensures r[s] == nodes[s].(imports := nodes[s].imports + imps)
    ensures forall i :: 0 <= i < |nodes| && i != s ==> r[i] == nodes[i]
    decreases |imps|
  {
    if |imps| == 0 then
      assert nodes[s].imports + imps == nodes[s].imports;
      nodes
    else
      var prev := AddImports(nodes, s, imps[..|imps| - 1]);
      assert nodes[s].imports + imps[..|imps| - 1] + [imps[|imps| - 1]] == nodes[s].imports + imps;
      AttachImport(prev, s, imps[|imps| - 1])
  }

  /** The `for` loop of the `global` branch: `top.add_global` once per name. */
  function AddGlobals(nodes: seq<Node>, names: seq<Name>): (r: seq<Node>)
    requires WF(nodes)
    ensures WF(r) && |r| == |nodes|
    ensures r[0] == nodes[0].(globalVars := nodes[0].globalVars + names)
    ensures forall i :: 0 < i < |nodes| ==> r[i] == nodes[i]
    decreases |names|
  {
    if |names| == 0 then
      assert nodes[0].globalVars + names == nodes[0].globalVars;
      nodes
    else
      var prev := AddGlobals(nodes, names[..|names| - 1]);
      assert nodes[0].globalVars + names[..|names| - 1] + [names[|names| - 1]] == nodes[0].globalVars + names;
      AttachGlobal(prev, 0, names[|names| - 1])
  }

  // ----- the branches of the dispatch (parsing.py:874-978) -----

  /** `def` and `class`: a header that does not parse leaves the scope and the
      decorators alone; otherwise the new scope takes the decorators and
      becomes the current scope. */
  function OpenScope(st: PState, h: Read<Option<Node>>): (r: Loop)
    requires WF(st.tree) && st.scope < |st.tree|
    requires h.Got? ==> h.pos >= st.pos
    requires h.Got? && h.val.Some? ==> IsDef(h.val.value.kind) && Detached(h.val.value)
    ensures h.Got? ==> r.Going? && r.st.pos == h.pos
    ensures r.Going? ==> WF(r.st.tree) && r.st.scope < |r.st.tree|
    ensures r.Ended? ==> WF(r.tree)
  {
    if h.AtEnd? then Ended(st.tree)
    else if h.Raised? then Failed(h.fault)
    else if h.val.None? then Going(st.(pos := h.pos))
    else
      var a := AttachScope(st.tree, st.scope, h.val.value, st.decorators);
      Going(PState(a.0, a.1, [], true, h.pos))
  }

  /** `import a.b as c, d`: one Import per pair. */
  function ImportBranch(toks: seq<Token>, st: PState): (r: Loop)
    requires Inv(toks, st) && st.pos > 0
    ensures Continues(toks, st, r)
  {
    var c := toks[st.pos - 1];
    var l := ImportList(toks, st.pos);
    if l.AtEnd? then Ended(st.tree)
    else if l.Raised? then Failed(l.fault)
    else
      var imps := PlainImports(l.val, c.col, c.line, LineAt(toks, l.pos));
      Going(st.(tree := AddImports(st.tree, st.scope, imps), pos := l.pos, freshScope := false))
  }

  /** `from mod import names`: nothing happens unless `import` follows the
      module name. */
  function FromBranch(toks: seq<Token>, st: PState): (r: Loop)
    requires Inv(toks, st) && st.pos > 0
    ensures Continues(toks, st, r)
  {
    var c := toks[st.pos - 1];
    var d := DotName(toks, st.pos, false);
    if !d.Got? then Ended(st.tree)
    else if d.val.NoName? then Failed(UnpackMismatch)
    else if d.val.stop.text != "import" then Going(st.(pos := d.pos))
    else
      var mod := NameOf(toks, d.val, d.pos);
      var l := ImportList(toks, d.pos);
      if l.AtEnd? then Ended(st.tree)
      else if l.Raised? then Failed(l.fault)
      else
        ImportLoopPairs(toks, d.pos, []);
        assert forall k :: 0 <= k < |l.val| ==> PairOk(l.val[k]);
        var imps := FromImports(l.val, c.col, c.line, LineAt(toks, l.pos), mod);
        assert forall k :: 0 <= k < |imps| ==> WellShaped(imps[k]);
        Going(st.(tree := AddImports(st.tree, st.scope, imps), pos := l.pos, freshScope := false))
  }

  /** `for targets in statement:` opens a Flow whose `set_vars` are the targets. */
  function ForBranch(toks: seq<Token>, st: PState): (r: Loop)
    requires Inv(toks, st) && st.pos > 0
    ensures Continues(toks, st, r)
  {
    var c := toks[st.pos - 1];
    var v := ValueList(toks, st.pos);
    if !v.Got? then Ended(st.tree)
    else if v.val.1.text != "in" then Going(st.(pos := v.pos))
    else
      var s := ParseStatement(toks, v.pos, false, []);
      if !s.Got? then Ended(st.tree)
      else if s.val.stop != ":" then Going(st.(pos := s.pos))
      else
        var f := NewScope(FlowScope("for", s.val.stmt, Entries(v.val.0), None), c.col, LineAt(toks, s.pos));
        var a := AttachFlow(st.tree, st.scope, f);
        Going(st.(tree := a.0, scope := a.1, pos := s.pos))
  }

  const Extended: seq<string> := ["else", "except", "finally"]

  const FlowCommands: seq<string> := ["if", "while", "try", "with", "else", "except", "finally"]

  /** Attach a new Flow: `else`, `except` and `finally` continue the flow that
      is the scope's last statement; the others are a new statement. */
  function OpenFlow(st: PState, f: Node, command: string): (r: Loop)
    requires WF(st.tree) && st.scope < |st.tree| && f.kind.FlowScope? && Detached(f)
    ensures r.Going? ==> WF(r.st.tree) && r.st.scope < |r.st.tree| && r.st.pos == st.pos
    ensures r.Failed? ==> command in Extended
    ensures !r.Ended?
  {
    if command in Extended then
      var chs := st.tree[st.scope].statements;
      if |chs| == 0 then Failed(NoLastStatement)
      else if chs[|chs| - 1].StmtChild? then Failed(NotAFlow)
      else
        assert NodeOk(st.tree, st.scope) && ChildOk(st.tree, st.scope, chs[|chs| - 1]);
        var a := LinkNext(st.tree, chs[|chs| - 1].flow, f);
        Going(st.(tree := a.0, scope := a.1))
    else
      var a := AttachFlow(st.tree, st.scope, f);
      Going(st.(tree := a.0, scope := a.1))
  }

  /** `if`, `while`, `try`, `with`, `else`, `except`, `finally`.  After
      `except E` a `,` and a name (Python 2's `except E, e:`) add the name to
      the statement. */
  function FlowBranch(toks: seq<Token>, st: PState, command: string): (r: Loop)
    requires Inv(toks, st) && st.pos > 0
    ensures Continues(toks, st, r)
  {
    var c := toks[st.pos - 1];
    var added := if command == "except" then [","] else [];
    var s := ParseStatement(toks, st.pos, false, added);
    if !s.Got? then Ended(st.tree)
    else if s.val.stop in added then
      var d := DotName(toks, s.pos, false);
      if !d.Got? then Ended(st.tree)
      else if d.val.NoName? then Failed(UnpackMismatch)
      else if s.val.stmt.None? then Failed(NoneStatement)
      else
        var n := NameOf(toks, d.val, d.pos);
        var stmt := s.val.stmt.value;
        var stmt' := stmt.(setVars := stmt.setVars + [n], code := stmt.code + "," + GetCode(n));
        FlowColon(toks, st.(pos := d.pos), c.col, command, Some(stmt'), d.val.stop.text)
    else FlowColon(toks, st.(pos := s.pos), c.col, command, s.val.stmt, s.val.stop)
  }

  /** `if tok == ':'`: only a header ending in a colon opens the Flow. */
  function FlowColon(toks: seq<Token>, st: PState, indent: int, command: string,
                     stmt: Option<Statement>, tok: string): (r: Loop)
    requires Inv(toks, st)
    ensures Continues(toks, st, r)
  {
    if tok == ":" then
      OpenFlow(st, NewScope(FlowScope(command, stmt, [], None), indent, LineAt(toks, st.pos)), command)
    else Going(st)
  }

  /** `global a, b`: the statement goes to the scope, its used names to the
      top scope's globals. */
  function GlobalBranch(toks: seq<Token>, st: PState): (r: Loop)
    requires Inv(toks, st) && st.pos > 0
    ensures Continues(toks, st, r)
  {
    var s := ParseStatement(toks, st.pos, true, []);
    if !s.Got? then Ended(st.tree)
    else if s.val.stmt.None? then Going(st.(pos := s.pos))
    else
      var t := AttachStatement(st.tree, st.scope, s.val.stmt.value);
      Going(st.(tree := AddGlobals(t, s.val.stmt.value.usedVars), pos := s.pos))
  }

  /** `@decorator`: the statement (even None) joins the buffer. */
  function DecoratorBranch(toks: seq<Token>, st: PState): (r: Loop)
    requires Inv(toks, st) && st.pos > 0
    ensures Continues(toks, st, r)
  {
    var s := ParseStatement(toks, st.pos, false, []);
    if !s.Got? then Ended(st.tree)
    else Going(st.(decorators := st.decorators + [s.val.stmt], pos := s.pos))
  }

  /** A string right after a scope opens is that scope's docstring; one that
      cleans to nothing raises. */
  function DocBranch(toks: seq<Token>, st: PState): (r: Loop)
    requires Inv(toks, st) && st.pos > 0
    ensures Continues(toks, st, r)
  {
    if !st.freshScope then Going(st)
    else
      var d := Docstr.DocClean(toks[st.pos - 1].text);
      if d.None? then Failed(EmptyDocstring)
      else Going(st.(tree := WithDocstr(st.tree, st.scope, d.value)))
  }

  /** Any other NAME or an opening bracket or backquote starts a statement. */
  function StatementBranch(toks: seq<Token>, st: PState): (r: Loop)
    requires Inv(toks, st) && st.pos > 0
    ensures Continues(toks, st, r)
  {
    var s := ParseStatement(toks, st.pos, true, []);
    if !s.Got? then Ended(st.tree)
    else
      var t := if s.val.stmt.Some? then AttachStatement(st.tree, st.scope, s.val.stmt.value) else st.tree;
      Going(st.(tree := t, pos := s.pos, freshScope := false))
  }

  /** The `if`/`elif` chain on the token in hand, up to `for`. */
  function Dispatch(toks: seq<Token>, st: PState): (r: Loop)
    requires Inv(toks, st) && st.pos > 0
    ensures Continues(toks, st, r)
  {
    var c := toks[st.pos - 1];
    if c.text == "def" then OpenScope(st, FunctionHeader(toks, st.pos, c.col))
    else if c.text == "class" then OpenScope(st, ClassHeader(toks, st.pos, c.col))
    else if c.text == "import" then ImportBranch(toks, st)
    else if c.text == "from" then FromBranch(toks, st)
    else if c.text == "for" then ForBranch(toks, st)
    else LaterBranches(toks, st)
  }

  /** The rest of the chain, from the flow keywords on. */
  function LaterBranches(toks: seq<Token>, st: PState): (r: Loop)
    requires Inv(toks, st) && st.pos > 0
    ensures Continues(toks, st, r)
  {
    var c := toks[st.pos - 1];
    if c.text in FlowCommands then FlowBranch(toks, st, c.text)
    else if c.text == "global" then GlobalBranch(toks, st)
    else if c.text == "@" then DecoratorBranch(toks, st)
    else if c.text == "pass" then Going(st)
    else if c.kind == StringTok then DocBranch(toks, st)
    else if c.kind == NameTok || c.text in ["{", "[", "(", "`"] then StatementBranch(toks, st)
    else Going(st)
  }

  /** One turn of the `while True` loop: read a token, run the two closing
      loops, dispatch. */
  function Step(toks: seq<Token>, st: PState): (r: Loop)
    requires Inv(toks, st)
    ensures r.Going? ==> Inv(toks, r.st) && st.pos < r.st.pos
    ensures r.Ended? ==> WF(r.tree)
  {
    if st.pos == |toks| then Ended(st.tree)
    else
      var d := DedentLoop(toks, st.(pos := st.pos + 1));
      if !d.Going? then d
      else Dispatch(toks, Recovered(toks, d.st))
  }

  /** The state the recovery loop leaves, the token in hand being the last
      one consumed. */
  function Recovered(toks: seq<Token>, st: PState): (r: PState)
    requires Inv(toks, st) && st.pos > 0
    ensures Inv(toks, r) && r.pos == st.pos
    ensures r.decorators == st.decorators && r.freshScope == st.freshScope
  {
    var rc := Recover(st.tree, st.scope, toks[st.pos - 1]);
    st.(tree := rc.0, scope := rc.1)
  }

  /** The whole loop, to the end of the tokens or to an exception. */
  function Run(toks: seq<Token>, st: PState): (r: Parse)
    requires Inv(toks, st)
    ensures r.Parsed? ==> WF(r.top)
    decreases |toks| - st.pos
  {
    var s := Step(toks, st);
    if s.Going? then Run(toks, s.st)
    else if s.Ended? then Parsed(s.tree)
    else Raises(s.fault)
  }

  /** `PyFuzzyParser(code).top` for the tokens of `code`. */
  function ParseTokens(toks: seq<Token>): (r: Parse)
    ensures r.Parsed? ==> WF(r.top) && r.top[0].kind == PlainScope && r.top[0].parent == None
  {
    var r := Run(toks, Init());
    assert r.Parsed? ==> NodeOk(r.top, 0);
    r
  }

  // ----- properties of a turn -----

  /** A `def` or `class` whose header does not parse changes nothing but the
      cursor: the scope, the tree and the decorators stay.  One that parses
      becomes the current scope, a subscope of the old one holding the
      buffered decorators, and the buffer empties. */
  lemma HeaderOutcome(toks: seq<Token>, st: PState)
    requires Inv(toks, st) && st.pos > 0 && toks[st.pos - 1].text in ["def", "class"]
    ensures var c := toks[st.pos - 1];
      var h := if c.text == "def" then FunctionHeader(toks, st.pos, c.col) else ClassHeader(toks, st.pos, c.col);
      var r := Dispatch(toks, st);
      (h.Got? && h.val.None? ==> r == Going(st.(pos := h.pos)))
      && (h.Got? && h.val.Some? ==>
            r.Going? && r.st.scope == |st.tree| && r.st.tree[r.st.scope].parent == Some(st.scope)
            && IsDef(r.st.tree[r.st.scope].kind) && r.st.tree[r.st.scope].kind.decorators == st.decorators
            && r.st.tree[st.scope].subscopes == st.tree[st.scope].subscopes + [r.st.scope]
            && r.st.decorators == [] && r.st.freshScope)
      && (h.AtEnd? ==> r == Ended(st.tree))
  {
    var c := toks[st.pos - 1];
    if c.text == "def" {
      FunctionHeaderIff(toks, st.pos, c.col);
    } else {
      ClassHeaderIff(toks, st.pos, c.col);
    }
  }

  /** `import`: each `(name, alias)` pair gives exactly one Import, appended in
      order to the current scope, with no `from_ns` and no star. */
  lemma ImportOnePerPair(toks: seq<Token>, st: PState)
    requires Inv(toks, st) && st.pos > 0 && toks[st.pos - 1].text == "import"
    ensures var c := toks[st.pos - 1];
      var l := ImportList(toks, st.pos);
      var r := Dispatch(toks, st);
      var before := st.tree[st.scope].imports;
      l.Got? ==>
        r.Going? && |r.st.tree| == |st.tree| && r.st.scope == st.scope
        && r.st.tree[st.scope].imports[..|before|] == before
        && |r.st.tree[st.scope].imports| == |before| + |l.val|
        && (forall k :: 0 <= k < |l.val| ==>
              r.st.tree[st.scope].imports[|before| + k]
                == Import(c.col, c.line, LineAt(toks, l.pos), Some(l.val[k].name), l.val[k].alias, None, false))
        && (forall i :: 0 <= i < |st.tree| && i != st.scope ==> r.st.tree[i] == st.tree[i])
  {
    var l := ImportList(toks, st.pos);
    if l.Got? {
      var c := toks[st.pos - 1];
      var imps := PlainImports(l.val, c.col, c.line, LineAt(toks, l.pos));
      var r := Dispatch(toks, st);
      assert r.st.tree[st.scope].imports == st.tree[st.scope].imports + imps;
    }
  }

  /** `from mod import ...`: each pair gives exactly one Import from `mod`; it
      is a star import exactly when the name is `*`, and then its namespace
      is None. */
  lemma FromOnePerPair(toks: seq<Token>, st: PState)
    requires Inv(toks, st) && st.pos > 0 && toks[st.pos - 1].text == "from"
    ensures var d := DotName(toks, st.pos, false);
      var r := Dispatch(toks, st);
      var before := st.tree[st.scope].imports;
      d.Got? && d.val.Path? && d.val.stop.text == "import" && ImportList(toks, d.pos).Got? ==>
        var l := ImportList(toks, d.pos);
        r.Going? && r.st.scope == st.scope && |r.st.tree| == |st.tree|
        && r.st.tree[st.scope].imports[..|before|] == before
        && |r.st.tree[st.scope].imports| == |before| + |l.val|
        && forall k :: 0 <= k < |l.val| ==>
             var i := r.st.tree[st.scope].imports[|before| + k];
             i.fromNs == Some(NameOf(toks, d.val, d.pos)) && i.alias == l.val[k].alias
             && |l.val[k].name.names| > 0
             && (i.star <==> l.val[k].name.names[0] == "*")
             && (i.namespace.None? <==> i.star)
             && (!i.star ==> i.namespace == Some(l.val[k].name))
  {
    var d := DotName(toks, st.pos, false);
    if d.Got? && d.val.Path? && d.val.stop.text == "import" && ImportList(toks, d.pos).Got? {
      var l := ImportList(toks, d.pos);
      ImportLoopPairs(toks, d.pos, []);
      assert forall k :: 0 <= k < |l.val| ==> PairOk(l.val[k]);
      var c := toks[st.pos - 1];
      var imps := FromImports(l.val, c.col, c.line, LineAt(toks, l.pos), NameOf(toks, d.val, d.pos));
      var r := Dispatch(toks, st);
      assert r.st.tree[st.scope].imports == st.tree[st.scope].imports + imps;
      forall k | 0 <= k < |l.val|
        ensures var i := r.st.tree[st.scope].imports[|st.tree[st.scope].imports| + k];
          i == imps[k]
      {
      }
    }
  }

  /** A `from` whose module name is not followed by `import` is skipped. */
  lemma FromWithoutImportSkipped(toks: seq<Token>, st: PState)
    requires Inv(toks, st) && st.pos > 0 && toks[st.pos - 1].text == "from"
    ensures var d := DotName(toks, st.pos, false);
      d.Got? && d.val.Path? && d.val.stop.text != "import" ==> Dispatch(toks, st) == Going(st.(pos := d.pos))
  {
  }

  /** `global a, b`: the top scope's globals grow by the statement's used
      names, none of which is `global` itself. */
  lemma GlobalsGoToTop(toks: seq<Token>, st: PState)
    requires Inv(toks, st) && st.pos > 0 && toks[st.pos - 1].text == "global"
    ensures var s := ParseStatement(toks, st.pos, true, []);
      var r := Dispatch(toks, st);
      s.Got? && s.val.stmt.Some? ==>
        r.Going? && r.st.scope == st.scope
        && r.st.tree[0].globalVars == st.tree[0].globalVars + s.val.stmt.value.usedVars
        && forall k :: 0 <= k < |s.val.stmt.value.usedVars| ==>
             |s.val.stmt.value.usedVars[k].names| > 0 && s.val.stmt.value.usedVars[k].names[0] != "global"
  {
    ParseStatementNames(toks, st.pos, true, []);
    var s := ParseStatement(toks, st.pos, true, []);
    if s.Got? && s.val.stmt.Some? {
      var t := AttachStatement(st.tree, st.scope, s.val.stmt.value);
      assert t[0].globalVars == st.tree[0].globalVars;
    }
  }

  /** `else`, `except` and `finally` with a colon continue the flow that is
      the scope's last statement: the new flow goes to the tail of its chain,
      with the scope as parent, and becomes the current scope; the scope's
      own lists do not change.  Without a last statement, or when it is not
      a flow, the parser raises. */
  lemma ContinuationLinks(st: PState, f: Node, command: string)
    requires WF(st.tree) && st.scope < |st.tree| && f.kind.FlowScope? && Detached(f)
    requires command in Extended
    ensures var r := OpenFlow(st, f, command);
      var chs := st.tree[st.scope].statements;
      (|chs| == 0 ==> r == Failed(NoLastStatement))
      && (|chs| > 0 && chs[|chs| - 1].StmtChild? ==> r == Failed(NotAFlow))
      && (|chs| > 0 && chs[|chs| - 1].FlowChild? ==>
            r.Going? && r.st.scope == |st.tree|
            && r.st.tree[r.st.scope] == f.(parent := Some(st.scope))
            && r.st.tree[st.scope] == st.tree[st.scope]
            && ChildOk(st.tree, st.scope, chs[|chs| - 1])
            && var t := ChainTail(st.tree, chs[|chs| - 1].flow);
               r.st.tree[t].kind.next == Some(r.st.scope))
  {
    var chs := st.tree[st.scope].statements;
    if |chs| > 0 && chs[|chs| - 1].FlowChild? {
      assert NodeOk(st.tree, st.scope) && ChildOk(st.tree, st.scope, chs[|chs| - 1]);
      var h := chs[|chs| - 1].flow;
      LinkNextNotAStatement(st.tree, h, f, st.scope);
      var a := LinkNext(st.tree, h, f);
      var t := ChainTail(st.tree, h);
      assert st.scope != t by {
        assert st.tree[t].parent == st.tree[h].parent == Some(st.scope);
      }
    }
  }
}
