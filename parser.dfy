/** `PyFuzzyParser` (parsing.py:500-982) as an object: a cursor over the
    tokens, the current token and line, the current scope and the scope tree.
    The `decorators` buffer and the `freshscope` flag of `parse` are kept as
    fields too, so that every branch of the loop is a method of its own.
    Each reader and each branch is proved to compute what the matching
    function of Readers or Engine says, and `Parse` to compute `ParseTokens`. */
module Parsers {
  import opened Basics
  import opened Tokens
  import opened Nodes
  import opened ScopeTree
  import opened Readers
  import opened Engine
  import opened Trees
  import Text
  import Docstr

  /** How a branch of the loop ends: the loop goes on, StopIteration stops
      it, or an exception escapes. */
  datatype Turn = Continue | Stop | Raise(fault: Fault)

  class Parser {
    const toks: seq<Token>
    var pos: nat
    var current: Option<Cur>
    var lineNr: int
    var scope: Id
    var decorators: seq<Option<Statement>>
    var freshScope: bool
    const tree: Tree

    /** `current` and `line_nr` describe the last token consumed, and the
        current scope is a node of the tree. */
    ghost predicate Valid()
      reads this, tree
    {
      pos <= |toks| && current == CurrentAt(toks, pos) && lineNr == LineAt(toks, pos)
      && tree.Valid() && scope < |tree.nodes|
    }

    /** The state of the parse loop, as Engine describes it. */
    ghost function State(): PState
      reads this, tree
    {
      PState(tree.nodes, scope, decorators, freshScope, pos)
    }

    /** A branch ended as the matching Engine function says. */
    ghost predicate Agrees(r: Loop, t: Turn)
      reads this, tree
    {
      match r
      case Going(st) => t == Continue && State() == st
      case Ended(nodes) => t == Stop && tree.nodes == nodes
      case Failed(f) => t == Raise(f)
    }

    /** `__init__` (parsing.py:510-518) up to the call of `parse`. */
    constructor (toks: seq<Token>)
      ensures Valid() && this.toks == toks && State() == Init()
      ensures fresh(tree)
    {
      this.toks := toks;
      pos := 0;
      current := None;
      lineNr := 0;
      scope := 0;
      decorators := [];
      freshScope := true;
      tree := new Tree();
    }

    /** `next` (parsing.py:814-827): take the next token, or raise
        StopIteration (None) when there is none. */
    method Next() returns (c: Option<Cur>)
      requires Valid()
      modifies this`pos, this`current, this`lineNr
      ensures Valid()
      ensures old(pos) < |toks| ==> pos == old(pos) + 1 && c == Some(CurOf(toks[old(pos)]))
      ensures old(pos) == |toks| ==> pos == old(pos) && c == None
    {
      if pos == |toks| {
        return None;
      }
      var t := toks[pos];
      lineNr := t.line;
      current := Some(CurOf(t));
      pos := pos + 1;
      c := current;
    }

    // ----- the readers -----

    /** `_parsedotname` (parsing.py:520-550). */
    method DotName(pre: bool) returns (r: Read<Dotted>)
      requires Valid() && (pre ==> pos > 0)
      modifies this`pos, this`current, this`lineNr
      ensures Valid() && r == Readers.DotName(toks, old(pos), pre)
      ensures r.Got? ==> pos == r.pos
    {
      var first: Cur;
      if pre {
        first := current.value;
      } else {
        var c := Next();
        if c.None? {
          return AtEnd;
        }
        first := c.value;
        if first.kind != NameTok && first.text != "*" {
          return Got(NoName(first), pos);
        }
      }
      var startLine := lineNr;
      var startIndent := first.indent;
      var d := DotLoop([first.text]);
      if !d.Got? {
        return AtEnd;
      }
      r := Got(Path(d.val.0, d.val.1, startIndent, startLine), pos);
    }

    /** The `while True` loop of `_parsedotname` (parsing.py:542-549). */
    method DotLoop(names0: seq<string>) returns (r: Read<(seq<string>, Cur)>)
      requires Valid()
      modifies this`pos, this`current, this`lineNr
      ensures Valid() && r == Readers.DotLoop(toks, old(pos), names0)
      ensures r.Got? ==> pos == r.pos
    {
      var names := names0;
      ghost var q := pos;
      var tok: Cur;
      while true
        invariant Valid() && q <= pos
        invariant Readers.DotLoop(toks, pos, names) == Readers.DotLoop(toks, q, names0)
        decreases |toks| - pos
      {
        var c := Next();
        if c.None? {
          return AtEnd;
        }
        if c.value.text != "." {
          tok := c.value;
          break;
        }
        c := Next();
        if c.None? {
          return AtEnd;
        }
        if c.value.kind != NameTok {
          tok := c.value;
          break;
        }
        names := names + [c.value.text];
      }
      r := Got((names, tok), pos);
    }

    /** `_parse_value_list()` (parsing.py:552-580), called without a
        pre-used token as the parser always does. */
    method ValueList() returns (r: Read<(seq<Name>, Cur)>)
      requires Valid()
      modifies this`pos, this`current, this`lineNr
      ensures Valid() && r == Readers.ValueList(toks, old(pos))
      ensures r.Got? ==> pos == r.pos
    {
      var c := Next();
      if c.None? {
        return AtEnd;
      }
      r := ValueLoop([]);
    }

    /** The `while` loop of `_parse_value_list` (parsing.py:568-579), entered
        with its first token just read. */
    method ValueLoop(values0: seq<Name>) returns (r: Read<(seq<Name>, Cur)>)
      requires Valid() && pos > 0
      modifies this`pos, this`current, this`lineNr
      ensures Valid() && r == Readers.ValueLoop(toks, old(pos), values0)
      ensures r.Got? ==> pos == r.pos
    {
      var values := values0;
      var tok := current.value;
      ghost var q := pos;
      while tok.text != "in" && tok.kind != NewlineTok
        invariant Valid() && 0 < q <= pos && tok == CurOf(toks[pos - 1])
        invariant Readers.ValueLoop(toks, pos, values) == Readers.ValueLoop(toks, q, values0)
        decreases |toks| - pos
      {
        var out, more, values' := ValueTurn(values);
        if !more {
          return out;
        }
        values, tok := values', current.value;
      }
      r := Got((values, tok), pos);
    }

    /** One turn of that loop: a dotted name, then the `in` test and the next
        token.  `more` says the loop goes on with `values'`. */
    method ValueTurn(values: seq<Name>) returns (r: Read<(seq<Name>, Cur)>, more: bool, values': seq<Name>)
      requires Valid() && pos > 0
      requires toks[pos - 1].text != "in" && toks[pos - 1].kind != NewlineTok
      modifies this`pos, this`current, this`lineNr
      ensures Valid()
      ensures more ==>
        old(pos) < pos && Readers.ValueLoop(toks, old(pos), values) == Readers.ValueLoop(toks, pos, values')
      ensures !more ==> r == Readers.ValueLoop(toks, old(pos), values) && (r.Got? ==> pos == r.pos)
    {
      var d := DotName(true);
      more, values' := false, values;
      if !d.Got? {
        return AtEnd, more, values';
      }
      values' := values + [Name(d.val.names, d.val.startIndent, d.val.startLine, lineNr)];
      assert values'[|values'| - 1] == Readers.NameOf(toks, d.val, pos);
      if d.val.stop.text == "in" {
        return Got((values', d.val.stop), pos), more, values';
      }
      var c := Next();
      if c.None? {
        return AtEnd, more, values';
      }
      r, more := AtEnd, true;
    }

    /** One turn of the loop of `_parseimportlist` (parsing.py:598-611). */
    method ImportItem() returns (r: Read<(Pair, Cur)>)
      requires Valid()
      modifies this`pos, this`current, this`lineNr
      ensures Valid() && r == Readers.ImportItem(toks, old(pos))
      ensures r.Got? ==> pos == r.pos
    {
      var d := DotName(false);
      if !d.Got? {
        return AtEnd;
      }
      if d.val.NoName? {
        return Raised(UnpackMismatch);
      }
      var alias: Option<Name> := None;
      var startLine := d.val.startLine;
      var tok := d.val.stop;
      if tok.text == "as" {
        var a := DotName(false);
        if !a.Got? {
          return AtEnd;
        }
        if a.val.NoName? {
          return Raised(UnpackMismatch);
        }
        alias := Some(Name(a.val.names, a.val.startIndent, a.val.startLine, lineNr));
        startLine := a.val.startLine;
        tok := a.val.stop;
      }
      var name := Name(d.val.names, d.val.startIndent, startLine, lineNr);
      var sk := SkipTo(tok);
      if !sk.Got? {
        return AtEnd;
      }
      r := Got((Pair(name, alias), sk.val), pos);
    }

    /** The loop that skips to the end of an import item (parsing.py:610-611). */
    method SkipTo(tok0: Cur) returns (r: Read<Cur>)
      requires Valid()
      modifies this`pos, this`current, this`lineNr
      ensures Valid() && r == Readers.SkipTo(toks, old(pos), tok0)
      ensures r.Got? ==> pos == r.pos
    {
      ghost var q := pos;
      var tok := tok0;
      while tok.text != "," && '\n' !in tok.text
        invariant Valid() && q <= pos
        invariant Readers.SkipTo(toks, pos, tok) == Readers.SkipTo(toks, q, tok0)
        decreases |toks| - pos
      {
        var c := Next();
        if c.None? {
          return AtEnd;
        }
        tok := c.value;
      }
      r := Got(tok, pos);
    }

    /** `_parseimportlist` (parsing.py:582-613). */
    method ImportList() returns (r: Read<seq<Pair>>)
      requires Valid()
      modifies this`pos, this`current, this`lineNr
      ensures Valid() && r == Readers.ImportList(toks, old(pos))
      ensures r.Got? ==> pos == r.pos
    {
      var imports := [];
      ghost var q := pos;
      while true
        invariant Valid() && q <= pos
        invariant ImportLoop(toks, pos, imports) == ImportLoop(toks, q, [])
        decreases |toks| - pos
      {
        var it := ImportItem();
        if it.AtEnd? {
          return AtEnd;
        }
        if it.Raised? {
          return Raised(it.fault);
        }
        imports := imports + [it.val.0];
        if it.val.1.text != "," {
          return Got(imports, pos);
        }
      }
    }

    /** The body of the `while` loop of `_parse_statement`
        (parsing.py:763-807) on a token that does not stop it. */
    method ScanToken(s: StmtState, cur: Cur) returns (r: Read<(StmtState, Cur)>)
      requires Valid() && 0 < pos && cur == CurOf(toks[pos - 1])
      modifies this`pos, this`current, this`lineNr
      ensures Valid() && r == Readers.StmtStep(toks, old(pos), s, cur)
      ensures r.Got? ==> pos == r.pos && r.val.1 == CurOf(toks[pos - 1])
    {
      if cur.text == "as" {
        var s1 := s.(text := s.text + " as ");
        var c := Next();
        if c.None? {
          return AtEnd;
        }
        if c.value.kind != NameTok {
          return Got((s1, c.value), pos);
        }
        var d := DotName(true);
        if !d.Got? {
          return AtEnd;
        }
        var n := Name(d.val.names, d.val.startIndent, d.val.startLine, lineNr);
        return Got((s1.(setVars := s1.setVars + [n], text := s1.text + Text.Join(d.val.names, ".")),
                    d.val.stop), pos);
      }
      if cur.kind == NameTok && cur.text !in Restarts && cur.text !in Drops {
        var d := DotName(true);
        if !d.Got? {
          return AtEnd;
        }
        var n := Name(d.val.names, d.val.startIndent, d.val.startLine, lineNr);
        var s' := s;
        if d.val.stop.text == "(" {
          s' := s'.(usedFuncs := s'.usedFuncs + [n]);
        } else if n.names[0] != "global" {
          s' := s'.(usedVars := s'.usedVars + [n]);
        }
        var sep := if |s.text| > 0 && IsWordChar(s.text[|s.text| - 1]) then " " else "";
        s' := s'.(text := s.text + sep + Text.Join(d.val.names, "."));
        return Got((s', d.val.stop), pos);
      }
      var s' := s;
      if cur.kind == NameTok {
        s' := s'.(text := if cur.text in Restarts then cur.text + " " else "");
      } else {
        if '=' in cur.text && cur.text !in ["<=", ">=", "==", "!="] {
          s' := s'.(setVars := s'.usedVars, usedVars := []);
        } else if cur.text in ["{", "(", "["] {
          s' := s'.(level := s'.level + 1);
        } else if cur.text in ["}", ")", "]"] {
          s' := s'.(level := s'.level - 1);
        }
        s' := s'.(text := s'.text + cur.text);
      }
      var c := Next();
      if c.None? {
        return AtEnd;
      }
      r := Got((s', c.value), pos);
    }

    /** `_parse_statement(pre_used_token, added_breaks)` (parsing.py:723-812). */
    method ParseStatement(pre: bool, added: seq<string>) returns (r: Read<Scanned>)
      requires Valid() && (pre ==> pos > 0)
      modifies this`pos, this`current, this`lineNr
      ensures Valid() && r == Readers.ParseStatement(toks, old(pos), pre, added)
      ensures r.Got? ==> pos == r.pos
    {
      var first: Cur;
      if pre {
        first := current.value;
      } else {
        var c := Next();
        if c.None? {
          return AtEnd;
        }
        first := c.value;
      }
      var lineStart := lineNr;
      var l := StmtLoop(added, first);
      if !l.Got? {
        return AtEnd;
      }
      var s := l.val.0;
      var stmt := if s.text == "" then None
        else Some(Statement(s.text, s.setVars, s.usedFuncs, s.usedVars, first.indent, lineStart, lineNr, None));
      r := Got(Scanned(stmt, l.val.1.text), pos);
    }

    /** The `while` loop of `_parse_statement` (parsing.py:760-810), from a
        fresh statement whose first token `first` was just read. */
    method StmtLoop(added: seq<string>, first: Cur) returns (r: Read<(StmtState, Cur)>)
      requires Valid() && pos > 0 && first == CurOf(toks[pos - 1])
      modifies this`pos, this`current, this`lineNr
      ensures Valid() && r == Readers.StmtLoop(toks, old(pos), added, StmtState("", [], [], [], 0), first)
      ensures r.Got? ==> pos == r.pos
    {
      ghost var q := pos;
      var s := StmtState("", [], [], [], 0);
      var cur := first;
      while !StopsAt(cur.text, added, s.level)
        invariant Valid() && 0 < q <= pos && cur == CurOf(toks[pos - 1])
        invariant Readers.StmtLoop(toks, pos, added, s, cur)
          == Readers.StmtLoop(toks, q, added, StmtState("", [], [], [], 0), first)
        decreases |toks| - pos
      {
        ghost var p := pos;
        var st := ScanToken(s, cur);
        assert Readers.StmtLoop(toks, p, added, s, cur)
          == if !st.Got? then AtEnd else Readers.StmtLoop(toks, st.pos, added, st.val.0, st.val.1);
        if !st.Got? {
          return AtEnd;
        }
        s, cur := st.val.0, st.val.1;
      }
      r := Got((s, cur), pos);
    }

    /** `_parseparen` (parsing.py:615-629). */
    method Paren() returns (r: Read<seq<Statement>>)
      requires Valid()
      modifies this`pos, this`current, this`lineNr
      ensures Valid() && r == Readers.Paren(toks, old(pos))
      ensures r.Got? ==> pos == r.pos
    {
      var names := [];
      var tok: Option<string> := None;
      ghost var q := pos;
      while !(tok.Some? && tok.value in [")", "\n", ":"])
        invariant Valid() && q <= pos
        invariant ParenLoop(toks, pos, names, tok) == ParenLoop(toks, q, [], None)
        decreases |toks| - pos, if tok.None? then 1 else 0
      {
        var s := ParseStatement(false, [","]);
        if !s.Got? {
          return AtEnd;
        }
        if s.val.stmt.Some? {
          names := names + [s.val.stmt.value];
        }
        tok := Some(s.val.stop);
      }
      r := Got(names, pos);
    }

    /** `_parsefunction(indent)` (parsing.py:631-657). */
    method ParseFunction(indent: int) returns (r: Read<Option<Node>>)
      requires Valid()
      modifies this`pos, this`current, this`lineNr
      ensures Valid() && r == FunctionHeader(toks, old(pos), indent)
      ensures r.Got? ==> pos == r.pos
    {
      var startLine := lineNr;
      var c := Next();
      if c.None? {
        return AtEnd;
      }
      if c.value.kind != NameTok {
        return Got(None, pos);
      }
      var fname := Name([c.value.text], c.value.indent, lineNr, lineNr);
      c := Next();
      if c.None? {
        return AtEnd;
      }
      if c.value.text != "(" {
        return Got(None, pos);
      }
      var params := Paren();
      if !params.Got? {
        return AtEnd;
      }
      c := Next();
      if c.None? {
        return AtEnd;
      }
      if c.value.text != ":" {
        return Got(None, pos);
      }
      r := Got(Some(NewScope(FunctionScope(fname, params.val, []), indent, startLine)), pos);
    }

    /** `_parseclass(indent)` (parsing.py:659-684). */
    method ParseClass(indent: int) returns (r: Read<Option<Node>>)
      requires Valid()
      modifies this`pos, this`current, this`lineNr
      ensures Valid() && r == ClassHeader(toks, old(pos), indent)
      ensures r.Got? ==> pos == r.pos
    {
      var startLine := lineNr;
      var c := Next();
      if c.None? {
        return AtEnd;
      }
      if c.value.kind != NameTok {
        return Got(None, pos);
      }
      var cname := Name([c.value.text], c.value.indent, lineNr, lineNr);
      var supers := [];
      c := Next();
      if c.None? {
        return AtEnd;
      }
      if c.value.text == "(" {
        var sp := Paren();
        if !sp.Got? {
          return AtEnd;
        }
        supers := sp.val;
      } else if c.value.text != ":" {
        return Got(None, pos);
      }
      r := Got(Some(NewScope(ClassScope(cname, supers, []), indent, startLine)), pos);
    }

    // ----- the two closing loops of parse (parsing.py:856-872) -----

    /** The DEDENT loop (parsing.py:856-862). */
    method Dedent() returns (ended: bool)
      requires Valid() && pos > 0
      modifies this`pos, this`current, this`lineNr, this`scope, tree
      ensures Valid()
      ensures var r := DedentLoop(toks, old(State()));
        if ended then r == Ended(tree.nodes) else r == Going(State())
    {
      while current.value.kind == DedentTok && scope != 0
        invariant Valid() && pos > 0
        invariant DedentLoop(toks, State()) == DedentLoop(toks, old(State()))
        decreases |toks| - pos
      {
        var out := DedentTurn();
        if out {
          return true;
        }
      }
      ended := false;
    }

    /** One turn of the DEDENT loop: read a token, and close the scope when
        the token is not indented past it. */
    method DedentTurn() returns (ended: bool)
      requires Valid() && pos > 0 && current.value.kind == DedentTok && scope != 0
      modifies this`pos, this`current, this`lineNr, this`scope, tree
      ensures Valid() && pos > 0
      ensures ended ==> DedentLoop(toks, old(State())) == Ended(tree.nodes)
      ensures !ended ==> pos == old(pos) + 1 && DedentLoop(toks, old(State())) == DedentLoop(toks, State())
    {
      var c := Next();
      if c.None? {
        return true;
      }
      if c.value.indent <= tree.nodes[scope].indent {
        assert NodeOk(tree.nodes, scope);
        var up := tree.nodes[scope].parent.value;
        tree.Close(scope, lineNr);
        scope := up;
      }
      ended := false;
    }

    /** The recovery loop for tokens not indented past the scope
        (parsing.py:864-872). */
    method RecoverScope()
      requires Valid() && pos > 0
      modifies this`scope, tree
      ensures Valid() && State() == Recovered(toks, old(State()))
    {
      var t := current.value;
      while t.indent <= tree.nodes[scope].indent && t.kind == NameTok && scope != 0
        invariant Valid()
        invariant Recover(tree.nodes, scope, toks[pos - 1]) == Recover(old(tree.nodes), old(scope), toks[pos - 1])
        decreases scope
      {
        assert NodeOk(tree.nodes, scope);
        var up := tree.nodes[scope].parent.value;
        tree.Close(scope, lineNr);
        scope := up;
      }
    }

    // ----- the branches of parse (parsing.py:874-978) -----

    /** `self.scope = self.scope.add_scope(func, decorators)` for a header that
        parsed (parsing.py:876-891). */
    method OpenScope(h: Read<Option<Node>>, ghost st: PState) returns (t: Turn)
      requires Valid() && st == State().(pos := st.pos) && !h.Raised?
      requires h.Got? ==> pos == h.pos && h.pos >= st.pos
      requires h.Got? && h.val.Some? ==> IsDef(h.val.value.kind) && Detached(h.val.value)
      modifies this`scope, this`decorators, this`freshScope, tree
      ensures Valid() && Agrees(Engine.OpenScope(st, h), t)
    {
      if h.AtEnd? {
        return Stop;
      }
      if h.val.None? {
        return Continue;
      }
      var id := tree.AddScope(scope, h.val.value, decorators);
      scope := id;
      decorators := [];
      freshScope := true;
      t := Continue;
    }

    /** The loop `for m, alias in imports: self.scope.add_import(...)` of the
        `import` branch (parsing.py:891-893). */
    method AddPlainImports(pairs: seq<Pair>, indent: int, start: int)
      requires Valid()
      modifies tree
      ensures Valid()
      ensures tree.nodes == AddImports(old(tree.nodes), scope, PlainImports(pairs, indent, start, lineNr))
    {
      ghost var imps := PlainImports(pairs, indent, start, lineNr);
      ghost var nodes0 := tree.nodes;
      var i := 0;
      while i < |pairs|
        invariant 0 <= i <= |pairs| && Valid()
        invariant tree.nodes == AddImports(nodes0, scope, imps[..i])
        decreases |pairs| - i
      {
        assert imps[..i + 1][..i] == imps[..i];
        tree.AddImport(scope, Import(indent, start, lineNr, Some(pairs[i].name), pairs[i].alias, None, false));
        i := i + 1;
      }
      assert imps[..i] == imps;
    }

    /** The loop `for name, alias in names: ... self.scope.add_import(i)` of
        the `from` branch (parsing.py:904-911). */
    method AddFromImports(pairs: seq<Pair>, indent: int, start: int, mod: Name)
      requires Valid() && forall k :: 0 <= k < |pairs| ==> |pairs[k].name.names| > 0
      modifies tree
      ensures Valid()
      ensures tree.nodes == AddImports(old(tree.nodes), scope, FromImports(pairs, indent, start, lineNr, mod))
    {
      ghost var imps := FromImports(pairs, indent, start, lineNr, mod);
      ghost var nodes0 := tree.nodes;
      var i := 0;
      while i < |pairs|
        invariant 0 <= i <= |pairs| && Valid()
        invariant tree.nodes == AddImports(nodes0, scope, imps[..i])
        decreases |pairs| - i
      {
        assert imps[..i + 1][..i] == imps[..i];
        var name := pairs[i].name;
        var star := name.names[0] == "*";
        FromImportShape(pairs[i], indent, start, lineNr, mod);
        tree.AddImport(scope, Import(indent, start, lineNr, if star then None else Some(name),
                                     pairs[i].alias, Some(mod), star));
        i := i + 1;
      }
      assert imps[..i] == imps;
    }

    /** The loop `for name in stmt.used_vars: self.top.add_global(name)` of
        the `global` branch (parsing.py:956-959). */
    method AddTopGlobals(names: seq<Name>)
      requires Valid()
      modifies tree
      ensures Valid() && tree.nodes == AddGlobals(old(tree.nodes), names)
    {
      ghost var nodes0 := tree.nodes;
      var i := 0;
      while i < |names|
        invariant 0 <= i <= |names| && Valid()
        invariant tree.nodes == AddGlobals(nodes0, names[..i])
        decreases |names| - i
      {
        assert names[..i + 1][..i] == names[..i];
        tree.AddGlobal(0, names[i]);
        i := i + 1;
      }
      assert names[..i] == names;
    }

    /** `import` (parsing.py:889-894). */
    method ImportBranch() returns (t: Turn)
      requires Valid() && pos > 0
      modifies this`pos, this`current, this`lineNr, this`freshScope, tree
      ensures Valid() && Agrees(Engine.ImportBranch(toks, old(State())), t)
    {
      ghost var st := State();
      var indent := current.value.indent;
      var startLine := lineNr;
      var l := ImportList();
      if l.AtEnd? {
        return Stop;
      }
      if l.Raised? {
        return Raise(l.fault);
      }
      AddPlainImports(l.val, indent, startLine);
      freshScope := false;
      assert State() == st.(tree := tree.nodes, pos := l.pos, freshScope := false);
      t := Continue;
    }

    /** `from` (parsing.py:895-913). */
    method FromBranch() returns (t: Turn)
      requires Valid() && pos > 0
      modifies this`pos, this`current, this`lineNr, this`freshScope, tree
      ensures Valid() && Agrees(Engine.FromBranch(toks, old(State())), t)
    {
      var indent := current.value.indent;
      var startLine := lineNr;
      var d := DotName(false);
      if !d.Got? {
        return Stop;
      }
      if d.val.NoName? {
        return Raise(UnpackMismatch);
      }
      if d.val.stop.text != "import" {
        return Continue;
      }
      var mod := Name(d.val.names, d.val.startIndent, d.val.startLine, lineNr);
      ghost var p := pos;
      var l := ImportList();
      if l.AtEnd? {
        return Stop;
      }
      if l.Raised? {
        return Raise(l.fault);
      }
      ImportLoopPairs(toks, p, []);
      assert forall k :: 0 <= k < |l.val| ==> PairOk(l.val[k]);
      AddFromImports(l.val, indent, startLine, mod);
      freshScope := false;
      t := Continue;
    }

    /** `for` (parsing.py:915-924). */
    method ForBranch() returns (t: Turn)
      requires Valid() && pos > 0
      modifies this, tree
      ensures Valid() && Agrees(Engine.ForBranch(toks, old(State())), t)
    {
      var indent := current.value.indent;
      var v := ValueList();
      if !v.Got? {
        return Stop;
      }
      if v.val.1.text != "in" {
        return Continue;
      }
      var s := ParseStatement(false, []);
      if !s.Got? {
        return Stop;
      }
      if s.val.stop != ":" {
        return Continue;
      }
      var f := NewScope(FlowScope("for", s.val.stmt, Entries(v.val.0), None), indent, lineNr);
      var id := tree.AddFlow(scope, f);
      scope := id;
      t := Continue;
    }

    /** `if tok == ':'` of the flow branch (parsing.py:941-949): only a header
        ending in a colon opens the Flow. */
    method FlowColon(indent: int, command: string, stmt: Option<Statement>, tok: string) returns (t: Turn)
      requires Valid()
      modifies this`scope, tree
      ensures Valid() && Agrees(Engine.FlowColon(toks, old(State()), indent, command, stmt, tok), t)
    {
      if tok != ":" {
        return Continue;
      }
      var f := NewScope(FlowScope(command, stmt, [], None), indent, lineNr);
      t := OpenFlow(f, command);
    }

    /** The new Flow: `else`, `except` and `finally` hang it on the last
        statement (parsing.py:944-947), the others add it (parsing.py:949). */
    method OpenFlow(f: Node, command: string) returns (t: Turn)
      requires Valid() && f.kind.FlowScope? && Detached(f)
      modifies this`scope, tree
      ensures Valid() && Agrees(Engine.OpenFlow(old(State()), f, command), t)
    {
      if command in Extended {
        var chs := tree.nodes[scope].statements;
        if |chs| == 0 {
          return Raise(NoLastStatement);
        }
        if chs[|chs| - 1].StmtChild? {
          return Raise(NotAFlow);
        }
        assert NodeOk(tree.nodes, scope) && ChildOk(tree.nodes, scope, chs[|chs| - 1]);
        var id := tree.SetNext(chs[|chs| - 1].flow, f);
        scope := id;
      } else {
        var id := tree.AddFlow(scope, f);
        scope := id;
      }
      t := Continue;
    }

    /** `if`, `while`, `try`, `with`, `else`, `except`, `finally`
        (parsing.py:926-950). */
    method FlowBranch() returns (t: Turn)
      requires Valid() && pos > 0
      modifies this, tree
      ensures Valid() && Agrees(Engine.FlowBranch(toks, old(State()), toks[old(pos) - 1].text), t)
    {
      ghost var st := State();
      var indent := current.value.indent;
      var command := current.value.text;
      var added := if command == "except" then [","] else [];
      var s := ParseStatement(false, added);
      if !s.Got? {
        return Stop;
      }
      var stmt := s.val.stmt;
      var tok := s.val.stop;
      if tok in added {
        var d := DotName(false);
        if !d.Got? {
          return Stop;
        }
        if d.val.NoName? {
          return Raise(UnpackMismatch);
        }
        var n := Name(d.val.names, d.val.startIndent, d.val.startLine, lineNr);
        if stmt.None? {
          return Raise(NoneStatement);
        }
        stmt := Some(stmt.value.(setVars := stmt.value.setVars + [n], code := stmt.value.code + "," + GetCode(n)));
        tok := d.val.stop.text;
      }
      assert State() == st.(pos := pos);
      t := FlowColon(indent, command, stmt, tok);
    }

    /** `global` (parsing.py:951-960). */
    method GlobalBranch() returns (t: Turn)
      requires Valid() && pos > 0
      modifies this, tree
      ensures Valid() && Agrees(Engine.GlobalBranch(toks, old(State())), t)
    {
      var s := ParseStatement(true, []);
      if !s.Got? {
        return Stop;
      }
      if s.val.stmt.None? {
        return Continue;
      }
      tree.AddStatement(scope, s.val.stmt.value);
      AddTopGlobals(s.val.stmt.value.usedVars);
      t := Continue;
    }

    /** `@` (parsing.py:962-964). */
    method DecoratorBranch() returns (t: Turn)
      requires Valid() && pos > 0
      modifies this, tree
      ensures Valid() && Agrees(Engine.DecoratorBranch(toks, old(State())), t)
    {
      var s := ParseStatement(false, []);
      if !s.Got? {
        return Stop;
      }
      decorators := decorators + [s.val.stmt];
      t := Continue;
    }

    /** A STRING token (parsing.py:968-970). */
    method DocBranch() returns (t: Turn)
      requires Valid() && pos > 0
      modifies this, tree
      ensures Valid() && Agrees(Engine.DocBranch(toks, old(State())), t)
    {
      ghost var st := State();
      if freshScope {
        var text := current.value.text;
        assert text == toks[pos - 1].text;
        var raised := tree.AddDocstr(scope, text);
        if raised {
          return Raise(EmptyDocstring);
        }
        assert State() == st.(tree := WithDocstr(st.tree, st.scope, Docstr.DocClean(text).value));
      }
      t := Continue;
    }

    /** A NAME or an opening bracket (parsing.py:974-978). */
    method StatementBranch() returns (t: Turn)
      requires Valid() && pos > 0
      modifies this, tree
      ensures Valid() && Agrees(Engine.StatementBranch(toks, old(State())), t)
    {
      var s := ParseStatement(true, []);
      if !s.Got? {
        return Stop;
      }
      if s.val.stmt.Some? {
        tree.AddStatement(scope, s.val.stmt.value);
      }
      freshScope := false;
      t := Continue;
    }

    /** The `if`/`elif` chain on the token in hand, up to `for` (parsing.py:874-925). */
    method Dispatch() returns (t: Turn)
      requires Valid() && pos > 0
      modifies this, tree
      ensures Valid() && Agrees(Engine.Dispatch(toks, old(State())), t)
    {
      ghost var st := State();
      var c := current.value;
      assert c == CurOf(toks[pos - 1]);
      if c.text == "def" {
        var h := ParseFunction(c.indent);
        t := OpenScope(h, st);
      } else if c.text == "class" {
        var h := ParseClass(c.indent);
        t := OpenScope(h, st);
      } else if c.text == "import" {
        assert Engine.Dispatch(toks, st) == Engine.ImportBranch(toks, st);
        t := ImportBranch();
      } else if c.text == "from" {
        assert Engine.Dispatch(toks, st) == Engine.FromBranch(toks, st);
        t := FromBranch();
      } else if c.text == "for" {
        assert Engine.Dispatch(toks, st) == Engine.ForBranch(toks, st);
        t := ForBranch();
      } else {
        assert Engine.Dispatch(toks, st) == Engine.LaterBranches(toks, st);
        t := LaterBranches();
      }
    }

    /** The rest of the chain, from the flow keywords on (parsing.py:926-977). */
    method LaterBranches() returns (t: Turn)
      requires Valid() && pos > 0
      modifies this, tree
      ensures Valid() && Agrees(Engine.LaterBranches(toks, old(State())), t)
    {
      var c := current.value;
      if c.text in FlowCommands {
        t := FlowBranch();
      } else if c.text == "global" {
        t := GlobalBranch();
      } else if c.text == "@" {
        t := DecoratorBranch();
      } else if c.text == "pass" {
        t := Continue;
      } else if c.kind == StringTok {
        t := DocBranch();
      } else if c.kind == NameTok || c.text in ["{", "[", "(", "`"] {
        t := StatementBranch();
      } else {
        t := Continue;
      }
    }

    /** One turn of the `while True` loop of `parse` (parsing.py:852-981):
        read a token, run the two closing loops, dispatch. */
    method Round() returns (t: Turn)
      requires Valid()
      modifies this, tree
      ensures Valid() && Agrees(Step(toks, old(State())), t)
    {
      ghost var st := State();
      var c := Next();
      if c.None? {
        return Stop;
      }
      assert State() == st.(pos := st.pos + 1);
      var ended := Dedent();
      if ended {
        return Stop;
      }
      RecoverScope();
      t := Dispatch();
    }

    /** `parse` (parsing.py:829-982): the loop, ended by StopIteration or by
        an exception. */
    method Parse() returns (r: Parse)
      requires Valid() && State() == Init()
      modifies this, tree
      ensures Valid() && r == ParseTokens(toks)
      ensures r.Parsed? ==> r.top == tree.nodes
    {
      while true
        invariant Valid() && Run(toks, State()) == ParseTokens(toks)
        decreases |toks| - pos
      {
        var t := Round();
        if t.Stop? {
          return Parsed(tree.nodes);
        }
        if t.Raise? {
          return Raises(t.fault);
        }
      }
    }
  }

  /** `PyFuzzyParser(code).top`, for the tokens of `code`: the
      object-based parser computes what `ParseTokens` says. */
  method FuzzyParse(toks: seq<Token>) returns (r: Parse)
    ensures r == ParseTokens(toks)
  {
    var p := new Parser(toks);
    r := p.Parse();
  }
}
