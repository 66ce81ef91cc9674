/** What the token readers of PyFuzzyParser compute (parsing.py:520-812), as
    functions of the token sequence and the cursor.  A cursor `p` is the
    number of tokens consumed; a reader that starts "from the current token"
    uses `toks[p - 1]`.  Each loop of the source is a function that recurs
    once per turn of the loop, carrying the loop's variables. */
module Readers {
  import opened Basics
  import opened Tokens
  import opened Nodes
  import Text

  // ----- _parsedotname (parsing.py:520-550) -----

  /** What `_parsedotname` returns: the 5-tuple, or the 2-tuple `([], tok)`
      it gives when the first token is neither a NAME nor `*`. */
  datatype Dotted =
    | Path(names: seq<string>, stop: Cur, startIndent: int, startLine: int)
    | NoName(stop: Cur)

  /** The `while True` loop of `_parsedotname`: a `.` followed by a NAME adds
      the NAME; anything else ends the loop and is returned. */
  function DotLoop(toks: seq<Token>, p: nat, names: seq<string>): (r: Read<(seq<string>, Cur)>)
    requires p <= |toks|
    ensures !r.Raised?
    ensures r.Got? ==> p < r.pos <= |toks| && names <= r.val.0 && r.val.1 == CurOf(toks[r.pos - 1])
    decreases |toks| - p
  {
    if p == |toks| then AtEnd
    else if toks[p].text != "." then Got((names, CurOf(toks[p])), p + 1)
    else if p + 1 == |toks| then AtEnd
    else if toks[p + 1].kind != NameTok then Got((names, CurOf(toks[p + 1])), p + 2)
    else DotLoop(toks, p + 2, names + [toks[p + 1].text])
  }

  /** `_parsedotname(pre_used_token)`.  With `pre` the first name is the
      current token whatever its kind; without it the next token is read and
      must be a NAME or `*`. */
  function DotName(toks: seq<Token>, p: nat, pre: bool): (r: Read<Dotted>)
    requires p <= |toks| && (pre ==> p > 0)
    ensures !r.Raised?
    ensures r.Got? ==> p < r.pos <= |toks| && r.val.stop == CurOf(toks[r.pos - 1])
    ensures r.Got? && r.val.Path? ==> |r.val.names| > 0
    ensures pre && r.Got? ==> r.val.Path?
  {
    if !pre && p == |toks| then AtEnd
    else
      var q := if pre then p else p + 1;
      var first := toks[q - 1];
      if !pre && first.kind != NameTok && first.text != "*" then Got(NoName(CurOf(first)), q)
      else
        var d := DotLoop(toks, q, [first.text]);
        if d.Got? then Got(Path(d.val.0, d.val.1, first.col, LineAt(toks, q)), d.pos)
        else AtEnd
  }

  /** The tokens `p..q` are `. NAME` pairs spelling `more`, and then the token
      that ended the loop: a token other than `.`, or a `.` and a non-NAME. */
  predicate DotShape(toks: seq<Token>, p: nat, more: seq<string>, q: nat)
    ensures DotShape(toks, p, more, q) ==> p < q <= |toks|
    decreases |more|
  {
    if |more| == 0 then
      (q == p + 1 && q <= |toks| && toks[p].text != ".")
      || (q == p + 2 && q <= |toks| && toks[p].text == "." && toks[p + 1].kind != NameTok)
    else
      p + 1 < |toks| && toks[p].text == "." && toks[p + 1].kind == NameTok
      && toks[p + 1].text == more[0] && DotShape(toks, p + 2, more[1..], q)
  }

  /** `_parsedotname` collects each NAME that follows a `.` and stops at the
      first token that is not `.`, or at a non-NAME after `.`, which it returns. */
  lemma {:induction false} DotLoopShape(toks: seq<Token>, p: nat, names: seq<string>)
    requires p <= |toks|
    ensures var r := DotLoop(toks, p, names);
      r.Got? ==> DotShape(toks, p, r.val.0[|names|..], r.pos) && r.val.1 == CurOf(toks[r.pos - 1])
    decreases |toks| - p
  {
    var r := DotLoop(toks, p, names);
    if r.Got? && p + 1 < |toks| && toks[p].text == "." && toks[p + 1].kind == NameTok {
      var names' := names + [toks[p + 1].text];
      DotLoopShape(toks, p + 2, names');
      var more := r.val.0[|names|..];
      assert more[0] == toks[p + 1].text;
      assert more[1..] == r.val.0[|names'|..];
    } else if r.Got? {
      assert r.val.0[|names|..] == [];
    }
  }

  /** Conversely, tokens of that shape are read by the loop exactly so. */
  lemma {:induction false} DotShapeLoop(toks: seq<Token>, p: nat, names: seq<string>, more: seq<string>, q: nat)
    requires p <= |toks| && DotShape(toks, p, more, q)
    ensures DotLoop(toks, p, names) == Got((names + more, CurOf(toks[q - 1])), q)
    decreases |more|
  {
    if |more| > 0 {
      DotShapeLoop(toks, p + 2, names + [more[0]], more[1..], q);
      assert names + [more[0]] + more[1..] == names + more;
    } else {
      assert names + more == names;
    }
  }

  /** Without a pre-used token, a first token that is neither a NAME nor `*`
      gives the 2-tuple, which every caller fails to unpack. */
  lemma DotNameNoName(toks: seq<Token>, p: nat)
    requires p < |toks| && toks[p].kind != NameTok && toks[p].text != "*"
    ensures DotName(toks, p, false) == Got(NoName(CurOf(toks[p])), p + 1)
  {
  }

  /** Otherwise the first token's text is the first segment, and the name
      starts at the first token's column and line. */
  lemma DotNameFirst(toks: seq<Token>, p: nat, pre: bool)
    requires p <= |toks| && (pre ==> p > 0)
    requires !pre ==> p < |toks| && (toks[p].kind == NameTok || toks[p].text == "*")
    ensures var r := DotName(toks, p, pre);
      var first := if pre then toks[p - 1] else toks[p];
      r.Got? ==> (r.val.Path? && r.val.names[0] == first.text
                  && r.val.startIndent == first.col && r.val.startLine == first.line)
  {
    var q := if pre then p else p + 1;
    var d := DotLoop(toks, q, [toks[q - 1].text]);
    if d.Got? {
      assert [toks[q - 1].text] <= d.val.0;
    }
  }

  /** Builds the Name the callers make of a Path, ending on the current line. */
  function NameOf(toks: seq<Token>, d: Dotted, q: nat): Name
    requires d.Path?
  {
    Name(d.names, d.startIndent, d.startLine, LineAt(toks, q))
  }

  // ----- _parse_value_list (parsing.py:552-580) -----

  /** The `while` loop of `_parse_value_list`: `p` tokens are consumed and the
      last of them is the loop's current token. */
  function ValueLoop(toks: seq<Token>, p: nat, acc: seq<Name>): (r: Read<(seq<Name>, Cur)>)
    requires 0 < p <= |toks|
    ensures !r.Raised?
    ensures r.Got? ==> p <= r.pos <= |toks| && r.val.1 == CurOf(toks[r.pos - 1])
    decreases |toks| - p
  {
    var head := toks[p - 1];
    if head.text == "in" || head.kind == NewlineTok then Got((acc, CurOf(head)), p)
    else
      var d := DotName(toks, p, true);
      if !d.Got? then AtEnd
      else
        var acc' := acc + [NameOf(toks, d.val, d.pos)];
        if d.val.stop.text == "in" then Got((acc', d.val.stop), d.pos)
        else if d.pos == |toks| then AtEnd
        else ValueLoop(toks, d.pos + 1, acc')
  }

  /** `_parse_value_list()`, the only way the source calls it. */
  function ValueList(toks: seq<Token>, p: nat): (r: Read<(seq<Name>, Cur)>)
    requires p <= |toks|
    ensures !r.Raised?
    ensures r.Got? ==> p < r.pos <= |toks| && r.val.1 == CurOf(toks[r.pos - 1])
  {
    if p == |toks| then AtEnd else ValueLoop(toks, p + 1, [])
  }

  /** The value list ends at `in` or at a NEWLINE token, and every target it
      collects is a non-empty dotted name. */
  lemma {:induction false} ValueLoopEnds(toks: seq<Token>, p: nat, acc: seq<Name>)
    requires 0 < p <= |toks|
    requires forall k :: 0 <= k < |acc| ==> |acc[k].names| > 0
    ensures var r := ValueLoop(toks, p, acc);
      r.Got? ==> ((r.val.1.text == "in" || r.val.1.kind == NewlineTok)
                  && acc <= r.val.0
                  && forall k :: 0 <= k < |r.val.0| ==> |r.val.0[k].names| > 0)
    decreases |toks| - p
  {
    var head := toks[p - 1];
    if !(head.text == "in" || head.kind == NewlineTok) {
      var d := DotName(toks, p, true);
      if d.Got? {
        var acc' := acc + [NameOf(toks, d.val, d.pos)];
        assert forall k :: 0 <= k < |acc'| ==> |acc'[k].names| > 0;
        if d.val.stop.text != "in" && d.pos < |toks| {
          ValueLoopEnds(toks, d.pos + 1, acc');
        }
      }
    }
  }

  // ----- _parseimportlist (parsing.py:582-613) -----

  /** One `(name, alias)` pair of an import list. */
  datatype Pair = Pair(name: Name, alias: Option<Name>)

  /** `while tok != "," and "\n" not in tok: next()`. */
  function SkipTo(toks: seq<Token>, p: nat, t: Cur): (r: Read<Cur>)
    requires p <= |toks|
    ensures !r.Raised?
    ensures r.Got? ==> p <= r.pos <= |toks| && (r.val.text == "," || '\n' in r.val.text)
    ensures r.Got? && r.pos > p ==> r.val == CurOf(toks[r.pos - 1])
    decreases |toks| - p
  {
    if t.text == "," || '\n' in t.text then Got(t, p)
    else if p == |toks| then AtEnd
    else SkipTo(toks, p + 1, CurOf(toks[p]))
  }

  /** One turn of the import-list loop: a dotted name, an optional `as` alias,
      and the skip to the next `,` or line end. */
  function ImportItem(toks: seq<Token>, p: nat): (r: Read<(Pair, Cur)>)
    requires p <= |toks|
    ensures r.Got? ==> p < r.pos <= |toks|
  {
    var d := DotName(toks, p, false);
    if !d.Got? then AtEnd
    else if d.val.NoName? then Raised(UnpackMismatch)
    else if d.val.stop.text == "as" then
      var a := DotName(toks, d.pos, false);
      if !a.Got? then AtEnd
      else if a.val.NoName? then Raised(UnpackMismatch)
      else
        // the second unpacking overwrites `start_line`, so the name takes the alias's line
        var name := Name(d.val.names, d.val.startIndent, a.val.startLine, LineAt(toks, a.pos));
        var s := SkipTo(toks, a.pos, a.val.stop);
        if s.Got? then Got((Pair(name, Some(NameOf(toks, a.val, a.pos))), s.val), s.pos) else AtEnd
    else
      var s := SkipTo(toks, d.pos, d.val.stop);
      if s.Got? then Got((Pair(NameOf(toks, d.val, d.pos), None), s.val), s.pos) else AtEnd
  }

  /** The `while True` loop of `_parseimportlist`. */
  function ImportLoop(toks: seq<Token>, p: nat, acc: seq<Pair>): (r: Read<seq<Pair>>)
    requires p <= |toks|
    ensures r.Got? ==> p < r.pos <= |toks| && acc <= r.val
    decreases |toks| - p
  {
    var it := ImportItem(toks, p);
    if it.AtEnd? then AtEnd
    else if it.Raised? then Raised(it.fault)
    else if it.val.1.text != "," then Got(acc + [it.val.0], it.pos)
    else ImportLoop(toks, it.pos, acc + [it.val.0])
  }

  /** `_parseimportlist()`. */
  function ImportList(toks: seq<Token>, p: nat): (r: Read<seq<Pair>>)
    requires p <= |toks|
    ensures r.Got? ==> p < r.pos <= |toks|
  {
    ImportLoop(toks, p, [])
  }

  /** An import list is never empty, and each pair is a non-empty dotted name
      whose alias, if any, is one too. */
  lemma {:induction false} ImportLoopPairs(toks: seq<Token>, p: nat, acc: seq<Pair>)
    requires p <= |toks|
    requires forall k :: 0 <= k < |acc| ==> PairOk(acc[k])
    ensures var r := ImportLoop(toks, p, acc);
      r.Got? ==> |r.val| > |acc| && forall k :: 0 <= k < |r.val| ==> PairOk(r.val[k])
    decreases |toks| - p
  {
    var it := ImportItem(toks, p);
    if it.Got? {
      ImportItemOk(toks, p);
      var acc' := acc + [it.val.0];
      assert forall k :: 0 <= k < |acc'| ==> PairOk(acc'[k]);
      if it.val.1.text == "," {
        ImportLoopPairs(toks, it.pos, acc');
      }
    }
  }

  predicate PairOk(pr: Pair) {
    |pr.name.names| > 0 && (pr.alias.Some? ==> |pr.alias.value.names| > 0)
  }

  lemma ImportItemOk(toks: seq<Token>, p: nat)
    requires p <= |toks|
    ensures var r := ImportItem(toks, p);
      r.Got? ==> PairOk(r.val.0) && (r.val.1.text == "," || '\n' in r.val.1.text)
  {
  }

  /** A name that is not a NAME or `*` makes the import raise. */
  lemma ImportListRaises(toks: seq<Token>, p: nat)
    requires p < |toks| && toks[p].kind != NameTok && toks[p].text != "*"
    ensures ImportList(toks, p) == Raised(UnpackMismatch)
  {
    DotNameNoName(toks, p);
  }

  // ----- _parse_statement (parsing.py:723-812) -----

  /** The loop variables of `_parse_statement`. */
  datatype StmtState = StmtState(
    text: string, setVars: seq<Name>, usedFuncs: seq<Name>, usedVars: seq<Name>, level: int)

  /** What `_parse_statement` returns: the Statement, None when no text was
      gathered, and the token that stopped it. */
  datatype Scanned = Scanned(stmt: Option<Statement>, stop: string)

  /** Tokens that end a statement at any bracket depth. */
  const Always: seq<string> := [";", "import", "from", "class", "def", "try", "except", "finally"]

  /** Tokens that end a statement outside brackets. */
  function Breaks(added: seq<string>): seq<string> {
    ["\n", ":", ")"] + added
  }

  predicate StopsAt(t: string, added: seq<string>, level: int) {
    t in Always || (t in Breaks(added) && level <= 0)
  }

  /** The keywords whose statement text restarts as `tok + ' '`. */
  const Restarts: seq<string> := ["return", "yield", "del", "raise", "assert"]

  /** The keywords whose statement text restarts empty. */
  const Drops: seq<string> := ["print", "exec"]

  /** `re.match(r'[\w\d\'"]', c)` in Python 2 without the UNICODE flag. */
  predicate IsWordChar(c: char) {
    ('a' <= c <= 'z') || ('A' <= c <= 'Z') || ('0' <= c <= '9') || c == '_' || c == '\'' || c == '"'
  }

  /** A dotted name in the NAME branch: a call when `(` follows, otherwise a
      use unless its first segment is `global`. */
  function Classify(s: StmtState, n: Name, stop: string): StmtState
    requires |n.names| > 0
  {
    if stop == "(" then s.(usedFuncs := s.usedFuncs + [n])
    else if n.names[0] != "global" then s.(usedVars := s.usedVars + [n])
    else s
  }

  /** The text gathered for a dotted name: a space first when the text so far
      ends in a word character or a quote. */
  function AppendPath(text: string, names: seq<string>): (r: string)
    ensures var code := Text.Join(names, ".");
      |r| >= |text| + |code| && r[..|text|] == text && r[|r| - |code|..] == code
    ensures var code := Text.Join(names, ".");
      |r| == |text| + |code| + (if |text| > 0 && IsWordChar(text[|text| - 1]) then 1 else 0)
    ensures var code := Text.Join(names, ".");
      |r| == |text| + |code| + 1 ==> r[|text|] == ' '
  {
    var sep := if |text| > 0 && IsWordChar(text[|text| - 1]) then " " else "";
    var code := Text.Join(names, ".");
    assert (text + sep + code)[..|text|] == text;
    text + sep + code
  }

  /** One token of the plain branches: a restart keyword, an assignment, a
      bracket, or any other token added to the text. */
  function PlainStep(s: StmtState, t: Cur): StmtState {
    if t.kind == NameTok then
      s.(text := if t.text in Restarts then t.text + " " else "")
    else if '=' in t.text && t.text !in ["<=", ">=", "==", "!="] then
      s.(setVars := s.usedVars, usedVars := [], text := s.text + t.text)
    else if t.text in ["{", "(", "["] then
      s.(level := s.level + 1, text := s.text + t.text)
    else if t.text in ["}", ")", "]"] then
      s.(level := s.level - 1, text := s.text + t.text)
    else s.(text := s.text + t.text)
  }

  /** One turn of the `while` loop of `_parse_statement` on a token that does
      not stop it: `as NAME`, a dotted name, or a plain token (parsing.py:763-807).
      `cur` is the current token, the last of the `p` tokens consumed. */
  function StmtStep(toks: seq<Token>, p: nat, s: StmtState, cur: Cur): (r: Read<(StmtState, Cur)>)
    requires 0 < p <= |toks|
    ensures !r.Raised?
    ensures r.Got? ==> p < r.pos <= |toks| && r.val.1 == CurOf(toks[r.pos - 1])
  {
    if cur.text == "as" then
      var s1 := s.(text := s.text + " as ");
      if p == |toks| then AtEnd
      else if toks[p].kind == NameTok then
        var d := DotName(toks, p + 1, true);
        if !d.Got? then AtEnd
        else
          var n := NameOf(toks, d.val, d.pos);
          Got((s1.(setVars := s1.setVars + [n], text := s1.text + Text.Join(d.val.names, ".")), d.val.stop), d.pos)
      else Got((s1, CurOf(toks[p])), p + 1)
    else if cur.kind == NameTok && cur.text !in Restarts && cur.text !in Drops then
      var d := DotName(toks, p, true);
      if !d.Got? then AtEnd
      else
        var n := NameOf(toks, d.val, d.pos);
        Got((Classify(s, n, d.val.stop.text).(text := AppendPath(s.text, d.val.names)), d.val.stop), d.pos)
    else if p == |toks| then AtEnd
    else Got((PlainStep(s, cur), CurOf(toks[p])), p + 1)
  }

  /** The `while` loop of `_parse_statement`, until a token stops it. */
  function StmtLoop(toks: seq<Token>, p: nat, added: seq<string>, s: StmtState, cur: Cur)
    : (r: Read<(StmtState, Cur)>)
    requires 0 < p <= |toks|
    ensures !r.Raised?
    ensures r.Got? ==> p <= r.pos <= |toks| && StopsAt(r.val.1.text, added, r.val.0.level)
    decreases |toks| - p
  {
    if StopsAt(cur.text, added, s.level) then Got((s, cur), p)
    else
      var st := StmtStep(toks, p, s, cur);
      if !st.Got? then AtEnd else StmtLoop(toks, st.pos, added, st.val.0, st.val.1)
  }

  /** `_parse_statement(pre_used_token, added_breaks)`. */
  function ParseStatement(toks: seq<Token>, p: nat, pre: bool, added: seq<string>): (r: Read<Scanned>)
    requires p <= |toks| && (pre ==> p > 0)
    ensures !r.Raised?
    ensures r.Got? ==> p <= r.pos <= |toks|
    ensures r.Got? && !pre ==> p < r.pos
  {
    if !pre && p == |toks| then AtEnd
    else
      var q := if pre then p else p + 1;
      var first := toks[q - 1];
      var l := StmtLoop(toks, q, added, StmtState("", [], [], [], 0), CurOf(first));
      if !l.Got? then AtEnd
      else
        var s := l.val.0;
        var stmt := if s.text == "" then None
          else Some(Statement(s.text, s.setVars, s.usedFuncs, s.usedVars,
                              first.col, LineAt(toks, q), LineAt(toks, l.pos), None));
        Got(Scanned(stmt, l.val.1.text), l.pos)
  }

  // ----- properties of _parse_statement -----

  /** An always-break token ends the statement at any depth. */
  lemma AlwaysStops(toks: seq<Token>, p: nat, added: seq<string>, s: StmtState, cur: Cur)
    requires 0 < p <= |toks| && cur.text in Always
    ensures StmtLoop(toks, p, added, s, cur) == Got((s, cur), p)
  {
  }

  /** A plain break token ends it only outside brackets; inside them the
      token joins the text and the scan goes on. */
  lemma BreaksStopOnlyOutside(toks: seq<Token>, p: nat, added: seq<string>, s: StmtState, cur: Cur)
    requires 0 < p < |toks| && cur.text in Breaks(added) && cur.text !in Always
    requires cur.text != "as" && cur.kind != NameTok
    ensures s.level <= 0 ==> StmtLoop(toks, p, added, s, cur) == Got((s, cur), p)
    ensures s.level > 0 ==>
      StmtLoop(toks, p, added, s, cur) == StmtLoop(toks, p + 1, added, PlainStep(s, cur), CurOf(toks[p]))
  {
  }

  /** An assignment token moves the used names into `set_vars`. */
  lemma AssignMovesUsed(s: StmtState, t: Cur)
    requires t.kind != NameTok && '=' in t.text && t.text !in ["<=", ">=", "==", "!="]
    ensures PlainStep(s, t).setVars == s.usedVars && PlainStep(s, t).usedVars == []
    ensures PlainStep(s, t).usedFuncs == s.usedFuncs && PlainStep(s, t).level == s.level
  {
  }

  /** A comparison leaves the names where they are. */
  lemma CompareKeepsNames(s: StmtState, t: Cur)
    requires t.kind != NameTok && t.text in ["<=", ">=", "==", "!="]
    ensures PlainStep(s, t) == s.(text := s.text + t.text)
  {
  }

  /** A dotted name followed by `(` is called; any other is used, unless it
      starts with `global`; the other lists are kept. */
  lemma ClassifyNames(s: StmtState, n: Name, stop: string)
    requires |n.names| > 0
    ensures var c := Classify(s, n, stop);
      c.setVars == s.setVars && c.text == s.text && c.level == s.level
      && (stop == "(" ==> c.usedFuncs == s.usedFuncs + [n] && c.usedVars == s.usedVars)
      && (stop != "(" ==>
            c.usedFuncs == s.usedFuncs
            && (c.usedVars == s.usedVars + [n] <==> n.names[0] != "global")
            && (n.names[0] == "global" ==> c.usedVars == s.usedVars))
  {
  }

  /** `as NAME` appends the name to `set_vars`; `as` before anything else
      only adds to the text. */
  lemma AsSetsName(toks: seq<Token>, p: nat, s: StmtState, cur: Cur)
    requires 0 < p < |toks| && cur.text == "as"
    ensures var d := DotName(toks, p + 1, true);
      toks[p].kind == NameTok && d.Got? ==>
        StmtStep(toks, p, s, cur)
          == Got((s.(setVars := s.setVars + [NameOf(toks, d.val, d.pos)],
                     text := s.text + " as " + Text.Join(d.val.names, ".")), d.val.stop), d.pos)
    ensures toks[p].kind != NameTok ==>
      StmtStep(toks, p, s, cur) == Got((s.(text := s.text + " as "), CurOf(toks[p])), p + 1)
  {
  }

  /** No used name starts with `global`, and every gathered name has a
      segment: the loop keeps both. */
  predicate NamesOk(s: StmtState) {
    (forall k :: 0 <= k < |s.usedVars| ==> |s.usedVars[k].names| > 0 && s.usedVars[k].names[0] != "global")
    && (forall k :: 0 <= k < |s.setVars| ==> |s.setVars[k].names| > 0)
    && (forall k :: 0 <= k < |s.usedFuncs| ==> |s.usedFuncs[k].names| > 0)
  }

  lemma ClassifyNamesOk(s: StmtState, n: Name, stop: string, text: string)
    requires NamesOk(s) && |n.names| > 0
    ensures NamesOk(Classify(s, n, stop).(text := text))
  {
  }

  lemma PlainStepNamesOk(s: StmtState, t: Cur)
    requires NamesOk(s)
    ensures NamesOk(PlainStep(s, t))
  {
    if '=' in t.text && t.text !in ["<=", ">=", "==", "!="] && t.kind != NameTok {
      assert PlainStep(s, t).setVars == s.usedVars;
    }
  }

  lemma StmtStepNamesOk(toks: seq<Token>, p: nat, s: StmtState, cur: Cur)
    requires 0 < p <= |toks| && NamesOk(s)
    ensures var r := StmtStep(toks, p, s, cur);
      r.Got? ==> NamesOk(r.val.0)
  {
    if cur.text == "as" {
    } else if cur.kind == NameTok && cur.text !in Restarts && cur.text !in Drops {
      var d := DotName(toks, p, true);
      if d.Got? {
        ClassifyNamesOk(s, NameOf(toks, d.val, d.pos), d.val.stop.text, AppendPath(s.text, d.val.names));
      }
    } else if p < |toks| {
      PlainStepNamesOk(s, cur);
    }
  }

  lemma {:induction false} StmtLoopNamesOk(toks: seq<Token>, p: nat, added: seq<string>, s: StmtState, cur: Cur)
    requires 0 < p <= |toks| && NamesOk(s)
    ensures var r := StmtLoop(toks, p, added, s, cur);
      r.Got? ==> NamesOk(r.val.0)
    decreases |toks| - p
  {
    if !StopsAt(cur.text, added, s.level) {
      var st := StmtStep(toks, p, s, cur);
      if st.Got? {
        StmtStepNamesOk(toks, p, s, cur);
        StmtLoopNamesOk(toks, st.pos, added, st.val.0, st.val.1);
      }
    }
  }

  /** The statement is None exactly when no text was gathered, and it spans
      from its first token's line and column to the current line. */
  lemma ParseStatementShape(toks: seq<Token>, p: nat, pre: bool, added: seq<string>)
    requires p <= |toks| && (pre ==> p > 0)
    ensures var r := ParseStatement(toks, p, pre, added);
      var q := if pre then p else p + 1;
      r.Got? ==>
        var l := StmtLoop(toks, q, added, StmtState("", [], [], [], 0), CurOf(toks[q - 1]));
        l.Got? && l.pos == r.pos && r.val.stop == l.val.1.text
        && StopsAt(r.val.stop, added, l.val.0.level)
        && (r.val.stmt.None? <==> l.val.0.text == "")
        && (r.val.stmt.Some? ==>
              r.val.stmt.value.code == l.val.0.text
              && r.val.stmt.value.indent == toks[q - 1].col
              && r.val.stmt.value.lineNr == toks[q - 1].line
              && r.val.stmt.value.lineEnd == toks[r.pos - 1].line
              && r.val.stmt.value.parent.None?)
  {
  }

  /** The Statement's lists keep what the loop promises: no used name starts
      with `global`, and no name is empty. */
  predicate StmtNamesOk(st: Statement) {
    NamesOk(StmtState(st.code, st.setVars, st.usedFuncs, st.usedVars, 0))
  }

  lemma ParseStatementNames(toks: seq<Token>, p: nat, pre: bool, added: seq<string>)
    requires p <= |toks| && (pre ==> p > 0)
    ensures var r := ParseStatement(toks, p, pre, added);
      r.Got? && r.val.stmt.Some? ==> StmtNamesOk(r.val.stmt.value)
  {
    var q := if pre then p else p + 1;
    if q <= |toks| {
      StmtLoopNamesOk(toks, q, added, StmtState("", [], [], [], 0), CurOf(toks[q - 1]));
    }
  }

  // ----- _parseparen (parsing.py:615-629) -----

  /** The loop of `_parseparen`: statements up to `,` until one stops at `)`,
      a line end or `:`.  `tok` is None before the first turn. */
  function ParenLoop(toks: seq<Token>, p: nat, acc: seq<Statement>, tok: Option<string>)
    : (r: Read<seq<Statement>>)
    requires p <= |toks|
    ensures !r.Raised?
    ensures r.Got? ==> p <= r.pos <= |toks| && acc <= r.val
    decreases |toks| - p
  {
    if tok.Some? && tok.value in [")", "\n", ":"] then Got(acc, p)
    else
      var s := ParseStatement(toks, p, false, [","]);
      if !s.Got? then AtEnd
      else
        var acc' := if s.val.stmt.Some? then acc + [s.val.stmt.value] else acc;
        ParenLoop(toks, s.pos, acc', Some(s.val.stop))
  }

  /** `_parseparen()`. */
  function Paren(toks: seq<Token>, p: nat): (r: Read<seq<Statement>>)
    requires p <= |toks|
    ensures !r.Raised?
    ensures r.Got? ==> p < r.pos <= |toks|
  {
    ParenLoop(toks, p, [], None)
  }

  /** Every parameter the parenthesis reader returns is a real statement:
      its text is not empty. */
  lemma {:induction false} ParenLoopNonEmpty(toks: seq<Token>, p: nat, acc: seq<Statement>, tok: Option<string>)
    requires p <= |toks|
    requires forall k :: 0 <= k < |acc| ==> acc[k].code != ""
    ensures var r := ParenLoop(toks, p, acc, tok);
      r.Got? ==> forall k :: 0 <= k < |r.val| ==> r.val[k].code != ""
    decreases |toks| - p
  {
    if !(tok.Some? && tok.value in [")", "\n", ":"]) {
      var s := ParseStatement(toks, p, false, [","]);
      if s.Got? {
        ParseStatementShape(toks, p, false, [","]);
        var acc' := if s.val.stmt.Some? then acc + [s.val.stmt.value] else acc;
        assert forall k :: 0 <= k < |acc'| ==> acc'[k].code != "";
        ParenLoopNonEmpty(toks, s.pos, acc', Some(s.val.stop));
      }
    }
  }

  // ----- _parsefunction and _parseclass (parsing.py:631-684) -----

  /** `_parsefunction(indent)`: `def NAME ( params ) :`, or None. */
  function FunctionHeader(toks: seq<Token>, p: nat, indent: int): (r: Read<Option<Node>>)
    requires p <= |toks|
    ensures !r.Raised?
    ensures r.Got? ==> p < r.pos <= |toks|
  {
    var startLine := LineAt(toks, p);
    if p == |toks| then AtEnd
    else if toks[p].kind != NameTok then Got(None, p + 1)
    else
      var t := toks[p];
      var fname := Name([t.text], t.col, t.line, t.line);
      if p + 1 == |toks| then AtEnd
      else if toks[p + 1].text != "(" then Got(None, p + 2)
      else
        var params := Paren(toks, p + 2);
        if !params.Got? then AtEnd
        else if params.pos == |toks| then AtEnd
        else if toks[params.pos].text != ":" then Got(None, params.pos + 1)
        else Got(Some(NewScope(FunctionScope(fname, params.val, []), indent, startLine)), params.pos + 1)
  }

  /** `_parseclass(indent)`: `class NAME ( supers )` or `class NAME :`, or None. */
  function ClassHeader(toks: seq<Token>, p: nat, indent: int): (r: Read<Option<Node>>)
    requires p <= |toks|
    ensures !r.Raised?
    ensures r.Got? ==> p < r.pos <= |toks|
  {
    var startLine := LineAt(toks, p);
    if p == |toks| then AtEnd
    else if toks[p].kind != NameTok then Got(None, p + 1)
    else
      var t := toks[p];
      var cname := Name([t.text], t.col, t.line, t.line);
      if p + 1 == |toks| then AtEnd
      else if toks[p + 1].text == "(" then
        var supers := Paren(toks, p + 2);
        if !supers.Got? then AtEnd
        else Got(Some(NewScope(ClassScope(cname, supers.val, []), indent, startLine)), supers.pos)
      else if toks[p + 1].text != ":" then Got(None, p + 2)
      else Got(Some(NewScope(ClassScope(cname, [], []), indent, startLine)), p + 2)
  }

  /** `_parsefunction` gives a function exactly for `NAME`, `(`, parameters
      and `:`; the function is named by the NAME, starts on the `def` line and
      is a fresh empty scope. */
  lemma FunctionHeaderIff(toks: seq<Token>, p: nat, indent: int)
    requires p <= |toks|
    ensures var r := FunctionHeader(toks, p, indent);
      r.Got? ==>
        (r.val.Some? <==>
           toks[p].kind == NameTok && p + 1 < |toks| && toks[p + 1].text == "("
           && Paren(toks, p + 2).Got? && toks[r.pos - 1].text == ":" && r.pos - 1 == Paren(toks, p + 2).pos)
        && (r.val.Some? ==>
              r.val.value.kind == FunctionScope(Name([toks[p].text], toks[p].col, toks[p].line, toks[p].line),
                                                Paren(toks, p + 2).val, [])
              && r.val.value.lineNr == LineAt(toks, p) && r.val.value.indent == indent
              && IsEmpty(r.val.value) && r.val.value.parent.None?)
  {
  }

  /** `_parseclass` gives a class exactly for a NAME followed by `(` or `:`;
      after `(` its superclasses are what `_parseparen` read, after `:`
      there are none. */
  lemma ClassHeaderIff(toks: seq<Token>, p: nat, indent: int)
    requires p <= |toks|
    ensures var r := ClassHeader(toks, p, indent);
      r.Got? ==>
        (r.val.Some? <==> toks[p].kind == NameTok && toks[p + 1].text in ["(", ":"])
        && (r.val.Some? ==>
              r.val.value.kind.ClassScope? && r.val.value.kind.name.names == [toks[p].text]
              && (toks[p + 1].text == ":" ==> r.val.value.kind.supers == [] && r.pos == p + 2)
              && (toks[p + 1].text == "(" ==>
                    Paren(toks, p + 2).Got? && r.val.value.kind.supers == Paren(toks, p + 2).val
                    && r.pos == Paren(toks, p + 2).pos)
              && r.val.value.lineNr == LineAt(toks, p) && r.val.value.indent == indent
              && IsEmpty(r.val.value) && r.val.value.parent.None?)
  {
  }
}
