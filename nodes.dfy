/** The parse tree's elements (parsing.py:52-498).  Names, statements and
    imports are values; scopes live in an arena (`seq<Node>`, see ScopeTree)
    and refer to their parent and children by index. */
module Nodes {
  import opened Basics
  import Text

  /** Index of a scope in the arena; 0 is the top scope. */
  type Id = nat

  /** A dotted name such as `module.class.function`, split into its segments. */
  datatype Name = Name(names: seq<string>, indent: int, lineNr: int, lineEnd: int)

  /** A statement: its code, and the names it sets, calls and uses.  `parent` is
      set when the statement is added to a scope. */
  datatype Statement = Statement(
    code: string, setVars: seq<Name>, usedFuncs: seq<Name>, usedVars: seq<Name>,
    indent: int, lineNr: int, lineEnd: int, parent: Option<Id>)

  /** An import.  A plain `import a.b as c` has `fromNs == None`; a from-import
      has `fromNs` set, and `namespace == None` exactly when it is a star import. */
  datatype Import = Import(
    indent: int, lineNr: int, lineEnd: int,
    namespace: Option<Name>, alias: Option<Name>, fromNs: Option<Name>, star: bool)

  /** An element of the lists `get_set_vars` builds: a Name, or (for a star
      import) the Import itself, as `Import.get_names` returns `[self]`. */
  datatype Entry = NameEntry(name: Name) | ImportEntry(imp: Import)

  /** An element of a scope's `statements`: a Statement, or a Flow scope. */
  datatype Child = StmtChild(stmt: Statement) | FlowChild(flow: Id)

  /** What kind of scope a node is, with the fields of its Python subclass. */
  datatype Kind =
    | PlainScope
    | ClassScope(name: Name, supers: seq<Statement>, decorators: seq<Option<Statement>>)
    | FunctionScope(name: Name, params: seq<Statement>, decorators: seq<Option<Statement>>)
    | FlowScope(command: string, statement: Option<Statement>, setVars: seq<Entry>, next: Option<Id>)

  /** A Scope (parsing.py:64-85) with the fields shared by all its subclasses. */
  datatype Node = Node(
    kind: Kind, indent: int, lineNr: int, lineEnd: Option<int>, parent: Option<Id>,
    subscopes: seq<Id>, imports: seq<Import>, statements: seq<Child>,
    globalVars: seq<Name>, docstr: string)

  /** `Scope(indent, line_nr)`: an empty scope, not yet attached. */
  function NewScope(kind: Kind, indent: int, lineNr: int): (n: Node)
    ensures IsEmpty(n) && n.parent == None && n.lineEnd == None && n.docstr == ""
  {
    Node(kind, indent, lineNr, None, None, [], [], [], [], "")
  }

  /** `Scope.is_empty` (parsing.py:190-195). */
  predicate IsEmpty(n: Node) {
    |n.imports| == 0 && |n.subscopes| == 0 && |n.statements| == 0
  }

  /** `Name.get_code` (parsing.py:478-480): the segments joined by dots.
      Splitting the code at `.` gives the segments back when none holds a dot. */
  function GetCode(n: Name): (r: string)
    ensures |n.names| > 0 && (forall k :: 0 <= k < |n.names| ==> '.' !in n.names[k]) ==>
      Text.Split(r, '.') == n.names
  {
    if |n.names| > 0 && (forall k :: 0 <= k < |n.names| ==> '.' !in n.names[k]) then
      SplitJoin(n.names, '.');
      Text.Join(n.names, ".")
    else Text.Join(n.names, ".")
  }

  /** `Name.__eq__` (parsing.py:485-488).  Its third conjunct compares
      `self.line_nr` with itself, so only the segments and the indent count. */
  predicate NameEq(a: Name, b: Name) {
    a.names == b.names && a.indent == b.indent
  }

  /** The shape an Import has when the parser builds it. */
  predicate WellShaped(i: Import) {
    i.star || i.namespace.Some?
  }

  /** `Import.get_names` (parsing.py:422-425). */
  function GetNames(i: Import): (r: seq<Entry>)
    requires WellShaped(i)
    ensures |r| == 1
    ensures i.star ==> r[0] == ImportEntry(i)
    ensures !i.star && i.alias.Some? ==> r[0] == NameEntry(i.alias.value)
    ensures !i.star && i.alias.None? ==> r[0] == NameEntry(i.namespace.value)
  {
    if i.star then [ImportEntry(i)]
    else if i.alias.Some? then [NameEntry(i.alias.value)]
    else [NameEntry(i.namespace.value)]
  }

  /** `Statement.get_set_vars` (parsing.py:462-464), as Entries. */
  function Entries(names: seq<Name>): (r: seq<Entry>)
    ensures |r| == |names|
    ensures forall k :: 0 <= k < |names| ==> r[k] == NameEntry(names[k])
  {
    if |names| == 0 then [] else [NameEntry(names[0])] + Entries(names[1..])
  }

  // ----- Properties -----

  /** Name equality ignores line numbers: two names that differ only in their
      lines are equal, and so `==` is equality of (segments, indent). */
  lemma NameEqIgnoresLines(a: Name, l1: int, l2: int)
    ensures NameEq(a.(lineNr := l1, lineEnd := l1), a.(lineNr := l2, lineEnd := l2))
    ensures forall b: Name :: NameEq(a, b) <==> (a.names, a.indent) == (b.names, b.indent)
  {
  }

  lemma {:induction false} SplitJoin(parts: seq<string>, c: char)
    requires |parts| > 0
    requires forall k :: 0 <= k < |parts| ==> c !in parts[k]
    ensures Text.Split(Text.Join(parts, [c]), c) == parts
    decreases |parts|
  {
    if |parts| == 1 {
      SplitNoSep(parts[0], c);
    } else {
      SplitJoin(parts[1..], c);
      SplitAppend(parts[0], Text.Join(parts[1..], [c]), c);
    }
  }

  lemma {:induction false} SplitNoSep(a: string, c: char)
    requires c !in a
    ensures Text.Split(a, c) == [a]
    decreases |a|
  {
    if |a| > 0 {
      SplitNoSep(a[1..], c);
      assert a == [a[0]] + a[1..];
    }
  }

  lemma {:induction false} SplitAppend(a: string, b: string, c: char)
    requires c !in a
    ensures Text.Split(a + [c] + b, c) == [a] + Text.Split(b, c)
    decreases |a|
  {
    if |a| == 0 {
      assert a + [c] + b == [c] + b;
      assert ([c] + b)[1..] == b;
    } else {
      SplitAppend(a[1..], b, c);
      assert (a + [c] + b)[1..] == a[1..] + [c] + b;
      assert a == [a[0]] + a[1..];
    }
  }
}
