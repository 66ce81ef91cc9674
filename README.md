# A verified model of jedi's fuzzy Python parser

This project models `PyFuzzyParser` from jedi's `parsing.py`, the tree classes
it builds, and the helper `indent_block`. The parser reads a token stream and
builds a tree of scopes: the module, plus `Function`, `Class` and `Flow` scopes.
It records in each scope:

- statements, with the names they set, call and use;
- imports and globals;
- a cleaned docstring.

The parser never gives up on a bad header. It closes scopes on DEDENT tokens,
and falls back to comparing indent columns. It chains `else`/`except`/`finally`
onto the flow that precedes them.

The model is laid out as the program is:

| file | module | what it holds |
|---|---|---|
| basics.dfy | `Basics` | `Option`; the exceptions the parser can raise (`Fault`); `Read`, the outcome of a token reader |
| tokens.dfy | `Tokens` | tokens `(kind, text, line, col)` and the parser's "current token" |
| text.dfy | `Text` | the string operations used: `join`, `split`, `find`, `replace` |
| nodes.dfy | `Nodes` | `Name`, `Statement`, `Import`, `Node` (a scope of any kind), `get_names`, `get_code`, `Name.__eq__`, `is_empty` |
| tree.dfy | `ScopeTree` | the tree as an arena of nodes, its well-formedness, the pure meaning of `add_scope`, `add_statement`, `add_import`, `add_global`, `add_docstr`, `set_next`, closing a scope, and `get_simple_for_line` |
| docstr.dfy | `Docstr` | the clean-up done by `add_docstr` |
| walks.dfy | `Walks` | the nodes a `get_set_vars` walk visits, and why walks of different flows never meet |
| setvars.dfy | `SetVars` | `get_set_vars` on Scope, Flow, Function and Class, and `ScopeNames`/`FlowNames`, what each walk finds read off the tree it starts from |
| treeclass.dfy | `Trees` | class `Tree`, whose methods change the arena in place as the Python methods change their objects |
| readers.dfy | `Readers` | the token readers `_parsedotname`, `_parse_value_list`, `_parseimportlist`, `_parseparen`, `_parsefunction`, `_parseclass` and `_parse_statement`, as functions of the token sequence and a cursor |
| engine.dfy | `Engine` | one turn of the `parse` loop (`Step`) and the whole loop (`Run`, `ParseTokens`) as functions |
| parser.dfy | `Parsers` | class `Parser`: the parser's state as fields, and methods with the source's loops, each proved to compute what the matching `Readers` or `Engine` function says |
| blocks.dfy | `Blocks` | `indent_block` |

**The tree.** It is an arena, `seq<Node>`. Node 0 is the top scope. A child
always has a larger index than its parent. `WF` states the links every node
keeps:

- every subscope and flow child points back to its parent;
- a flow's continuation (`next`) has the same parent as the flow;
- a continuation never appears in a child list;
- every node but the top is referred to exactly once: its parent lists it as
  a subscope or a flow, or it is the `next` of exactly one flow.

All tree operations keep `WF`.

**Exceptions.** A Python exception other than `StopIteration` escapes `parse`.
In the model it is a `Raised`/`Failed`/`Raises` outcome that carries a `Fault`.
`StopIteration` ends the loop with the tree as it stands (parsing.py:980-981).
In the model that is the cursor reaching the end of the token sequence.

## Model

| member | source | states |
|---|---|---|
| Parsers.Parser.constructor | parsing.py:511-518 | the parser starts with a tree holding only the top scope `Scope(0, 0)`, that scope current, no decorators, `freshscope` set, no token read |
| Parsers.Parser.Next | parsing.py:818-827 | reading a token moves the cursor by one and makes that token the current one (kind, text, column) and its line `line_nr`; at the end nothing moves and the result is None (StopIteration) |
| Parsers.Parser.DotName | parsing.py:522-550 | the loop computes exactly `Readers.DotName` and leaves the cursor after the token it returns |
| Parsers.Parser.DotLoop | parsing.py:542-549 | the `while True` loop of `_parsedotname` computes exactly `Readers.DotLoop` and leaves the cursor after the token it returns |
| Parsers.Parser.ValueList | parsing.py:552-580 | the loop computes exactly `Readers.ValueList` |
| Parsers.Parser.ValueLoop | parsing.py:568-579 | the loop of `_parse_value_list`, from its first token on, computes exactly `Readers.ValueLoop` |
| Parsers.Parser.ValueTurn | parsing.py:569-579 | one turn of that loop either ends it with the value `Readers.ValueLoop` gives, or moves forward to a point where `Readers.ValueLoop` gives the same result |
| Parsers.Parser.ImportItem | parsing.py:599-611 | one turn of the import-list loop computes exactly `Readers.ImportItem` |
| Parsers.Parser.SkipTo | parsing.py:610-611 | the skip to `,` or to a newline token computes exactly `Readers.SkipTo` |
| Parsers.Parser.ImportList | parsing.py:581-613 | the loop computes exactly `Readers.ImportList` |
| Parsers.Parser.ScanToken | parsing.py:761-810 | one turn of the statement loop computes exactly `Readers.StmtStep` |
| Parsers.Parser.ParseStatement | parsing.py:723-812 | the loop computes exactly `Readers.ParseStatement` |
| Parsers.Parser.StmtLoop | parsing.py:760-810 | the statement loop from a fresh state computes exactly `Readers.StmtLoop` |
| Parsers.Parser.Paren | parsing.py:616-629 | the loop computes exactly `Readers.Paren` |
| Parsers.Parser.ParseFunction | parsing.py:633-657 | computes exactly `Readers.FunctionHeader` |
| Parsers.Parser.ParseClass | parsing.py:659-684 | computes exactly `Readers.ClassHeader` |
| Parsers.Parser.Dedent | parsing.py:856-861 | the DEDENT loop changes the tree, scope and cursor exactly as `Engine.DedentLoop` says, and reports when the tokens ran out |
| Parsers.Parser.DedentTurn | parsing.py:858-861 | one turn of the DEDENT loop reads a token and leaves a state from which `Engine.DedentLoop` computes the same result |
| Parsers.Parser.RecoverScope | parsing.py:866-872 | the recovery loop leaves the state `Engine.Recovered` describes |
| Parsers.Parser.OpenScope | parsing.py:875-891 | a parsed `def`/`class` header becomes the current scope as `Engine.OpenScope` says; a bad one changes nothing but the cursor |
| Parsers.Parser.AddPlainImports | parsing.py:895-897 | the loop appends `PlainImports` of the pairs to the current scope and changes nothing else |
| Parsers.Parser.AddFromImports | parsing.py:907-913 | the loop appends `FromImports` of the pairs to the current scope and changes nothing else |
| Parsers.Parser.AddTopGlobals | parsing.py:956-959 | the loop appends every name to the top scope's globals |
| Parsers.Parser.ImportBranch | parsing.py:893-898 | the `import` branch ends as `Engine.ImportBranch` says |
| Parsers.Parser.FromBranch | parsing.py:899-914 | the `from` branch ends as `Engine.FromBranch` says |
| Parsers.Parser.ForBranch | parsing.py:916-924 | the `for` branch ends as `Engine.ForBranch` says |
| Parsers.Parser.FlowColon | parsing.py:941-949 | the flow opening after `:` ends as `Engine.FlowColon` says |
| Parsers.Parser.OpenFlow | parsing.py:942-949 | attaching the new flow ends as `Engine.OpenFlow` says: a continuation keyword links it to the last statement's chain or raises, any other adds it to the scope |
| Parsers.Parser.FlowBranch | parsing.py:926-949 | the `if`/`while`/`try`/`with`/`else`/`except`/`finally` branch ends as `Engine.FlowBranch` says |
| Parsers.Parser.GlobalBranch | parsing.py:951-959 | the `global` branch ends as `Engine.GlobalBranch` says |
| Parsers.Parser.DecoratorBranch | parsing.py:961-963 | the `@` branch ends as `Engine.DecoratorBranch` says |
| Parsers.Parser.DocBranch | parsing.py:967-969 | the docstring branch ends as `Engine.DocBranch` says |
| Parsers.Parser.StatementBranch | parsing.py:973-977 | the statement branch ends as `Engine.StatementBranch` says |
| Parsers.Parser.Dispatch | parsing.py:874-977 | the `if`/`elif` chain on the token in hand ends as `Engine.Dispatch` says |
| Parsers.Parser.LaterBranches | parsing.py:926-977 | the chain from the flow keywords on ends as `Engine.LaterBranches` says |
| Parsers.Parser.Round | parsing.py:851-981 | one turn of the main loop ends as `Engine.Step` says |
| Parsers.Parser.Parse | parsing.py:830-985 | the main loop returns exactly `Engine.ParseTokens` of the tokens, and a returned tree is the parser's own tree |
| Parsers.FuzzyParse | parsing.py:511-520 | constructing a parser over the tokens yields exactly `Engine.ParseTokens` |
| Engine.Init | parsing.py:848-849 | the initial tree is well formed, the top scope is current and no token has been read |
| Engine.DedentLoop | parsing.py:856-861 | the DEDENT loop keeps the tree well formed, never moves the cursor back, and keeps the decorator buffer and `freshscope` |
| Engine.DedentLoopCloses | parsing.py:856-861 | the DEDENT loop stops at a non-DEDENT token or at the top; the scope it ends in encloses the one it started in; only enclosing scopes get a `line_end`; no parent link changes |
| Engine.DedentLoopPops | parsing.py:856-861 | the DEDENT loop pops exactly the scopes between the one it starts in and the one it ends in; each popped scope gets as `line_end` the line of a token read in the loop that is not indented past it, and every other node is unchanged; when the tokens run out this holds up to the scope reached |
| Engine.PopStep | parsing.py:858-861 | closing the scope with the token just read and then popping from its parent up to a scope pops from the scope up to it |
| Engine.PoppedNone | parsing.py:856-861 | a loop that pops nothing leaves the tree as it is |
| Engine.Recover | parsing.py:866-872 | the recovery loop ends in an enclosing scope, marks only enclosing scopes closed, and changes no parent link |
| Engine.RecoverExit | parsing.py:866-872 | after the recovery loop the scope is the top, or the token is not a NAME, or the token is indented past the scope; every changed node only got `line_end` set to the current line, and the starting scope got it when it was left |
| Engine.TopNeverClosed | parsing.py:856-872 | neither closing loop changes the top scope |
| Engine.Recovered | parsing.py:866-872 | the recovery loop keeps the tree well formed, keeps the cursor, the decorator buffer and `freshscope` |
| Engine.PlainImports | parsing.py:895-896 | one `Import(indent, start_line, line_nr, m, alias)` per pair, in order |
| Engine.FromImports | parsing.py:907-912 | one `FromImport` per pair, in order |
| Engine.FromImportShape | parsing.py:907-912 | a from-import has the module as `from_ns`; it is a star import exactly when the name's first segment is `*`, and then it has no namespace |
| Engine.AddImports | parsing.py:897 | the imports are appended to the scope's list; every other node is unchanged and the tree stays well formed |
| Engine.AddGlobals | parsing.py:956-959 | the names are appended to the top scope's globals; every other node is unchanged |
| Engine.OpenScope | parsing.py:875-891 | a parsed header leaves the cursor after it and a well-formed tree whose current scope exists |
| Engine.ImportBranch | parsing.py:893-898 | the turn keeps the tree well formed and never moves the cursor back |
| Engine.FromBranch | parsing.py:899-914 | the turn keeps the tree well formed and never moves the cursor back |
| Engine.ForBranch | parsing.py:916-924 | the turn keeps the tree well formed and never moves the cursor back |
| Engine.OpenFlow | parsing.py:941-949 | a flow that opens keeps the tree well formed; only a continuation keyword can raise |
| Engine.FlowBranch | parsing.py:926-949 | the turn keeps the tree well formed and never moves the cursor back |
| Engine.FlowColon | parsing.py:941-949 | the turn keeps the tree well formed and never moves the cursor back |
| Engine.GlobalBranch | parsing.py:951-959 | the turn keeps the tree well formed and never moves the cursor back |
| Engine.DecoratorBranch | parsing.py:961-963 | the turn keeps the tree well formed and never moves the cursor back |
| Engine.DocBranch | parsing.py:967-969 | the turn keeps the tree well formed and never moves the cursor back |
| Engine.StatementBranch | parsing.py:973-977 | the turn keeps the tree well formed and never moves the cursor back |
| Engine.Dispatch | parsing.py:874-977 | every branch keeps the tree well formed and never moves the cursor back |
| Engine.LaterBranches | parsing.py:926-977 | every branch from the flow keywords on keeps the tree well formed and never moves the cursor back |
| Engine.Step | parsing.py:851-977 | a turn that goes on reads at least one token and keeps the tree well formed |
| Engine.Run | parsing.py:850-981 | a finished loop yields a well-formed tree |
| Engine.ParseTokens | parsing.py:830-985 | a parse that does not raise returns a well-formed tree whose node 0 is the top scope, not a class, function or flow, with no parent |
| Engine.AncestorBelow | parsing.py:861 | an enclosing scope has a smaller index than the scope it encloses |
| Engine.AncestorTrans | parsing.py:861 | enclosing is transitive |
| Engine.AncestorKept | parsing.py:860-861 | enclosure depends only on parent links |
| Engine.CloseOne | parsing.py:860 | closing a scope marks it closed and changes no parent link |
| Engine.ClosesAboveTrans | parsing.py:856-872 | closing enclosing scopes twice in a row still only closes enclosing scopes |
| Engine.PopThenClose | parsing.py:860-861 | closing the scope and moving to its parent, then closing above the parent, closes only scopes that enclose the first |
| Engine.HeaderOutcome | parsing.py:875-891 | a bad `def`/`class` header changes nothing but the cursor; a good one becomes a new subscope of the current scope, holding the buffered decorators, and the buffer empties and `freshscope` is set |
| Engine.ImportOnePerPair | parsing.py:893-898 | `import` appends exactly one Import per `(name, alias)` pair, in order, with no `from_ns` and no star; nothing else in the tree changes |
| Engine.FromOnePerPair | parsing.py:899-914 | `from m import ...` appends exactly one Import per pair; each has `from_ns` the module, the pair's alias, star exactly when the name starts with `*`, and then no namespace |
| Engine.FromWithoutImportSkipped | parsing.py:902-904 | a `from` whose module is not followed by `import` changes nothing but the cursor |
| Engine.GlobalsGoToTop | parsing.py:951-959 | `global` adds the statement's used names to the top scope's globals, in order; none of them is `global` or empty |
| Engine.ContinuationLinks | parsing.py:941-949 | a continuation keyword attaches the new flow at the tail of the last statement's chain and makes it the current scope; with no last statement or a last statement that is not a flow the parser raises |
| Readers.DotLoop | parsing.py:542-549 | the loop only adds names, never raises, and returns the token it stopped at |
| Readers.DotName | parsing.py:522-550 | `_parsedotname` never raises and returns the token it stopped at; a path it returns is not empty; with a token passed in it always returns a path |
| Readers.DotLoopShape | parsing.py:542-549 | the names the loop adds are exactly the NAMEs that follow a `.`, and it stops at the first token that is not `.` or at a non-NAME after `.` |
| Readers.DotShape | parsing.py:542-549 | a `.NAME` run ends inside the tokens, after where it starts |
| Readers.DotShapeLoop | parsing.py:542-549 | conversely, a `.NAME` run followed by a stop token is read in full |
| Readers.DotNameNoName | parsing.py:533-536 | a first token that is neither a NAME nor `*` gives the short "no name" result |
| Readers.DotNameFirst | parsing.py:531-541 | the first name is the first token's text; the name's column and line are that token's |
| Readers.ValueLoop | parsing.py:568-579 | the `for` target loop never raises and returns the token it stopped at |
| Readers.ValueList | parsing.py:552-580 | `_parse_value_list` never raises and returns the token it stopped at |
| Readers.ValueLoopEnds | parsing.py:568-579 | the target list stops exactly at `in` or a NEWLINE, only grows, and holds no empty name |
| Readers.SkipTo | parsing.py:610-611 | skipping stops at `,` or at a token holding a newline |
| Readers.ImportItem | parsing.py:599-611 | one item reads past at least one token |
| Readers.ImportLoop | parsing.py:597-614 | the pair list only grows |
| Readers.ImportList | parsing.py:581-613 | `_parseimportlist` moves the cursor |
| Readers.ImportLoopPairs | parsing.py:597-614 | a list that is read holds at least one pair, and no pair has an empty name or alias |
| Readers.ImportItemOk | parsing.py:599-611 | one item is a well-formed pair followed by `,` or a newline |
| Readers.ImportListRaises | parsing.py:599-600 | a name that is not a NAME or `*` makes the import list raise the unpacking error |
| Readers.StmtStep | parsing.py:761-810 | one turn of the statement loop never raises and moves the cursor |
| Readers.StmtLoop | parsing.py:760-810 | the statement loop stops only where its stop rule holds |
| Readers.ParseStatement | parsing.py:723-812 | `_parse_statement` never raises, and reads at least one token when none is passed in |
| Readers.AlwaysStops | parsing.py:755-760 | an always-break token ends the statement at any depth |
| Readers.BreaksStopOnlyOutside | parsing.py:754-760 | a plain break token ends the statement only at depth 0 or less; deeper it joins the text |
| Readers.AssignMovesUsed | parsing.py:795-798 | in `PlainStep`, an assignment token moves the used names into `set_vars` and empties `used_vars` |
| Readers.CompareKeepsNames | parsing.py:795 | a comparison token (`>=`, `<=`, `==`, `!=`) only joins the text |
| Readers.ClassifyNames | parsing.py:781-792 | `Classify`: a dotted name before `(` goes to `used_funcs`; any other goes to `used_vars` exactly when its first segment is not `global` |
| Readers.AppendPath | parsing.py:788-790 | the statement text grows by the dotted name joined with `.`, preceded by one space exactly when the text so far ends in a letter, digit, `_` or quote |
| Readers.AsSetsName | parsing.py:763-772 | `as NAME` appends the dotted name to `set_vars`; `as` before anything else only adds to the text |
| Readers.StmtStepNamesOk | parsing.py:761-810 | one turn keeps every gathered name non-empty, and no used name begins with `global` |
| Readers.ClassifyNamesOk | parsing.py:782-792 | filing a non-empty dotted name as a call or a use keeps every gathered name non-empty, and never files a use that begins with `global` |
| Readers.PlainStepNamesOk | parsing.py:795-807 | a plain token keeps that too, even when `=` turns the used names into set names |
| Readers.StmtLoopNamesOk | parsing.py:760-810 | the whole loop keeps that |
| Readers.ParseStatementShape | parsing.py:743-812 | the statement is None exactly when no text was gathered; otherwise it spans from its first token to the current line and the stop token obeys the stop rule |
| Readers.ParseStatementNames | parsing.py:723-812 | a returned statement has no empty name and no used name beginning with `global` |
| Readers.ParenLoop | parsing.py:624-629 | the parameter loop only grows the list |
| Readers.Paren | parsing.py:616-629 | `_parseparen` never raises and moves the cursor |
| Readers.ParenLoopNonEmpty | parsing.py:624-629 | every Statement in the list has code; empty pieces are dropped |
| Readers.FunctionHeader | parsing.py:633-657 | `_parsefunction` never raises and moves the cursor |
| Readers.ClassHeader | parsing.py:659-684 | `_parseclass` never raises and moves the cursor |
| Readers.FunctionHeaderIff | parsing.py:642-657 | a function comes back exactly for NAME `(` params `)` `:`; it carries the NAME as its name and the params, is empty, and has no parent |
| Readers.ClassHeaderIff | parsing.py:668-684 | a class comes back exactly for NAME followed by `(` or `:`; it carries the NAME; after `(` its superclasses are what `_parseparen` read and reading goes on where it stopped; after `:` there are none and reading goes on after the colon; it is empty and has no parent |
| ScopeTree.AttachScope | parsing.py:87-92 | `add_scope` appends a new node with the scope as parent and the decorators it is given, adds it to the scope's subscopes, and changes nothing else |
| ScopeTree.AttachStatement | parsing.py:94-101 | `add_statement` appends the statement with the scope as parent; nothing else changes |
| ScopeTree.AttachFlow | parsing.py:94-101 | `add_statement` of a flow appends a new node with the scope as parent and lists it as the scope's last statement; nothing else changes |
| ScopeTree.AttachImport | parsing.py:127-128 | `add_import` appends the import; nothing else changes |
| ScopeTree.AttachGlobal | parsing.py:130-139 | `add_global` appends the name to the globals; nothing else changes |
| ScopeTree.WithDocstr | parsing.py:124 | setting the docstring changes only that field |
| ScopeTree.Closed | parsing.py:860 | closing a scope sets only its `line_end` |
| ScopeTree.ChainTail | parsing.py:375-377 | the walk along `next` ends at a flow with no continuation whose parent is the head's parent |
| ScopeTree.LinkNext | parsing.py:373-380 | `set_next` appends the new flow with the head's parent, links it from the tail of the chain, and changes no other node |
| ScopeTree.LinkNextNotAStatement | parsing.py:373-380 | the continuation appears in no statement list and no subscope list |
| ScopeTree.SimplesOf | parsing.py:200 | the candidates are the statements, in order, and then the imports, in order: position `k` holds statement `k`, position `|statements| + k` import `k` |
| ScopeTree.FilterOnLine | parsing.py:199-203 | the filter keeps exactly the candidates that span the line, and no more objects than it was given |
| ScopeTree.OnLineIndices | parsing.py:200-202 | the positions of candidates that span the line, each in range, in strictly increasing order |
| ScopeTree.OnLineIndicesComplete | parsing.py:200-202 | no position of a candidate that spans the line is missing |
| ScopeTree.FilterPicks | parsing.py:199-203 | the filter's result is, entry by entry, the candidates at those positions: none dropped, repeated or reordered |
| ScopeTree.PicksCons | parsing.py:202 | appending a picked candidate in front keeps the result matched to its positions |
| ScopeTree.GetSimpleForLine | parsing.py:197-203 | `get_simple_for_line` returns exactly the statements and imports of the scope that span the line: entry `k` is the candidate at the `k`-th position that spans it, so each appears once and in the scope's order |
| ScopeTree.SimpleForLineStatementsFirst | parsing.py:200-203 | in the answer, every statement comes before every import |
| ScopeTree.EmptyScopeIsNoParent | parsing.py:190-195 | `is_empty` (`IsEmpty`) (no imports, subscopes or statements) means no node of the tree has the scope as its parent, continuations included |
| ScopeTree.AttachedReferrer | parsing.py:87-101 | in a well-formed tree every node but the top has exactly one referrer, which refers to it once: its parent, listing it as a subscope or a flow, or a flow whose `next` it is (`set_next`, parsing.py:373-380) |
| ScopeTree.MentionsAppend | parsing.py:87-101 | appending a node adds what it refers to to the reference count |
| ScopeTree.MentionsUpdate | parsing.py:87-139 | replacing a node changes the reference count by the difference between the two nodes' references |
| ScopeTree.MentionsSame | parsing.py:103-139 | arenas whose nodes refer to a node equally often count it equally |
| ScopeTree.MentionsNone | parsing.py:87-101 | no node refers to an index past the end of the arena |
| ScopeTree.MentionsZero | parsing.py:87-101 | a count of zero means no node refers to it |
| ScopeTree.MentionsOne | parsing.py:87-101 | a count of one means exactly one node refers to it, once |
| ScopeTree.RefsAddSub | parsing.py:91 | listing a subscope adds one reference to it and none to anything else |
| ScopeTree.RefsAddStatement | parsing.py:100 | listing a flow as a statement adds one reference to it and none to anything else |
| ScopeTree.RefsDetached | parsing.py:79-85 | a node with empty lists and no `next` refers to nothing |
| ScopeTree.RefsNone | parsing.py:87-101 | a node with good links refers to no index past the end of the arena |
| ScopeTree.NodeOkFrame | parsing.py:64-85 | a node's links stay good when the nodes it refers to keep their parent and kind |
| ScopeTree.WFShapes | parsing.py:64-85 | a tree stays well formed when every node keeps its links and headers |
| ScopeTree.WFUpdate | parsing.py:64-85 | replacing a node by one with the same links keeps the tree well formed |
| ScopeTree.WFUpdateAppend | parsing.py:87-101 | growing a scope's lists by a new last node keeps the tree well formed |
| ScopeTree.WFUpdateChildren | parsing.py:94-139 | replacing a scope's lists by ones whose entries keep good links keeps the tree well formed |
| Nodes.NewScope | parsing.py:79-85 | a new scope is empty, has no parent, no `line_end` and no docstring |
| Nodes.GetNames | parsing.py:422-425 | `get_names` is `[self]` for a star import, else `[alias]` when there is one, else `[namespace]` |
| Nodes.Entries | parsing.py:182-183 | each name becomes one entry, in order |
| Nodes.NameEqIgnoresLines | parsing.py:485-488 | `Name.__eq__` (`NameEq`) compares names and indent only; the line numbers never matter |
| Nodes.GetCode | parsing.py:478-480 | `get_code` joins the segments with `.`; for a name with segments and no `.` inside any, splitting the result at `.` gives the segments back |
| Nodes.SplitJoin | parsing.py:480 | joining parts with a character none of them holds, then splitting at it, gives the parts back |
| Nodes.SplitNoSep | parsing.py:480 | a string without the separator splits into itself |
| Nodes.SplitAppend | parsing.py:480 | splitting `a + c + b` at `c` gives `a` and then the split of `b` |
| Docstr.LStrip | parsing.py:119-120 | the first strip loop removes a prefix made only of quotes, tabs and spaces, and stops at a character that is not one |
| Docstr.RStrip | parsing.py:121-122 | the second strip loop removes a suffix made only of quotes, tabs and spaces, and stops at a character that is not one |
| Docstr.DocClean | parsing.py:108-123 | the docstring stored for a string token: None (the `d[0]` IndexError) exactly when the cut, flattened string holds only quotes, tabs and spaces; otherwise the non-empty slice of that string with only quotes, tabs and spaces before and after it, starting and ending with another character |
| Docstr.StripQuotes | parsing.py:120-123 | the two strip loops give None exactly when every character is a quote, tab or space; otherwise the non-empty slice of their input with only quotes, tabs and spaces cut off either end, starting and ending with another character (the slice arithmetic is `SliceOfSuffix`) |
| Docstr.StrippedSlice | parsing.py:120-123 | strip characters cut from the front, then from the back of what is left, leave a slice of the input with only strip characters around it |
| Docstr.SliceOfSuffix | parsing.py:120-123 | a prefix of a suffix of a string is a slice of it |
| Docstr.LStripEmpty | parsing.py:120-121 | the first strip loop empties a string exactly when all its characters are quotes, tabs or spaces |
| Docstr.CleanDocstring | parsing.py:108-123 | the loops compute exactly `DocClean`, and a docstring that strips away to nothing is an error |
| Docstr.DocCleanIsClean | parsing.py:116-123 | a cleaned docstring is not empty, holds no newline, no tab and no two consecutive spaces, and neither starts nor ends with a quote, tab or space |
| Docstr.StripsAreClean | parsing.py:116-123 | the same for the cut string after replacing, collapsing and stripping |
| Docstr.StripsKeepClean | parsing.py:119-122 | stripping keeps a flattened string clean |
| Docstr.StripsKeepChar | parsing.py:119-122 | stripping adds no character |
| Docstr.StripsKeepNoDouble | parsing.py:119-122 | stripping cannot create two consecutive spaces |
| Docstr.SingleQuotedDocstringRaises | parsing.py:108-120 | a docstring with single quotes only makes `add_docstr` raise |
| Docstr.NoDoubleQuoteKeepsLastChar | parsing.py:108-112 | a string without `"` is cut down to its last character |
| Docstr.CutShortens | parsing.py:108-123 | a clean docstring of two or more characters without `"` does not clean to itself |
| Docstr.CleanIsNotIdempotent | parsing.py:108-123 | cleaning a cleaned docstring with `'` and no `"` does not give it back |
| Text.Find | parsing.py:108-109 | `find` gives -1 exactly when the character is absent, otherwise the index of its first occurrence |
| Text.ReplaceChar | parsing.py:116-117 | `replace` of one character changes exactly its occurrences |
| Text.Split | parsing.py:47 | `split` gives at least one part |
| Text.ReplaceDoubleShrinks | parsing.py:118-119 | replacing double spaces shortens a string that has one |
| Text.ReplaceDoubleKeeps | parsing.py:118-119 | and keeps every other character |
| Text.Collapse | parsing.py:118-119 | the loop ends with no two consecutive spaces |
| Text.CollapseKeeps | parsing.py:118-119 | collapsing neither adds nor removes a character other than space |
| Text.NoDoubleSlice | parsing.py:119-122 | a slice of a string without double spaces has none |
| Text.NoDoublePrefix | parsing.py:121-122 | nor does the string without its last character |
| Tokens.CurrentAt | parsing.py:826-827 | there is a current token exactly when at least one token was read |
| Walks.Reach | parsing.py:360-371 | the walk of a node visits the node and only nodes after it; from a flow it visits only flows |
| Walks.ReachList | parsing.py:177-178 | the walks of the flows among a scope's statements visit only flows after the scope |
| Walks.BodyReach | parsing.py:177-178 | the statement loop of a scope visits only flows after it |
| Walks.ReachListMember | parsing.py:177-178 | a node the statement loop visits is visited by the walk of one flow statement |
| Walks.ReachShapes | parsing.py:360-371 | what a walk visits does not depend on the `set_vars` walks change |
| Walks.ReachListShapes | parsing.py:177-178 | nor does what the statement loop visits |
| Walks.BodyReachShapes | parsing.py:177-178 | nor does what a scope's statement loop visits |
| Walks.RefsAbove | parsing.py:87-101 | a node refers only to nodes after it |
| Walks.OneReferrer | parsing.py:87-101 | a node other than the top has one referrer, which refers to it once |
| Walks.ReachReferrer | parsing.py:360-371 | every node a walk visits, other than where it starts, is referred to by an earlier node the walk visits |
| Walks.ReachListReferrer | parsing.py:177-178 | likewise for the statement loop, whose referrer may be the scope itself |
| Walks.NotReachedFrom | parsing.py:360-371 | a walk that does not visit a node does not visit what that node refers to, unless it starts there |
| Walks.ReachApart | parsing.py:360-371 | two walks, neither of which visits where the other starts, visit no node in common |
| Walks.ReachListApart | parsing.py:177-178 | the walks of a scope's flow statements never visit the walk of another node the scope refers to |
| Walks.BodiesApart | parsing.py:253-266 | the statement loop of a class and that of one of its methods visit no node in common |
| Walks.FlowListedOnce | parsing.py:94-101 | no flow is listed twice among a scope's statements |
| SetVars.FlowVars | parsing.py:360-371 | `Flow.get_set_vars` keeps every node's shape and every node before the flow; the flow's `set_vars` becomes the result; the result starts with its old `set_vars` (the loop targets) and its statement's names, and holds every name the statement sets |
| SetVars.FlowVarsFound | parsing.py:360-371 | `Flow.get_set_vars` changes no node outside its walk (`Walks.Reach`), and the names it returns are exactly `FlowNames`: the flow's loop targets, its statement's names, everything the continuation's walk finds, and the Scope part over the flow's body |
| SetVars.FlowStepFound | parsing.py:363-371 | one step of the flow walk changes no node outside the walk and finds exactly `FlowNames`, given that the continuation's walk and the body's walk do so for theirs |
| SetVars.NextApart | parsing.py:368-371 | the walk of a flow's body never visits its continuation, so the body is walked on nodes the continuation's walk left alone |
| SetVars.WithFlowVars | parsing.py:365-370 | writing a flow's `set_vars` changes nothing else and keeps the tree well formed |
| SetVars.OwnNamesIn | parsing.py:366-367 | the statement's names are in the list `OwnNames` builds from them |
| SetVars.FlowVarsStep | parsing.py:360-371 | the flow walk taken apart as its method does it |
| SetVars.ScopeVars | parsing.py:169-188 | `Scope.get_set_vars` keeps every node's shape and every node up to the scope, and holds every name a plain statement sets, the name of every subscope, every global and the names of every import |
| SetVars.ScopeVarsFound | parsing.py:169-188 | `Scope.get_set_vars` changes only flows its statement loop visits (`Walks.BodyReach`); its names are exactly `ScopeNames`: what each plain statement sets, everything the walk of each flow statement finds (`FlowNames`), the name of every subscope, every global and the names of every import |
| SetVars.ScopeVarsHasFlows | parsing.py:177-178 | for each flow among a scope's statements, `Scope.get_set_vars` returns the flow's loop targets, its statement's names, its continuation's names and its body's names |
| SetVars.ListNamesHas | parsing.py:177-178 | every statement of a list contributes to `ListNames`: a plain one what it sets, a flow what its walk finds |
| SetVars.FlowNamesFrame | parsing.py:360-371 | what a flow's walk finds depends only on the nodes the walk visits |
| SetVars.ScopeNamesFrame | parsing.py:169-188 | what a scope's walk finds depends only on the flows its statement loop visits |
| SetVars.ListNamesFrame | parsing.py:177-178 | what the statement loop finds depends only on the flows it visits |
| SetVars.ScopePartsIn | parsing.py:169-188 | every part of the Scope walk's list is in it: the statements' names, the subscope names, each global and the first name of each import |
| SetVars.StmtNamesGrow | parsing.py:177-179 | the names the statements set stay in any list that includes the list holding them |
| SetVars.ChildrenVars | parsing.py:177-178 | the statement loop keeps every node's shape and every node up to the scope, and holds every name each plain statement sets |
| SetVars.ChildrenVarsFound | parsing.py:177-178 | the statement loop, from any point of a scope's statement list on, changes only flows it visits and returns exactly the names `ListNames` gives |
| SetVars.ChildrenStepFound | parsing.py:177-178 | one turn of the statement loop keeps that, given that the statement's own walk and the rest of the loop keep theirs |
| SetVars.TailRest | parsing.py:177-178 | what is left of a statement list after one more statement is still the end of the same scope's list, also after a walk |
| SetVars.HeadApart | parsing.py:177-178 | the walk of the first flow left in the loop never visits what the walks of the later statements visit |
| SetVars.HeadVars | parsing.py:178-179 | the walk of one statement keeps the tree's shape |
| SetVars.ChildrenVarsStep | parsing.py:177-178 | the statement loop taken apart one statement at a time |
| SetVars.StmtLoopStart | parsing.py:177-178 | before the statement loop nothing has been gathered and the loop invariant holds |
| SetVars.StmtLoopStep | parsing.py:177-178 | one turn of the statement loop keeps its invariant |
| SetVars.StmtLoopEnd | parsing.py:177-178 | when the loop has passed every statement, what it gathered is what `ChildrenVars` gives |
| SetVars.ScopeVarsStep | parsing.py:169-188 | the Scope walk taken apart as its method does it |
| SetVars.SubNames | parsing.py:182 | one name per subscope, in order |
| SetVars.ImportNames | parsing.py:185-186 | every import contributes its `get_names` |
| SetVars.ParamsVarsNames | parsing.py:302-303 | every name a parameter contributes (`ParamNames`: what it sets, or else what it uses) is among the names the loop gathers (`ParamsVars`) |
| SetVars.FunctionVars | parsing.py:300-305 | `Function.get_set_vars` keeps every node's shape and holds every parameter's names, every name a plain statement sets and every subscope name |
| SetVars.FunctionVarsFound | parsing.py:300-305 | `Function.get_set_vars` changes only flows of the function's body, and its names are exactly the parameters' names together with `ScopeNames` of the function: its statements and their flows, subscopes, globals and imports |
| SetVars.SelfName | parsing.py:254-258 | there is a self name exactly when the subscope is a function whose first parameter has a used name with a segment |
| SetVars.SelectAttrs | parsing.py:264-265 | the filter keeps exactly the two-segment names that start with the self name, and raises exactly when an entry is a star import (no `names`) or has no segment |
| SetVars.SubsAttrs | parsing.py:253-265 | the subscope loop yields only attributes of a self name of one of the subscopes; with no function that has a self name it yields nothing and changes nothing |
| SetVars.ArenaBefore | parsing.py:253-265 | the arena the loop has reached at the `k`-th subscope keeps every node's shape, stays well formed, and leaves the subscopes themselves unchanged |
| SetVars.ArenaBeforeStep | parsing.py:253-265 | reaching the `k`-th subscope is one turn on the first followed by `k - 1` on the rest |
| SetVars.SubsAttrsHead | parsing.py:253-265 | when the loop does not raise, its result is the first subscope's attributes followed by the rest of the loop's, run on the arena the first walk left |
| SetVars.SubsAttrsComplete | parsing.py:253-265 | conversely, the attributes selected at every subscope with a self name all appear in the loop's result: none is lost |
| SetVars.SubsAttrsCompleteFirst | parsing.py:253-265 | the first subscope's attributes are in the result |
| SetVars.SubsAttrsRest | parsing.py:253-265 | the attributes at subscope `k` are those at `k - 1` of the rest, and the rest's result is in the whole result |
| SetVars.ClassVarsAttrs | parsing.py:251-266 | every `selfname.x` name that the walk of a method with a self name returned is among the names `Class.get_set_vars` returns |
| SetVars.IncludesTrans | parsing.py:251-266 | inclusion of name lists is transitive |
| SetVars.IncludesLeft | parsing.py:266 | a list is included in any list that starts with it |
| SetVars.ChildrenKeepOk | parsing.py:177-179 | a walk that keeps every node's shape keeps every statement link of a scope good |
| SetVars.ShapeOfDef | parsing.py:251-266 | class and function nodes never change during a walk |
| SetVars.SubsKept | parsing.py:253-265 | the subscopes keep their place and contents during a walk |
| SetVars.AttrOfSubsCons | parsing.py:253-265 | an attribute found after the first subscope belongs to one of the subscopes |
| SetVars.AttrsOfSubsJoin | parsing.py:253-265 | the attributes of the first subscope and those found after it all belong to one of the subscopes |
| SetVars.SelectAttrsStep | parsing.py:264-265 | the filter loop taken apart one entry at a time |
| SetVars.SubsAttrsStep | parsing.py:253-265 | the subscope loop taken apart one subscope at a time |
| SetVars.ClassLoopStep | parsing.py:253-265 | one turn of the subscope loop keeps its invariant, or ends the class walk with the filter's exception |
| SetVars.ClassVarsDone | parsing.py:266 | after the loop the class walk is the attributes followed by the Scope part |
| SetVars.ClassVars | parsing.py:251-266 | `Class.get_set_vars` keeps every node's shape and, when it does not raise, holds every name a plain statement sets, every subscope name, every global and the one name `get_names` gives for each import |
| SetVars.ClassVarsFound | parsing.py:251-266 | when `Class.get_set_vars` does not raise, its names include every name `ScopeNames` gives for the class (its flows' names included), and every other name it returns is a `selfname.x` attribute of one of its methods |
| SetVars.SubsAttrsKeepsBody | parsing.py:253-266 | the walks of the methods in the subscope loop never change a flow of the class's own body, so the Scope part sees the body as it was |
| SetVars.ImportNamesSnoc | parsing.py:185-186 | the import names grow by one import's `get_names` per turn |
| SetVars.ParamsVarsSnoc | parsing.py:302-303 | the parameter names grow by one parameter's names per turn |
| SetVars.FlowVarsGrows | parsing.py:365-370 | `Flow.get_set_vars` is not idempotent: a second call returns a strictly longer list |
| Trees.Tree.constructor | parsing.py:516 | a new tree holds only the top scope `Scope(0, 0)` |
| Trees.Tree.AddScope | parsing.py:87-92 | the arena becomes `AttachScope` of the old one, and the scope is no longer empty |
| Trees.Tree.AddStatement | parsing.py:94-101 | the arena becomes `AttachStatement` of the old one, and the scope is no longer empty |
| Trees.Tree.AddFlow | parsing.py:94-101 | the arena becomes `AttachFlow` of the old one, and the scope is no longer empty |
| Trees.Tree.AddImport | parsing.py:127-128 | the arena becomes `AttachImport` of the old one, and the scope is no longer empty |
| Trees.Tree.AddGlobal | parsing.py:130-139 | the arena becomes `AttachGlobal` of the old one |
| Trees.Tree.AddDocstr | parsing.py:103-125 | raises exactly when cleaning fails; otherwise the scope's docstring becomes the cleaned string; a raise changes nothing |
| Trees.Tree.Close | parsing.py:860 | the arena becomes `Closed` of the old one |
| Trees.Tree.SetNext | parsing.py:373-380 | the arena becomes `LinkNext` of the old one |
| Trees.Tree.FlowSetVars | parsing.py:360-371 | the loop computes `FlowVars`: returned list and new arena |
| Trees.Tree.FunctionSetVars | parsing.py:300-305 | computes `FunctionVars` |
| Trees.Tree.ClassSetVars | parsing.py:251-266 | the loop computes `ClassVars` |
| Trees.Tree.SubscopesAttrs | parsing.py:253-263 | the subscope loop computes `SubsAttrs` and leaves the class node itself unchanged |
| Trees.ClassLoopStart | parsing.py:252-253 | before the subscope loop nothing has been gathered and the loop invariant holds |
| Trees.ClassLoopEnd | parsing.py:253-263 | when the loop has passed every subscope, what it gathered is what `SubsAttrs` gives |
| Trees.Tree.SubscopeAttrs | parsing.py:254-265 | one subscope's contribution, as `ClassLoopStep` expects |
| Trees.Tree.ScopeSetVars | parsing.py:169-188 | computes `ScopeVars` |
| Trees.Tree.StatementsSetVars | parsing.py:177-178 | the statement loop computes `ChildrenVars` |
| Trees.Tree.ChildSetVars | parsing.py:178 | one statement's names: a plain statement's `set_vars`, or what `FlowVars` gives for a flow, with the arena it leaves |
| Trees.CollectImportNames | parsing.py:185-186 | the loop computes `ImportNames` |
| Trees.CollectParamNames | parsing.py:302-303 | the loop computes `ParamsVars` |
| Trees.SelectAttributes | parsing.py:264-265 | the loop computes `SelectAttrs` |
| Trees.PrependNothing | parsing.py:266 | no attributes in front leave a class result unchanged |
| Blocks.IndentBlock | parsing.py:42-48 | the newlines that end the text come back unchanged at the end; with an indention free of newlines, the lines before them are exactly the text's lines, each with the indention in front |
| Blocks.Unindent | parsing.py:42-48 | the inverse reading: dropping the first `n` characters of every line, keeping the trailing newlines; dropping nothing gives the block back |
| Blocks.Trailing | parsing.py:44-46 | counts exactly the newlines that end the text |
| Blocks.Prefixed | parsing.py:48 | every line gets the indention in front |
| Blocks.IndentText | parsing.py:42-48 | the loop and the join compute `IndentBlock` |
| Blocks.SplitPartsFree | parsing.py:47 | no part of a split holds the separator |
| Blocks.JoinSplit | parsing.py:47-48 | joining the split with the same character gives the string back |
| Blocks.JoinLast | parsing.py:48 | a join ends with the last character of its last part |
| Blocks.TrailingAppend | parsing.py:44-48 | appending newlines to a text that does not end in one counts them |
| Blocks.Unprefixed | parsing.py:48 | every line loses its first `n` characters, the inverse of adding the indention |
| Blocks.IndentedEnd | parsing.py:47-48 | with a non-empty indention free of newlines, the indented lines do not end in a newline |
| Blocks.PrefixedFree | parsing.py:47-48 | with an indention free of newlines, no indented line holds a newline |
| Blocks.UnprefixPrefixed | parsing.py:48 | dropping the indention from every indented line gives the lines back |
| Blocks.UnindentAt | parsing.py:44-48 | `Unindent` spelled out for a block with a known number of trailing newlines |
| Blocks.IndentBlockTrailing | parsing.py:44-48 | indenting by a non-empty indention free of newlines keeps the number of trailing newlines |
| Blocks.IndentBlockEmpty | parsing.py:42-48 | with an empty indention the block comes back unchanged |
| Blocks.IndentBlockRoundTrip | parsing.py:42-48 | with a non-empty indention free of newlines, `Unindent` by its length gives the text back, and the trailing newlines are the text's own; `IndentBlockEmpty` covers the empty indention |

## Left out

- Tokenizing: `tokenize` and `cStringIO` (parsing.py:841-842) are replaced by an abstract sequence of tokens (kind, text, line, column). The parser reads the tokens in order. When the sequence runs out, that plays the part of StopIteration.
- `user_line` and the capture of `user_scope` in `next` (parsing.py:512, 822-825): left out. They only record where the user's cursor is.
- The debug output, the `print` statements and `dbg`/`debug_function` (parsing.py:113, 857, 869, 988-994): left out. They do not change the tree.
- `_parseassignment` (parsing.py:686-721): left out. Nothing calls it.
- `_checkexisting` (parsing.py:141-147): left out. Nothing calls it, and it refers to an attribute that does not exist.
- The `get_code` and `__repr__` text regeneration of scopes, flows and imports (parsing.py:149-167, 239-249, 291-298, 343-358, 410-420): left out. `indent_block`, which they use, is modelled. `Name.get_code` is modelled.
- `Name.__hash__` and `__ne__`: left out, because a Dafny datatype has value equality.
- `last_token` is set in `next` and never read, so it is not a field.
- jedi/parser/utils.py is not part of this model.
- `_parse_value_list` (parsing.py:562-566): only the path with no token passed in is modelled. The one call (parsing.py:917) passes none, and the other path could not run.
- `_parseimportlist`: its `if not name: break` can never fire, because `_parsedotname` then raises the unpacking error first. The model raises there and has no such branch.
- `parse`: `decorators` and `freshscope` are locals in the source. Here they are fields of `Parsers.Parser`, so that a branch can be a method of its own. The values they take are the same.
- `SetVars.FlowVars`: `n = self.set_vars; n += ...` extends the flow's own list by aliasing (parsing.py:365-370). The model writes the new list back into the flow's node in the arena. The effect is the same, but the aliasing itself is not modelled.
- Python 2 orders `None` below every number. `get_simple_for_line` compares against a flow's `line_end`, and an unclosed flow has None there, so such a flow never spans a line. The model states this case directly and does not model the general ordering.
- Column and line numbers are unbounded integers; Python's are too.

## Behaviour of the source worth knowing

The model follows the code where it behaves unexpectedly. Each case below is
stated by a member of the model.

- `_parsedotname` returns a 2-tuple when it finds no name (parsing.py:536). Every caller unpacks five values, so Python raises a `ValueError`. The model returns `NoName` from `Readers.DotName`, and callers then raise `UnpackMismatch`. `Readers.ImportListRaises` shows this for an import list. Inside `_parse_statement` the callers only reach `_parsedotname` with a token passed in, so they never get the short result.
- `Name.__eq__` compares `self.line_nr` with itself (parsing.py:488). Equality therefore comes down to segments and indent (`Nodes.NameEqIgnoresLines`).
- `else`/`except`/`finally` with a colon call `statements[-1].set_next` (parsing.py:947). With no last statement this is an `IndexError`; when the last statement is not a flow it is an `AttributeError`. The model raises `NoLastStatement` or `NotAFlow` (`Engine.ContinuationLinks`).
- In `add_docstr`, a docstring in single quotes only (`'''doc'''`) gives index -1 (parsing.py:110). Only the last quote is kept, the first strip loop empties the string, and `d[0]` raises (`Docstr.SingleQuotedDocstringRaises`). The model raises `EmptyDocstring` and does not require such strings to be absent.
- For the same reason, cleaning is not idempotent. A cleaned docstring such as `it's`, with an apostrophe and no double quote, is cut down to its last character when cleaned again (`Docstr.CleanIsNotIdempotent`). The model follows the code here, not the expectation that cleaning a clean docstring changes nothing.
- `except , name:` with no statement before the comma: the statement is None, and `statement.set_vars.append` (parsing.py:939) raises. The model raises `NoneStatement`.
- In `_parseimportlist`, reading an alias (parsing.py:605-606) overwrites `start_line`. The imported name built at parsing.py:608 therefore gets the alias's start line, not its own. `Readers.ImportItem` does the same.
- `Flow.get_set_vars` adds to the flow's `set_vars` on every call, so calling it twice gives a longer list (`SetVars.FlowVarsGrows`).
