# A verified model of the HackAtomIQ workflow engine

HackAtomIQ is a workflow builder for security tools. A workflow is a graph of
tool nodes. Each tool has argument specifications and a command template. To
run a workflow, the backend binds each node's parameters to the tool's
arguments, renders the command, orders the nodes with Kahn's algorithm, and
streams log and status messages back to the page. This project models that
core in Dafny and proves the properties its code promises.

The modules, from the bottom up:

- `Wrappers`, `Text`, `Seqs`, `Values`: the Python and JavaScript vocabulary the
  code relies on.
  - `Values.Value` is the dynamic value type: `None`, bool, int, str and list.
  - `Str`, `Repr` (with Python's choice of quote and its escapes), truthiness
    and Python's `==` are defined over it, including `True == 1`.
  - Dictionaries whose insertion order matters (`Dict`) are association lists.
  - `Text` defines `str.replace`, `join`, `split`, ASCII case folding and
    decimal text.
- `ShellQuote`: `shlex.quote` under Python's documented rule, plus a POSIX
  shell word reader. `QuoteRoundTrip` proves the shell reads any quoted string
  back unchanged.
- `Tools`, `Templates`: tool definitions (`ArgSpec`, `CmdPart`, `ToolDef`) and
  the `{{name}}` placeholder substitution.
- `AppArgs`, `AppCommand`, `AppTopo`: the single-file backend
  (`backend/app.py`).
  - `apply_args`, the argv builder `build_command` and `topo`.
  - `topo` is Kahn's algorithm with a LIFO stack over de-duplicated successor
    sets.
- `CommandBuilder`: the second backend's command builder
  (`backend/src/utils/command_builder.py`). It builds one shell string with
  quoted arguments.
- `Graph`: edges, topological orders, and the facts about queues and counts
  that both Kahn loops share.
- `WorkflowEngine`: the graph part of `WorkflowEngine.run_workflow`
  (`backend/src/utils/workflow_engine.py`).
  - Adjacency lists and in-degrees, counted once per edge.
  - A FIFO Kahn queue, and the abort on a short order.
  - The execution loop that pipes upstream outputs into `input_file`.
- `AppState`: the builder page (`bug-bounty-platform/src/App.tsx`).
  - The initial workflow and the parameter-replace updater.
  - The run-message reducer, the status badge and the 400-line log tail.
  - The `Session` class holds the three pieces of state (workflow, logs,
    statuses) and has one method per event.
- `ArgsPanel`: the argument panel (`bug-bounty-platform/src/ArgsPanel.tsx`).
  - The values a selected node's fields start from, and the edit of one field.
  - The parameters reported back, and the text form of list fields.
- `WorkflowLibrary`: the template library
  (`bug-bounty-platform/src/components/WorkflowLibrary.tsx`).
  - The twelve built-in templates and their search/category/difficulty filter.
  - The colour of a difficulty badge.
- `McpServer`: the engagement state of the MCP server
  (`backend/mcp_server.py`).
  - The `Engagement` class holds the scope, the findings and the reports.
  - It has one method per tool call.

Loops in the source are loops here: the argument and command loops, both Kahn
loops, the execution loop and the `forEach` of the panel. The list
comprehensions of the scope update are recursive functions.
Each is proved against a specification function, and the properties are
lemmas about that function. The code's pure expressions (updaters, `filter`,
`switch`, `_process_arg_node`) are functions.

Where the code and its design description disagree, the model follows the
code:

- **Run statuses.** A `node_status` message overwrites the status whatever it
  was. There is no terminal-state guard, so `ok` can go back to `running`.
- **Stored logs.** They are never truncated. Only the displayed tail is limited
  to 400 lines.
- **Dangling edges.** `topo` in `backend/app.py` skips an edge with an unknown
  endpoint. The adjacency build of `workflow_engine.py` raises `KeyError` on it,
  looking up the source first.
- **Repeated node ids.** The in-degree dictionary of `workflow_engine.py` keeps
  one entry per id, so the order comes out short and the run aborts even
  without a cycle. `Schedule` therefore promises an order only for distinct ids.
  It states the cycle conclusion only when the ids are distinct.
- **`join` mode in `command_builder.py`.** It always returns
  `flag + " " + quoted`, so without a flag the text starts with a space.
- **The `repeat` mode in `command_builder.py`.** It has no branch of its own
  and takes the value path.
- **The two backends.** Both keep `0` and `False` and skip only `None`, `""`
  and `[]`. They disagree on dangling edges, on quoting and on `repeat`
  (which raises on `0` and `False` in `backend/app.py`). Each is modelled with
  its own contract.

## Model

| member | source | states |
|---|---|---|
| Values.Strings | bug-bounty-platform/src/ArgsPanel.tsx:78 | a list of strings becomes a list value holding each string at its own position |
| Values.StrAll | backend/app.py:113 | `[str(x) for x in xs]` has one entry per item and each is `str` of that item |
| Values.Keys | backend/app.py:77 | the keys of a dictionary, one per entry, in insertion order |
| Values.Lookup | backend/app.py:99 | `d.get(k)` finds a value exactly when `k` is a key |
| Values.Put | bug-bounty-platform/src/ArgsPanel.tsx:27 | `d[k] = v` makes `k` look up `v` and leaves every other key's lookup unchanged |
| Values.PutKeys | bug-bounty-platform/src/ArgsPanel.tsx:27 | overwriting keeps the key order; a new key goes last |
| Values.PutDistinct | backend/app.py:76-83 | writing a key never creates a duplicate key |
| Values.LookupMerge | backend/app.py:88 | in `{**a, **b}` a key of `b` wins over the same key of `a`; other keys come from `a` |
| Values.MergeDistinct | backend/app.py:88 | merging keeps the keys distinct |
| Values.LookupLast | backend/app.py:77 | lookup in a dictionary splits into its earlier entries and its last entry |
| Values.LookupAt | backend/app.py:77 | with distinct keys the k-th entry is what lookup of its key finds |
| Values.Str | backend/app.py:117-118 | Python's `str(v)`: `None`, `True`/`False`, the decimal integer with its sign, a string as itself, and a list as `[`, its items' `repr`s joined by `, `, `]` |
| Values.Repr | backend/src/utils/command_builder.py:54 | Python's `repr` of a string: in `"` when it holds `'` and no `"`, else in `'`; the quote, backslash, tab, newline, carriage return and the unprintable characters up to U+00FF escaped; any other value as its `str` |
| Values.EscapeReadsBack | backend/src/utils/command_builder.py:54 | Python reads the escaped text of any string back as that string, inside either quote |
| Values.ReprReadsBack | backend/src/utils/command_builder.py:54 | the `repr` of every string opens and closes with the chosen quote, and its text reads back as the string |
| Values.ReprPlain | backend/src/utils/command_builder.py:54 | a printable string that does not hold both quotes is shown unchanged, in `'…'`, or in `"…"` when it holds `'` |
| Values.ReprApostrophe | backend/app.py:118 | `str(["it's"])` is `["it's"]`, the double quotes Python prints |
| Values.Truthy | backend/app.py:106 | Python truthiness: `None`, `False`, `0`, `""` and `[]` are false and every other value is true |
| Values.PyEq | backend/app.py:100-101 | Python's `==`: `True == 1` and `False == 0` across bool and int, strings by content, lists element by element, `None` only with `None` |
| Text.SplitPiecesFree | bug-bounty-platform/src/ArgsPanel.tsx:78 | no piece of `s.split(c)` contains `c` |
| Text.SplitJoin | bug-bounty-platform/src/ArgsPanel.tsx:77-78 | splitting the joined text of separator-free pieces gives the pieces back |
| Text.NonEmpty | bug-bounty-platform/src/ArgsPanel.tsx:78 | `filter(Boolean)` leaves only non-empty strings and never lengthens the list |
| Text.NonEmptyKeeps | bug-bounty-platform/src/ArgsPanel.tsx:78 | filtering a list of non-empty strings changes nothing |
| Text.Lower | bug-bounty-platform/src/components/WorkflowLibrary.tsx:373-375 | `toLowerCase` keeps the length and lower-cases each ASCII letter in place |
| Text.NatToString | bug-bounty-platform/src/components/WorkflowLibrary.tsx:31-37 | the decimal text of a number is non-empty and all digits |
| Text.ReplaceAbsent | backend/src/utils/command_builder.py:33-34 | `replace` leaves a string without the pattern unchanged |
| Text.ReplaceAll | backend/app.py:89 | Python's `str.replace`: every non-overlapping occurrence of the pattern, scanning left to right, becomes the replacement |
| Text.ReplaceWhole | backend/app.py:89 | a string that is exactly the pattern is replaced by the replacement |
| Text.Join | backend/app.py:113 | `sep.join(parts)`: the parts in order with `sep` between consecutive ones, `""` for no parts |
| Text.Split | bug-bounty-platform/src/ArgsPanel.tsx:78 | JavaScript's `split` on one character: at least one piece, the text cut at every occurrence of the character |
| ShellQuote.Quote | backend/src/utils/command_builder.py:50 | `shlex.quote` returns a non-empty word, equal to its input exactly when the input is non-empty and all safe characters |
| ShellQuote.ReplaceLonger | backend/src/utils/command_builder.py:50 | escaping quotes never shortens the text |
| ShellQuote.UnquoteSafe | backend/src/utils/command_builder.py:54 | the shell reads safe characters literally |
| ShellQuote.InQuotesEscape | backend/src/utils/command_builder.py:54 | inside single quotes the escaped text reads back as the original text |
| ShellQuote.QuoteRoundTrip | backend/src/utils/command_builder.py:50-54 | a POSIX shell reads `shlex.quote(s)` back as exactly `s`, for every `s` |
| ShellQuote.Unquote | backend/src/utils/workflow_engine.py:81-82 | the one word a POSIX shell reads from the command text, or none when the text is not a single literal word |
| Tools.LastSpec | backend/app.py:75 | the spec a name resolves to is the last one declared with that name; there is none exactly when no spec has the name |
| Tools.Names | bug-bounty-platform/src/types.ts:1-4 | the declared names, one per spec, in order |
| Tools.SpecDictLookup | backend/app.py:75 | `{a["name"]: a for a in args}` maps each name to its last spec and has no other keys |
| Tools.SpecDictKeys | backend/app.py:75 | the dictionary's keys are exactly the declared names |
| Tools.SpecDictDistinct | backend/app.py:75 | the dictionary has each key once |
| Tools.SpecDictEntry | backend/app.py:75 | every entry carries its name's last spec |
| Tools.SpecDictCovers | backend/app.py:75 | every declared name has an entry |
| Tools.SpecDictDeclared | backend/app.py:75 | every entry is a declared name |
| Templates.Token | backend/app.py:89 | the placeholder `{{k}}` is four characters longer than `k` |
| Templates.NoBraceNoToken | backend/app.py:89 | no placeholder occurs in a string without `{` |
| Templates.RenderPlain | backend/app.py:87-90 | rendering leaves a string without braces unchanged |
| Templates.TokenNotInToken | backend/app.py:89 | the placeholder of one brace-free key never occurs inside that of another |
| Templates.RenderToken | backend/app.py:87-90 | a part that is exactly `{{k}}` renders to `str` of `k`'s value when `k` is a key, and stays as it is otherwise |
| Templates.EarlierEntry | backend/app.py:88-89 | with distinct keys a key found before the last entry is not the last key |
| Templates.MergePlain | backend/app.py:88 | merging keeps keys brace-free and values free of `{` |
| Templates.PutPlain | backend/app.py:88 | writing one entry keeps keys brace-free and values free of `{` |
| AppArgs.BindValues | backend/app.py:76-83 | the loop over the spec dictionary computes the binding specification `BindAll` |
| AppArgs.Declared | backend/app.py:75-83 | what a name is bound to, stated without the loop: nothing when undeclared, else its param, else its last spec's default |
| AppArgs.BindStep | backend/app.py:78-83 | one iteration: write the param's value, else the default, else fail with the required error, else write nothing |
| AppArgs.BindAll | backend/app.py:77-84 | the loop over the spec dictionary in key order; the first missing required argument aborts it |
| AppArgs.BindOne | backend/app.py:78-83 | one iteration takes the parameter, else the default, else fails when required, else binds nothing |
| AppArgs.BindAllErrSticky | backend/app.py:83 | after the first failure the remaining specs do not matter |
| AppArgs.BindAllOk | backend/app.py:76-83 | binding succeeds exactly when no argument is required, without a parameter and without a default |
| AppArgs.BindAllLookup | backend/app.py:76-83 | on success each declared name is bound to its parameter or default, and to nothing otherwise; undeclared names are never bound |
| AppArgs.BindStepLookup | backend/app.py:78-81 | one iteration binds its own name and changes no other lookup |
| AppArgs.BindAllFirstError | backend/app.py:82-83 | a failure is `400 "Missing required arg: name"` for the first missing argument in spec order |
| AppArgs.ApplyArgs | backend/app.py:74-84 | `apply_args` succeeds exactly when no declared argument is missing, and binds every name as its last spec resolves it |
| AppArgs.ApplyArgsOk | backend/app.py:74-84 | binding against a tool succeeds exactly when no declared argument is missing |
| AppArgs.ApplyArgsLookup | backend/app.py:74-84 | on success a declared name holds its parameter, else its default, else nothing; params for undeclared names are dropped |
| AppArgs.AsWrittenAgrees | backend/app.py:78-79 | the loop as written equals the intended one while no declared argument has a parameter, and never succeeds otherwise |
| AppArgs.AsWrittenRejectsGivenParam | backend/app.py:79 | one optional argument set to 1 makes the loop as written raise `TypeError`, while the intended loop binds it |
| AppCommand.Lift | backend/app.py:142-147 | the runtime variables become string values, one per entry, in order |
| AppCommand.Render | backend/app.py:87-90 | `render` reassigns `s` once per key of the merged dictionary, as the rendering specification does |
| AppCommand.Flagged | backend/app.py:114-118 | with a non-empty flag the flag comes first, then the text; otherwise the text alone |
| AppCommand.Iterate | backend/app.py:108 | `for item in v` yields a list's items and a string's characters; on `None`, an int or a bool it raises |
| AppCommand.BuildCommand | backend/app.py:86-121 | argv is the argv specification of the template against the values merged with the runtime variables |
| AppCommand.ArgvStep | backend/app.py:93-120 | one more part either extends a successful argv by its tokens or fails with that part's error |
| AppCommand.ArgPart | backend/app.py:99-118 | the body for one argument part produces exactly that part's tokens |
| AppCommand.SkippedExactly | backend/app.py:99-102 | an argument is left out exactly when its value is `None` (or missing), `""` or `[]`; `0` and `False` are kept |
| AppCommand.SkippedFalsy | backend/app.py:100-102 | a value that is left out is falsy |
| AppCommand.BoolMode | backend/app.py:105-106 | `bool` mode emits the flag exactly when the value is truthy |
| AppCommand.ZeroAndFalseKept | backend/app.py:99-118 | `0` and `False` reach the value path and emit `"0"` and `"False"` |
| AppCommand.ValueMode | backend/app.py:116-118 | the value path emits `flag, str(v)`, or `str(v)` without a flag, for every kept value |
| AppCommand.JoinMode | backend/app.py:111-115 | `join` emits one token of the items joined by `sep` (default ","), a scalar standing alone, after the flag when there is one |
| AppCommand.RepeatContents | backend/app.py:107-110 | `repeat` emits `flag, str(item)` for each item in order, or each `str(item)` alone without a flag |
| AppCommand.RepeatFlagged | backend/app.py:109 | with a flag, item k sits at positions 2k and 2k+1 |
| AppCommand.RepeatBare | backend/app.py:110 | without a flag, item k sits at position k |
| AppCommand.RepeatMode | backend/app.py:107-110 | `repeat` over a list emits its repeat tokens; over an int or a bool it raises |
| AppCommand.ArgvOfErrSticky | backend/app.py:119-120 | after the first failing part the rest of the template does not matter |
| AppCommand.ArgvOfOk | backend/app.py:93-120 | the template renders exactly when each part does |
| AppCommand.ArgvOfFirstError | backend/app.py:93-120 | a failure is the error of the first failing part |
| AppCommand.MalformedRejected | backend/app.py:119-120 | a template holding a part of any other shape is rejected |
| AppCommand.LiteralParts | backend/app.py:93-95 | a template made only of string parts renders, one token per part, each rendered, in template order |
| AppCommand.ArgvOfAppend | backend/app.py:93-120 | the argv of two template pieces in a row is the first's argv followed by the second's, and it succeeds exactly when both do |
| AppCommand.LiteralAmongParts | backend/app.py:93-95 | a string part anywhere in the template, between argument parts, is one token, its rendered text, after the tokens of the parts before it and before those of the parts after it; the template renders exactly when those parts do |
| AppCommand.Skipped | backend/app.py:100-102 | `v in (None, "", [], False)` and not `v == 0`: the argument is left out |
| AppCommand.Repeat | backend/app.py:108-110 | per item, in list order, `flag, str(item)` when the flag is set, else `str(item)` |
| AppCommand.ArgTokens | backend/app.py:99-118 | one argument part's tokens: none when skipped, else by mode `bool`, `repeat`, `join`, and `value` for every other mode |
| AppCommand.ArgvOf | backend/app.py:92-120 | argv part by part in template order; the first invalid part or failing `repeat` aborts it |
| AppCommand.PlaceholderPart | backend/app.py:87-95 | a part that is one placeholder becomes the runtime variable when there is one, else `str` of the value, else stays as it is |
| AppCommand.LiftLookup | backend/app.py:88 | a runtime variable looks up as its string value |
| AppTopo.Ids | backend/app.py:51-52 | the node ids in node order |
| AppTopo.Succs | backend/app.py:51-57 | the successors of a node after the edge loop: the targets of its edges whose two ends are nodes, each once |
| AppTopo.AddEdge | backend/app.py:54-57 | one edge: added to the source's set when both ends are nodes and it is new, else nothing changes |
| AppTopo.PredsAreInNeighbours | backend/app.py:51-57 | in the dependency sets, the predecessors of a node are exactly the nodes with an edge into it |
| AppTopo.AddEdgeGraph | backend/app.py:53-57 | one more edge keeps the sets equal to the successor sets of the edges so far |
| AppTopo.AddEdgePreds | backend/app.py:55-57 | an edge adds a predecessor exactly when both ends are nodes and it is new |
| AppTopo.BuildGraph | backend/app.py:51-57 | the sets hold each node's successor nodes; dangling edges are ignored and each count is the number of distinct nodes with an edge in |
| AppTopo.PopCounts | backend/app.py:61-62 | popping a node leaves the counts of its successors owing it one each |
| AppTopo.PopPredsFirst | backend/app.py:61-62 | a node whose predecessors are all scheduled can be scheduled next |
| AppTopo.PopFresh | backend/app.py:63 | no successor of a newly scheduled node is already scheduled |
| AppTopo.PopQueue | backend/app.py:61-62 | popping the top of the stack keeps order and stack disjoint and duplicate-free |
| AppTopo.PopStep | backend/app.py:60-62 | a pop sets up the release loop over the popped node's successors |
| AppTopo.ReleaseQueue | backend/app.py:64-65 | decrementing a count pushes the node exactly when it reaches zero, keeping the stack ready and duplicate-free |
| AppTopo.ReleaseStep | backend/app.py:63-65 | releasing one successor keeps the release-loop invariant |
| AppTopo.ReleaseCounts | backend/app.py:64 | releasing one successor keeps each count equal to its remaining predecessors |
| AppTopo.Release | backend/app.py:63-65 | the release loop restores the loop invariant and does not increase the termination measure |
| AppTopo.TopoStart | backend/app.py:58-59 | the initial stack holds exactly the nodes with count zero, and nothing is scheduled |
| AppTopo.StartCounts | backend/app.py:51-58 | the built counts are each node's number of distinct predecessors |
| AppTopo.Visit | backend/app.py:60-65 | one iteration schedules the top of the stack, keeps the invariant and decreases the measure |
| AppTopo.Topo | backend/app.py:50-67 | on success every node id appears once, sources before targets; a failure is `400 "Cycle in workflow"` and happens only when no order exists |
| AppTopo.CycleWhenShort | backend/app.py:66 | a short order means no order of the ids respects the edges |
| AppTopo.WaitsWhenCounted | backend/app.py:60-66 | an unscheduled node with a positive count waits for an unscheduled node |
| AppTopo.OrderWhenComplete | backend/app.py:66-67 | a full-length order with predecessors first is a topological order |
| CommandBuilder.MergeDefaults | backend/src/utils/command_builder.py:10-14 | the merge loop computes the active-parameter specification |
| CommandBuilder.ActiveParamsLookup | backend/src/utils/command_builder.py:10-14 | every schema name holds the input if given, else its default, else `None`; inputs outside the schema are not bound |
| CommandBuilder.ActiveParamsDistinct | backend/src/utils/command_builder.py:10-14 | each active name appears once |
| CommandBuilder.ActiveParams | backend/src/utils/command_builder.py:10-14 | `active_params`: each schema name in order, bound to `user_inputs.get(name, default)` |
| CommandBuilder.RenderTemplate | backend/src/utils/command_builder.py:30-35 | `_render_template` replaces each key's placeholder, in key order, as the rendering specification does |
| CommandBuilder.DeclaredPlaceholder | backend/src/utils/command_builder.py:18-35 | a part that is one placeholder of a schema name becomes `str` of its active value; an unknown placeholder stays |
| CommandBuilder.BuildCommand | backend/src/utils/command_builder.py:6-27 | the command is the kept pieces of the structure, in order, joined by single spaces |
| CommandBuilder.ProcessStructure | backend/src/utils/command_builder.py:18-25 | the structure loop appends exactly the pieces of the parts in order |
| CommandBuilder.AppendPart | backend/src/utils/command_builder.py:19-25 | one part appends its rendered text, its kept argument text, or nothing |
| CommandBuilder.ProcessArgNode | backend/src/utils/command_builder.py:38-55 | `_process_arg_node`: `None` for an absent value; then the flag for a truthy `bool`, `flag quoted-join` for `join`, and the quoted `str(val)` after a non-empty flag for every other mode |
| CommandBuilder.Pieces | backend/src/utils/command_builder.py:18-25 | `cmd_parts` after the loop: each part's piece in template order |
| CommandBuilder.AbsentExactly | backend/src/utils/command_builder.py:44 | a value is absent exactly when it is `None` (or missing), `""` or `[]`; `0` and `False` are not |
| CommandBuilder.AbsentContributesNothing | backend/src/utils/command_builder.py:44 | an absent value contributes nothing, whatever the mode |
| CommandBuilder.BoolMode | backend/src/utils/command_builder.py:45 | `bool` mode yields the flag exactly when the value is truthy, else nothing |
| CommandBuilder.JoinMode | backend/src/utils/command_builder.py:47-51 | `join` yields the flag, a space and the joined text quoted once; the shell reads the quoted word back as the joined text |
| CommandBuilder.ValueMode | backend/src/utils/command_builder.py:53-55 | every other mode, `repeat` included, yields the quoted `str(val)`, after `flag ` only when the flag is non-empty |
| CommandBuilder.ZeroAndFalseKept | backend/src/utils/command_builder.py:44-55 | `0` and `False` are passed on as `0` and `False` |
| CommandBuilder.LiteralsKept | backend/src/utils/command_builder.py:19-21 | a structure made only of string parts keeps every part, rendered, in order |
| CommandBuilder.PiecesAppend | backend/src/utils/command_builder.py:18-25 | the pieces of two structure runs in a row are the first's pieces followed by the second's |
| CommandBuilder.LiteralAmongParts | backend/src/utils/command_builder.py:19-21 | a string part anywhere in the structure, between argument parts, is one piece, its rendered text, after the pieces of the parts before it and before those of the parts after it |
| CommandBuilder.PiecesBound | backend/src/utils/command_builder.py:18-25 | there are never more pieces than parts |
| CommandBuilder.MalformedIgnored | backend/src/utils/command_builder.py:18-25 | parts of any other shape contribute nothing |
| CommandBuilder.WellFormed | backend/src/utils/command_builder.py:18-22 | the parts of an accepted shape, never more than the structure has |
| CommandBuilder.CommandSplits | backend/src/utils/command_builder.py:27 | when no piece holds a space, splitting the command on spaces recovers the pieces |
| Graph.EdgeInOrder | backend/src/utils/workflow_engine.py:40-46 | in a topological order each edge between two ids has its source at an earlier position than its target |
| Graph.Stuck | backend/app.py:66 | when every remaining node waits for another remaining node, no order respects the edges |
| Graph.ZeroIn | backend/app.py:58 | the ids with count zero, in list order, without repeats when the ids have none |
| Graph.PosDecrement | backend/app.py:64 | a decrement to zero removes one node from those still waiting; any other decrement removes none |
| Graph.Unscheduled | backend/app.py:66 | a shorter list of distinct ids misses one of them |
| WorkflowEngine.NodeIds | backend/src/utils/workflow_engine.py:27-29 | the node ids in node order |
| WorkflowEngine.Dedup | backend/src/utils/workflow_engine.py:28 | the keys of `{n["id"]: ...}` are distinct and are exactly the node ids |
| WorkflowEngine.DedupDistinct | backend/src/utils/workflow_engine.py:28 | with distinct ids the keys are the ids in node order |
| WorkflowEngine.Targets | backend/src/utils/workflow_engine.py:33 | `adj[u]` holds exactly the targets of `u`'s edges |
| WorkflowEngine.InCountRelease | backend/src/utils/workflow_engine.py:43-44 | scheduling `u` takes one count per occurrence of the target in `adj[u]` |
| WorkflowEngine.InCountZero | backend/src/utils/workflow_engine.py:45 | no edge into `v` is counted exactly when every edge into `v` comes from a scheduled node |
| WorkflowEngine.CountedEdge | backend/src/utils/workflow_engine.py:34 | a positive count has an edge from an unscheduled node behind it |
| WorkflowEngine.BuildDeps | backend/src/utils/workflow_engine.py:27-34 | the build succeeds exactly when no edge dangles, then counts every edge; otherwise it raises `KeyError` on the first dangling edge's missing end, source first |
| WorkflowEngine.AddEdge | backend/src/utils/workflow_engine.py:32-34 | one edge raises `KeyError` exactly when an end is not a node, else is appended and counted |
| WorkflowEngine.FirstDangling | backend/src/utils/workflow_engine.py:31-34 | one dangling edge is enough for the whole edge list to dangle |
| WorkflowEngine.DepsStep | backend/src/utils/workflow_engine.py:33-34 | appending and counting one good edge keeps the lists and counts equal to those of the edges so far |
| WorkflowEngine.PopFront | backend/src/utils/workflow_engine.py:41-42 | `queue.pop(0)` keeps order and queue disjoint, duplicate-free and ready |
| WorkflowEngine.PopTally | backend/src/utils/workflow_engine.py:41-43 | popping a node leaves its targets owing it one count per edge |
| WorkflowEngine.PopSourcesFirst | backend/src/utils/workflow_engine.py:41-42 | a node whose count is zero has all its sources scheduled before it |
| WorkflowEngine.PopFresh | backend/src/utils/workflow_engine.py:43 | no target of a newly scheduled node is scheduled already |
| WorkflowEngine.PopStep | backend/src/utils/workflow_engine.py:41-43 | the pop sets up the loop over the popped node's targets |
| WorkflowEngine.ReleaseQueue | backend/src/utils/workflow_engine.py:44-46 | decrementing appends the node to the queue exactly when it reaches zero |
| WorkflowEngine.ReleaseTally | backend/src/utils/workflow_engine.py:44 | a pending target still has a positive count, and decrementing it keeps the counts right |
| WorkflowEngine.ReleaseStep | backend/src/utils/workflow_engine.py:43-46 | one pass of the inner loop keeps its invariant |
| WorkflowEngine.ReleaseOne | backend/src/utils/workflow_engine.py:44-46 | one decrement keeps the invariant, only appends to the queue and does not increase the measure |
| WorkflowEngine.Release | backend/src/utils/workflow_engine.py:43-46 | the inner loop restores the outer invariant and only appends to the queue |
| WorkflowEngine.Roots | backend/src/utils/workflow_engine.py:37 | the nodes without incoming edges, in key order |
| WorkflowEngine.ZeroInRoots | backend/src/utils/workflow_engine.py:37 | the initial queue is exactly the roots in the dictionary's key order |
| WorkflowEngine.InitInv | backend/src/utils/workflow_engine.py:37-38 | before the loop the queue holds the ready nodes and nothing is scheduled |
| WorkflowEngine.EngineWaits | backend/src/utils/workflow_engine.py:40-48 | an unscheduled node with a positive count waits for an unscheduled node |
| WorkflowEngine.EngineCycle | backend/src/utils/workflow_engine.py:48-50 | with distinct ids, a short order means the edges admit no order |
| WorkflowEngine.EngineOrder | backend/src/utils/workflow_engine.py:48 | a full-length order lists every id once with sources first, and the ids were distinct |
| WorkflowEngine.Visit | backend/src/utils/workflow_engine.py:40-46 | one outer iteration keeps the invariant and the roots as a prefix, and decreases the measure |
| WorkflowEngine.Schedule | backend/src/utils/workflow_engine.py:27-50 | a dangling edge raises `KeyError`; otherwise the result is an order listing each id once, sources first, roots first in node order, or an abort that implies a cycle when ids are distinct |
| WorkflowEngine.NodeMap | backend/src/utils/workflow_engine.py:29 | `{n["id"]: n}` has the node ids as keys, each mapped to a node with that id |
| WorkflowEngine.NodeMapDistinct | backend/src/utils/workflow_engine.py:29 | with distinct ids each id maps to its own node |
| WorkflowEngine.Outputs | backend/src/utils/workflow_engine.py:88-92 | `context_outputs` after running the ids in order: a node records its tool's output path when it has one |
| WorkflowEngine.OutputsExactly | backend/src/utils/workflow_engine.py:61-92 | exactly the run nodes whose tool is known and declares a path record an output, and it is that path |
| WorkflowEngine.UpstreamLast | backend/src/utils/workflow_engine.py:68-73 | an input file is piped exactly when some incoming edge's source has an output, and it comes from the last such edge |
| WorkflowEngine.UpstreamAgree | backend/src/utils/workflow_engine.py:68-73 | the piped file depends only on the outputs of the node's sources |
| WorkflowEngine.Upstream | backend/src/utils/workflow_engine.py:68-73 | the output of the source of the last edge into the node, in edge order, whose source has recorded one |
| WorkflowEngine.Piped | backend/src/utils/workflow_engine.py:65-73 | the node's inputs with `input_file` set to the upstream output, when there is one |
| WorkflowEngine.Incoming | backend/src/utils/workflow_engine.py:68 | the incoming edges all end at the node |
| WorkflowEngine.UpstreamIncoming | backend/src/utils/workflow_engine.py:68-73 | scanning only the incoming edges pipes the same file as scanning all edges |
| WorkflowEngine.ResolveInputs | backend/src/utils/workflow_engine.py:65-73 | the inputs are a copy of the node's own with only `input_file` changed, set to the last upstream output when there is one |
| WorkflowEngine.PipedKeeps | backend/src/utils/workflow_engine.py:65-73 | piping touches `input_file` alone |
| WorkflowEngine.Known | backend/src/utils/workflow_engine.py:61-62 | the run nodes whose tool slug the catalog has |
| WorkflowEngine.RunNodes | backend/src/utils/workflow_engine.py:56 | the nodes of the runs, one per run, in order |
| WorkflowEngine.Runs | backend/src/utils/workflow_engine.py:56-86 | the commands run in execution order: a node with an unknown tool runs nothing, the others run the command built from their piped inputs |
| WorkflowEngine.RunsKnown | backend/src/utils/workflow_engine.py:56-62 | a node with an unknown tool is skipped; the others run once each, in order |
| WorkflowEngine.PipingIsStatic | backend/src/utils/workflow_engine.py:65-92 | in an order that respects the edges, the file piped into a node is the one the outputs of the whole run give it |
| WorkflowEngine.Execute | backend/src/utils/workflow_engine.py:56-92 | the execution loop runs the nodes of the order by the run specification and records the outputs by the output specification |
| WorkflowEngine.RunNode | backend/src/utils/workflow_engine.py:57-92 | one pass runs the node if its tool is known, with its resolved inputs, and records its output path if declared |
| WorkflowEngine.RunsSnoc | backend/src/utils/workflow_engine.py:57-92 | one more node adds its run (when its tool is known) and its output (when declared) and nothing else |
| WorkflowEngine.RunWorkflow | backend/src/utils/workflow_engine.py:13-98 | nothing runs unless the schedule is complete; then every node runs in a topological order with roots first, its inputs piped from upstream |
| AppState.NodeIds | bug-bounty-platform/src/App.tsx:45 | the node ids in node order |
| AppState.GraphEdges | bug-bounty-platform/src/types.ts:20 | each workflow edge as its source and target, in order |
| AppState.InitialIds | bug-bounty-platform/src/App.tsx:12-16 | the initial nodes are `n1`, `n2`, `n3` |
| AppState.InitialEdges | bug-bounty-platform/src/App.tsx:17 | the initial edges are `n1→n2` and `n2→n3` |
| AppState.InitialShape | bug-bounty-platform/src/App.tsx:9-18 | the initial workflow has 3 distinct nodes and 2 edges between existing nodes, and `n1, n2, n3` respects them |
| AppState.WithParams | bug-bounty-platform/src/App.tsx:32-34 | only the node with that id gets the new params; other nodes, edges, id and name are unchanged |
| AppState.SetParams | bug-bounty-platform/src/App.tsx:33 | `nodes.map` replaces the params of the nodes with that id and leaves the others |
| AppState.WithParamsKeepsShape | bug-bounty-platform/src/App.tsx:33 | editing keeps every node's id, tool and label, so the canvas is unchanged |
| AppState.AppendLog | bug-bounty-platform/src/App.tsx:40 | a log line goes at the end of its node's lines (empty when absent), and other nodes' lines are unchanged |
| AppState.LinesFor | bug-bounty-platform/src/App.tsx:40 | the lines of a node's `log` messages, never more than the messages |
| AppState.LogsAccumulate | bug-bounty-platform/src/App.tsx:39-42 | after a message stream, a node's lines are its earlier lines followed by every line sent for it, in order |
| AppState.LastStatusWins | bug-bounty-platform/src/App.tsx:41 | a node's status is the one its last `node_status` message carried, with no terminal state; without one it is unchanged |
| AppState.HandleSeparates | bug-bounty-platform/src/App.tsx:39-42 | `log` messages never touch statuses, `node_status` messages never touch logs, and other types touch neither |
| AppState.Handle | bug-bounty-platform/src/App.tsx:39-42 | one message: `log` appends to that node's lines, `node_status` overwrites that node's status, any other type changes nothing |
| AppState.StatusLabel | bug-bounty-platform/src/App.tsx:99 | the badge shows "idle" exactly when the status is absent, empty or "idle", and the status otherwise |
| AppState.StatusColor | bug-bounty-platform/src/App.tsx:98 | the badge is gray exactly when the status is absent or not `running`, `ok` or `error` |
| AppState.LogTail | bug-bounty-platform/src/App.tsx:102 | the pane shows the last `min(400, n)` stored lines, in order |
| AppState.NewLineShown | bug-bounty-platform/src/App.tsx:102 | a new line always shows as the last of the pane; below 400 lines the pane shows all of them |
| AppState.Canvas | bug-bounty-platform/src/App.tsx:45 | one canvas node per workflow node, same id and label, in order, 260 pixels apart on one row |
| AppState.CanvasFrom | bug-bounty-platform/src/App.tsx:45 | the canvas nodes from a given index, at their index's position |
| AppState.CanvasLeftToRight | bug-bounty-platform/src/App.tsx:45 | canvas nodes do not overlap: they stand left to right in list order |
| AppState.Selected | bug-bounty-platform/src/App.tsx:47 | the selected node is the first with the selected id, and there is none exactly when no node has it |
| AppState.Session.constructor | bug-bounty-platform/src/App.tsx:21-26 | the page starts with the initial workflow, no logs and no statuses |
| AppState.Session.OnArgsChange | bug-bounty-platform/src/App.tsx:32-34 | the workflow takes the params update; logs and statuses are unchanged |
| AppState.Session.OnLog | bug-bounty-platform/src/App.tsx:40 | the logs take the line; workflow and statuses are unchanged |
| AppState.Session.OnNodeStatus | bug-bounty-platform/src/App.tsx:41 | the node's status is overwritten; workflow and logs are unchanged |
| AppState.Session.OnMessage | bug-bounty-platform/src/App.tsx:39-42 | a message updates logs and statuses as the reducer says, and never the workflow |
| ArgsPanel.StartValue | bug-bounty-platform/src/ArgsPanel.tsx:15-18 | a field starts from its existing value, else its default, else `[]` for list types, `false` for boolean and `""` otherwise |
| ArgsPanel.StartLookup | bug-bounty-platform/src/ArgsPanel.tsx:13-19 | every declared argument gets a key, only declared ones do, and the last spec of a name decides |
| ArgsPanel.StartDistinct | bug-bounty-platform/src/ArgsPanel.tsx:13-19 | each field appears once |
| ArgsPanel.StartValues | bug-bounty-platform/src/ArgsPanel.tsx:13-19 | the `forEach` gives exactly the declared names their start values |
| ArgsPanel.Select | bug-bounty-platform/src/ArgsPanel.tsx:11-21 | with no node or an unknown tool the values stay; otherwise they are the start values of the node's tool |
| ArgsPanel.Wrap | bug-bounty-platform/src/ArgsPanel.tsx:29 | the params have exactly the local keys, each wrapped as `{value: v}` |
| ArgsPanel.Update | bug-bounty-platform/src/ArgsPanel.tsx:26-31 | `update` sets only the edited key, keeps the other keys and their order, and reports all of them wrapped |
| ArgsPanel.EditReachesNode | bug-bounty-platform/src/ArgsPanel.tsx:26-30 | the parameters reported under `node.id` become, through the page's `onArgsChange`, the selected node's parameters, whose edited field holds the new value |
| ArgsPanel.ReselectKeepsEdits | bug-bounty-platform/src/ArgsPanel.tsx:13-31 | selecting the node again after an edit starts every declared field from its edited value |
| ArgsPanel.KindOf | bug-bounty-platform/src/ArgsPanel.tsx:37-88 | a multi-select exactly for `list<enum>`, a lines field only for list types, a text field exactly for the other types |
| ArgsPanel.EnumChoices | bug-bounty-platform/src/ArgsPanel.tsx:41-43 | an enum offers `""` first and then the declared options |
| ArgsPanel.CheckBoxStoresBool | bug-bounty-platform/src/ArgsPanel.tsx:51 | a checkbox stores its checked state, and it shows checked exactly then |
| ArgsPanel.ParseList | bug-bounty-platform/src/ArgsPanel.tsx:78 | the parsed lines are non-empty and hold no newline |
| ArgsPanel.ListRoundTrip | bug-bounty-platform/src/ArgsPanel.tsx:77-78 | non-empty lines without newlines, joined and parsed again, give the same list |
| ArgsPanel.ParseListStable | bug-bounty-platform/src/ArgsPanel.tsx:77-78 | showing a parsed list and parsing it again changes nothing |
| ArgsPanel.ListValue | bug-bounty-platform/src/ArgsPanel.tsx:78 | a list edit stores the parsed lines as strings, never `""` |
| WorkflowLibrary.NumOfNat | bug-bounty-platform/src/components/WorkflowLibrary.tsx:31-37 | reading the decimal id of a number gives that number back |
| WorkflowLibrary.IdRange | bug-bounty-platform/src/components/WorkflowLibrary.tsx:30-38 | a template's node ids are '1' to 'n' in order |
| WorkflowLibrary.Edges | bug-bounty-platform/src/components/WorkflowLibrary.tsx:39-47 | each template edge joins the ids of its two numbers |
| WorkflowLibrary.IdInjective | bug-bounty-platform/src/components/WorkflowLibrary.tsx:30-38 | two numbers have the same id exactly when they are equal |
| WorkflowLibrary.ForwardEdgesJoinIds | bug-bounty-platform/src/components/WorkflowLibrary.tsx:30-47 | in a forward template each edge joins two of its ids, the source numerically lower |
| WorkflowLibrary.IdRangeDistinct | bug-bounty-platform/src/components/WorkflowLibrary.tsx:30-38 | the ids of a template are distinct |
| WorkflowLibrary.ForwardRespects | bug-bounty-platform/src/components/WorkflowLibrary.tsx:30-47 | the ids in numeric order respect every forward edge |
| WorkflowLibrary.ForwardIsAcyclic | bug-bounty-platform/src/components/WorkflowLibrary.tsx:30-47 | a forward template is acyclic: its ids in numeric order are an execution order |
| WorkflowLibrary.BuiltInsForward | bug-bounty-platform/src/components/WorkflowLibrary.tsx:18-367 | every built-in template's edges join its nodes and go from a lower to a higher id |
| WorkflowLibrary.BuiltInsSelectable | bug-bounty-platform/src/components/WorkflowLibrary.tsx:18-370 | every built-in template's category and difficulty are among the filter choices |
| WorkflowLibrary.BuiltInsAcyclic | bug-bounty-platform/src/components/WorkflowLibrary.tsx:207-229 | every built-in template graph is acyclic |
| WorkflowLibrary.Filter | bug-bounty-platform/src/components/WorkflowLibrary.tsx:372-380 | a template is shown exactly when it matches the search, the category and the difficulty, in library order |
| WorkflowLibrary.ShownAtMostTotal | bug-bounty-platform/src/components/WorkflowLibrary.tsx:475 | the shown count never exceeds the total |
| WorkflowLibrary.EmptySearchMatches | bug-bounty-platform/src/components/WorkflowLibrary.tsx:373 | the empty search matches every template |
| WorkflowLibrary.EmptySearchKeeps | bug-bounty-platform/src/components/WorkflowLibrary.tsx:373-377 | with an empty search, exactly the templates passing the category and difficulty filters are shown |
| WorkflowLibrary.NoFilterShowsAll | bug-bounty-platform/src/components/WorkflowLibrary.tsx:372-380 | no search with 'all' and 'all' shows the whole library |
| WorkflowLibrary.DifficultyColor | bug-bounty-platform/src/components/WorkflowLibrary.tsx:389-397 | any other difficulty is gray; the four levels are not |
| WorkflowLibrary.ColorsDistinct | bug-bounty-platform/src/components/WorkflowLibrary.tsx:389-397 | the four levels get four different classes |
| McpServer.RemoveDotsChars | backend/mcp_server.py:92 | removing the dots keeps exactly the other characters |
| McpServer.IsIpLike | backend/mcp_server.py:92 | `t.replace('.', '').isdigit()`: after removing dots the text is non-empty and all digits |
| McpServer.IpLikeChars | backend/mcp_server.py:92 | a target is IP-like exactly when it has a digit and only digits and dots |
| McpServer.IpsOf | backend/mcp_server.py:92 | `allowed_ips` holds exactly the IP-like targets, in input order |
| McpServer.DomainsOf | backend/mcp_server.py:93 | `allowed_domains` holds exactly the targets not in the IP list, in input order |
| McpServer.DomainsAreNonIps | backend/mcp_server.py:92-93 | the domains are exactly the targets that are not IP-like |
| McpServer.SplitCounts | backend/mcp_server.py:92-93 | the IPs and the non-IPs together are as many as the targets |
| McpServer.ScopePartition | backend/mcp_server.py:92-93 | each target is in exactly one list, and the lists partition the input |
| McpServer.ScopeFor | backend/mcp_server.py:92-93 | both lists are replaced and the exclusions kept |
| McpServer.ScopeIsReplaced | backend/mcp_server.py:90-101 | after setting the scope exactly the given targets are in scope, whatever it was before |
| McpServer.NothingInScopeInitially | backend/mcp_server.py:22-27 | no target is in scope before a scope is set |
| McpServer.ScanFinding | backend/mcp_server.py:109-113 | the finding names the scanned target |
| McpServer.Ints | backend/mcp_server.py:119 | the port list as int values, in order |
| McpServer.Engagement.constructor | backend/mcp_server.py:22-27 | empty scope, no findings, no reports |
| McpServer.Engagement.SetEngagementScope | backend/mcp_server.py:89-94 | the scope lists are replaced, findings and reports are untouched, and the message lists the targets |
| McpServer.Engagement.RunScan | backend/mcp_server.py:96-119 | an out-of-scope target returns the error and changes nothing; otherwise one finding is appended and becomes the latest report |
| McpServer.Engagement.LatestReport | backend/mcp_server.py:47-54 | "No findings available." with no findings, otherwise the last finding |

## Left out

- Process, network and filesystem I/O are not modelled. This covers `ws_broadcast`, `pipe_logs` and the subprocess of `run_node`, as well as the run directory and `workflow.json` writes, the random run ids, the websocket endpoint and YAML loading. The tool catalog is a parameter.
- The environment that `build_command` assembles in `backend/app.py` (lines 122-127) is not modelled. It reads `os.environ` and `GLOBAL_ENV`.
- The `runner` of `backend/app.py` (lines 184-197) and the file piping inside `run_node` are not modelled. Their ordering rests on return codes and on files existing on disk.
- The database queries of `workflow_engine.py` are not modelled. The workflow lookup and its "not found" early return (line 20) are left out. The tool query is a map from slug to tool definition. The subprocess is left out, since nothing it returns is read.
- WorkflowEngine.RunWorkflow: assumes every node has `id`, `data.tool_id` and `data.inputs`, and every edge has `source` and `target`. A node or edge without these keys raises in the source, and the model does not capture that.
- McpServer.Engagement.LatestReport: returns the finding, not its `json.dumps` text. JSON rendering is not modelled.
- `ctx.info` and `asyncio.sleep` in `run_scan` are not modelled. They are I/O.
- `get_audit_logs` and the two MCP prompts return fixed text and are not modelled.
- React scheduling is not modelled: when effects run, batching of state updates, and `useMemo`. Each event is applied as one step.
- Number fields of the argument panel store integers. JavaScript's `Number(...)` float parsing is not modelled.
- Values.Repr: escapes the unprintable characters up to U+00FF as Python does. Python also writes `\u`/`\U` escapes for unprintable characters above U+00FF; the model shows those as themselves.
- Text.Lower: ASCII only. Unicode case mapping and Python's Unicode `isdigit` are not modelled.
- `shlex.quote` follows Python's documented rule. The shell reader that proves the round trip handles only single quotes, double quotes without `$`, backquote or backslash, and unquoted safe characters.
- AppTopo.Topo: the order and cycle clauses assume distinct node ids. With repeated ids the source's dictionaries merge nodes, and the model states only the result's length and the error text.
- The template display fields are not modelled: duration, rating, downloads, author, node labels, positions and edge animation. `loadWorkflow` (localStorage and navigation) is not modelled either.
- The builder canvas, the terminal socket, the API client and the static pages are not part of this model.

## Findings

| source | as written | input that shows it | evidently intended | confidence | as-written member | corrected member |
|---|---|---|---|---|---|---|
| backend/app.py:79 | `values[name] = params[name]["value"]` subscripts the parameter, but `run_node` passes `node.params`, whose entries are `ArgValue` models, and those raise `TypeError` when subscripted | a tool with one optional argument `x`, and params `{x: ArgValue(value=1)}` | bind `x` to `params[name].value`, which is 1 | not executed | AppArgs.AsWrittenRejectsGivenParam | AppArgs.ApplyArgs |
