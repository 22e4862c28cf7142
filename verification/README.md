# Verification of GaussAnalytics

This project models the algorithmic cores of GaussAnalytics in Dafny and proves what they promise.

- **Reactive notebooks** (`Graphs`, `NotebookGraph`, `NotebookRerun`, `NotebookEdit`, `NotebookMinimal`,
  `NotebookDisplay`, `PythonAnalysis`, `NotebookPlan`, `NotebookReading`, `NotebookUnlisted`, `NotebookChain`): the
  dependency graph, its run order, the cells to run again after an edit, when running only those is enough, and which of
  them can be left out. `NotebookReading` says what orders and re-runs do in terms of the cells' fields and text alone.
- **The query compiler** (`Gql`, `Keywords`, `Dialect`, `QueryPieces`, `QueryBuilder`, `QueryCompiler`, and for its
  meaning `SqlLexer`, `SqlParser`, `FilterTokens`, `PieceShapes`, `FilterMeaning`, `QueryMeaning`, `StatementReading`):
  GQL to parameterized SQL in eight dialects. The text is read back by an independent lexer and parser, after sections
  5.2, 8.3 and 8.12 of ISO/IEC 9075:1992, its conditions are evaluated in three-valued logic, and a reader of whole
  statements finds in it what the query asks for.
- **The agent** (`Conversation`, `Agent`, `Anthropic`, `Streaming`): the tool loop for arbitrary LLMs and tools, the
  grouping of tool messages into turns, and the reading of streamed answers.
- **Two concurrent protocols** (`KernelProtocol`, `ConnectionProtocol`, and `KernelHistory`, `ConnectionHistory` for why
  calls end as they do): starting notebook kernels and sharing connections, as atomic steps of many interleaved calls.
- **Codecs and counting** (`ResultCache`, `NotebookFormat`, `NotebookFile`, `CsvIngest`, `CsvReading`, `Scheduler`).
  `NotebookFile` and `CsvReading` say what the formats mean by their text alone.

`Common`, `Decimal`, `Hexadecimal`, `Uuid`, `Whitespace` and `Splitting` hold what several of them need. `dafny verify
dfyconfig.toml` checks everything.

Code that works by loops over arrays, maps, queues and fields is written as methods and classes, proved against
specification functions; the properties are lemmas about those functions.

## Where the code and its documentation disagree

- `crates/gauss-notebook/src/dag.rs:5-7` says that changing a cell only needs that cell and its transitive dependents to
  run again. This is false in general. Two SQL cells that both bind `df` are a counterexample
  (`NotebookEdit.TwoQueriesNeedFullRun`), a cell that updates its own variable is another
  (`NotebookEdit.CounterNeedsFullRun`), and names the analysis does not list are a third: after `a,b=1,2` a chart of `a`
  is not run again (`NotebookUnlisted.TupleLeavesChartStale`).
  When exactly it holds is proved for any names the cells really bind and read, any edit and any cells run again
  (`NotebookRerun.PartialSufficesIff`); in a simpler form when what the cells display counts too
  (`NotebookDisplay.RerunSufficesIffRight`), and simpler still for cells that bind what is listed and edits that keep the
  variables (`NotebookRerun.RerunSufficesIffSafe`). For edits that change the variables, the general condition applies in
  every notebook (`NotebookEdit.EditSufficesIff`); where each variable has one binder and no cell reads its own it comes
  down to dropping no variable (`NotebookEdit.EditSufficesIffNothingDropped`).
- `crates/gauss-notebook/src/dag.rs:151-152` calls over-listing uses harmless. A Python cell lists every name it binds as
  used too, needed or not. An order remains despite that exactly when no two Python cells bind the same name, keywords
  apart (`NotebookPlan.OwnNamesHarmlessIff`): `a=1` and `a=2` cannot be ordered (`NotebookPlan.TwoAssignments`). Where
  there is an order, the dependencies stay the same exactly when no other cell binds a name a Python cell binds without
  needing it, and the order stays the same exactly when it runs such cells first anyway
  (`NotebookPlan.OwnNamesKeepOrderIff`): a query that binds `x` moves before `x=1` (`NotebookPlan.QueryMovesUp`). Words
  inside string literals are over-listed as well, and `a='b'` with `b=a` form a cycle (`NotebookPlan.TextCountsAsUse`).
  For any over-listed names, there is an order, and the same one as without them, exactly when that order runs every
  added dependency forward (`NotebookPlan.OverlistingKeepsOrderIff`).
- `crates/gauss-server/src/content.rs:1245` says an unknown changed cell yields an error. The code returns an empty
  order, and for a changed cell returns it only then (`NotebookPlan.PlanIsEmptyIff`).
- `crates/gauss-notebook/src/nbformat.rs:5-8` says that cells survive export and import. They do exactly when they are
  portable: a query whose variable has a space in it, a chart with an output variable, a Markdown cell with a database or
  Python code that starts with a marker comment comes back changed (`NotebookFormat.CellSurvivesIff`).

## Model

| member | source | states |
|---|---|---|
| NotebookGraph.Edges | crates/gauss-notebook/src/dag.rs:43-65 | the edges, each once, are exactly the pairs of different cells where the second reads a variable the first defines |
| NotebookGraph.PopMin | crates/gauss-notebook/src/dag.rs:99-106 | removes one smallest member of the queue and keeps the rest in order; None exactly for the empty queue |
| NotebookGraph.ReleaseSuccessors | crates/gauss-notebook/src/dag.rs:82-87 | in place, lowers each successor's counter once and queues those that reach zero, in the order listed |
| NotebookGraph.ReleaseStep | crates/gauss-notebook/src/dag.rs:82-87 | no counter underflows, and counters keep counting the edges from cells not yet placed |
| NotebookGraph.RoundKeepsSorting | crates/gauss-notebook/src/dag.rs:78-89 | one round of the loop places the smallest cell that has no unplaced dependency, and the queue again holds exactly the ready cells |
| NotebookGraph.TopoOrder | crates/gauss-notebook/src/dag.rs:70-96 | the array-and-queue algorithm returns the greedy order by ids, and the cycle error exactly when that order misses a cell |
| NotebookGraph.OrderIsSafe | crates/gauss-notebook/src/dag.rs:67-96 | an order exists if and only if there is no dependency cycle; it is then a permutation that runs every definer before each other reader, and the lexicographically least one |
| NotebookGraph.OrderedNotebookUnchanged | crates/gauss-notebook/src/dag.rs:67-69 | the order is the listed order if and only if the listed order is already valid |
| NotebookGraph.Affected | crates/gauss-notebook/src/dag.rs:121-131 | the breadth-first search collects exactly the reachable cells |
| NotebookGraph.Downstream | crates/gauss-notebook/src/dag.rs:112-145 | the run order restricted to the reachable cells, and nothing for an unknown cell or a cycle |
| NotebookGraph.DownstreamIsExact | crates/gauss-notebook/src/dag.rs:108-145 | the cells to run again are exactly those reachable from the changed one, each once, in run order, closed under dependents, and contained in every closed set that holds the changed cell |
| Graphs.GreedyForward | crates/gauss-notebook/src/dag.rs:78-89 | whatever the algorithm has placed so far runs forward along the edges |
| Graphs.TopologicalHasNoCycle | crates/gauss-notebook/src/dag.rs:67-69 | a graph with a topological order has no cycle |
| Graphs.GreedyCompleteIffAcyclic | crates/gauss-notebook/src/dag.rs:90-95 | picking the smallest ready node places every node if and only if the graph has no cycle |
| Graphs.GreedyIsLexLeast | crates/gauss-notebook/src/dag.rs:67-69 | no topological order is lexicographically smaller than the greedy one |
| Graphs.GreedyKeepsValidOrder | crates/gauss-notebook/src/dag.rs:67-69 | a graph whose edges all go up in index is ordered 0, 1, 2, … |
| Graphs.ReachSetLeastClosed | crates/gauss-notebook/src/dag.rs:121-131 | the reachable set is closed and the least closed set with its start |
| NotebookRerun.PartialSufficesIff | crates/gauss-notebook/src/dag.rs:5-7 | whatever the cells really bind and read, whatever the edit changes, and whichever cells run again: they equal a full run of the edited notebook for every code and start state if and only if each variable is bound last by the same cell in both runs, which in turn reads what the same cells bound |
| NotebookRerun.RerunSufficesIffSafe | crates/gauss-notebook/src/dag.rs:5-7 | for cells that bind what is listed, running only the changed cell and its dependents equals a full run, for every code, every edit of one cell's code and every start state, if and only if the last binder of each re-bound variable runs again and each in-place update finds its variable re-bound |
| NotebookRerun.RerunByIds | crates/gauss-server/src/content.rs:1292-1310 | executing the returned ids is the partial run |
| NotebookEdit.AnyValidOrderSameState | crates/gauss-notebook/src/dag.rs:4-5 | with one binder per variable, no in-place updates and no cycle, every valid order reaches the same state |
| NotebookEdit.EditSufficesIff | crates/gauss-notebook/src/dag.rs:5-7 | in any notebooks without a cycle, after any edit of a cell's code, bound and read variables, the partial run equals a full run of the edited notebook if and only if every variable comes out of the same cells |
| NotebookEdit.EditSufficesIffNothingDropped | crates/gauss-notebook/src/dag.rs:5-7 | with one binder per variable and no cell reading its own, that is so if and only if the edit drops none of the cell's variables |
| NotebookEdit.TwoQueriesNeedFullRun | crates/gauss-server/src/content.rs:1261-1265 | two queries that both bind the default variable, with no cycle, for which re-running the first and its dependents is not enough |
| NotebookEdit.CounterNeedsFullRun | crates/gauss-notebook/src/dag.rs:5-7 | a single cell that reads and binds `x`: running it again is not a full run |
| NotebookMinimal.KeepSufficesIff | crates/gauss-notebook/src/dag.rs:108-110 | with one definer per variable, no cell that needs its own variables, and cells that read all they list other than their own names, a selection of the affected cells leaves the variables right for every code, edit and state if and only if it has every affected cell that binds something |
| NotebookMinimal.SkippingShows | crates/gauss-notebook/src/dag.rs:108-110 | in such notebooks, for each affected cell that binds a variable there are code and an edit for which leaving it out leaves a wrong value |
| NotebookDisplay.LeaveOutIff | crates/gauss-notebook/src/dag.rs:108-110 | with one binder per variable, whatever cells really read of what they list, and counting what they display: any cells run again are enough for every code and edit if and only if they include all that depend on the edited cell by what they really read, and none that updates a variable in place |
| NotebookDisplay.RerunSetIsMinimal | crates/gauss-notebook/src/dag.rs:108-110 | with one definer per variable, no cell that needs its own variables, and cells that read all they list other than their own names, a selection of the affected cells is enough, counting what they display, if and only if it is all of them |
| NotebookChain.ChainRunsAgain | crates/gauss-notebook/src/dag.rs:108-110 | a query binding `x`, `y=x` and a chart of `y` is such a notebook, and after an edit of the query all three have to run |
| NotebookDisplay.RerunSufficesIffRight | crates/gauss-notebook/src/dag.rs:5-7 | whatever the cells really bind and read, the re-run cells leave every variable and display right for every code and edit if and only if none is overwritten by another cell, each reads fresh values, and no cell left out depends, step by step, on the edited one |
| NotebookDisplay.DisplaysComeRightToo | crates/gauss-notebook/src/dag.rs:5-7 | for cells that bind what is listed, the partial run restores all displays and variables if and only if it restores the variables |
| PythonAnalysis.Identifiers | crates/gauss-notebook/src/dag.rs:229-253 | the scanning loop finds the identifiers of a line, without attribute names |
| PythonAnalysis.IdentifierFound | crates/gauss-notebook/src/dag.rs:229-253 | every identifier that begins somewhere in the line, and not after a dot, is found |
| PythonAnalysis.FoundIsThere | crates/gauss-notebook/src/dag.rs:229-253 | and whatever is found is an identifier that begins somewhere, to its end, and not after a dot |
| PythonAnalysis.AnalyzePython | crates/gauss-notebook/src/dag.rs:153-195 | the variables bound and mentioned, each once, in order of appearance |
| PythonAnalysis.DefinesAreUses | crates/gauss-notebook/src/dag.rs:147-195 | every variable the analysis calls defined it also calls used, unless it is a keyword |
| NotebookPlan.RunOrder | crates/gauss-server/src/content.rs:1292-1310 | the order of the cells reduced to their variables, whole or after a change; a cycle is reported in both cases |
| NotebookPlan.PlanIsEmptyIff | crates/gauss-server/src/content.rs:1292-1310 | a cycle is answered if and only if the graph has one, and the empty order for a changed cell if and only if the graph has none and the cell is unknown |
| NotebookPlan.OwnNamesHarmlessIff | crates/gauss-notebook/src/dag.rs:147-195 | whichever of their own names the cells really read, an order exists with all of them listed if and only if one exists with only those listed and no two Python cells bind the same variable |
| NotebookPlan.OwnNamesKeepOrderIff | crates/gauss-notebook/src/dag.rs:147-195 | where an order exists, listing own names keeps the dependencies if and only if no other cell binds a name a Python cell binds without needing it, and keeps the order if and only if it runs every such cell first anyway |
| NotebookPlan.OverlistingKeepsOrderIff | crates/gauss-notebook/src/dag.rs:151-152 | whatever names are over-listed in a notebook that has an order without them, there is an order and it is that one if and only if that one runs every added dependency forward |
| NotebookPlan.SharedNameIsCycle | crates/gauss-notebook/src/dag.rs:147-195 | the failing half: two Python cells that bind the same variable always form a cycle |
| NotebookPlan.TwoAssignments | crates/gauss-notebook/src/dag.rs:147-195 | the sources `a=1` and `a=2` have no run order |
| NotebookPlan.TextCountsAsUse | crates/gauss-notebook/src/dag.rs:229-253 | the sources `a='b'` and `b=a`, which share no name, have no run order: a word in a string is listed as used |
| NotebookPlan.QueryMovesUp | crates/gauss-notebook/src/dag.rs:147-195 | `x=1` before a query that binds `x` runs after it, only because `x` is listed as used |
| NotebookReading.LineBindsIff | crates/gauss-notebook/src/dag.rs:153-213 | a line of code is listed as binding exactly the names it assigns (`name =`, `name +=` and the like) or that follow `for`, `def`, `class` or `import` at its start |
| NotebookReading.LineMentionsIff | crates/gauss-notebook/src/dag.rs:229-253 | a line is listed as mentioning exactly the names that stand in it, not right after a dot |
| NotebookReading.CellListsIff | crates/gauss-server/src/content.rs:1247-1290 | for every kind of cell, what is listed is exactly what the cell binds and reads: a query its output variable or `df`, an input its variable if it has one, a chart or number its variable or `df`, Python code what its lines bind and mention before any `#`, keywords apart |
| NotebookReading.RunOrderSays | crates/gauss-server/src/content.rs:1292-1310 | in the whole order every cell occurs once, and each cell that binds a variable runs before every other cell that reads it |
| NotebookReading.OrderIsFirstPossible | crates/gauss-notebook/src/dag.rs:67-96 | a cycle is answered if and only if no order of the cells respects binding and reading; otherwise the order answered is, of all that do, the one that keeps closest to the listed order |
| NotebookReading.ChangeSays | crates/gauss-notebook/src/dag.rs:108-145 | after a change of a cell it runs again, and with each cell that does every other cell that reads what it binds, after it |
| NotebookReading.ChangeRunsNoMore | crates/gauss-notebook/src/dag.rs:108-145 | and nothing else: the cells run again are in every set that contains the changed cell and, with each cell, the others that read what it binds |
| NotebookUnlisted.TupleLeavesChartStale | crates/gauss-notebook/src/dag.rs:198-213 | for `a,b=1,2` no variable is listed, so a chart of `a` does not run again and displays what a full run would not |
| Gql.AllHoldMeaning | crates/gauss-core/src/gql.rs:141-174 | a conjunction is true when all its filters are, false when one is, and true when there is none |
| Gql.AnyHoldsMeaning | crates/gauss-core/src/gql.rs:141-174 | a disjunction is true when one of its filters is, false when all are, and false when there is none |
| QueryBuilder.Builder.Bind | crates/gauss-query/src/lib.rs:76-81 | appends the literal to the parameters and returns the placeholder of its position and type |
| QueryBuilder.Builder.BuildFilter | crates/gauss-query/src/lib.rs:176-215 | returns the text of exactly the filter's pieces and appends exactly its literals, left to right |
| QueryBuilder.Builder.BuildJunction | crates/gauss-query/src/lib.rs:217-226 | the parts joined and parenthesized, or the neutral comparison when there are none |
| QueryBuilder.Builder.BuildAggregation | crates/gauss-query/src/lib.rs:152-174 | the text of the column's pieces, or the error when it needs a field it does not have; which column that is, is in `StatementReading.StatementReads` |
| QueryBuilder.Builder.BuildSelect | crates/gauss-query/src/lib.rs:132-150 | the selected columns: all, the listed fields, or group-by fields then aggregates |
| QueryBuilder.Builder.Build | crates/gauss-query/src/lib.rs:87-130 | the text of exactly the statement's pieces, with all literals as parameters, or the first error |
| QueryCompiler.Compile | crates/gauss-query/src/lib.rs:56-66 | succeeds if and only if each aggregation other than COUNT has a field; then the text, lexed and read by the independent reader, has the columns, table, condition, grouping, order and row limit the query asks for, and one placeholder for each parameter, in order and of its type |
| SqlLexer.ReadNameInvertsDoubled | crates/gauss-query/src/dialect.rs:56-63 | a quoted name reads back to the original string, whatever quotes it contains |
| SqlLexer.ReadPlaceholderInverts | crates/gauss-query/src/dialect.rs:74-178 | each dialect's placeholder reads back to its number and type |
| SqlLexer.LexOneInvertsSpell | crates/gauss-query/src/dialect.rs:56-178 | every token a dialect can spell is read back as itself when nothing can run into it |
| SqlLexer.LexText | crates/gauss-query/src/lib.rs:87-130 | text made of well-spaced pieces lexes to exactly their tokens |
| FilterTokens.FilterSpells | crates/gauss-query/src/lib.rs:176-226 | the pieces of a filter are the tokens of its grammar |
| FilterTokens.FilterBinds | crates/gauss-query/src/lib.rs:76-81 | the placeholders of a filter's text are its literals, left to right, numbered on from those before |
| FilterMeaning.FilterParses | crates/gauss-query/src/lib.rs:176-226 | parsed with NOT before AND before OR and BETWEEN owning its AND, the text of every filter, however nested, is the tree of that filter |
| FilterMeaning.CondMeansFilter | crates/gauss-query/src/lib.rs:176-226 | that tree, evaluated in three-valued logic with the bound parameters, is the filter's own value on every row |
| FilterMeaning.ConjunctionMeans | crates/gauss-query/src/lib.rs:91-98 | the filters of a query joined by AND mean their conjunction |
| QueryMeaning.CompiledTextLexes | crates/gauss-query/src/lib.rs:87-130 | the whole statement lexes to its tokens, quoted names reading back by quote doubling, and its placeholders are exactly the parameters, the k-th being the placeholder of position k and the k-th literal |
| QueryMeaning.WhereMeansFilters | crates/gauss-query/src/lib.rs:91-98 | the WHERE clause found in the compiled text parses completely and evaluates, on every row, to the conjunction of the query's filters |
| QueryMeaning.TextIgnoresLiterals | crates/gauss-query/src/lib.rs:1-8 | queries that differ only in literal values (of the same kinds, where the dialect writes types) compile to the same text |
| QueryMeaning.CompilesIff | crates/gauss-query/src/lib.rs:132-174 | compilation fails exactly when an aggregation other than COUNT lacks its field, with the error of the first such one |
| StatementReading.StatementReads | crates/gauss-query/src/lib.rs:87-174 | the tokens of the statement read as: all columns, the fields, or the breakouts and then for each aggregation its function, field and alias; the table; a condition that means the filters on every row; the breakouts as grouping when there are aggregations; each order term with its direction; and the row limit, `OFFSET`/`FETCH` for Oracle and `LIMIT` for the others |
| StatementReading.CompiledAnswers | crates/gauss-query/src/lib.rs:56-174 | the same of the compiled text itself, lexed with each dialect's quotes and placeholders, together with the parameters |
| Conversations.PairedConcat | crates/gauss-engine/src/agent.rs:225-308 | well-paired histories put one after the other are well paired |
| Agents.Agent.GetLlmResponse | crates/gauss-engine/src/agent.rs:436-487 | the answer and the number of attempts the retry rule gives |
| Agents.AnswerAttempts | crates/gauss-engine/src/agent.rs:436-487 | at most five attempts; every attempt before the last one failed; a failed request never calls tools |
| Agents.Agent.SendMessage | crates/gauss-engine/src/agent.rs:141-347 | the stored conversation and the requests sent are those of the tool loop |
| Agents.Agent.AddResponses | crates/gauss-engine/src/agent.rs:307-309 | appends one tool response per result, same ids, same order |
| Agents.LoopKeepsPairing | crates/gauss-engine/src/agent.rs:199-347 | for every LLM and tool: each request is well paired, there are at most as many as the limit, and the conversation left is well paired |
| Agents.LoopOnlyAppends | crates/gauss-engine/src/agent.rs:225-345 | each request extends the one before, and the final conversation all of them |
| Agents.LoopStopsForAReason | crates/gauss-engine/src/agent.rs:199-347 | the loop ends with the answer to a request that called no tool, or after a full round of tools at the limit |
| Agents.LoopSays | crates/gauss-engine/src/agent.rs:199-347 | each request after a round of tools is the one before, the response's text and calls, and for each call its id with the tool's result if it succeeded, its error if it failed with one, and a fixed text otherwise; at the end a response's text is the last message, if it has one, and an LLM that could not be reached leaves the words its recovery kind says |
| Agents.MessageSays | crates/gauss-engine/src/agent.rs:141-347 | the same for a whole message, whose first request is what was stored and the user's text |
| Agents.MessageKeepsPairing | crates/gauss-engine/src/agent.rs:141-347 | one message takes a well-paired stored conversation to a well-paired one |
| Agents.SessionIsPaired | crates/gauss-engine/src/agent.rs:141-347 | over any sequence of messages every stored conversation is well paired |
| Anthropic.BuildTurns | crates/gauss-llm/src/anthropic.rs:45-87 | the loop with its buffer yields the specified turns |
| Anthropic.TurnsKeepBlocks | crates/gauss-llm/src/anthropic.rs:45-87 | flattening all turns gives every message's blocks back, in order, none lost and none added |
| Anthropic.TurnsSay | crates/gauss-llm/src/anthropic.rs:45-87 | flattened to roles and blocks, the turns say in order what each message's fields say: a tool response its id and content for the user, an assistant message its text if any and each call's id, name and arguments, any other message its text for the user |
| Anthropic.TurnsAreGroups | crates/gauss-llm/src/anthropic.rs:45-87 | a turn holds a run of tool responses, as long as it goes, or one other message: messages that are not tool responses share no turn |
| Anthropic.AcceptableIffPaired | crates/gauss-llm/src/anthropic.rs:45-87 | each tool-use turn is followed by one user turn with exactly its results, in order, and results stand nowhere else, if and only if the history was well paired |
| Streaming.ToolCallAccumulator.PushDelta | crates/gauss-llm/src/accumulator.rs:35-53 | one fragment extends the entry of its index only |
| Streaming.ToolCallAccumulator.Finish | crates/gauss-llm/src/accumulator.rs:56-72 | the named calls in ascending index order |
| Streaming.CollectsPerIndex | crates/gauss-llm/src/accumulator.rs:35-53 | per index: the last id, and the name and argument fragments joined, whatever the interleaving |
| Streaming.SameFragmentsSameCalls | crates/gauss-llm/src/accumulator.rs:35-72 | streams with the same fragments per index finish with the same calls |
| Streaming.FinishedSays | crates/gauss-llm/src/accumulator.rs:56-72 | the calls are, in ascending order, those of exactly the indices whose joined name fragments are not empty, each with its last id or a fresh one, that name, and the arguments its joined argument fragments parse to |
| Streaming.LinesGrow | crates/gauss-llm/src/openai.rs:264-280 | more bytes leave complete lines as they are |
| Streaming.LinesAndRest | crates/gauss-llm/src/openai.rs:264-280 | lines and unfinished rest together are all the bytes, in order |
| Streaming.FirstLine | crates/gauss-llm/src/openai.rs:276-277 | taking the bytes up to the first newline takes the first line |
| Streaming.StreamResponse | crates/gauss-llm/src/openai.rs:263-300 | the loop over chunks and read errors yields the outcome of the bytes received, however they are cut; a read error ends it, is passed on, and no tool calls follow |
| Streaming.ChunkingDoesNotMatter | crates/gauss-llm/src/openai.rs:264-280 | the same bytes in other chunks, or with an unfinished line more, ended by the same error or none, have the same outcome |
| Streaming.OutcomeSays | crates/gauss-llm/src/openai.rs:263-300 | for any bytes: cut at the newlines, the texts yielded are those of each complete line's event, in order, and the calls those of all the events' fragments, unless an error cut the stream short |
| KernelProtocol.KernelTable.Perform | crates/gauss-server/src/content.rs:557-602 | a call carried on by one step on the table does the step of the state machine: same bindings, same point reached |
| KernelProtocol.KernelTable.Take | crates/gauss-server/src/state.rs:337-342 | returns what was bound and unbinds it |
| KernelProtocol.StepKeepsInv | crates/gauss-server/src/content.rs:557-602 | every atomic step of every interleaving keeps the invariant: one holder of the lock, bindings distinct, every kernel in exactly one place |
| KernelProtocol.RunKeepsInv | crates/gauss-server/src/content.rs:557-602 | every reachable state satisfies the invariant |
| KernelProtocol.BindNeverOverwrites | crates/gauss-server/src/content.rs:563-571 | in no run does binding replace another kernel |
| KernelProtocol.NoKernelIsLost | crates/gauss-server/src/content.rs:539-602 | every started kernel is bound, taken for shutdown, or held by the one creator inside the lock, and in one of these only |
| KernelProtocol.KernelsAreConserved | crates/gauss-server/src/content.rs:539-602 | kernels started are as many as bound, taken, and at most one in between |
| KernelProtocol.BindingStays | crates/gauss-server/src/content.rs:557-602 | a binding stays until a stop takes it |
| KernelProtocol.CallsShareKernel | crates/gauss-server/src/content.rs:563-564 | two runs of one notebook get the same kernel if and only if no stop took it in between |
| KernelHistory.EveryTaskIsExplained | crates/gauss-server/src/content.rs:539-602 | in every interleaving each call is where it is for its reason: it returned the kernel it found bound, at once or with the lock, or one the gateway started and it bound after finding none twice; it failed because the gateway refused; a stop took what was bound and ended as the shutdown did, or found nothing |
| KernelHistory.BindingsAreExplained | crates/gauss-server/src/content.rs:539-602 | a kernel is bound to a notebook if and only if a call bound it and no stop took it since |
| KernelHistory.SomeoneCanMove | crates/gauss-server/src/content.rs:557-602 | there is no deadlock: in every reachable state each unfinished call can go on, or waits for a lock whose holder can |
| ConnectionProtocol.ConnectionRegistry.Reuse | crates/gauss-server/src/state.rs:49-53 | a cached driver exactly when it was cached for this URI |
| ConnectionProtocol.ConnectionRegistry.Converge | crates/gauss-server/src/state.rs:57-73 | after the re-check the returned driver is the one cached for the source, and other sources are untouched |
| ConnectionProtocol.ConnectionRegistry.Perform | crates/gauss-server/src/state.rs:41-74 | a call carried on by one step on the registry does the step of the state machine: same cache, same point reached |
| ConnectionProtocol.StepKeepsInv | crates/gauss-server/src/state.rs:41-78 | every step keeps cached drivers matching their URI and unshared drivers private |
| ConnectionProtocol.CallersGetTheirUri | crates/gauss-server/src/state.rs:39-74 | a caller's driver was connected for the URI it passed and is the one cached at that moment |
| ConnectionProtocol.DropsHaveCauses | crates/gauss-server/src/state.rs:57-78 | only an eviction, or a call with another URI, drops a cached driver |
| ConnectionProtocol.CallsShareDriver | crates/gauss-server/src/state.rs:57-64 | two calls for one source get the same driver if and only if it was not dropped in between |
| ConnectionProtocol.AllCallersConverge | crates/gauss-server/src/state.rs:57-64 | with one URI per source and no eviction, all callers get the same driver |
| ConnectionProtocol.KindsKeptIffDetermined | crates/gauss-server/src/state.rs:41-74 | for any sources the callers of this public function may pass: in every run each caller gets a driver of its source's kind if and only if no two of these sources have the same id and URI and different kinds; the server itself gives each source one kind for good |
| ConnectionHistory.CallsAreExplained | crates/gauss-server/src/state.rs:41-74 | in every interleaving each call is where it is for its reason: it returned a driver cached for its URI, at once or after connecting, or the one it connected and cached; it failed for want of a URI or because it could not connect |
| ConnectionHistory.CacheIsExplained | crates/gauss-server/src/state.rs:41-78 | a driver is cached if and only if a call cached it and the source was neither evicted nor given another driver since |
| ConnectionHistory.NoCallWaits | crates/gauss-server/src/state.rs:41-74 | a call can go on if and only if it has not ended, whatever the others do |
| ResultCaches.EscapeUnique | crates/gauss-server/src/cache.rs:61-63 | escaped text ends at its first unescaped quote and reads back |
| ResultCaches.ParamUnique | crates/gauss-server/src/cache.rs:61-63 | a printed parameter reads back, whatever follows it |
| ResultCaches.ParamsScan | crates/gauss-server/src/cache.rs:61-63 | printed parameters are balanced in quotes from outside a text, and never from inside one |
| ResultCaches.KeyIdentifiesQuery | crates/gauss-server/src/cache.rs:61-63 | two compiled queries share a key if and only if database and SQL are equal and the parameters print alike |
| ResultCaches.ResultCache.Get | crates/gauss-server/src/cache.rs:35-47 | the entry under the key unless caching is off or it has expired |
| ResultCaches.ResultCache.Put | crates/gauss-server/src/cache.rs:49-57 | the last value and time under the key, nothing when caching is off |
| ResultCaches.ResultCache.Fetch | crates/gauss-server/src/cache.rs:1-7 | a hit is the value stored last for the same database, SQL and parameters, floats up to how they print, less than the time to live ago; a miss means caching is off, nothing was stored for the query, or the last such result is too old |
| ResultCaches.EntriesAreLatest | crates/gauss-server/src/cache.rs:49-63 | the entry under a query's key is the latest stored for that query |
| NotebookFormat.ToSourceLines | crates/gauss-notebook/src/nbformat.rs:47-58 | the lines, each with its newline but the last |
| NotebookFormat.SourceReadsBack | crates/gauss-notebook/src/nbformat.rs:47-71 | joining the lines gives the source back, for every source |
| NotebookFormat.MarkerLine | crates/gauss-notebook/src/nbformat.rs:73-85 | the marker with kind, database and variable |
| NotebookFormat.ParseMarker | crates/gauss-notebook/src/nbformat.rs:87-104 | the last kind, database and variable named on the line, or None |
| NotebookFormat.MarkerReadsBack | crates/gauss-notebook/src/nbformat.rs:73-104 | a marker whose variable has no white space reads back as written and stays on one line |
| NotebookFormat.CellToIpynb | crates/gauss-notebook/src/nbformat.rs:106-130 | a Markdown cell, or a code cell with its marker line |
| NotebookFormat.ImportCells | crates/gauss-notebook/src/nbformat.rs:147-174 | the known cells of a document in order; an error when it has none |
| NotebookFormat.CellSurvivesIff | crates/gauss-notebook/src/nbformat.rs:5-8 | a cell comes back, but for its id, if and only if its fields fit its kind, its variable is a word, and its Python code does not begin like a marker |
| NotebookFormat.NotebookSurvivesIff | crates/gauss-notebook/src/nbformat.rs:132-216 | export then import keeps every cell in order, always as many, and unchanged if and only if all are portable |
| NotebookFile.ExportSays | crates/gauss-notebook/src/nbformat.rs:107-145 | the exported document, field by field: the format's version, the notebook's name, and for each cell in order its type and its source lines, below a line `#%gauss kind=…` with `db=` and `var=` where it has them for kinds other than Markdown and Python |
| NotebookFile.MarkerOfSays | crates/gauss-notebook/src/nbformat.rs:88-104 | a line is read as a marker of a kind, database and variable if and only if it starts like one and the last of its words that give them say so |
| NotebookFile.ImportSays | crates/gauss-notebook/src/nbformat.rs:147-216 | importing any document fails if and only if it has no array of cells, and else gives one cell for each Markdown or code item, in order: code below a marker line the cell the marker names, with the variable where its kind has it, other code a Python cell |
| CsvIngest.SanitizeIdent | crates/gauss-sql/src/csv_ingest.rs:29-50 | the loop ends and collapses every run of underscores |
| CsvIngest.SanitizedIsSafe | crates/gauss-sql/src/csv_ingest.rs:27-50 | whatever the header, the name is `[a-z0-9_]`, not empty and without a leading digit |
| CsvIngest.TakenAreFew | crates/gauss-sql/src/csv_ingest.rs:84-87 | only as many candidates can be taken as there are names |
| CsvIngest.FreeName | crates/gauss-sql/src/csv_ingest.rs:82-87 | the search ends with the first candidate not taken |
| CsvIngest.UniqueNames | crates/gauss-sql/src/csv_ingest.rs:78-89 | one name per header, each the first free one |
| CsvIngest.NamesAreDistinctAndSafe | crates/gauss-sql/src/csv_ingest.rs:78-89 | no two columns share a name and every name is safe |
| CsvIngest.FreeBaseIsKept | crates/gauss-sql/src/csv_ingest.rs:82-87 | a header whose own name is free keeps it |
| CsvIngest.InferType | crates/gauss-sql/src/csv_ingest.rs:103-132 | the strictest type that fits every cell that is not blank |
| CsvIngest.ConversionIsSound | crates/gauss-sql/src/csv_ingest.rs:157-169 | under the inferred type the value bound for a cell is NULL if and only if the cell is blank, and otherwise its parsed value |
| CsvIngest.IngestCsv | crates/gauss-sql/src/csv_ingest.rs:55-188 | the first error of the in-memory path, the header, its emptiness, the records and the database's steps, and otherwise a table of named, typed columns with every cell converted |
| CsvIngest.NothingIsLost | crates/gauss-sql/src/csv_ingest.rs:78-169 | in a loaded table NULL is the value bound exactly for cells that are blank or missing in their record, and column names are distinct and safe |
| CsvReading.SanitizedSays | crates/gauss-sql/src/csv_ingest.rs:27-50 | a name is the ASCII letters and digits of the trimmed lower-cased header with one underscore between those with something else between them, the fallback if there are none, and `t_` first before a digit |
| CsvReading.IngestSays | crates/gauss-sql/src/csv_ingest.rs:55-188 | loading ends with the first step that failed and its message, or with the table: each column named after its header, with the first free `_2`, `_3`, …, of the strictest type every filled cell reads as, and for each record and column NULL if nothing is filled in and else what the cell reads as |
| Schedulers.Advance | crates/gauss-scheduler/src/lib.rs:223-227 | the first slot strictly after now if some number of intervals passes now, and otherwise None, which stands for a loop that does not end |
| Schedulers.AdvanceEndsIffPositive | crates/gauss-scheduler/src/lib.rs:224-227 | some number of intervals passes now if and only if the interval is positive |
| Schedulers.Scheduler.Tick | crates/gauss-scheduler/src/lib.rs:216-233 | ends if and only if the due entries have positive intervals, and then has run exactly the due jobs in order and moved each to its next slot |
| Schedulers.TickRunsWhatIsDue | crates/gauss-scheduler/src/lib.rs:207-233 | the jobs a tick runs are those named as due |
| Schedulers.ResultsAreOutcomes | crates/gauss-scheduler/src/lib.rs:207-233 | the k-th result is the outcome of the job registered with the k-th due entry, under that entry's name |
| Schedulers.RescheduledIs | crates/gauss-scheduler/src/lib.rs:216-233 | a tick keeps each entry's name, interval and job, and moves a due one by whole intervals to the first time after now |
| Schedulers.EntryFollowsTicks | crates/gauss-scheduler/src/lib.rs:187-233 | after ticks at any times in any order, the entry waits for the slot after the furthest reached, having run once per tick that reached further, and never twice for a slot |
| Schedulers.NextRunIsNextSlot | crates/gauss-scheduler/src/lib.rs:187-233 | with time moving forward, the next run is the first slot after the last tick |

## Left out

- UUID generation, clocks, random numbers and JSON parsing: fresh ids, times and parsed values are parameters.
- HTTP handlers, WebSockets, server-sent events, the database drivers, SQLite and the Jupyter gateway: calls into them are arbitrary steps or parameters.
- `Query::validate` and `validate_fields`: single checks against a schema.
- NotebookRerun.RerunSufficesIffSafe: assumes that cells bind just the names listed for them and read no others; tuple and subscript targets and `from m import y` are not listed. `NotebookRerun.PartialSufficesIff` and `NotebookDisplay.RerunSufficesIffRight` do not assume it.
- NotebookDisplay.LeaveOutIff: assumes that cells bind just the names listed for them; `NotebookDisplay.RerunSufficesIffRight` does not.
- NotebookMinimal.KeepSufficesIff: counts variables only; what cells display is in `NotebookDisplay`.
- NotebookEdit.EditSufficesIff: assumes that cells bind just the names listed for them; `NotebookRerun.PartialSufficesIff` does not.
- Two variables that hold the same Python object: an object changed through one of them changes under the other, which only a model of the heap would show.
- What grouping, aggregation, ordering and limits compute: the statement is read back to them, but evaluated only as far as its condition.
- How engines compare, match and lower-case values: `Gql.Engine` is a parameter shared by the filter's meaning and the SQL's.
- QueryMeaning.CompiledTextLexes: names are read by quote doubling (section 5.2 of ISO/IEC 9075:1992); the backslash escapes that BigQuery and ClickHouse also read in quoted names are not modelled.
- Decoding of text: strings are sequences of characters, bytes occur only where streams are cut into lines.
- The CSV reader: header and records arrive parsed, or as the error of reading them. The table is the value loaded, not the SQL statements that create and fill it.
- CsvIngest.NothingIsLost: speaks of the values bound to the INSERT statement; what SQLite makes of a bound NaN, which parses as a float, is not modelled.
- Lower-casing and the parsing of numbers in `CsvIngest` are library functions; the only thing assumed of lower-casing is that it leaves no ASCII capital.
- Printing of floats in cache keys: parameters are identified up to how their floats print, so only differences that do not print, such as NaN payloads, are ignored.
- Which characters Rust prints escaped: a parameter of the cache key's model.
- Conversation filters, prompt enhancers, hooks, audit, telemetry, the starter screen and the workflow short-cut of the agent: identities or no-ops.
- Agents.AnswerAttempts: the LLM middlewares (`crates/gauss-engine/src/agent.rs:441-443` and `482-484`) are identities here; one that rewrites responses could give a failed request tool calls.
- The payloads of the other providers, and how the pieces of a streamed answer are put together into one response.
- Anthropic.AcceptableIffPaired: is about pairing only; that the API also rejects turns without content, which an assistant message with neither text nor calls becomes, is not modelled.
- Signed tokens for embedding (`crates/gauss-auth/src/embed.rs`): a round trip over a library hash, easier than what is here.
- Parsing of one streamed line (its `data:` prefix, the end marker, the JSON): one function from the line's bytes to an event.
- Cancellation of a call between two await points and poisoned locks in the two protocols.
- Retry delays, and integer widths of counters that stay far from their limits.
- Schedulers.Advance: a loop that does not end is the result None, decided by the sign of the interval, which the source does not look at; for negative intervals the source's time would leave its range after very many steps.
- Schedulers.Scheduler.Tick: says nothing of the entries when the tick does not end.
- `gauss-sqlguard`, embeddings and vector search, charts, summaries, configuration, metadata stores, permissions and the user interfaces.
