# A verified model of the TraceLens core

TraceLens ingests OpenTelemetry spans, decides per trace which ones to keep, stores them, and answers
queries over them. This project models the parts of it that are pure in-memory logic with a strong
specification, and proves what they promise. Every file is one module named like the file; code that
updates state in place is a class or a method with loops, proved against functions on values, and what
those functions promise is proved beside them.

| Part | Modules | Main results |
|---|---|---|
| Service graph | `Graphs`, `CutVertices`, `Cycles`, `ServiceGraph` | cut vertices exact; cycles genuine, and none missed; volume conserved; the answer independent of row order |
| Query compiler | `Expressions`, `ConstantFolding`, `Plans`, `Passes`, `PassMeaning`, `Optimizer`, `Sql`, `PhysicalPlanner`, `SqlMeaning`, `QueryCompiler`, `ExplainText`, `QueryMeaning`, `PassEffects`, `SqlReader`, `SqlTextBack`, `CompiledText` | the emitted SQL text, read back, computes what the query's AST asks for; exactly which pass subsets are safe; exactly when arguments line up; what EXPLAIN shows |
| Query language | `Numerals`, `Lexer`, `Grammar`, `RoundTrip`, `QueryParser`, `ParsedQueries`, `TextToSql` | scanning and parsing undo writing; both end on every input; text to rows |
| Tail sampling and commits | `IndexedHeap`, `Watermark`, `TraceBuffer`, `Assembly`, `AssemblyInvariants`, `CommitProtocol`, `CommitOutcomes`, `FloorHistory`, `Assembler`, `BufferBounds`, `BufferRuns`, `ByteCap` | no buffered span is ever below the committed offset; exactly when a commit passes an offset; every span has one fate; true bounds of the buffer |
| Log templates | `Templates`, `TemplateInvariants`, `TemplateRuns`, `TemplateChoice`, `TemplateWidth`, `TemplateTree` | the mutable tree refines a map of paths; exactly when a line joins and where it goes; templates only widen; the dictionary follows |
| Trace tree, sketches, rate limit | `SpanForest`, `RepeatedIds`, `CriticalChains`, `SpanTree`, `ServiceEdges`, `Cardinality`, `RateLimiter` | exactly when assembling ends, when walks end and when reachable spans form a forest; a sketch is a function of a set; exactly which traces the limiter lets through |

`Sorting` and `Options` are shared helpers.

## Promises the code does not keep

Each of these comes with an input that shows it and with the exact condition under which the promise holds.

* A floor is meant to hold a span's offset back until the span is settled. It goes as soon as any event finishes the
  span's trace: a sweep, early exit or forced decision that writes, a late span attached or dropped, or the watchdog
  (`FloorHistory.StepFloors`, both directions, for every event). A failed write is therefore passed over once a later
  span of the trace succeeds (`CommitOutcomes.FailedWriteIsPassedOver`). Over runs: a span is held back exactly as long
  as a span of its trace, at or before its offset, came in that no event has finished since
  (`FloorHistory.FlooredExactlyWhileOpen`), and a commit passes an offset exactly if no such span is left on the
  partition (`FloorHistory.CommitPassesExactly`).
* `MaxBytes` is not a cap on the buffer: one ingest evicts at most one trace (`BufferRuns.ByteCapIsExceeded`). One span
  leaves the buffer within the cap exactly if nothing had to go or what goes covers the excess
  (`ByteCap.CapAfterIngestExactly`), and a run stays within it exactly if that holds of every span
  (`ByteCap.ByteCapHoldsExactly`). What always holds is `BufferRuns.BufferStaysBounded`.
* The cardinality tracker's key cap and the rate limiter's services cap fail once the empty name is the oldest in the
  map: every new name is then kept (`Cardinality.EmptyKeyFirst`, `RateLimiter.NamelessFirst`). A run keeps them
  exactly if no new name ever meets a full map whose oldest name is empty (`Cardinality.KeyCapHoldsExactly`,
  `RateLimiter.ServicesCapHoldsExactly`). The failing inputs are ones the two types accept from any caller; the OTLP
  decoder makes none, since it gives every span a service and skips attributes without a key
  (internal/storage/decode.go:223-240). What the assembled program gets is therefore `Cardinality.NamedKeysKeepCap`
  and `RateLimiter.NamedServicesKeepCap`: the caps hold.
* Optimizer passes cannot be skipped independently: pushing a limit while leaving a filter unpushed loses rows
  (`Optimizer.UnsoundSkipsLoseRows`, exact in `Optimizer.SoundSkipsExact`), and without partition pruning the
  SQL has no time range (`QueryCompiler.UnprunedIgnoresRange`, exact in `QueryCompiler.CorrectSqlExactly`).
* Folding forgets a range comparison on a field whose literal is not a number (`ConstantFolding.StringRangeIsDropped`).
  On any chain it is right about a row exactly if the row meets the forgotten ranges or fails another term
  (`ConstantFolding.FoldingRightExactly`). `Build` makes no such range.
* Positional arguments line up with the placeholders exactly when group-by and unaggregated sort fields are known
  columns and the arguments bound below the aggregates commute with the aggregates' own
  (`QueryCompiler.AlignedExactly`); with partition pruning on, exactly when group-by, aggregate and sort fields are
  known columns (`QueryCompiler.AlignedExactlyForKnownFields`). The comments of `physical.go` claim it always; a query
  grouped by an attribute shows the failure (`QueryCompiler.AttributeGroupsMisalign`).
* With repeated span ids the assembled tree can hold a node that is its own child (`RepeatedIds.RootIsItsOwnChild`), and
  then `BuildTree` need not return: its critical path follows one child per level for ever
  (`CriticalChains.OwnChildNeverEnds`). It returns exactly if from each root's node the line of first latest-ending
  children meets no node twice, that is, has reached a childless node after as many steps as there are ids
  (`CriticalChains.CriticalPathEndsExactly`).
* The walk that extracts service edges visits every child, so it asks for more (`CriticalChains.WalksEndChains`,
  `CriticalChains.ChainEndsBesideLoop`). It ends exactly if no span whose parent is reached carries an id at or above
  that parent (`RepeatedIds.WalkEndsExactly`), and what it reaches is a forest exactly if no two spans hanging from the
  roots share an id (`RepeatedIds.ForestExactly`).

## How the outside world enters

Writes, late attachments and sampling verdicts are arbitrary outcomes handed to each step; polls are arbitrary
sequences of records whose offsets grow per partition; clocks are parameters. Map iteration order is never
relied on: where the Go code ranges over a map, the Dafny code takes any order. A step of the commit protocol
(one poll, one span handled, one sweep, one watchdog tick, one commit) is atomic. Queries are evaluated on
finite sequences of rows; regular expressions, weighted quantiles, float formatting, number parsing of attribute
values and the comparison behind ORDER BY are arbitrary functions in an `Env`. The database is the reader of the SQL
text (`SqlReader`) and the evaluation of the statement it read.

## Model

| member | source | states |
|---|---|---|
| CutVertices.MarksExactlyTheCutVertices | internal/query/servicegraph.go:210-264 | When the low-link search has ended on a symmetric graph, a node is marked if and only if two other nodes are connected in the graph but not once it is removed |
| CutVertices.ArticulationPoints | internal/query/servicegraph.go:210-264 | The returned set is exactly the nodes whose removal disconnects two others, for every finite symmetric graph and every order of neighbours |
| CutVertices.ArticulationSearch.Dfs | internal/query/servicegraph.go:222-256 | One visit numbers its whole subtree with the discovery, low-link and cut verdicts the definitions demand, and leaves every earlier finished verdict unchanged |
| CutVertices.SubtreeConnected | internal/query/servicegraph.go:222-256 | A search subtree is connected within itself |
| CutVertices.LeavingEdge | internal/query/servicegraph.go:222-256 | An edge that leaves a finished subtree goes to a proper ancestor of its top: depth-first search has no cross edges |
| CutVertices.BlockedSubtree | internal/query/servicegraph.go:243-251 | If low of a child is at least the parent's discovery time, no edge leaves the child's subtree except to the parent |
| CutVertices.MarkedNonRootSeparates | internal/query/servicegraph.go:249-251 | A marked node that is not a root really cuts two nodes apart |
| CutVertices.MarkedRootSeparates | internal/query/servicegraph.go:246-248 | A root with two search children really cuts two nodes apart |
| CutVertices.UnmarkedKeeps | internal/query/servicegraph.go:210-264 | Removing an unmarked node disconnects no two nodes that were connected |
| Cycles.EveryCycleMeetsAReport | internal/query/servicegraph.go:163-204 | Every directed cycle through a finished node contains an edge that closes a reported cycle, so it shares nodes with it |
| Cycles.FindCycles | internal/query/servicegraph.go:163-204 | Every reported cycle is a simple cycle of calls, every cycle through a listed node has an edge that closes a reported one, and the list is a function of the node list and the sorted adjacency |
| Cycles.CycleSearch.Visit | internal/query/servicegraph.go:173-196 | A visit finishes its node, settles all edges of every node it blackens, takes back no colour or report, and leaves the state the functional search leaves |
| Cycles.CycleSearch.Report | internal/query/servicegraph.go:184-192 | The path segment from a gray node on, reported, is a simple directed cycle closed by the edge just looked at |
| Cycles.FinishingFalls | internal/query/servicegraph.go:163-204 | Along edges that close no reported cycle, nodes finish ever earlier, which no cycle can do all the way round |
| Cycles.EmptyIffAcyclic | internal/query/servicegraph.go:163-204 | The report is empty if and only if the graph has no directed cycle |
| ServiceGraph.BuildServiceGraph | internal/query/servicegraph.go:54-145 | Stated on the edge rows alone: the nodes are the row ends in ascending order, reported cycles are simple call cycles, every call cycle has an edge that closes a reported one and none is reported exactly when there is none, cut vertices are exactly the single points of failure, criticality is each service's share of the volume, and no volume is lost |
| ServiceGraph.AnswerDetermined | internal/query/servicegraph.go:125-152 | The rows come back in no fixed order: any two orders of the same rows get the same answer, with the same services, shares, cut vertices and the very same list of cycles |
| Sorting.SortedAlike | internal/query/servicegraph.go:177-178 | Sorting gives the same list whatever order the elements came in |
| Sorting.SortByOrdered | internal/query/servicegraph.go:128 | The sort leaves every pair in byte-wise order of its key |
| Sorting.AtMostExactly | internal/query/servicegraph.go:128 | In that order a string comes first if it is a prefix of the other or has the smaller byte where they first differ |
| ServiceGraph.VolumeConserved | internal/query/servicegraph.go:118-119 | What flows into all services together is what the rows carry together |
| ServiceGraph.SeparatesIsFailure | internal/query/servicegraph.go:106-116 | Disconnection in the undirected adjacency built from the rows is the same as cutting off all routes along rows |
| ConstantFolding.SimplifyKeepsExactly | internal/query/optimizer.go:134-255 | For every AND chain whose verbatim terms print apart and every row, the folded chain holds if and only if all terms but the ranges with non-numeric literals do |
| ConstantFolding.SimplifyAndKeeps | internal/query/optimizer.go:134-255 | For every AND chain with numeric range literals and every row, the folded chain holds if and only if the original does |
| ConstantFolding.FoldingRightExactly | internal/query/optimizer.go:183-196 | On any such chain, folding is right about a row if and only if the row meets the forgotten ranges or fails another term |
| ConstantFolding.SimplifyAndLoop | internal/query/optimizer.go:134-255 | The two loops over maps and slices compute the function the equivalence is proved about |
| ConstantFolding.ContradictionKeepsNothing | internal/query/optimizer.go:210-241 | A field folded to false is one no row can satisfy |
| ConstantFolding.OneValueImpliesExclusions | internal/query/optimizer.go:215-227 | Once one value is required, the excluded values that folding drops are implied |
| ConstantFolding.Absorbed | internal/query/optimizer.go:173-196 | After one more comparison, the gathered constraints of a field hold of a row exactly if they held before and the comparison holds |
| ConstantFolding.StringRangeIsDropped | internal/query/optimizer.go:183-196 | An input on which folding is wrong about every row: a lone string range folds to nothing |
| Plans.BuildLoop | internal/query/plan.go:197-250 | The loops over selector and stages yield the plan that is shown to mean the query |
| QueryMeaning.PlanMeansQuery | internal/query/plan.go:197-293 | For every query and table the plan means what the AST asks for, said without any plan: the spans in the time range that pass each matcher and each numeric filter by its operator, on the named column or attribute and in the unit's nanoseconds; grouped by the last aggregation in order of first appearance, ordered by the last sort, cut at the last limit |
| QueryMeaning.AggregatesMean | internal/query/ast.go:109-140 | Each aggregate is the total weight, the weighted total, their quotient, the least or greatest value there is, or the quantile at its own level |
| QueryMeaning.OrderSorts | internal/query/plan.go:243-245 | Under any strict weak order of keys the sorted rows ascend, none lost and none doubled |
| PassMeaning.FoldedMeaning | internal/query/optimizer.go:110-119 | Folding a filter leaves the rows of the plan's bottom unchanged |
| PassMeaning.PushedMeaning | internal/query/optimizer.go:299-318 | Moving the filter's predicate into the scan leaves the rows unchanged, before any limit is there |
| PassMeaning.PrunedMeaning | internal/query/optimizer.go:329-359 | Adding the time bounds to the scan leaves the rows unchanged |
| Passes.PruningIsIdempotent | internal/query/optimizer.go:329-359 | Pruning any plan a second time changes nothing: the bounds are found by how they print |
| PassMeaning.LimitedMeaning | internal/query/optimizer.go:373-409 | Stopping the scan after the limit changes no result, provided no filter is left above the scan |
| PassMeaning.ProjectedMeaning | internal/query/optimizer.go:425-505 | Scanning only the referenced columns changes no result |
| PassMeaning.AggregateRestrict | internal/query/optimizer.go:444-505 | Groups and aggregates over thinned rows equal those over whole rows when the columns they read are kept |
| Optimizer.OptimizedShape | internal/query/optimizer.go:38-50 | Any subset of the passes leaves aggregate, sort and limit in place and acts on the plan's bottom alone |
| PassEffects.FullyOptimized | internal/query/optimizer.go:20-50 | With every pass on, nothing is left to filter above the scan, which keeps the folded terms and then both ends of the time range, stops at the limit exactly if nothing groups or sorts, and narrows its columns exactly under an aggregation |
| PassEffects.NeededExactly | internal/query/optimizer.go:444-505 | The columns scanned are exactly time, weight and those the plan refers to, each once and in order |
| Optimizer.PlainShowsApart | internal/query/optimizer.go:157-202 | Two terms folding keeps verbatim that print alike are the same term, so dropping the second by its printed form is safe |
| Optimizer.OptimizePreservesMeaning | internal/query/optimizer.go:20-50 | For every query and every table, the optimized plan means what the plan Build made means, for every safe subset of passes |
| Optimizer.UnsoundSkipsLoseRows | internal/query/optimizer.go:387-409 | Limit pushdown without predicate pushdown gives another answer on a concrete query and table |
| Optimizer.SoundSkipsExact | internal/query/optimizer.go:38-50 | A subset of passes preserves every query on every table if and only if it does not push limits while leaving filters |
| PhysicalPlanner.CompileIsFull | internal/query/physical.go:62-207 | A plan that compiles yields the statement it stands for with a placeholder for each value, and binds its values child first |
| Sql.FillErased | internal/query/physical.go:46-51 | Putting a statement's own values, in text order, into the placeholders of its text gives the statement back |
| SqlMeaning.FullHasNoHole | internal/query/physical.go:70-91 | Every value of a compiled statement is accounted for |
| SqlMeaning.PredTests | internal/query/physical.go:304-372 | The SQL condition keeps exactly the rows the predicate keeps |
| SqlMeaning.AggregateAgrees | internal/query/physical.go:277-299 | Each aggregate's SQL computes the weighted count, sum, average or extreme it stands for, or the quantile by weights rounded to unsigned integers |
| SqlMeaning.GroupsAgree | internal/query/physical.go:145-174 | Grouping by the key expressions forms the groups of the plan |
| SqlMeaning.BottomRuns | internal/query/physical.go:93-143 | The scan's SQL, with a subquery if a filter stayed, returns the rows of the plan's bottom, its time range included |
| QueryCompiler.PrunedImpliesRange | internal/query/optimizer.go:329-359 | After pruning, the predicate in the SQL implies the query's time range, because no user term can print like a time bound |
| QueryCompiler.AlignedExactly | internal/query/physical.go:93-207 | For every query that compiles, under every subset of passes, the i-th argument is the one the i-th placeholder was written for if and only if group-by and unaggregated sort fields are known columns and the arguments below the aggregates commute with the aggregates' own; so it is whenever all those fields are known columns |
| QueryCompiler.AlignedExactlyForKnownFields | internal/query/physical.go:93-207 | With partition pruning on, that is so if and only if group-by, aggregate and unaggregated sort fields are known columns |
| QueryCompiler.AttributeGroupsMisalign | internal/query/physical.go:145-174 | A count by one attribute compiles, and its arguments are not those its placeholders were written for |
| QueryCompiler.CompiledRuns | internal/query/physical.go:62-207 | Executed with its arguments, a query over known columns returns what its optimized plan means |
| QueryCompiler.CompilesExactlyWhenResolved | internal/query/physical.go:62-299 | A query compiles if and only if its aggregate functions are supported and a sort over an aggregation names only its outputs |
| QueryCompiler.UnprunedIgnoresRange | internal/query/physical.go:93-126 | Without partition pruning a span outside the time range is returned |
| QueryCompiler.CorrectSqlExactly | internal/query/physical.go:62-68 | Every query over known columns is answered correctly on every table if and only if pruning runs and limits are not pushed past filters |
| ExplainText.InlineForExplain | internal/query/executor.go:209-228 | The byte loop replaces the i-th mark by the i-th argument's literal and fails as soon as arguments run out |
| ExplainText.FailsForWantOfArguments | internal/query/executor.go:209-228 | Inlining fails if and only if the text has more marks than there are arguments |
| ExplainText.StringLiteralReadsBack | internal/query/executor.go:230-234 | The literal made of any string reads back as that string and ends where it ends |
| ExplainText.OtherLiteralsReadBack | internal/query/executor.go:236-242 | A whole number shown reads back with its sign, and truth values are shown as 1 and 0 |
| CompiledText.TextReadsBack | internal/query/physical.go:62-372 | The text of any plan that compiles, read by a reader that knows SQL and not the writer, is the compiled statement: keywords, operators, functions, levels, directions, brackets and placeholders |
| SqlTextBack.StatementBack | internal/query/physical.go:93-207 | The same inside any text: reading stops where the statement stops, so subqueries nest unambiguously |
| CompiledText.TextAnswers | internal/query/physical.go:62-91 | Over known columns, with pruning on and limits behind filters, the emitted text with its arguments returns exactly what the query's AST asks for, on every table |
| ExplainText.StatementTakes | internal/query/executor.go:209-228 | The placeholder text of any statement takes exactly its values and becomes its text with every value in place |
| ExplainText.ExplainFailsExactly | internal/query/physical.go:145-197 | EXPLAIN of a compiled plan fails if and only if a repeated group-by text or a discarded sort field needed arguments; otherwise it uses up all of them |
| ExplainText.ExplainedQuery | internal/query/executor.go:182-228 | For a query over known columns EXPLAIN shows the text that was sent, each literal where its placeholder stood |
| TextToSql.TextRunsAndExplains | internal/query/executor.go:43-83 | Any text that parses to a select query over known columns and compiles: the SQL text sent returns, with its arguments, exactly the rows the query's AST asks for, on every table, and EXPLAIN shows that text |
| Numerals.ItoaUndone | internal/query/parser.go:466-477 | Reading a written number gives the number back |
| Lexer.NextAdvances | internal/query/lexer.go:102-181 | Every token before end of input takes at least one byte, and end of input comes exactly when only white space is left |
| Lexer.BlanksSkipped | internal/query/lexer.go:89-98 | Any run of spaces, tabs and line ends in front of a text changes none of its tokens |
| Lexer.NameExactly | internal/query/lexer.go:268-282 | A name holds letters, digits, underscores and points only and begins with no digit and no point; in particular it holds no hyphen |
| Lexer.QuotingUndone | internal/query/lexer.go:187-222 | Scanning the quoted form of any string gives the string and stops right behind the closing quote |
| Lexer.ReadsBack | internal/query/lexer.go:102-264 | The text of a token, with a space behind it, scans to that token whatever follows |
| Lexer.ScanningUndone | internal/query/lexer.go:102-264 | Scanning the canonical text of any token list gives the list |
| Lexer.Scanner.NextToken | internal/query/lexer.go:102-181 | The cursor moves past what was scanned, and the token carries the line and column it starts at |
| Lexer.Scanner.ScanString | internal/query/lexer.go:187-222 | The loop over bytes unescapes as specified, on terminated and unterminated strings |
| Lexer.Scanner.ScanNumber | internal/query/lexer.go:229-244 | The loop takes exactly the digit runs and units that belong to one literal |
| RoundTrip.ListBack | internal/query/parser.go:155-198 | A comma-separated list reads back item by item and stops at whatever closes it |
| RoundTrip.AtoiExactly | internal/query/parser.go:466-477 | A limit reads back exactly if it fits a signed 64-bit integer; a larger one is refused |
| RoundTrip.ParsingUndone | internal/query/parser.go:86-198 | Parsing a canonical query's tokens gives the query, with nothing left over, whether values stand as bare words, ascending is spelled out, or keywords are in capitals |
| RoundTrip.QueryWritable | internal/query/parser.go:297-477 | A canonical query's tokens are all tokens the scanner can produce |
| RoundTrip.TextRoundTrip | internal/query/parser.go:44-46 | Scanning and parsing a canonical query's text, in any of these styles, gives the query back, whatever bytes its strings hold |
| QueryParser.Parser.Parse | internal/query/parser.go:86-105 | The parser with current and lookahead token accepts exactly what the grammar accepts, with the same query, and otherwise points at the token the grammar fails at; it ends on every input |
| QueryParser.Parser.ParseSelectQuery | internal/query/parser.go:125-153 | The select branch agrees with the grammar on result and on the point of failure, with no point for a range that ends before it starts |
| QueryParser.Parser.ParseAggregation | internal/query/parser.go:370-408 | Aggregate lists and group-by agree with the grammar, unknown functions behind a comma included |
| QueryParser.StageTakes | internal/query/parser.go:297-311 | Every stage takes at least one token |
| QueryParser.ListTakes | internal/query/parser.go:155-198 | Every list takes at least one token if its items do |
| ParsedQueries.ParsedIsWellFormed | internal/query/parser.go:125-153 | Any text that parses gives a query with the names the optimizer's results ask for |
| IndexedHeap.Heap.Up | internal/sampling/watermark.go:191-216 | Sifting up restores heap order from one misplaced entry, with every entry's stored position right |
| IndexedHeap.Heap.Down | internal/sampling/watermark.go:191-216 | Sifting down restores heap order or reports that nothing moved, with every stored position right |
| IndexedHeap.Heap.Push | internal/sampling/watermark.go:200-208 | The heap holds one entry more, ordered and indexed |
| IndexedHeap.Heap.Pop | internal/sampling/watermark.go:209-216 | An entry with the least key leaves; the rest stay ordered and indexed |
| IndexedHeap.Heap.Remove | internal/sampling/watermark.go:84-90 | The entry at the stored position leaves, wherever it is by then; the rest stay ordered and indexed |
| IndexedHeap.SwappedUp | internal/sampling/watermark.go:191-199 | Exchanging a misplaced entry with a larger parent moves the only misplacement to the parent's place |
| IndexedHeap.SwappedDown | internal/sampling/watermark.go:191-199 | Exchanging a misplaced entry with its least child moves the only misplacement to the child's place |
| IndexedHeap.Exchanged | internal/sampling/watermark.go:84-90 | Moving the last entry into a hole leaves at most that place out of order |
| IndexedHeap.RootIsLeast | internal/sampling/watermark.go:98-107 | The first entry of an ordered heap is a least one |
| Watermark.PartitionWatermark.ClearBelow | internal/sampling/watermark.go:120-141 | Exactly the entries under the threshold are returned, once each, and removed, although each removal moves the others around in the heap |
| Watermark.OffsetWatermark.Track | internal/sampling/watermark.go:55-71 | As a map from trace to first offset: the first offset of a trace wins, other partitions are untouched |
| Watermark.OffsetWatermark.Resolve | internal/sampling/watermark.go:77-91 | Exactly that trace leaves the map; an unknown trace or partition changes nothing |
| Watermark.OffsetWatermark.SafeOffset | internal/sampling/watermark.go:98-107 | One below the map's minimum, and nothing when the map is empty |
| Watermark.OffsetWatermark.ClearBelow | internal/sampling/watermark.go:120-141 | On its partition exactly the entries under the threshold go and are returned without repeats; other partitions keep theirs |
| Watermark.OffsetWatermark.StaleCandidates | internal/sampling/watermark.go:162-175 | Exactly the entries older than the age limit, over all partitions, each once |
| TraceBuffer.RootClosureComplete | internal/sampling/buffer.go:271-293 | True if and only if there is a root and the first root's interval covers every buffered span |
| TraceBuffer.Buffer.Admit | internal/sampling/buffer.go:141-194 | A span of a decided trace changes nothing and is classified by the decision, with its weight; any other joins its trace, and a victim, an oldest trace, is named exactly if a cap is exceeded |
| TraceBuffer.Buffer.Resolve | internal/sampling/buffer.go:204-225 | The named trace leaves index, heap and byte count together and its spans are handed over; an unknown one changes nothing |
| TraceBuffer.Buffer.PopReady | internal/sampling/buffer.go:230-243 | Exactly the traces at least as old as the decision wait leave, oldest first, and the age heap still mirrors the in-flight map |
| TraceBuffer.Buffer.TryEarlyExit | internal/sampling/buffer.go:249-266 | The trace leaves if and only if it is in flight and its root closure is complete |
| TraceBuffer.Buffer.RecordDecision | internal/sampling/buffer.go:297-308 | The decision enters the cache as newest, at the weight that makes up for its probability, and expired or surplus ones leave oldest first |
| TraceBuffer.Buffer.EvictDecided | internal/sampling/buffer.go:312-324 | Only the front of the order goes, and only while too old or too many |
| TraceBuffer.TrimmedExactly | internal/sampling/buffer.go:312-324 | What goes is the longest front of entries past the age bound or one too many with those behind them, and exactly the decisions they name |
| TraceBuffer.Buffer.Tracks | internal/sampling/buffer.go:343-351 | True exactly for a trace in flight or decided |
| TraceBuffer.PoppedAll | internal/sampling/buffer.go:230-243 | Stopping at the first trace that is too young leaves no ready trace behind |
| Assembler.TraceAssembler.Ingest | internal/sampling/assembler.go:95-128 | The method's effect on buffer, watermark, partition index and hand-overs is one Ingest step of the state machine |
| Assembler.TraceAssembler.SweepTick | internal/sampling/assembler.go:151-165 | One tick pops exactly the ready traces and decides them as one Sweep step |
| Assembler.TraceAssembler.CheckWatermarkOnce | internal/sampling/assembler.go:290-306 | One tick gives up exactly the stale entries whose trace the buffer no longer knows |
| Assembler.TraceAssembler.ApplyWeightAndEmit | internal/sampling/assembler.go:190-198 | In every row of a sampled trace weight times probability is 1 and nothing else changes; a dropped trace's rows are handed over as they came |
| Assembler.Consumer.Note | internal/pipeline/consumer.go:174-186 | The highest offset ever fetched per partition is remembered, offset 0 included |
| Assembler.Consumer.CommitCycle | internal/pipeline/consumer.go:214-240 | A cycle that succeeds commits, on every partition, up to the ceiling or the highest fetched offset, never backwards; one that fails changes nothing |
| AssemblyInvariants.Ingesting | internal/sampling/assembler.go:95-147 | Ingesting keeps the invariant (every span still at risk is covered by a floor, no floor without reason, decisions and cache agree, spans conserved), whatever is evicted, decided, attached or dropped |
| AssemblyInvariants.Sweeping | internal/sampling/assembler.go:151-188 | A sweep keeps the invariant and adds no floor |
| AssemblyInvariants.SweepStep | internal/sampling/assembler.go:151-165 | Popping all ready traces first and deciding them afterwards equals popping and deciding them one at a time |
| AssemblyInvariants.Deciding | internal/sampling/assembler.go:133-188 | Deciding a trace settles its spans, and its floor goes only if that worked |
| AssemblyInvariants.Evicting | internal/sampling/buffer.go:204-225 | Either eviction policy keeps the invariant: a discarded trace's floor stays |
| AssemblyInvariants.Watching | internal/sampling/assembler.go:290-306 | The watchdog keeps the invariant |
| AssemblyInvariants.GivesUpOnlyUnsettled | internal/sampling/assembler.go:273-306 | The watchdog never gives up a trace in flight, only one with an evicted or unwritten span |
| CommitProtocol.RunGuarded | internal/pipeline/consumer.go:112-242 | In every run the invariant holds, and what was fetched is what was ingested followed by what is still queued |
| CommitProtocol.NoBufferedSpanIsCommitted | internal/pipeline/consumer.go:214-240 | In every run of polls, ingests, sweeps, watchdog ticks and commits, no span in the buffer lies below its partition's committed position |
| CommitProtocol.CommittedIsSettled | internal/sampling/assembler.go:95-188 | In every run, a fetched span below the committed position was written or belongs to a dropped trace, unless its trace's floor went away while a span of it was evicted or unwritten |
| CommitProtocol.CommitReaches | internal/pipeline/consumer.go:214-240 | A commit moves the position exactly to the lowest floor, or past everything fetched when there is none |
| CommitProtocol.CommittedAtMost | internal/pipeline/consumer.go:221-226 | Positions never move back and never past what was fetched |
| CommitProtocol.Accounted | internal/sampling/assembler.go:95-188 | Every ingested span is buffered, written, dropped by decision, or was handed out without success |
| CommitOutcomes.OneFate | internal/sampling/assembler.go:95-188 | At any moment of any run, a span fetched once is in exactly one of queue, buffer, emission, late attachment, late drop and eviction, and there once |
| CommitOutcomes.OnlyDiscardEvicts | internal/sampling/buffer.go:204-225 | In every run spans leave the buffer without a decision only under the discard policy |
| CommitOutcomes.WeightsMakeUpForSampling | internal/sampling/policy.go:55-66 | In every run weight times probability is 1 (the weight 1 where the probability is not positive) in every row of every sampled trace, every cached decision and every late attachment, each by a decision of its own trace; a span dropped late belongs to a trace decided Drop |
| CommitOutcomes.CommitHoldsExactlyTheRisk | internal/pipeline/consumer.go:214-240 | After a commit the position is past everything fetched or exactly at the first offset of some trace at risk, never beyond one: nothing is withheld needlessly |
| CommitOutcomes.CommittedIsWritten | internal/sampling/assembler.go:133-188 | With forced decisions and successful writes, every span below the committed position was written or belongs to a trace decided Drop |
| FloorHistory.StepFloors | internal/sampling/assembler.go:95-320 | For every event and every trace: the floor is what it was, or the offset just ingested if there was none, and is gone if and only if the event finishes the trace, which is read off the event and the state before it |
| FloorHistory.HeldExactly | internal/sampling/assembler.go:95-320 | An event that brings no span of x's trace leaves x held back if and only if x was and the event does not finish the trace, be it by late span, forced decision, early exit, sweep or expiry |
| FloorHistory.FlooredExactlyWhileOpen | internal/sampling/watermark.go:55-91 | In every run x is held back if and only if some span of its trace at or before its offset was ingested that no event since has finished |
| FloorHistory.OpenIsNotCommitted | internal/pipeline/consumer.go:214-240 | In every run a span stays at or above the committed position as long as no event since its ingestion finished its trace, whether it was written or not |
| FloorHistory.CommitPassesExactly | internal/pipeline/consumer.go:214-240 | In every run a commit moves past an offset if and only if no span at or below it on its partition is still open |
| FloorHistory.CommittedWasFinished | internal/sampling/assembler.go:95-320 | In every run a span below the committed position was ingested and its trace finished since; it was confirmed, or it is one of the spans evicted or not written |
| CommitOutcomes.FloorKeptExactly | internal/sampling/assembler.go:179-188 | The same for one completion by a sweep or early exit: the floor survives if and only if the write failed or is another trace's |
| CommitOutcomes.FailedWriteIsPassedOver | internal/sampling/assembler.go:311-320 | In a concrete run a failed write's span ends below the committed position, unwritten |
| BufferBounds.BytesPerTrace | internal/sampling/buffer.go:141-194 | A trace holds at most its old bytes plus one largest span per span added since the total was last under the caps |
| BufferBounds.AdmittedEvictedBounded | internal/sampling/buffer.go:181-192 | Admitting a span and evicting any one trace never increases old traces plus new spans |
| BufferBounds.TrimmedRight | internal/sampling/buffer.go:312-324 | Trimming leaves an order that lists exactly the decided traces, once each, within the configured size |
| BufferRuns.BufferStaysBounded | internal/sampling/buffer.go:141-266 | In every run the buffer holds at most MaxTraces traces and MaxBytes plus MaxTraces times the largest span size |
| BufferRuns.EqualSpansKeepByteCap | internal/sampling/buffer.go:141-266 | In every run with spans of one size the byte cap itself holds |
| BufferRuns.BookkeepingIsRight | internal/sampling/buffer.go:141-324 | In every run totalBytes is the sum over buffered spans, the decided order lists exactly the decided traces within its cap, and no trace is both in flight and decided |
| BufferRuns.ByteCapIsExceeded | internal/sampling/buffer.go:181-192 | A concrete run of three spans ends with 1400 bytes buffered under a cap of 1000 |
| ByteCap.CapAfterIngestExactly | internal/sampling/assembler.go:95-128 | From a buffer within the cap one span, its eviction and its early exit leave it within the cap if and only if the span was late, nothing had to go, or what goes covers the excess, read off the buffer before the call |
| ByteCap.ByteCapHoldsExactly | internal/sampling/buffer.go:141-266 | A run is within the byte cap at every moment if and only if every span it ingests is relieved in that sense |
| Templates.ParamsRoundTrip | internal/logs/drain.go:369-377 | Filling a covering template's wildcards with the extracted parameters gives the line back |
| Templates.MergedCovers | internal/logs/drain.go:356-365 | A merged template covers the line and every line it covered before, only turns literals into wildcards, and is unchanged exactly if it already covered the line |
| TemplateInvariants.NeverBoth | internal/logs/drain.go:91-95 | No node holds both children and clusters |
| TemplateChoice.SimilarityCounts | internal/logs/drain.go:339-350 | Similarity times the line's length is the number of positions where the template holds the wildcard or the line's token, and it is 1 if and only if the template covers the line |
| TemplateChoice.JoinsExactly | internal/logs/drain.go:214-265 | A line opens a new cluster if and only if it agrees with no template at its leaf at enough positions; otherwise it joins the first of those it agrees with at the most, and widens it if and only if that did not cover it |
| TemplateChoice.CoveredJoins | internal/logs/drain.go:214-240 | With a threshold of at most 1, a line that a live template at its leaf covers joins one that covers it: nothing new, nothing widened |
| TemplateChoice.LeafSpelled | internal/logs/drain.go:173-211 | The line's leaf, level by level: its number of tokens, then its leading tokens, with the wildcard for those with a digit and those a full node has no child for |
| TemplateChoice.SameLeafExactly | internal/logs/drain.go:173-211 | Where no node is full, two lines share a leaf if and only if they are as long and lead with tokens that are equal or both hold a digit |
| TemplateInvariants.Matching | internal/logs/drain.go:214-265 | Joining a cluster keeps shape, index and recency order |
| TemplateInvariants.Creating | internal/logs/drain.go:214-292 | Creating keeps them too, with a fresh id and one more cluster |
| TemplateInvariants.EvictingLeaf | internal/logs/drain.go:270-284 | Leaf eviction frees one slot by dropping the leaf's least recently matched cluster from leaf and index alike |
| TemplateInvariants.EvictingEverywhere | internal/logs/drain.go:296-332 | Tree-wide eviction drops one cluster from its only leaf and from the index |
| TemplateRuns.Parsing | internal/logs/drain.go:149-169 | One line keeps the tree sound and within its caps; its own cluster is new or widened and live afterwards, others are untouched or gone |
| TemplateRuns.EvictedIsOldest | internal/logs/drain.go:244-310 | A cluster that goes was least recently matched at the full leaf or in the whole tree, and was not the one just created |
| TemplateRuns.RunFaithful | internal/logs/store.go:41-56 | After any lines: every live template covers every line ever assigned to it, counts and recency are those of the lines, and a dictionary applying the upserts in order holds every live template's current text |
| TemplateRuns.MatchGivesLineBack | internal/logs/drain.go:149-169 | In any run the match's template with its parameters filled in is the line |
| TemplateRuns.TemplatesOnlyWiden | internal/logs/drain.go:356-365 | Between any two moments of a run a live template only turned literals into wildcards |
| TemplateRuns.RunGoesOn | internal/logs/drain.go:149-169 | As long as ids last, every further line can be parsed |
| TemplateWidth.TreeStaysNarrow | internal/logs/drain.go:173-211 | After any lines no node below the root has more than MaxChildren children besides the wildcard's |
| TemplateTree.Drain.Parse | internal/logs/drain.go:149-169 | The linked tree, its id index and the match are what the value-level Parse gives, which joins and creates as `TemplateChoice.JoinsExactly` says |
| TemplateTree.Drain.Descend | internal/logs/drain.go:173-211 | The walk by length and leading tokens ends at the leaf of the line's key path, creating exactly the nodes missing on it |
| TemplateTree.Drain.FindBest | internal/logs/drain.go:214-232 | The loop returns the first most similar cluster of the leaf |
| TemplateTree.Drain.Join | internal/logs/drain.go:356-365 | The shared cluster object changes in leaf and index at once, and a change is reported exactly if the template changed |
| TemplateTree.Drain.EvictLeafLRU | internal/logs/drain.go:270-284 | The leaf's list and the index lose the same, least recently matched cluster |
| TemplateTree.Drain.EvictLRU | internal/logs/drain.go:296-310 | A least recently matched cluster of the tree is found in the tree and removed |
| TemplateTree.Drain.RemoveClusterFromTree | internal/logs/drain.go:316-332 | The recursive search cuts the cluster from one list, or reports that no list below the node holds it |
| TemplateTree.CutIsEverywhere | internal/logs/drain.go:316-332 | Cutting one occurrence cuts the cluster from the whole tree, because it is placed once |
| SpanForest.OneRole | internal/sampling/tree.go:44-77 | With distinct ids every span is exactly one of a root, an orphan, or the child of exactly one span |
| SpanForest.DepthUnique | internal/sampling/tree.go:44-77 | A span is reached from roots at one depth only, so what is reachable is a forest even if other spans have cyclic parents |
| SpanForest.DepthBounded | internal/sampling/tree.go:110-127 | No walk down from a root is longer than the trace |
| RepeatedIds.WalkEndsExactly | internal/sampling/servicegraph.go:36-54 | On the nodes BuildTree links, repeated ids or not, the recursive walk from the roots ends if and only if no span whose parent is reached carries an id lying at or above that parent |
| RepeatedIds.ForestExactly | internal/sampling/tree.go:44-77 | Every reached id is reached in one way only if and only if no two spans that are roots or have a reached parent share an id |
| RepeatedIds.ForestsEnd | internal/sampling/servicegraph.go:36-54 | What is a forest is walked to the end |
| RepeatedIds.RootIsItsOwnChild | internal/sampling/tree.go:50-73 | Two spans with one id: the later one's node is the only root and its own only child, the earlier one's is linked nowhere, and the walk does not end |
| SpanTree.LinkSpans | internal/sampling/tree.go:50-73 | The two loops of BuildTree, on any spans: the last span with an id stands for all with that id, and roots, orphans and every node's children are exactly those the parent links then name, in span order; with distinct ids every span stands for itself |
| SpanTree.BuildTree | internal/sampling/tree.go:44-77 | On exactly the spans on which it returns: the tree is linked as said, and the critical path is that of its roots |
| CriticalChains.ChainEndsExactly | internal/sampling/tree.go:110-127 | From any node, the line of first latest-ending children reaches a childless node if and only if it meets no node twice before, and then within as many steps as there are ids |
| CriticalChains.CriticalPathEndsExactly | internal/sampling/tree.go:92-127 | On any spans, repeated ids or not: computing the critical path ends, and with it BuildTree, if and only if from each root's node that line meets no node twice; read off the rows |
| CriticalChains.WalksEndChains | internal/sampling/tree.go:92-127 | Wherever the walk over all children ends, so does the critical path |
| CriticalChains.OwnChildNeverEnds | internal/sampling/tree.go:114 | On the two spans with one id the critical path never ends, so BuildTree does not return |
| CriticalChains.ChainEndsBesideLoop | internal/sampling/tree.go:114 | Four spans on which BuildTree returns, though a loop elsewhere keeps the walk over all children from ending |
| SpanTree.CriticalChain | internal/sampling/tree.go:110-127 | From any node whose line ends, the chain is that line: the first latest-ending child at each level, down to a leaf |
| SpanTree.ComputeCriticalPath | internal/sampling/tree.go:92-108 | The result is the first root's chain that no root's chain outlasts, and empty when every chain lasts no time |
| ServiceEdges.Walk | internal/sampling/servicegraph.go:36-50 | On any spans whose walk ends, the walk below a node reached by some way gives exactly one edge for each longer way whose last step changes service |
| ServiceEdges.ExtractServiceEdges | internal/sampling/servicegraph.go:33-55 | On any spans whose walk ends: exactly one edge, at the trace's weight, for each way down from a root whose last step changes service |
| ServiceEdges.ForestEdges | internal/sampling/servicegraph.go:33-55 | If no two spans hanging from the roots share an id, that is exactly one edge per reachable span called from another service, from its parent's service to its own, with its own time, duration and error |
| ServiceEdges.DistinctIsForest | internal/sampling/tree.go:50-53 | With distinct ids every span's node is its own, the walk ends, and no two spans hanging from the roots share an id |
| ServiceEdges.ReachableHangs | internal/sampling/tree.go:44-77 | The spans reachable through parent links are exactly the roots and the spans whose parent's id is reached |
| Cardinality.RankIsFirstOne | internal/sampling/hyperloglog.go:51-66 | A 64-bit hash is its register, the top 14 bits, above a 50-bit tail, and the rank is the place of the tail's first one, or 51 if it has none |
| Cardinality.SketchUnique | internal/sampling/hyperloglog.go:51-74 | The registers depend only on the set of values added, not on order or repeats |
| Cardinality.Adding | internal/sampling/hyperloglog.go:51-74 | Adding a value to the sketch of a set gives the sketch of the larger set |
| Cardinality.Merging | internal/sampling/hyperloglog.go:111-120 | Merging the sketches of two sets gives the sketch of their union |
| Cardinality.HyperLogLog.Add | internal/sampling/hyperloglog.go:51-74 | The array is the sketch of the values seen, this one included; true exactly when a register moved |
| Cardinality.HyperLogLog.Merge | internal/sampling/hyperloglog.go:111-120 | The array is the sketch of both sets of values; true exactly when a register moved |
| Cardinality.TrackedSketches | internal/sampling/hyperloglog.go:180-217 | At every moment of every run, a tracked key was opened by one call and stayed since; its registers are the sketch of exactly the values observed for it from that call on, and its cached estimate is the estimate of those registers |
| Cardinality.Observing | internal/sampling/hyperloglog.go:180-217 | Every observation keeps each cached estimate equal to the estimate of the current registers and each sketch that of the values observed since it was opened |
| Cardinality.CapKeptExactly | internal/sampling/hyperloglog.go:203-217 | An observation keeps the key cap if and only if it did not bring a new key to a full tracker whose oldest key is the empty one |
| Cardinality.EmptyKeyDefeatsCap | internal/sampling/hyperloglog.go:203-217 | While the empty key is the oldest, each new key adds one sketch and nothing is evicted, whether the tracker is full or not |
| Cardinality.EmptyKeyFirst | internal/sampling/hyperloglog.go:180-217 | A run that starts with the empty key keeps every one of any number of later keys |
| Cardinality.KeyCapHoldsExactly | internal/sampling/hyperloglog.go:180-217 | A run keeps the key cap at every moment if and only if no new key ever meets a full tracker whose oldest key is the empty one |
| Cardinality.NamedKeysKeepCap | internal/sampling/hyperloglog.go:180-217 | A run that never observes the empty key keeps the cap throughout |
| Cardinality.CardinalityTracker.Observe | internal/sampling/hyperloglog.go:180-199 | The maps and counters after the call are those of one observation, the returned value is the key's cached estimate, and every stamp is again its own, so another call may follow |
| Cardinality.CardinalityTracker.OldestKey | internal/sampling/hyperloglog.go:203-217 | The loop finds a least recently observed key in any map order |
| RateLimiter.Filling | internal/sampling/policy.go:362-405 | Tokens of every bucket stay between 0 and the rate |
| RateLimiter.PassesExactly | internal/sampling/policy.go:362-405 | In every run a trace passes if and only if admitting it keeps every stretch of its service's calls since the bucket was opened within rate times (seconds + 1); and if and only if it keeps the one stretch since the bucket was last full so |
| RateLimiter.FirstTracePasses | internal/sampling/policy.go:371-399 | At a rate of one or more, the trace that opens a service's bucket passes |
| RateLimiter.TokensConserved | internal/sampling/policy.go:387-399 | While a bucket is kept and never capped, admissions plus tokens left are the tokens there were plus rate times the seconds gone by |
| RateLimiter.Budget | internal/sampling/policy.go:362-405 | Traces let through plus tokens left never exceed one full bucket plus the refill since the first call |
| RateLimiter.WindowBound | internal/sampling/policy.go:362-405 | In a window of T seconds without eviction of its bucket, a service gets at most rate times (T + 1) traces through, whatever other services do |
| RateLimiter.NamelessFirst | internal/sampling/policy.go:362-427 | A run that starts with a nameless service keeps every one of any number of later services, picking for eviction what the loop picks |
| RateLimiter.ServicesCapHoldsExactly | internal/sampling/policy.go:362-427 | A run keeps the services cap at every moment if and only if no new service ever meets that state |
| RateLimiter.NamedServicesKeepCap | internal/sampling/policy.go:362-427 | A run without nameless services keeps the cap throughout |
| RateLimiter.RateLimiter.Evaluate | internal/sampling/policy.go:362-405 | Verdict and buckets after a call are those of one evaluation for the first span's service, or the stand-in name when there is no span; a new service passes at a rate of one or more; and the stamps are in order for the next call |
| RateLimiter.RateLimiter.OldestService | internal/sampling/policy.go:412-427 | The loop finds a least recently used service in any map order |

## Left out

- TraceBuffer.Buffer.PopReady: pops and records decisions as one atomic step, as does each other step of the protocol; the code releases the buffer's lock between the two, and interleavings finer than that are not modelled.
- CommitProtocol.RunGuarded: assumes handlers succeed and a poll that reports an error carries no records, that one trace stays on one partition, and that fetched offsets grow; the data-loss path, which clears a watermark while the consumer keeps its old offsets, is modelled at the watermark alone (`Watermark.OffsetWatermark.ClearBelow`).
- CommitProtocol.CommittedIsSettled: excepts traces whose floor was released while a span of theirs was evicted or unwritten; `CommitOutcomes.FailedWriteIsPassedOver` shows that the exception is real, and `FloorHistory.StepFloors` says exactly which events release it.
- ServiceEdges.ExtractServiceEdges: requires that the walk ends, as `SpanTree.BuildTree` requires that the critical path does; where they do not, the original does not return, and `RepeatedIds.WalkEndsExactly` and `CriticalChains.CriticalPathEndsExactly` say when that is.
- SpanTree.ComputeCriticalPath: durations, their sum and end times are unbounded; 64-bit wrap-around is not modelled.
- TemplateRuns.RunGoesOn: runs end before the 32-bit template id or the 64-bit generation counter wraps around.
- QueryParser.Parser.ParseSelectQuery: whether a range is in order, and which literals are times and durations, is a parameter.
- SqlMeaning.AggregateAgrees: the rounding of a weight to an unsigned integer and the quantile itself are arbitrary functions, the same in plan and SQL.
- Cardinality.CardinalityTracker.Observe: requires that the 64-bit generation counter does not wrap around; a sketch is held by value, so two keys never share one.
- ConstantFolding.SimplifyAndKeeps: literals are equal if they print equal; NULL and type coercion in ClickHouse are replaced by "a row is kept or not".
- RoundTrip.TextRoundTrip: numbers, durations and timestamps keep their literal form; which literals the Go library accepts is a parameter, and what they denote is not part of this model.
- ServiceGraph.BuildServiceGraph: the SQL behind the edge rows, their error rates and percentiles, and the sort of the edge list are not part of this model.
- ExplainText.InlineForExplain: printing of floats and instants is a parameter, and argument types the planner never binds do not occur.
- CompiledText.TextReadsBack: output names hold no backtick, as those of every parsed query do; one with a backtick would end its own quoting.
- SqlMeaning.BottomRuns: a row that lacks a referenced column or attribute fails every comparison; map defaults and three-valued logic are not modelled.
- RateLimiter.WindowBound: tokens and seconds are reals; float rounding is not modelled.
- Assembler.TraceAssembler.Ingest: the force-decide callback is inlined where the buffer calls it.
- HyperLogLog accuracy and hash quality are statistical; the hash and the estimate are arbitrary functions (the estimate of an empty sketch is 0).
- strings.Fields: a log line is given as its tokens.
- The order in which Go's sort.Slice leaves equal elements: an insertion sort that keeps them in place stands for it.
- Policies other than the rate limiter, anomaly detection, alerting, routing between replicas and ingestion: short functions or wrappers around I/O that would only add easy members.
- ClickHouse, Kafka, S3, HTTP and gRPC calls, metrics, logging, configuration and the user interface.
