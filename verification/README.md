# Verified model of the OMNI agent stack

This project models the parts of the repository whose behaviour spans several functions or whole
runs, and proves what they promise. To check it, run `dafny verify dfyconfig.toml` in this directory.

| file | what it models |
|---|---|
| `Prelude.dfy`, `Ranking.dfy` | Python slices, dictionary sums, and the stable order of `sorted` |
| `Dominance.dfy`, `Crowding.dfy`, `ParetoArchive.dfy` | the incremental Pareto archive and its pruning |
| `Extremes.dfy`, `Frontiers.dfy` | which best values pruning keeps, and when the archive is the frontier of everything offered |
| `Evolution.dfy` | the batch frontier of prompt variants and the trajectory buffer |
| `RateLimiter.dfy`, `SharedKeys.dfy` | the sliding-window limiter, and what sharing one of its keys does to a limit |
| `Allowlist.dfy`, `Gateway.dfy` | tool permissions, audit counters, and the gateway that composes them with the limiter |
| `Workflow.dfy` | the cognitive graph with its retry cycle, and the streaming entry point |
| `SseReaders.dfy`, `EventStreams.dfy` | the three event-stream readers, and what an HTTP client makes of the streamed responses |
| `HealthRouter.dfy` | the health cache and routing |
| `SymbolTable.dfy`, `Indexer.dfy` | symbol extraction and the two emitters of the code graph |
| `IndexingLaws.dfy`, `StoredSymbols.dfy`, `ScriptLaws.dfy` | what indexing leaves in the graph, of which symbol, and when the emitters agree |
| `JsonEscape.dfy`, `MemoryContext.dfy` | the shell JSON escaper and the bounded memory printer |

Conventions. Floats are reals; infinities, where the code uses them, are explicit (`Ranking.Ext`).
Time, random ids, network answers and the text heuristics are parameters, so every theorem holds for
all of them. Dictionaries keep their insertion order. A Python loop or updated field is a Dafny loop
or class field, proved equal to a specification function; the properties are then lemmas about whole
runs of that function. Every lemma switches automatic induction off, so each proof is what its body
says.

Where a property fails, the code is kept as it is and a lemma ending in `Iff` gives the exact
condition, as a test on the input that can be made beforehand:

| property | holds exactly when | lemma |
|---|---|---|
| dominance is transitive | the three objective sets satisfy `TransitiveOn`; equal or disjoint sets do | `TransitiveIff` |
| survivors dominate everything discarded; archive, frontier and batch agree; the past can be forgotten; grouping into cycles does not matter | that is so for any three objective sets in use | `FrontierCoversIff`, `ArchiveIsFrontierIff`, `IncrementalEqualsBatchIff`, `FrontierOfFrontierIff`, `GroupingDoesNotMatterIff` |
| the best score sum, or the best weighted score, is kept | no two objective sets overlap without being equal (and the frontier may hold a variant) | `ElitismIff`, `ScalarisationIff`, `DefaultScalarisationIff` |
| `get_best` finds the best value ever offered | the archive may hold 1 for one objective, 2k for k of three or more; for two, 2 if just one of them is minimised and 3 otherwise | `ExtremesSurviveIff` |
| different calls have different rate budgets | no tool's name extends another one's past a colon | `KeysSeparateIff` |
| a rate limit holds although its budget is shared | the sharers' windows are not shorter, or the limit is 0, or it is 1 and the sharers' are at least 1 | `LimitHoldsIff`, `BudgetIsOwnIff` |
| the generated script finds its endpoints; can be repeated; agrees with direct indexing | every import carries an alias; in general, exact conditions on the imports of the same name before and after one that does not | `EndpointsIff`, `ScriptIsIdempotentIff`, `EmittersAgreeIff` |
| read as an event stream, a relayed answer carries its events | it has none: no empty line follows a data line | `RelayKeepsEventsIff` |
| read as an event stream, a status answer carries the status | the status holds no line break; a status report always does | `StatusArrivesIff`, `OnlyTheHeadlineArrives` |
| the three event-stream readers agree | no event before `[DONE]` holds a JSON null they meet | `ReadersAgree` |
| the trajectory buffer is bounded | the sample size is not 0, where the slice `[-0:]` keeps everything | `BufferBoundedIff` |

Where the code differs from what its documentation or comments suggest, the model follows the code:

- A retry after a failed verification repeats the same request; `get_retry_prompt_enhancement` is
  never called (`RetrySendsSameRequest`). Rejected answers have been stored by then
  (`RejectedAnswersAreStored`).
- `stream_graph` calls `store_memory`, but on a state that never contains the response, so streamed
  interactions are never stored (`StreamGraph`).
- `stream_graph` and `stream_model_response` promise chunks in the format of server-sent events, and
  `main.py` sends them as `text/event-stream`. By section 9.2 of the WHATWG HTML standard an event is
  dispatched at an empty line. The relay drops the empty lines, so no event of a model's answer reaches
  such a client (`NothingIsRelayed`); of a status report, sent as one `data: ` line, only the headline
  does (`OnlyTheHeadlineArrives`). `process_stream` frames each item properly (`StreamIsDispatched`).
- `retrieve_memory` says it runs only for complex tasks; it runs before classification, so it never
  skips on a first pass (`MemoryComesBeforeClassification`).
- No entry point asks for tools, and the key that would is not part of the graph's state, so no task
  is ever classified as tool-heavy (`NoToolTasks`).
- `generate_cypher` writes an import without alias as `imp.alias = None`. `None` is an unbound
  identifier in Cypher, so the statement is rejected; the model lets the database go on with the next
  one. Such an import loses its node and its edge (`PlainImportIsLost`).
- In `json_escape` the line for NUL has an empty pattern and replaces nothing; shell strings hold no
  NUL.

## Model

| member | source | states |
|---|---|---|
| Dominance.Solution.Dominates | src/gepa/pareto.py:17-50 | visiting the common objectives in any order, with the early return, decides "nowhere worse and somewhere better" |
| Dominance.PromptVariant.Dominates | src/gepa/evolution.py:100-116 | the variant's own comparison is the same relation with every score maximised |
| Dominance.TransitiveIff | src/gepa/pareto.py:30-50 | dominance between scores on three given objective sets is transitive exactly when the first or last two are disjoint, or the middle one contains what the others share and one of the outer pairs' overlaps lies in the third |
| Dominance.MixedObjectivesCanCycle | src/gepa/pareto.py:30-50 | with different objectives three solutions can dominate each other in a cycle |
| Ranking.RankingIsUnique | src/gepa/pareto.py:101-105 | the stable order, also reversed, is unique, so nothing depends on how `sorted` finds it |
| Crowding.AddGaps | src/gepa/pareto.py:122-143 | one pass adds to each distance, in place, infinity at the ends and the neighbour gap over the range inside |
| Crowding.CalculateCrowdingDistances | src/gepa/pareto.py:109-145 | the passes over the objectives of the first solution leave the distances `DistanceIsSum` describes |
| Crowding.DistanceIsSum | src/gepa/pareto.py:109-145 | a distance is infinite exactly at an end of some objective, and elsewhere the sum over the objectives of the next value less the previous one, as a share of the range |
| Crowding.GapsTelescope | src/gepa/pareto.py:140-143 | the interior gaps telescope to the difference of the outermost values |
| Crowding.CrowdingBound | src/gepa/pareto.py:120-143 | over k objectives the finite distances of a frontier sum to at most 2k |
| Crowding.CrowdedAtEnds | src/gepa/pareto.py:128-129 | a distance is infinite exactly at the low or high end of some objective |
| Crowding.PruneKeepsIsolated | src/gepa/pareto.py:99-107 | pruning keeps max_size different members, none less isolated than a dropped one, the earlier of equals |
| Crowding.PruneInOrder | src/gepa/pareto.py:94-107 | for any size the kept members stand in descending order of distance, each before all dropped ones, equal distances in their order |
| Crowding.EndsAreKept | src/gepa/pareto.py:99-107 | pruning drops no end when there is room for all of them, at most two per objective |
| ParetoArchive.ParetoFrontier.Add | src/gepa/pareto.py:68-92 | `add` rejects exactly dominated solutions, otherwise filters, appends and prunes |
| ParetoArchive.ParetoFrontier.PruneSolutions | src/gepa/pareto.py:94-107 | `_prune` keeps the first max_size of the order by descending crowding distance |
| ParetoArchive.ParetoFrontier.GetCompromise | src/gepa/pareto.py:163-193 | the answer is the first solution with the largest weighted score, with default or given weights |
| ParetoArchive.CompromiseIsFirstBest | src/gepa/pareto.py:179-193 | the answer is the first solution whose sum of weighted values, minimised ones negative and missing ones 0, none exceeds; default weights are equal and add up to 1 |
| ParetoArchive.BestIsFirstBest | src/gepa/pareto.py:147-161 | `get_best` answers with the first solution none is better than; one without the objective is worse than all that have it |
| ParetoArchive.ArchiveInvariant | src/gepa/pareto.py:78-107 | after any run, for any objective sets: no member dominates another, the size bound holds, only offered solutions are kept |
| Extremes.ExtremesSurvive | src/gepa/pareto.py:68-161 | with shared objectives and room enough, `get_best` finds the best value ever offered, minimised or maximised |
| Extremes.ExtremesSurviveIff | src/gepa/pareto.py:68-161 | room enough is 1 for one objective, 2 or 3 for two, 2k for k of three or more: with less, some run loses a best value |
| Extremes.EndsCoincide | src/gepa/pareto.py:123-129 | with two objectives, one minimised, the same solution is best on one and worst on the other, even among ties |
| Frontiers.FrontierCovers | src/gepa/pareto.py:78-87 | where dominance is transitive every discarded solution is dominated by a survivor, so a non-empty input leaves a non-empty frontier |
| Frontiers.FrontierCoversIff | src/gepa/pareto.py:78-87 | of every population over given objective sets, exactly when dominance between them is transitive |
| Frontiers.ArchiveIsFrontier | src/gepa/pareto.py:78-87 | while the limit is not reached the archive is exactly the undominated solutions, in order of arrival |
| Frontiers.ArchiveIsFrontierIff | src/gepa/pareto.py:78-87 | for every such run, exactly where dominance is transitive |
| Frontiers.FrontierOfFrontier | src/gepa/evolution.py:399-409 | only the frontier of the past matters for the next frontier |
| Frontiers.FrontierOfFrontierIff | src/gepa/evolution.py:399-409 | for every population over given objective sets, exactly when dominance between them is transitive |
| Frontiers.Scalarisation | src/gepa/pareto.py:163-193 | for nonnegative or default weights and no pruning `get_compromise` returns a solution that scores at least as high as everything ever offered |
| Frontiers.ScalarisationIff | src/gepa/pareto.py:163-193 | for all nonnegative weights, exactly when no two objective sets overlap without being equal |
| Frontiers.DefaultScalarisationIff | src/gepa/pareto.py:179-193 | with default weights, exactly under the same condition |
| Evolution.EvolutionEngine.UpdateParetoFrontier | src/gepa/evolution.py:397-419 | the new frontier is the undominated variants in order, trimmed by descending score sum when too many |
| Evolution.SurvivorsStand | src/gepa/evolution.py:399-409 | the survivors are, each at its place, exactly the variants no variant of another name dominates |
| Evolution.UpdateKeepsBest | src/gepa/evolution.py:397-419 | too many survivors are cut to the size in descending order of score sum: no dropped one has a larger sum than a kept one, and the earlier of equals is kept |
| Evolution.EvolutionEngine.FindDominator | src/gepa/evolution.py:403-407 | the inner loop finds a differently named dominator exactly when there is one |
| Evolution.EvolutionEngine.CombineLessons | src/gepa/evolution.py:421-439 | exactly the models on the frontier get a prompt: the content of the first variant of that model whose accuracy, 0 if missing, none exceeds |
| Evolution.Elitism | src/gepa/evolution.py:397-419 | after any number of cycles the best score sum ever submitted is attained in the frontier, for objective sets that are pairwise equal or disjoint |
| Evolution.ElitismIff | src/gepa/evolution.py:397-419 | of every run over given objective sets, exactly when they are, and the frontier may hold a variant |
| Evolution.CycleEmptiesFrontier | src/gepa/evolution.py:397-409 | three variants that dominate each other in a cycle leave nothing of their batch |
| Evolution.FallbackScoresEvict | src/gepa/evolution.py:380-419 | a failed benchmark's scores evict a variant that has more scores and a larger sum |
| Evolution.IncrementalEqualsBatch | src/gepa/evolution.py:397-419 | offering variants one by one leaves the same solutions in the same order as one batch update |
| Evolution.IncrementalEqualsBatchIff | src/gepa/evolution.py:397-419 | for every population over given objective sets, exactly when dominance between them is transitive |
| Evolution.GroupingDoesNotMatter | src/gepa/evolution.py:397-419 | untrimmed, the frontier after any grouping into cycles is that of all variants together |
| Evolution.GroupingDoesNotMatterIff | src/gepa/evolution.py:397-419 | for every untrimmed run over given objective sets, exactly when dominance between them is transitive |
| Evolution.BufferContents | src/gepa/evolution.py:213-218 | the buffer holds exactly the latest 2n trajectories, everything for n = 0, nothing for n < 0 |
| Evolution.BufferBoundedIff | src/gepa/evolution.py:216-218 | the buffer is bounded by twice the sample size exactly when that size is not zero |
| RateLimiting.RateLimiter.IsAllowed | src/mcp_proxy/gateway.py:63-73 | one call prunes, decides and records for its key and changes no other key |
| RateLimiting.PrunedListRefinesHistory | src/mcp_proxy/gateway.py:63-73 | the pruned list and the full admission history agree from every cutoff a later call can use |
| RateLimiting.KeptIsRecentHistory | src/mcp_proxy/gateway.py:66-73 | after every call, also a refused one, just the admissions less than one window old are kept |
| RateLimiting.KeptIsBounded | src/mcp_proxy/gateway.py:66-73 | never more timestamps are kept for a key than its limit |
| RateLimiting.DecisionOnHistory | src/mcp_proxy/gateway.py:67-70 | each decision equals the decision on the full history |
| RateLimiting.WindowSafety | src/mcp_proxy/gateway.py:63-73 | every interval (a, a + window] of a run holds at most `limit` admissions |
| RateLimiting.GreedyOptimal | src/mcp_proxy/gateway.py:63-73 | after every prefix the limiter has admitted at least as many as any policy legal in every window |
| RateLimiting.KeysAreIndependent | src/mcp_proxy/gateway.py:67-73 | in a run over many keys each key fares as if its requests were alone |
| SharedKeys.SharedKeySafety | src/mcp_proxy/gateway.py:63-73 | uses of one key under several rates keep the first rate's limit if the others are harmless to it |
| SharedKeys.OwnBudget | src/mcp_proxy/gateway.py:63-73 | and are decided as by a limiter of its own if the others are neutral |
| Allowlisting.ToolAllowlist.Load | src/mcp_proxy/allowlist.py:56-78 | loading replaces policy and denials, adds the configured permissions with the documented defaults, and ignores a missing file |
| Allowlisting.DefaultDeny | src/mcp_proxy/allowlist.py:80-89 | under `deny` a call is allowed exactly when its tool is listed, not denied, and covers the method |
| Allowlisting.OtherPolicies | src/mcp_proxy/allowlist.py:80-89 | under any other policy exactly the calls of denied tools are refused |
| Allowlisting.RateLimitRoundTrip | src/mcp_proxy/allowlist.py:30-33 | a written count and period is read back: `sec` as 1, `hour` as 3600, every other period as 60 seconds |
| Allowlisting.RateLimitReads | src/mcp_proxy/allowlist.py:30-33 | digits, perhaps signed, padded with spaces or grouped by underscores, a slash and a period are read as the number they denote and those seconds |
| Allowlisting.RateLimitParts | src/mcp_proxy/allowlist.py:30-33 | every readable limit is of that form |
| Allowlisting.RateLimitNeedsOneSlash | src/mcp_proxy/allowlist.py:31-33 | text without exactly one slash is rejected |
| Gateway.McpGateway.Invoke | src/mcp_proxy/gateway.py:134-241 | the handler's checks, in order, with the state and answer of each branch |
| Gateway.HandleCounts | src/mcp_proxy/audit.py:62-112 | one request moves the status counter of its answer by one, a success only if its tool is audited, no other status counter, and, if denied, the counter of its reason |
| Gateway.Conservation | src/mcp_proxy/gateway.py:148-241 | over any run each counter equals the calls so answered, denials split by reason, and denials, errors and successes add up to the calls |
| Gateway.EveryAnswer | src/mcp_proxy/gateway.py:148-241 | at every place of a run: forbidden exactly when the rules refuse, too many exactly when the budget the earlier calls left is exhausted, the written rate exactly when it is unreadable, and otherwise what the tool returned or raised |
| Gateway.EveryCallIsLogged | src/mcp_proxy/audit.py:62-112 | the log of a run is one line for each call but unaudited successes, with id, status, duration and reason or message, and the observed durations are those of the log in seconds |
| Gateway.ListingsGovern | src/mcp_proxy/allowlist.py:67-74 | what a listing says governs; left out, it is sixty calls a minute, any method, audited |
| Gateway.KeysSeparateIff | src/mcp_proxy/gateway.py:172 | different calls have different budgets exactly when no tool's name extends another one's past a colon |
| Gateway.KeysCanCollide | src/mcp_proxy/gateway.py:172 | otherwise every method of the longer-named tool shares its budget with a method of the shorter-named one |
| Gateway.ForwardsAreUses | src/mcp_proxy/gateway.py:148-189 | for any rules the kept timestamps and the forwards of a call are those its key's uses, own and foreign, determine |
| Gateway.ForwardsAreDecisions | src/mcp_proxy/gateway.py:169-189 | with a budget of its own, the forwarded calls of a permitted method are exactly those the limiter alone would admit |
| Gateway.ForwardingIsLimited | src/mcp_proxy/gateway.py:148-189 | its forwards obey the limit in every window, and no legal policy forwards more |
| Gateway.SeparateToolsAreLimited | src/mcp_proxy/gateway.py:148-189 | where no tool's name extends another one's past a colon, every permitted method keeps to its limit and none could be served better |
| Gateway.LimitHoldsIff | src/mcp_proxy/gateway.py:169-189 | all runs keep to the limit exactly when every tool sharing the budget has a window at least as long, or the limit is 0, or it is 1 and the sharer's is at least 1 |
| Gateway.BudgetIsOwnIff | src/mcp_proxy/gateway.py:169-189 | all runs are decided as by a limiter of its own exactly when each sharer's limit admits nothing and its window is not shorter, or the limit itself admits nothing |
| Gateway.CollisionBreaksLimit | src/mcp_proxy/gateway.py:169-189 | a tool limited to two calls a minute is forwarded more within one, through a call of another tool |
| Gateway.OnlyAllowedIsForwarded | src/mcp_proxy/gateway.py:149-189 | under `deny` every forwarded call of a run is allowlisted |
| Workflow.Execute | src/agent/graph.py:139-209 | whatever the services answer, every run reaches END |
| Workflow.FirstCall | src/agent/nodes/classification.py:66-178 | from a fresh request, in its terms alone, what it is classified as and where it goes: the status is reported exactly when no alias is given and the question asks for it; DeepSeek is called exactly when it is named, or no model is and the question is not short and trivial but needs tools, has a marked word, is over 500 characters or comes after more than five others; the messages are the conversation with its context |
| Workflow.MemoryReachesModel | src/agent/graph.py:63-76 | memory is retrieved exactly unless the question is a greeting under 50 characters, and what was retrieved reaches the model |
| Workflow.CodeForTools | src/agent/nodes/knowledge.py:39-70 | code is looked up exactly for tasks that need tools and mention code |
| Workflow.FirstAnswerVerifiedIff | src/agent/nodes/metacognition.py:50-68 | the first answer is stored and verified exactly when the request goes to DeepSeek and the answer is a text that is not empty |
| Workflow.VerdictNamesGate | src/agent/nodes/metacognition.py:105-266 | every verification names the first gate that fails, and rejects the answer exactly when one does and retries are left |
| Workflow.LastAnswerCounts | src/agent/nodes/inference.py:153-208 | a finished run answers with what its last model call or the status brought, and the error of a failed call |
| Workflow.Terminates | src/agent/graph.py:112-209 | from retry count r any run has at most 5 + 3 max(1, 2 - r) node executions and max(1, 2 - r) model calls |
| Workflow.FreshRunsAreShort | src/agent/nodes/metacognition.py:252-266 | from a fresh request at most 11 executions and two model calls; no verification finds the retries exhausted |
| Workflow.BoundsAreTight | src/agent/graph.py:112-209 | from every initial retry count both bounds are met, by a complex task whose answers keep failing a gate |
| Workflow.FinalStates | src/agent/graph.py:103-125 | a finished run reports failure exactly after two gate failures, or one and then an errored or empty call |
| Workflow.StatusShortCircuits | src/agent/graph.py:91-100 | a run that answers a status query never calls the model and is never verified |
| Workflow.MemoryComesBeforeClassification | src/agent/nodes/memory.py:39-66 | on a first pass the request is not classified yet, so memory is always retrieved |
| Workflow.ClassifiedTasksSkipMemory | src/agent/nodes/memory.py:46-56 | only a run that starts out classified as trivial or routine finds no memory |
| Workflow.RejectedAnswersAreStored | src/agent/nodes/memory.py:116-147 | a finished run has stored every rejected answer and an accepted one, as many as model calls or one fewer |
| Workflow.NoToolTasks | src/agent/nodes/classification.py:132-134 | from the states the entry points build no task is tool-heavy and no code context is retrieved |
| Workflow.RetrySendsSameRequest | src/agent/nodes/inference.py:41-66 | every retry sends the same endpoint and messages as the first call |
| Workflow.RetriesGoToDeepSeek | src/agent/nodes/metacognition.py:50-68 | only answers of the large model are retried |
| Workflow.InjectContext | src/agent/nodes/inference.py:69-97 | context extends or becomes the leading system message and the rest of the conversation is kept |
| Workflow.StreamGraph | src/agent/graph.py:262-314 | the streaming entry point sends what the graph would send, to the model the question goes to, and relays the answer's lines, answers status queries itself, and stores nothing |
| SseReaders.HandleStreaming | src/agent/nodes/inference.py:232-255 | the workflow's reader returns all text and the last usage before `[DONE]`, or raises on a null delta |
| SseReaders.CallModelBuffered | src/agent/router_legacy.py:552-571 | the router's buffered reader does the same but raises on any null |
| SseReaders.CallModelStream | src/agent/router_legacy.py:756-780 | the streaming reader yields the contents and one finish, or what was readable, an error text and a finish |
| SseReaders.ProcessStream | src/agent/router_legacy.py:686-720 | the output sent for those items |
| SseReaders.LinesAreRead | src/agent/nodes/inference.py:232-242 | a stream is read line by line up to the end marker |
| SseReaders.OneLineRead | src/agent/nodes/inference.py:232-242 | of a line, the payload after `data: ` is decoded, unless it is the end marker or cannot be |
| SseReaders.TextAndUsage | src/agent/nodes/inference.py:243-255 | the texts of the first choices make up the text, and the last usage counts |
| SseReaders.StreamShape | src/agent/router_legacy.py:686-720 | always non-empty deltas, one final chunk, one `[DONE]`; unless the reader raised the deltas spell the text |
| SseReaders.ReadersAgree | src/agent/router_legacy.py:552-571 | the three readers agree on text and usage exactly when no event before `[DONE]` holds a null they meet |
| SseReaders.RelayPreserves | src/agent/router_legacy.py:686-720 | reading the output of `process_stream` again gives the same text and usage, for any encoding that reads back the chunks sent |
| SseReaders.BlankLinesDoNotMatter | src/agent/nodes/inference.py:232-240 | the program's own line readers see the same chunks with and without the empty lines |
| EventStreams.NothingIsRelayed | src/agent/nodes/inference.py:317-335 | read as an event stream, a relayed answer dispatches nothing |
| EventStreams.RelayKeepsEventsIff | src/agent/nodes/inference.py:317-335 | so it carries the answer's own events exactly when no empty line of the answer follows a data line |
| EventStreams.StatusArrivesIff | src/agent/graph.py:297-304 | the answer to a status query holds the status as an event exactly when the status holds no line break |
| EventStreams.OnlyTheHeadlineArrives | src/agent/tools/status.py:186-216 | of a formatted status report the client sees the headline and the end marker |
| EventStreams.ReportReadsBack | src/agent/tools/status.py:186-216 | the report falls apart into its lines again, one for each figure and card, and the last says whether all is well |
| EventStreams.StreamIsDispatched | src/agent/router_legacy.py:686-720 | every item of `process_stream` is an event of its own, and the body's lines are those the readers see |
| HealthRouter.CognitiveRouter.Route | src/agent/router_legacy.py:159-213 | traced and untraced bodies decide alike |
| HealthRouter.CacheIsLatestProbe | src/agent/router_legacy.py:249-269 | the cache holds exactly each model's latest probe |
| HealthRouter.AnswersAreFresh | src/agent/router_legacy.py:251-254 | every answer is whether the latest probe found status 200, and that probe ended less than 30 seconds before |
| HealthRouter.ProbesAreSpaced | src/agent/router_legacy.py:251-269 | probes of one model are at least 30 seconds apart |
| HealthRouter.RoutesAvoidUnhealthy | src/agent/router_legacy.py:159-247 | over any run a trivial or routine request goes to Qwen and any other to DeepSeek, unless exactly the other one is known healthy; the fallback offered is the other one, or none once used; the reason says which |
| SymbolTable.CodeVisitor.Visit | scripts/index_code.py:83-157 | exactly the imports and definitions outside classes and functions are recorded, with bases, methods and called names, and no visit happens inside a class |
| SymbolTable.FindCalls | scripts/index_code.py:199-208 | the breadth-first walk finds exactly the names called anywhere below a definition |
| SymbolTable.CallsInIff | scripts/index_code.py:199-208 | a name is found exactly if some call that occurs in the definition, in whatever part, calls it |
| SymbolTable.ParseFile | scripts/index_code.py:211-239 | the functions and classes recorded of a file are those of its tree, in order, each with name, dotted name, signature, first paragraph of the docstring, lines, calls, bases and methods |
| SymbolTable.TopLevelIff | scripts/index_code.py:94-157 | those that occur outside of all classes and functions, however deep |
| SymbolTable.TopLevelInOrder | scripts/index_code.py:94-157 | in the order of the source text |
| SymbolTable.ImportsAreRecorded | scripts/index_code.py:94-112 | each name of an import statement is recorded with its module, dotted name and alias |
| SymbolTable.FunctionKeysCollideIff | scripts/index_code.py:159-164 | functions or methods of any files share a key exactly with their own name, file and class, or as a method of a class and a function of the file named like that class in a directory named like the method's file, with dots inside path parts counting as directories |
| Indexer.GenerateCypher | scripts/index_code.py:242-325 | the script is the node and edge statements of every symbol, docstrings on one line, with a rejected statement for each import without alias |
| Indexer.GraphStore.IndexToMemgraph | scripts/index_code.py:328-425 | the database ends up with every symbol's upsert performed in order |
| StoredSymbols.LastFileIsHeld | scripts/index_code.py:336-422 | after indexing, each symbol of the last file holds exactly the properties its definition gives, the last definition of a name counting, and all other nodes what they held |
| StoredSymbols.EdgesAreRelations | scripts/index_code.py:336-422 | the edges added are exactly those from files to their imports, classes and functions and from classes to their methods |
| StoredSymbols.ScriptSays | scripts/index_code.py:242-325 | the script states for each upsert the same values, each line break of a docstring a space, and the edge; or a rejected statement if a value is absent |
| IndexingLaws.Denotation | scripts/index_code.py:242-422 | any list of statements adds the nodes it merges and the edges that find their endpoints, and leaves each property at its last write |
| ScriptLaws.EndpointsIff | scripts/index_code.py:254-267 | the script merges both endpoints of every edge first exactly when each import without alias follows one of its name that has one |
| ScriptLaws.ScriptIsIdempotentIff | scripts/index_code.py:242-325 | running the script twice equals running it once, from any graph, exactly when each import without alias has its edge if any import gives its name a node |
| IndexingLaws.DirectIndexingIsIdempotent | scripts/index_code.py:336-422 | indexing directly twice equals once, and every edge finds its endpoints |
| ScriptLaws.EmittersAgreeIff | scripts/index_code.py:242-422 | up to line breaks in docstrings both emitters leave the same nodes, properties and edges, from any graph or just from the empty one, exactly when each import without alias has its edge and is followed by one of its name with an alias |
| ScriptLaws.AliasedFilesAgree | scripts/index_code.py:242-422 | if every import carries an alias all three hold |
| ScriptLaws.PlainImportIsLost | scripts/index_code.py:254-267 | for a file whose one import carries none the script leaves neither node nor edge, direct indexing both |
| JsonEscape.PassOnAll | benchmarks/benchmark-sweep.sh:79-114 | one substitution of the chain is one more character handled by a single pass |
| JsonEscape.JsonEscapeManually | benchmarks/benchmark-sweep.sh:79-115 | the 34 substitutions equal one per-character pass |
| JsonEscape.EscapeRoundTrip | benchmarks/benchmark-sweep.sh:79-115 | the result is a valid JSON string body without control characters that reads back as the original |
| JsonEscape.NulStaysRaw | benchmarks/benchmark-sweep.sh:83 | with a NUL in the text, the result is no JSON string body |
| JsonEscape.EscapeIsShortest | benchmarks/benchmark-sweep.sh:79-115 | no JSON string body that reads as the original is shorter |
| JsonEscape.UpperCaseDigits | benchmarks/benchmark-sweep.sh:84-114 | escapes by number are written in upper case |
| MemoryContext.FormatMemories | src/memory/mem0_client.py:363-379 | the output holds the longest leading run that fits, and the truncation line exactly when a memory was dropped |
| MemoryContext.OutputReadsBack | src/memory/mem0_client.py:363-379 | its lines are the opening tag, the kept memories in order, the note if one was dropped, and the closing tag, and splitting the text gives them back |
| MemoryContext.LongestRunMonotone | src/memory/mem0_client.py:366-376 | no longer run fits, and a larger budget never keeps fewer memories |
| MemoryContext.OutputBound | src/memory/mem0_client.py:363-379 | the whole output is at most one and a half times the budget plus 78 characters |
| MemoryContext.OutputBoundIsTight | src/memory/mem0_client.py:363-379 | for every token budget some memories make the output exactly that long |

## Left out

- Floating-point rounding, NaN and infinite scores: values are reals.
- Clocks that run backwards and concurrent calls inside one key or one health question: runs are sequential with a non-decreasing clock.
- HTTP, FastAPI, Docker, tracing spans, logging output and file persistence; the 503 answer before the gateway is initialised.
- The LLM-backed gates of `src/metacognition`, the dashboard, and the benchmarking and tuning scripts.
- The keyword lists and regular expressions of classification and the gates: they are arbitrary predicates; the reason text of a verdict is dropped.
- LangGraph, Mem0 and Memgraph themselves: last-write state merging and keyed upserts stand for them; `indexed_at` is not modelled.
- The literal text of generated Cypher: quoting and unescaped paths; what a client does after a rejected statement is taken to be going on with the next one.
- DirectIndexingIsIdempotent: `indexed_at`, which is set anew each time, is not modelled.
- The audit id and the duration an answer repeats, and the detail text of a refusal.
- The audit event's timestamp and user context; non-ASCII digits and spaces in a rate limit.
- GreedyOptimal: for a positive window, the only kind `parse_rate_limit` yields.
- LimitHoldsIff: for a limit of at least 0; with a negative one nothing is admitted.
- EscapeRoundTrip: the reader rejects surrogate escapes, which the escaper never writes.
- FunctionKeysCollideIff: signatures are taken from the syntax tree as given.
- StatusArrivesIff: event names, ids and reconnection times of event streams, and a leading byte order mark.
- NothingIsRelayed: for lines without line breaks inside, the only kind `iter_lines` yields.
- JSON values of other shapes than objects, arrays, strings and nulls where the event readers index into them.
- The error and fallback calls around the event readers, and the non-streaming model calls.
