# Graph memory tools and background agent tasks, in Dafny

This project models two pieces of one repository and proves what their code promises.

- **The graph-writing side** (the FalkorDB service):
  - the MCP tools `create_session`, `add_node`, `link_nodes` and `update_last_event`;
  - the batch script `memory_bridge.py`.
  Both turn their arguments or one JSON document into an ordered list of Cypher statements. They escape property values with `e_str` and send the statements one at a time. Every statement gets an outcome, and a failed statement never stops the ones after it.
- **The LLM provider server**:
  - the `TaskManager` registry of background agent tasks;
  - the tools that start, cancel and inspect those tasks;
  - the capture of standard output into the current task's log buffer;
  - the terminal transitions of the background runner;
  - the substring routing of model identifiers to a provider.

Modules, in dependency order:

| file | module | what it holds |
|---|---|---|
| `strings.dfy` | `Strings` | the Python text operations the code uses: `join`, `in`, `replace`, `split`, `lower`, `strip`, `str(int)` |
| `values.dfy` | `Values` | decoded JSON scalars, insertion-ordered dicts, truthiness, `str()`, `d[k]` and `d.get(k)` |
| `cypher.dfy` | `Cypher` | `e_str` and its round trip, the statement templates, the relation loop |
| `executor.dfy` | `Executor` | the per-statement execute/record loop against a store oracle |
| `falkor_tools.dfy` | `FalkorTools` | the four graph tools and their disconnected-database early return |
| `memory_bridge.dfy` | `MemoryBridge` | the input checks, the five-section compilation and the program's exits |
| `routing.dfy` | `Routing` | model routing in `run_agent_task` and in the background runner |
| `task_registry.dfy` | `TaskRegistry` | the `Registry` class: `TaskManager` plus the console, and the tools over it |
| `task_lifecycle.dfy` | `TaskLifecycle` | whole lifecycles on a fresh registry: start, run, cancel, inspect |

**The graph store** is an oracle `store(sent, q)`. It gives the reply to statement `q` after the statements `sent` of the same request. The reply can therefore depend on what the request already changed. No Cypher semantics are assumed.

**Identifiers, labels and relation types** are pasted into the statements raw. Only property values pass through `e_str`. The model keeps that distinction.

**Python's async machinery** is made sequential:

- The ambient `current_task_id` is an explicit `current` parameter.
- The asyncio task object is two flags:
  - `live`: the object exists and is not done;
  - `cancelRequested`: `cancel()` was called and not yet delivered.
- How a run ends is a `RunEnd` value:
  - the provider's reply;
  - a delivered cancellation;
  - an exception with its traceback;
  - a cancellation delivered before the run's first step.

**Behaviour of the code worth noting:**

- `create_session` compiles four statements: session, year, day and the MONTH link.
- Two `cancel_agent_task` calls before the runner has observed the first both succeed. The record stays `running` and the handle stays live until the cancellation is delivered.
- A cancellation delivered before the runner's first step runs none of its handlers. The record then stays `running` forever, and every later cancel answers "has no running task object". `TaskLifecycle.CancelBeforeStart` states this.
- With an unsupported model identifier, the background task *completes*. Its result is the error text plus the report suffix.

## Model

| member | source | states |
|---|---|---|
| `Strings.ConcatAppend` | llm_provider_mcp/src/server.py:279-280 | joining the buffer after one more fragment gives the old joined text followed by exactly that fragment |
| `Strings.ConcatPair` | llm_provider_mcp/src/server.py:279-280 | two joined fragments are the first followed by the second |
| `Strings.ConcatSplit` | llm_provider_mcp/src/server.py:279-280 | joining two runs of fragments is joining each run and concatenating the results |
| `Strings.FlatMapAppend` | falkordb-service/scripts/memory_bridge.py:61-95 | the statements of a node list split into two parts are those of the first part, then those of the second |
| `Strings.FlatMapSkipsEmpty` | falkordb-service/scripts/memory_bridge.py:65-66 | an item that contributes nothing can be dropped without changing the order of the rest |
| `Strings.FlatMapMembers` | falkordb-service/scripts/memory_bridge.py:61-95 | a statement is in the flattened output iff it is in the output of some item |
| `Strings.OccurrenceIsContained` | llm_provider_mcp/src/server.py:190-192 | a substring occurrence at any position makes the `in` scan succeed |
| `Strings.ContainedHasOccurrence` | llm_provider_mcp/src/server.py:190-192 | a successful `in` scan has an occurrence position |
| `Strings.ContainsIsOccurrence` | llm_provider_mcp/src/server.py:190-192 | `needle in text` holds iff the needle occurs at some position (both directions) |
| `Strings.ContainsFirstChar` | llm_provider_mcp/src/server.py:190-192 | helper for the routing examples: a text containing a non-empty needle contains its first character |
| `Strings.ContainsIsShorter` | llm_provider_mcp/src/server.py:190-192 | helper for the routing examples: no text contains a needle longer than itself |
| `Strings.ReplaceCharAppend` | falkordb-service/mcp/main.py:57 | `replace` of one character distributes over concatenation |
| `Strings.ReplaceCharPointwise` | falkordb-service/mcp/main.py:88 | replacing `-` by `_` keeps the length and rewrites exactly the `-` positions |
| `Strings.Split` | falkordb-service/mcp/main.py:86 | `split` always yields at least one field |
| `Strings.SplitJoin` | falkordb-service/mcp/main.py:86 | the fields joined by the separator give back the text, and no field contains the separator |
| `Strings.SplitHasSecondField` | falkordb-service/mcp/main.py:86 | `split('-')[1]` exists iff the text contains `-` |
| `Strings.SecondField` | falkordb-service/mcp/main.py:86 | the second field is the text between the first separator and the next one (or the end) |
| `Strings.Lower` | llm_provider_mcp/src/server.py:189 | lower-casing keeps the length |
| `Strings.LowerPointwise` | llm_provider_mcp/src/server.py:189 | lower-casing works character by character |
| `Strings.LowerIdempotent` | llm_provider_mcp/src/server.py:189 | lower-casing twice is lower-casing once |
| `Strings.TrimStartEmpty` | falkordb-service/scripts/memory_bridge.py:19 | stripping leading whitespace leaves nothing iff every character is whitespace |
| `Strings.TrimEndKeepsLeadingNonSpace` | falkordb-service/scripts/memory_bridge.py:19 | a text starting with a non-space survives trailing strip |
| `Strings.TrimStartStopsAtNonSpace` | falkordb-service/scripts/memory_bridge.py:19 | after leading strip the text starts with a non-space (if not empty) |
| `Strings.Strip` | falkordb-service/scripts/memory_bridge.py:19 | definition of `s.strip()`, no contract of its own; `Strings.StripEmpty` states its meaning |
| `Strings.StripEmpty` | falkordb-service/scripts/memory_bridge.py:19 | `not s.strip()` holds exactly for text made only of whitespace |
| `Strings.NatToString` | falkordb-service/mcp/main.py:87-89 | `str(n)` for `n >= 0`: at least one character, all decimal digits, no leading zero unless the text is `0`, and the digits denote `n` |
| `Strings.IntToString` | falkordb-service/mcp/main.py:87-89 | `str(i)`: a leading `-` exactly when `i < 0`, then the digits of the magnitude with no leading zero, denoting `abs(i)` |
| `Strings.DigitChar` | falkordb-service/mcp/main.py:87-89 | helper: the digit character of a value below ten is a digit with that value |
| `Strings.NatToStringOfDecimal` | falkordb-service/mcp/main.py:87-89 | every digit string without leading zeros is `str` of the number it denotes (the inverse direction of `NatToString`) |
| `Strings.DecimalValueInjective` | falkordb-service/mcp/main.py:87-89 | two digit strings without leading zeros that denote the same number are equal |
| `Strings.IntToStringInjective` | falkordb-service/mcp/main.py:87-89 | different ints print differently, so the year id and value in the statements determine the year |
| `Values.Truthy` | falkordb-service/mcp/main.py:111 | definition of Python truthiness for a scalar, no contract of its own; used by every `if not x` guard |
| `Values.Render` | falkordb-service/mcp/main.py:57 | definition of `str(v)`, no contract of its own; its int case is `Strings.IntToString` |
| `Values.Find` | falkordb-service/scripts/memory_bridge.py:110 | `d[k]` finds a value iff some entry has key `k`, and the value found is that entry's |
| `Values.Get` | falkordb-service/mcp/main.py:110 | definition of `d.get(k)`, no contract of its own: `Values.Find`'s value, or None when `Values.Find` finds nothing |
| `Values.WithoutKey` | falkordb-service/mcp/main.py:115 | the property entries are exactly the entries whose key is not `id`, and no more than the dict has |
| `Values.WithoutKeyAppend` | falkordb-service/mcp/main.py:115 | the filter distributes over concatenation, so the kept entries stay in their original order |
| `Values.WithoutKeySingle` | falkordb-service/mcp/main.py:115 | one entry is kept exactly when its key is not the excluded one |
| `Cypher.Escape` | falkordb-service/mcp/main.py:57 | definition of the two `replace` passes, no contract of its own; `Cypher.EscapeIsOnePass`, `Cypher.UnescapeEscape` and `Cypher.EscapeUnescape` state its meaning |
| `Cypher.EscapeIsOnePass` | falkordb-service/mcp/main.py:57 | the two successive `replace` passes equal one left-to-right escaping of each character |
| `Cypher.UnescapeEscape` | falkordb-service/mcp/main.py:57 | reading an escaped body back gives the original text |
| `Cypher.EscapeUnescape` | falkordb-service/mcp/main.py:57 | every body that reads back as `s` is the escaping of `s` |
| `Cypher.QuotesAreEscaped` | falkordb-service/mcp/main.py:57 | in a body that reads back, every `"` is preceded by a backslash |
| `Cypher.EStr` | falkordb-service/mcp/main.py:53-58 | None gives `""`; otherwise the result is wrapped in `"` and its interior reads back as `str(value)`; each interior `"` is preceded by a backslash; the bridge's copy of `e_str` is the same definition |
| `Cypher.EStrInjective` | falkordb-service/mcp/main.py:53-58 | two values give the same literal only when they stand for the same text |
| `Cypher.PropEntries` | falkordb-service/mcp/main.py:115 | one entry per dict item, in item order; entry `i` is item `i`'s key, `: `, and the `e_str` literal of its value |
| `Cypher.EdgeFormBySuffix` | falkordb-service/mcp/main.py:127-131 | a relation statement has the plain form iff its property dict is empty, otherwise the `SET r += {...}` form |
| `Cypher.LastEventPair` | falkordb-service/mcp/main.py:164-167 | the LAST_EVENT update is exactly two statements |
| `Cypher.DeleteBeforeMerge` | falkordb-service/mcp/main.py:164-167 | the first statement deletes the old pointer; the second does not delete and merges the new pointer |
| `Cypher.LinkableCountSnoc` | falkordb-service/mcp/main.py:121-125 | one more relation adds one to the count of linkable relations iff it has a type and a target |
| `Cypher.RelationQuery` | falkordb-service/mcp/main.py:127-131 | definition of one relation's statement, no contract of its own; `Cypher.EdgeFormBySuffix` states which form it takes |
| `Cypher.RelationQueries` | falkordb-service/mcp/main.py:121-131 | definition of the relation loop's output, no contract of its own; `Cypher.RelationQueriesCount`, `Cypher.RelationQueriesMembers` and `Cypher.RelationQueriesSnoc` state its meaning |
| `Cypher.RelationQueriesCount` | falkordb-service/mcp/main.py:121-131 | one statement per relation with both `type` and `target_id` |
| `Cypher.RelationQueriesMembers` | falkordb-service/mcp/main.py:121-131 | a statement is compiled iff it is the merge of some linkable relation of the input |
| `Cypher.RelationQueriesSnoc` | falkordb-service/mcp/main.py:121-131 | one more relation appends its statement, if any, after the others: input order is kept |
| `Cypher.CompileRelations` | falkordb-service/mcp/main.py:121-131 | the relation loop, skipping invalid relations, builds exactly the relation statements in input order |
| `Cypher.EdgeQueryNotToDay` | falkordb-service/mcp/main.py:127-131 | no relation statement has the HAPPENED_AT shape (closing with `]->(d)`), whatever the raw identifiers; a relation whose `target_id` is a Day's id still reaches that Day, in the relation form |
| `Cypher.RelationQueriesNotToDay` | falkordb-service/mcp/main.py:121-131 | none of the compiled relation statements has the HAPPENED_AT shape |
| `Cypher.AllEndInBracketAppend` | falkordb-service/scripts/memory_bridge.py:37-106 | helper: two statement lists that close with brackets keep that property when concatenated |
| `Cypher.BracketIsNotDelete` | falkordb-service/scripts/memory_bridge.py:112 | helper: a statement closing with a bracket is not a LAST_EVENT delete |
| `Cypher.MergesEndInBracket` | falkordb-service/scripts/memory_bridge.py:44-116 | every merge template (all but the LAST_EVENT delete) closes with `)` or `}` |
| `Cypher.EdgeQueryEndsInBracket` | falkordb-service/scripts/memory_bridge.py:85-95 | both relation forms close with a bracket |
| `Cypher.RelationQueriesEndInBracket` | falkordb-service/scripts/memory_bridge.py:79-95 | every relation statement closes with a bracket |
| `Cypher.NodeBlockCount` | falkordb-service/mcp/main.py:114-131 | a node compiles to 1 + [HAPPENED_AT statement] + #linkable relations statements |
| `Cypher.NodeBlockEndsInBracket` | falkordb-service/scripts/memory_bridge.py:68-95 | every statement of a node block closes with a bracket |
| `Cypher.NodeBlockDayLink` | falkordb-service/mcp/main.py:118-119 | a node block holds a statement of the HAPPENED_AT shape iff a Day was given; it is then the second statement, carrying that Day's id and the time |
| `Cypher.NodeBlockRelationAt` | falkordb-service/mcp/main.py:121-131 | every statement after the merge and the HAPPENED_AT statement is the merge of some linkable relation |
| `Cypher.MonthIsSecondField` | falkordb-service/mcp/main.py:86 | the month number is the text right after the date's first `-`, up to the next `-` or the end |
| `Executor.Outcomes` | falkordb-service/mcp/main.py:93-101 | definition of the outcomes of a statement list, no contract of its own; `Executor.OutcomeAt`, `Executor.OutcomesLength` and `Executor.OutcomesAppend` state its meaning |
| `Executor.OutcomeAt` | falkordb-service/mcp/main.py:93-101 | outcome `i` belongs to statement `i`: success iff the store answered it with rows after exactly the statements before it, otherwise an error carrying the store's message |
| `Executor.OutcomesLength` | falkordb-service/mcp/main.py:93-101 | exactly one outcome per statement |
| `Executor.OutcomesAppend` | falkordb-service/mcp/main.py:133-141 | running a list in two parts is running the first part, then the second after it: a failure never stops later statements |
| `Executor.ExecuteAll` | falkordb-service/mcp/main.py:93-101 | the loop returns one outcome per statement, in order, success iff the store returned rows, the store's message otherwise; the `add_node` and `update_last_event` loops (falkordb-service/mcp/main.py:133-141, 168-175) and the bridge's loop (falkordb-service/scripts/memory_bridge.py:119-125) are the same loop; `link_nodes` sends a single statement without a loop |
| `FalkorTools.DayId` | falkordb-service/mcp/main.py:88 | the day id is `d_` followed by the date with every `-` replaced by `_`, and contains no `-` |
| `FalkorTools.CreateSessionQueries` | falkordb-service/mcp/main.py:80-91 | four statements iff the date contains `-`; otherwise the IndexError of `split('-')[1]` |
| `FalkorTools.CreateSessionOrder` | falkordb-service/mcp/main.py:80-91 | the statements are session merge, year merge, day merge under the derived day id, then the MONTH link carrying the month number |
| `FalkorTools.CreateSession` | falkordb-service/mcp/main.py:76-101 | disconnected: error, nothing sent; date without `-`: the IndexError escapes before any statement; otherwise the four outcomes |
| `FalkorTools.AddNodeQueries` | falkordb-service/mcp/main.py:114-131 | definition of `add_node`'s statements, no contract of its own; `FalkorTools.AddNodeCount`, `FalkorTools.AddNodeFirst`, `FalkorTools.AddNodeDayLink` and `FalkorTools.AddNodeRelationAt` state its meaning |
| `FalkorTools.AddNodeCount` | falkordb-service/mcp/main.py:114-131 | 1 + [HAPPENED_AT, when anchored] + #linkable relations statements |
| `FalkorTools.AddNodeFirst` | falkordb-service/mcp/main.py:115-116 | the first statement merges the node, with the entries of `node_data` other than `id` as properties, in their order |
| `FalkorTools.AddNodeDayLink` | falkordb-service/mcp/main.py:118-119 | a statement of the HAPPENED_AT shape is compiled iff `day_id` and `time` are set and the type is not `Entity`; it is then the second statement, with the node id, that `day_id` and that `time` |
| `FalkorTools.AddNodeRelationAt` | falkordb-service/mcp/main.py:121-131 | every later statement is the merge of a linkable relation of the input |
| `FalkorTools.AddNode` | falkordb-service/mcp/main.py:104-141 | disconnected: error; falsy node id: "Missing node id" and nothing sent; otherwise the outcomes of the compiled statements |
| `FalkorTools.LinkNodes` | falkordb-service/mcp/main.py:144-157 | disconnected: error; otherwise exactly one statement, the SET form iff `props` is non-empty; success iff the store accepted it, the store's message otherwise |
| `FalkorTools.UpdateLastEvent` | falkordb-service/mcp/main.py:160-175 | disconnected: error; otherwise two outcomes, the delete before the merge |
| `MemoryBridge.StripBom` | falkordb-service/scripts/memory_bridge.py:17-18 | one leading U+FEFF is removed and nothing else changes |
| `MemoryBridge.StripBomOnce` | falkordb-service/scripts/memory_bridge.py:17-18 | example: only one mark is removed: a second mark stays part of the text |
| `MemoryBridge.SessionSection` | falkordb-service/scripts/memory_bridge.py:40-44 | one statement iff the document has a session |
| `MemoryBridge.ChronologySection` | falkordb-service/scripts/memory_bridge.py:47-57 | three statements iff `day_id`, `date` and `year` are truthy, none otherwise; compiling raises iff they are truthy and the date is not text containing `-`, with Python's error |
| `MemoryBridge.NodeStatements` | falkordb-service/scripts/memory_bridge.py:62-95 | definition of one node's statements, no contract of its own; `MemoryBridge.NodeStatementsCount` and `MemoryBridge.NodeStatementsDayLink` state its meaning |
| `MemoryBridge.NodeStatementsCount` | falkordb-service/scripts/memory_bridge.py:60-95 | a node without type or id contributes nothing; a valid one contributes 1 + [timed] + #linkable relations |
| `MemoryBridge.NodeStatementsDayLink` | falkordb-service/scripts/memory_bridge.py:71-77 | a node gets a statement of the HAPPENED_AT shape iff it is valid and the chronology has a truthy `time`, with no `Entity` exemption; it is then the node's second statement, carrying the chronology's `day_id` and `time` |
| `MemoryBridge.NodesSection` | falkordb-service/scripts/memory_bridge.py:60-95 | definition of the node section, no contract of its own; `MemoryBridge.NodesSectionSnoc`, `MemoryBridge.NodesSectionSkipsInvalid` and `MemoryBridge.NodesSectionMembers` state its meaning |
| `MemoryBridge.NodesSectionSnoc` | falkordb-service/scripts/memory_bridge.py:61-95 | one more node appends its statements after those of the nodes before it |
| `MemoryBridge.NodesSectionSkipsInvalid` | falkordb-service/scripts/memory_bridge.py:65-66 | skipping a node keeps the statements of the nodes before and after it, in order |
| `MemoryBridge.NodesSectionMembers` | falkordb-service/scripts/memory_bridge.py:60-95 | every statement of the section belongs to some valid node |
| `MemoryBridge.NodesSectionEndsInBracket` | falkordb-service/scripts/memory_bridge.py:60-95 | no node statement is a LAST_EVENT delete |
| `MemoryBridge.NextStatement` | falkordb-service/scripts/memory_bridge.py:103-106 | definition of one NEXT statement, no contract of its own; `MemoryBridge.NextQueriesMembers` states when it is compiled |
| `MemoryBridge.NextQueries` | falkordb-service/scripts/memory_bridge.py:98-106 | never more NEXT statements than links; the exact number is `MemoryBridge.NextQueriesCount` |
| `MemoryBridge.ChainedCountSnoc` | falkordb-service/scripts/memory_bridge.py:102 | one more link adds one to the count iff both its source and target are truthy |
| `MemoryBridge.NextQueriesCount` | falkordb-service/scripts/memory_bridge.py:98-106 | exactly one NEXT statement per link with a truthy `source_id` and `target_id` |
| `MemoryBridge.NextQueriesMembers` | falkordb-service/scripts/memory_bridge.py:98-106 | a NEXT statement is compiled iff it belongs to a link with both source and target set |
| `MemoryBridge.NextQueriesEndInBracket` | falkordb-service/scripts/memory_bridge.py:98-106 | every NEXT statement closes with a bracket |
| `MemoryBridge.LastEventSection` | falkordb-service/scripts/memory_bridge.py:109-116 | two statements iff `last_event_id` is truthy and there is a session; raises KeyError `'id'` iff then the session has no `id` |
| `MemoryBridge.Compile` | falkordb-service/scripts/memory_bridge.py:37-116 | compilation fails iff the chronology or the LAST_EVENT section raises, and the chronology's error comes first |
| `MemoryBridge.CompileSessionFirst` | falkordb-service/scripts/memory_bridge.py:39-44 | the session statement is first, with the session's entries other than `id` as properties, in their order |
| `MemoryBridge.CompileChronologyNext` | falkordb-service/scripts/memory_bridge.py:46-57 | Year, Day and MONTH statements follow the session statement directly |
| `MemoryBridge.SessionSectionEndsInBracket` | falkordb-service/scripts/memory_bridge.py:40-44 | the session statement closes with a bracket |
| `MemoryBridge.ChronologySectionEndsInBracket` | falkordb-service/scripts/memory_bridge.py:47-57 | the chronology statements close with brackets |
| `MemoryBridge.SectionsEndInBracket` | falkordb-service/scripts/memory_bridge.py:39-106 | nothing before the LAST_EVENT pair is a delete |
| `MemoryBridge.CompileLastEvent` | falkordb-service/scripts/memory_bridge.py:108-116 | a LAST_EVENT delete is compiled iff the document asks for it; it is then second to last, followed by the merge of the new pointer |
| `MemoryBridge.CompileNode` | falkordb-service/scripts/memory_bridge.py:61-95 | one pass of the node loop builds that node's statements |
| `MemoryBridge.CompileNodes` | falkordb-service/scripts/memory_bridge.py:60-95 | the node loop builds the section in node order |
| `MemoryBridge.CompileNextLinks` | falkordb-service/scripts/memory_bridge.py:98-106 | the link loop builds the NEXT section in link order |
| `MemoryBridge.CompileChronology` | falkordb-service/scripts/memory_bridge.py:47-57 | the chronology step builds its three statements or raises as the section says |
| `MemoryBridge.CompileDocument` | falkordb-service/scripts/memory_bridge.py:37-116 | the five sections in order, or the first exception raised while compiling |
| `MemoryBridge.ExitStatus` | falkordb-service/scripts/memory_bridge.py:20-35 | the exit status is 0 iff the results were reported |
| `MemoryBridge.RunBridge` | falkordb-service/scripts/memory_bridge.py:14-127 | read error, blank input, invalid JSON, another decoding exception and connection failure each print their message and exit before any statement is sent; the connection is opened only after the input was accepted; a compile error escapes uncaught; otherwise every compiled statement is sent and reported |
| `Routing.Dispatch` | llm_provider_mcp/src/server.py:189-195 | definition of the `if/elif` chain, no contract of its own; `Routing.DispatchMeaning` states what it selects |
| `Routing.DispatchMeaning` | llm_provider_mcp/src/server.py:189-195 | Gemini iff the lower-cased id mentions `gemini`; OpenAI iff it does not but mentions `gpt`, `o1` or `o3`; none iff it mentions none of them |
| `Routing.DispatchIgnoresCase` | llm_provider_mcp/src/server.py:189 | an id and its lower-cased form are routed the same way |
| `Routing.RunAgentTask` | llm_provider_mcp/src/server.py:219-226 | the selected provider's reply, or the unsupported-identifier error when no provider applies (no provider consulted) |
| `Routing.AgentAnswer` | llm_provider_mcp/src/server.py:189-195 | definition of the runner's answer before the report suffix, no contract of its own; `Routing.AgentAnswerMeaning` states which identifiers give which text |
| `Routing.AgentAnswerMeaning` | llm_provider_mcp/src/server.py:189-195 | in the background runner, an identifier whose lower-cased form mentions `gemini`, `gpt`, `o1` or `o3` gets the provider's reply; one that mentions none of them gets the unsupported-identifier text naming the accepted words |
| `Routing.DispatchPrefersGemini` | llm_provider_mcp/src/server.py:190-192 | example: `gemini` is checked before `gpt`: "Gemini-GPT" goes to Gemini |
| `Routing.DispatchUpperCaseGpt` | llm_provider_mcp/src/server.py:189-193 | example: "GPT-4" goes to OpenAI |
| `Routing.DispatchRefusesUnknown` | llm_provider_mcp/src/server.py:194-195 | example: "claude" selects no provider |
| `TaskRegistry.Lookup` | llm_provider_mcp/src/server.py:282-291 | a key is found iff some entry has it, and the value found is that entry's |
| `TaskRegistry.LookupAppend` | llm_provider_mcp/src/server.py:282-291 | a key in the base object is found there before the optional fields |
| `TaskRegistry.Snapshot` | llm_provider_mcp/src/server.py:282-291 | definition of the status object, no contract of its own; `TaskRegistry.SnapshotFields` states what it reports |
| `TaskRegistry.SnapshotFields` | llm_provider_mcp/src/server.py:282-291 | the status object gives back id, status, the joined log, and `result`/`error` exactly when they are set |
| `TaskRegistry.WithLog` | llm_provider_mcp/src/server.py:35-40 | definition of appending fragments to one task's buffer, no contract of its own; `TaskRegistry.WithLogTouchesOnlyTask`, `TaskRegistry.WithLogReport` and `TaskRegistry.WithLogTwice` state its meaning |
| `TaskRegistry.WithLogReport` | llm_provider_mcp/src/server.py:35-40 | after a write to a task's buffer, its reported log is the old log followed by the fragment |
| `TaskRegistry.WithLogTwice` | llm_provider_mcp/src/server.py:35-40 | two appends to one buffer are one append of both |
| `TaskRegistry.WithLogTouchesOnlyTask` | llm_provider_mcp/src/server.py:35-40 | a write keeps the ids, every other record and this record's other fields; the old buffer is a prefix of the new one, and the rest is the fragment |
| `TaskRegistry.Registry.constructor` | llm_provider_mcp/src/server.py:28 | the registry starts empty |
| `TaskRegistry.Registry.Submit` | llm_provider_mcp/src/server.py:235-248 | inserts a running record under the fresh id, with empty log, no result and no error, and a live handle; other records are unchanged; replies success with the id |
| `TaskRegistry.Registry.Cancel` | llm_provider_mcp/src/server.py:250-267 | unknown id: not found; running and live: success, cancellation requested, status unchanged; running without a live handle: error; not running: error naming the status; only the accepted case changes anything |
| `TaskRegistry.Registry.StatusReport` | llm_provider_mcp/src/server.py:269-293 | unknown id: not found; otherwise id, status, the joined log, and `result`/`error` exactly when set; reads the registry only |
| `TaskRegistry.Registry.Write` | llm_provider_mcp/src/server.py:35-40 | the fragment reaches the console, and the current task's buffer iff a non-empty registered id is current |
| `TaskRegistry.Registry.Print` | llm_provider_mcp/src/server.py:35-40 | `print` is the text and then the newline, as two writes |
| `TaskRegistry.Registry.Begin` | llm_provider_mcp/src/server.py:148-151 | the runner's start line goes to its own buffer and to the console |
| `TaskRegistry.Registry.Settle` | llm_provider_mcp/src/server.py:197-210 | exactly one transition: completed with the answer and the suffix, cancelled with "Cancelled by user", or failed with the message and the traceback logged; the log line goes to this task's buffer only; every record stays well formed |
| `TaskLifecycle.StartedRun` | llm_provider_mcp/src/server.py:148-151 | a started run has its start line and all the output written before its end line, and is still running |
| `TaskLifecycle.RunLog` | llm_provider_mcp/src/server.py:279-280 | a run's log text is the start line, the output before the end line, then its ending lines |
| `TaskLifecycle.StartThenCheck` | llm_provider_mcp/src/server.py:235-293 | right after submission the status shows running, an empty log, and no result or error |
| `TaskLifecycle.CompletedRun` | llm_provider_mcp/src/server.py:189-199 | a returned run completes with the answer and the suffix, its log ends with the completion line, and it can no longer be cancelled |
| `TaskLifecycle.FailedRun` | llm_provider_mcp/src/server.py:204-210 | a raising run fails with the exception's message; its log ends with the failure line and the traceback |
| `TaskLifecycle.CancelTwice` | llm_provider_mcp/src/server.py:260-263 | two cancels before delivery both succeed |
| `TaskLifecycle.CancelDuringRun` | llm_provider_mcp/src/server.py:200-203 | a delivered cancellation ends the task cancelled by the user; a further cancel is refused as not running |
| `TaskLifecycle.CancelBeforeStart` | llm_provider_mcp/src/server.py:260-265 | a cancellation delivered before the first step leaves the task running with an empty log, and later cancels find no running task object |
| `TaskLifecycle.ForeignOutput` | llm_provider_mcp/src/server.py:35-40 | output while another task or no task is current does not reach this task's log |
| `TaskLifecycle.OwnOutput` | llm_provider_mcp/src/server.py:35-40 | output while the task is current accumulates in its log in order |

## Left out

- Concurrency: `asyncio.create_task`, `asyncio.to_thread`, the `threading.Lock` and the `ContextVar` are sequential here. The current task is an explicit parameter, and interleavings of several runners are not modelled.
- `sys.stdout` and `sys.stderr` are both wrapped; their writes are merged into one `console` sequence.
- The provider SDK calls `call_gemini` and `call_openai`, and the MCP SSE client session inside `agent_task_wrapper` (including its `add_node` progress call): network I/O and foreign SDKs. The provider's reply is a parameter; an exception from either is a `Raised` end. Everything the run writes between its start line and its end line is one `progress` fragment: the session's prints and also the prints and `traceback.print_exc()` output of `call_gemini` and `call_openai`. Those run under `asyncio.to_thread` in a copy of the current context, so their writes land in the task's buffer as well. The model does not split that fragment into its sources.
- `query_graph` only passes a query through to the backend; FastAPI startup and the health endpoint are glue. Neither is modelled.
- `json.dumps` and `json.loads`: replies are association lists and the decoded document is a datatype. The parser is a parameter of `MemoryBridge.RunBridge`.
- `uuid.uuid4()` is replaced by a precondition on `TaskRegistry.Registry.Submit`: the id is fresh and non-empty.
- `models.py`, `auth.py` and the networked test scripts are not part of this model.
- JSON floats, nested lists and dicts as property values are not modelled. Values are `None`, bool, int or str.
- Malformed bridge documents are not modelled. These are:
  - a top-level JSON value that is not an object;
  - a non-dict `session`, `chronology`, node, relation or `next_links` entry;
  - a node whose `data` is `null` (`node.get('data', {})` then gives None, and `.get('id')` fails);
  - a `null` or non-list `nodes`, `relations` or `next_links`.

  Each of these raises a `TypeError` or `AttributeError` in the compile step, outside any handler.
- `FalkorTools.AddNode`: a `relations` argument holding an element that is not a dict is not modelled, since a `seq<Relation>` cannot hold one. In the source, `rel.get` raises out of the tool.
- `Values.Find`: a `Dict` may repeat a key, and `Find` returns the first entry. `json.loads` keeps the last value of a repeated key. The model does not promise anything about decoded objects with duplicate keys. A Python dict has no duplicate keys, so the tools' own arguments are unaffected.
- `Routing.RunAgentTask`: the request line that `run_agent_task` prints before routing is not modelled. The synchronous tool runs outside any task, so the line reaches only the console.
- `Strings.Lower`: lower-cases ASCII letters only. Python's `str.lower` also folds other scripts, so an identifier with non-ASCII capitals may be routed differently.
- `TaskRegistry.Registry.Settle`: states only the terminal part of the runner. The start line is `TaskRegistry.Registry.Begin`; the prints of the SSE session and of the provider call are the `progress` fragment.
- `TaskLifecycle.CancelDuringRun`: the log it reports holds only in the sequential model. A cancellation delivered while the runner awaits `asyncio.to_thread(call_gemini/call_openai, …)` does not stop the worker thread. That thread's later prints run in the copied context, so they still land in the task's buffer after the "Execution Cancelled" line.
- `TaskRegistry.Registry.Settle`: it requires that a cancellation end is delivered exactly when `cancel_agent_task` requested one. A cancellation from elsewhere, such as the event loop cancelling tasks at shutdown, would also record "Cancelled by user", and the model does not cover it.
- The `live` flag abstracts the asyncio task object: it becomes true when the handle is stored and false when the coroutine ends. The gap between `create_task` and storing the handle is not observable sequentially.
- `create_session` takes `year` as an int; the bridge's `year` is any decoded scalar rendered with `str()`.
