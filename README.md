# Meta AI orchestrator — a verified model of the orchestration core

The meta AI orchestrator routes tasks to large-language-model workers
("agents": OpenAI, Claude, Copilot, Cursor, CodeWhisperer, a local model).
Its orchestration core has these parts:

- **Schedulers.** A bounded priority scheduler keyed by task id orders
  entries by priority, then by enqueue time. A round-robin variant keeps a
  FIFO deque.
- **DAG executor.** It builds an index graph from a task DAG and validates
  it: cycles, nodes unreachable from the roots, and longest root path
  against a depth bound. It then orders the DAG topologically and runs its
  nodes in that order, skipping nodes whose dependencies are not completed.
- **Dispatcher.** It holds a permit counter and a map of the requests in
  flight, and chooses a worker by one of five selection strategies. A load
  balancer hands out dispatchers in turn or picks the least loaded one.
- **Orchestrator bookkeeping.** This covers the bounded retry loop, the
  construction of each request, and the active-task table (insert on
  dequeue, status, cancel, list, and the finishing step).
- **Small pure pieces.** These are the default agent selector, error
  classification and display, provider names, priority order, task
  defaults, the preferred-provider table, configuration validation and the
  bounded embedding cache.

Each Dafny module follows one part of the program:

- `Types`, `Wrappers`, `Collections` (types.dfy, wrappers.dfy, collections.dfy): common types, Option/Result, map and sequence facts.
- `Errors` (errors.dfy): the error enum, its display, `is_retryable`, `severity`.
- `Agent`, `Selector` (agent.dfy, selector.dfy): provider table, default capabilities, the default agent selector.
- `Config` (config.dfy): `Config::validate`, `Config::default`.
- `Rag` (embedding_cache.dfy): `EmbeddingCache`.
- `Scheduler` (scheduler.dfy): `PriorityScheduler`, `RoundRobinScheduler`.
- `DagTypes`, `Graphs`, `Topo`, `Reach`, `Depth`, `Dag` (dag_types.dfy, graph.dfy, topo.dfy, reach.dfy, depth.dfy, dag.dfy): `DagExecutorImpl` and its graph algorithms.
- `Dispatcher` (dispatcher.dfy): `TaskDispatcher`, `LoadBalancer`.
- `Orchestrator` (orchestrator.dfy): `MetaAIOrchestrator` and `execute_task_with_retry`.

Modelling choices:

- **Ids.** Task and request ids are opaque UUIDs, written `TaskId(uuid)`.
- **Clock.** The scheduler's nanosecond wall clock is a logical clock that
  advances by one at each push.
- **Priority queue.** The library priority queue is a map from id to key,
  with "pop the maximal key".
- **Graph.** The petgraph cycle check and `Topo` walk are replaced by
  Kahn's algorithm over index arrays. The node map's iteration order is a
  parameter `keys`, a duplicate-free enumeration of the DAG's node ids.
- **Workers.** A worker is a record: provider, availability, reported
  latency, and what `submit` answers.
- **Retry environment.** The selector and worker answers of the retry loop
  are a function from the attempt number and the request to an outcome.
- **Waiting.** The wait loop of `execute_task` sees a sequence of
  snapshots of the active-task table, one per poll before the deadline.

## Model

| member | source | states |
|---|---|---|
| Types.CompareNat | crates/orchestrator/src/scheduler.rs:33-41 | the three-way comparison of two counts: Equal iff equal, Less iff smaller |
| Types.AsStr | crates/common/src/types.rs:30-39 | every provider name is a non-empty lower-case word |
| Types.AsStrInjective | crates/common/src/types.rs:30-39 | two providers with the same name are the same provider |
| Types.Discriminant | crates/common/src/types.rs:55-62 | Low, Medium, High and Critical have discriminants 0, 1, 2 and 3 |
| Types.ComparePriority | crates/common/src/types.rs:55-62 | the derived `Ord` of priorities: Less iff the first has the smaller discriminant, Greater iff the second has |
| Types.PriorityTotalOrder | crates/common/src/types.rs:55-62 | the derived priority order is total, antisymmetric and transitive, with Low < Medium < High < Critical |
| Types.DefaultTask | crates/common/src/types.rs:81-96 | a default task is Pending, Medium, named "Unnamed Task", has no provider, no description and empty metadata, and is created and updated at the same instant |
| Types.DefaultTokenUsage | crates/common/src/types.rs:148-153 | all three token counts are zero |
| Errors.Severity | crates/common/src/error.rs:78-86 | Critical exactly for Config and Auth; High exactly for Agent and Orchestration; Low exactly for Validation; Medium for everything else |
| Errors.IsRetryable | crates/common/src/error.rs:70-75 | retryable exactly for Network, Timeout and RateLimit; every retryable error has Medium severity; no High or Critical error is retryable |
| Errors.Prefix | crates/common/src/error.rs:9-62 | each variant's display prefix, at least two characters long |
| Errors.Display | crates/common/src/error.rs:9-62 | the display text is the variant's fixed prefix followed by its payload |
| Errors.PrefixHead | crates/common/src/error.rs:9-62 | the first two characters of each prefix |
| Errors.PrefixHeadIdentifiesVariant | crates/common/src/error.rs:9-62 | two prefixes that share their first two characters belong to the same variant |
| Errors.SameVariantSameMsg | crates/common/src/error.rs:9-62 | an error is determined by its variant and its payload |
| Errors.DisplayInjective | crates/common/src/error.rs:9-62 | two errors of the model with the same display text are equal: the text determines the variant and its message |
| Agent.PreferredProviders | crates/core/src/agent.rs:146-157 | every list has 2 or 3 distinct providers and never Local or CodeWhisperer; only CodeGeneration has three, exactly OpenAI, Cursor, Copilot in that order; the other lists are OpenAI and Claude, OpenAI first exactly for Translation |
| Agent.DefaultCapabilities | crates/core/src/agent.rs:48-62 | 4096 max tokens, a 128000 context window, streaming only, languages ["en"], specializations ["general"] |
| Agent.AvailableIndices | crates/orchestrator/src/dispatcher.rs:94-100 | exactly the positions of the available workers, in their original increasing order |
| Agent.AvailableEmptyIff | crates/orchestrator/src/dispatcher.rs:102-104 | the available subset is empty iff no worker reports available |
| Selector.FirstWithProvider | crates/agents/src/selector.rs:45-49 | the first available position whose provider matches, or None when none matches |
| Selector.BestMatchPick | crates/agents/src/selector.rs:43-52 | an available worker; a matching provider whenever one is available, else the first available worker |
| Selector.StrategyIsConfigured | crates/agents/src/selector.rs:13-15 | `strategy()` answers the strategy given at construction |
| Selector.SelectAgent | crates/agents/src/selector.rs:25-55 | fails with Agent("No available agents") iff no worker is available; otherwise answers an available worker; BestMatch answers a matching provider when one is available; every other case answers the first available worker (RoundRobin does not rotate) |
| Selector.FirstAvailableIsLeast | crates/agents/src/selector.rs:54 | the worker answered by the non-matching strategies comes before every other available worker |
| Selector.BestMatchIsFirst | crates/agents/src/selector.rs:43-52 | BestMatch answers the first available worker of the requested provider, or the first available worker when none matches |
| Config.NoneEnabled | crates/common/src/config.rs:150-154 | no enabled agent iff every configured agent is disabled |
| Config.ValidationErrorsMeaning | crates/common/src/config.rs:140-159 | each of the four messages is reported iff its rule is broken: accuracy or bug rate outside [0, 1], no enabled agent, port 0 |
| Config.ValidationErrorsOrdered | crates/common/src/config.rs:137-160 | at most four messages, each one of the four, in the fixed order accuracy, bug rate, agents, port |
| Config.DefaultConfigFailsOnAgentsOnly | crates/common/src/config.rs:169-221 | the default configuration fails with exactly the agents message, because its agent map is empty |
| Config.OneEnabledAgentSuffices | crates/common/src/config.rs:150-154 | the default configuration plus one enabled agent validates |
| Config.CountEnabled | crates/common/src/config.rs:151 | the loop counts exactly the enabled agents |
| Config.DefaultConfig | crates/common/src/config.rs:169-221 | the default configuration listens on port 8080, configures no agent, and sets the accuracy threshold 0.9999 and the bug-rate threshold 0.0005 |
| Config.Validate | crates/common/src/config.rs:137-166 | Ok iff the message list is empty; otherwise the list itself, between one and four messages |
| Rag.EmbeddingCache.constructor | crates/core/src/rag.rs:165-170 | an empty cache with the given bound |
| Rag.EmbeddingCache.Get | crates/core/src/rag.rs:172-174 | None exactly for an absent key, else the stored embedding; reads only |
| Rag.EmbeddingCache.Insert | crates/core/src/rag.rs:176-184 | the key is then bound to the embedding; below the bound nothing else changes; at the bound exactly one existing entry, possibly another key, is evicted first; the bound is kept |
| Rag.EmbeddingCache.Clear | crates/core/src/rag.rs:186-188 | afterwards every lookup answers None |
| Rag.InsertThenGet | crates/core/src/rag.rs:172-184 | a lookup after `insert(k, v)` answers v |
| Scheduler.Cmp | crates/orchestrator/src/scheduler.rs:33-41 | Greater iff higher priority, or equal priority and an earlier timestamp; Equal iff the two keys are equal |
| Scheduler.CmpTotalOrder | crates/orchestrator/src/scheduler.rs:33-41 | the wrapper order is antisymmetric and transitive |
| Scheduler.MaxUnique | crates/orchestrator/src/scheduler.rs:127-135 | with distinct timestamps the maximal key belongs to one id only |
| Scheduler.MaxExists | crates/orchestrator/src/scheduler.rs:127-135 | a non-empty queue has a maximal entry |
| Scheduler.Drain | crates/orchestrator/src/scheduler.rs:127-146 | the order in which repeated `next_task` calls empty a queue: one id per entry, each from the queue |
| Scheduler.DrainComplete | crates/orchestrator/src/scheduler.rs:127-146 | draining yields every queued id exactly once |
| Scheduler.DrainOrder | crates/orchestrator/src/scheduler.rs:281-309 | draining yields strictly decreasing keys |
| Scheduler.DrainPriorityFifo | crates/orchestrator/src/scheduler.rs:281-309 | in the drain order priorities never increase, and equal priorities leave in enqueue order |
| Scheduler.MaxKey | crates/orchestrator/src/scheduler.rs:127-135 | the loop finds an id with the maximal key |
| Scheduler.PushCoherent | crates/orchestrator/src/scheduler.rs:105-120 | pushing with the current clock keeps queue and table in step and the timestamps distinct |
| Scheduler.PopTop | crates/orchestrator/src/scheduler.rs:127-146 | popping the maximal id keeps queue and table in step, drops one entry, and the rest drains as before |
| Scheduler.PriorityScheduler.constructor | crates/orchestrator/src/scheduler.rs:69-76 | an empty queue and table with the given capacity and zero counters |
| Scheduler.PriorityScheduler.ScheduleTask | crates/orchestrator/src/scheduler.rs:92-124 | at capacity it fails and changes nothing; otherwise the id is keyed (or re-keyed) with the current clock in the queue, filed with attempt count 0, `total_scheduled` grows by one, and the capacity holds |
| Scheduler.PriorityScheduler.NextTask | crates/orchestrator/src/scheduler.rs:127-146 | None on an empty queue; otherwise the task with the maximal key, removed from queue and table; the length drops by one and the rest drains as before |
| Scheduler.PriorityScheduler.RequeueTask | crates/orchestrator/src/scheduler.rs:149-178 | always Ok, with no capacity check; the entry holds the task with its attempt count plus one (1 when new); the id is re-keyed with a fresh timestamp; `total_requeued` grows by one |
| Scheduler.PriorityScheduler.GetQueueStats | crates/orchestrator/src/scheduler.rs:180-208 | pending is the queue length, running is 0, completed and failed are the counters |
| Scheduler.HighBeforeLow | crates/orchestrator/src/scheduler.rs:281-309 | after scheduling a Low then a High task, `next_task` answers High, then Low |
| Scheduler.RoundRobinScheduler.constructor | crates/orchestrator/src/scheduler.rs:219-225 | an empty deque with the given capacity |
| Scheduler.RoundRobinScheduler.ScheduleTask | crates/orchestrator/src/scheduler.rs:230-243 | at capacity it fails and changes nothing; otherwise the task is appended |
| Scheduler.RoundRobinScheduler.NextTask | crates/orchestrator/src/scheduler.rs:245-248 | the front task, or None on an empty deque |
| Scheduler.RoundRobinScheduler.RequeueTask | crates/orchestrator/src/scheduler.rs:250-258 | always appends, with no capacity check |
| Scheduler.RoundRobinScheduler.GetQueueStats | crates/orchestrator/src/scheduler.rs:260-272 | pending is the deque length, running is 0 |
| Scheduler.RoundRobinFifo | crates/orchestrator/src/scheduler.rs:230-248 | two scheduled tasks come out in push order |
| Graphs.RankingNoCycle | crates/orchestrator/src/dag.rs:175 | a graph with a ranking along its edges has no cycle |
| Graphs.RankedAllReachable | crates/orchestrator/src/dag.rs:90-108 | in a ranked graph every vertex is reachable from a root |
| Graphs.KeptEdges | crates/orchestrator/src/dag.rs:46-50 | the kept edges are no more than the DAG's edges |
| Graphs.KeptEdgesMembership | crates/orchestrator/src/dag.rs:46-50 | an index edge is kept iff some DAG edge has both endpoints present and maps to it, with OnSuccess for a missing condition |
| Graphs.GraphOf | crates/orchestrator/src/dag.rs:35-53 | the graph has one vertex per node id and all its edges between existing vertices |
| Graphs.AddNodes | crates/orchestrator/src/dag.rs:39-43 | one vertex per key; the node map sends each key to its index |
| Graphs.AddEdges | crates/orchestrator/src/dag.rs:45-50 | the loop keeps exactly the edges whose two endpoints exist |
| Graphs.BuildGraph | crates/orchestrator/src/dag.rs:35-53 | the built graph is `GraphOf` and the node map holds exactly the DAG's node ids |
| Topo.FindReady | crates/orchestrator/src/dag.rs:189-206 | a vertex not yet emitted whose predecessors are all emitted, or None when no such vertex exists |
| Topo.TopoOrder | crates/orchestrator/src/dag.rs:189-206 | emits distinct vertices with every edge going forward; acyclic iff there is no cycle, and then every vertex is emitted |
| Topo.EmittedAll | crates/orchestrator/src/dag.rs:197-203 | an order holding all vertices with edges forward is a ranking |
| Topo.StuckHasCycle | crates/orchestrator/src/dag.rs:192-194 | when no remaining vertex is ready, the graph has a cycle |
| Reach.UnreachableUpTo | crates/orchestrator/src/dag.rs:110-114 | exactly the ids of the vertices below the bound that no root reaches, in vertex order |
| Reach.RankedNoneUnreachable | crates/orchestrator/src/dag.rs:90-115 | an acyclic (ranked) graph has no unreachable node |
| Reach.Roots | crates/orchestrator/src/dag.rs:95-99 | the initial stack holds exactly the vertices of in-degree zero |
| Reach.PushTargets | crates/orchestrator/src/dag.rs:104-106 | every target of the popped vertex is pushed; all stacked vertices stay reachable |
| Reach.DfsStep | crates/orchestrator/src/dag.rs:102-108 | one pop keeps the search invariant, and either grows the visited set or shrinks the stack |
| Reach.Visit | crates/orchestrator/src/dag.rs:91-108 | afterwards the visited set holds exactly the reachable vertices |
| Reach.FindUnreachable | crates/orchestrator/src/dag.rs:90-115 | answers exactly the ids of the unreachable vertices, in vertex order |
| Depth.LongestUnique | crates/orchestrator/src/dag.rs:56-87 | the longest root-path length is unique |
| Depth.Relax | crates/orchestrator/src/dag.rs:75-83 | the inner loop raises and queues each target whose recorded depth is below depth + 1, with the result of `RelaxFrom`, the relaxation written as one expression for any graph |
| Depth.BfsStep | crates/orchestrator/src/dag.rs:72-84 | one pop keeps the search invariant and decreases the termination measure |
| Depth.SettledCoversPaths | crates/orchestrator/src/dag.rs:72-86 | once the queue is empty, every root path ends at a recorded depth at least its length, below the maximum |
| Depth.QueueRoots | crates/orchestrator/src/dag.rs:60-70 | the roots start the queue at depth 0 |
| Depth.CalculateDepth | crates/orchestrator/src/dag.rs:56-87 | on an acyclic graph, the longest root-path length in edges (0 for an empty graph or isolated nodes) |
| Depth.DrainedIsLongest | crates/orchestrator/src/dag.rs:72-86 | once the queue is empty the maximum is the longest root-path length |
| DepthOnCycle.CycleGraphIsCyclic | crates/orchestrator/src/dag.rs:172-177 | the example graph 0 → 1, 1 → 2, 2 → 1 is well formed and has a cycle |
| DepthOnCycle.LapsNeverDrain | crates/orchestrator/src/dag.rs:72-84 | on the example, every two pops lift vertex 1 by two and queue it again |
| DepthOnCycle.CycleNeverDrains | crates/orchestrator/src/dag.rs:56-87 | on the example, started from its only root, the queue is not empty after any number of pops, and vertex 1 climbs without bound |
| Dag.NewExecutor | crates/orchestrator/src/dag.rs:26-28 | the default depth bound is 10 |
| Dag.WithMaxDepth | crates/orchestrator/src/dag.rs:30-32 | the given depth bound |
| Dag.ValidMeansWellFormed | crates/orchestrator/src/dag.rs:179 | on an acyclic graph, no unreachable node and a depth within the bound means well-formed |
| Dag.ValidateDag | crates/orchestrator/src/dag.rs:172-187 | `has_cycles` iff a cycle; exactly the unreachable ids; the longest root-path depth when acyclic; valid iff no cycle, no unreachable node and depth within the bound |
| Dag.IdsOfOrder | crates/orchestrator/src/dag.rs:199-203 | the ids of an order of all vertices are each node exactly once, at the same places |
| Dag.OrderedIds | crates/orchestrator/src/dag.rs:189-206 | the ids of a ranking order put every kept edge's source before its target |
| Dag.IdsOf | crates/orchestrator/src/dag.rs:199-203 | the weight of each emitted vertex, in order |
| Dag.TopologicalSort | crates/orchestrator/src/dag.rs:189-206 | Err(Validation("DAG contains cycles")) iff a cycle; otherwise every node once, each kept edge's source before its target |
| Dag.RunNodes | crates/orchestrator/src/dag.rs:139-162 | each node lands in exactly one of completed and skipped; completed iff all its dependencies name nodes whose input status is Completed |
| Dag.ExecuteDag | crates/orchestrator/src/dag.rs:121-170 | Err(Validation("Invalid DAG structure")) iff not well-formed; otherwise failed is empty, and every node is completed or skipped by its input dependency statuses, exactly once |
| Dag.RunNodesCorrected | crates/orchestrator/src/dag.rs:139-162 | with statuses recorded as nodes run, a topological order completes every node whose dependencies are edges |
| Dag.ExecuteDagCorrected | crates/orchestrator/src/dag.rs:121-170 | as ExecuteDag, but a well-formed DAG whose dependencies are edges completes every node |
| Dag.EarlierDepsDone | crates/orchestrator/src/dag.rs:139-146 | in a topological order, the dependencies of a node have all run before it |
| Dag.ChainDag | crates/orchestrator/src/dag.rs:215-247 | the two-node chain of the validation test |
| Dag.ChainFacts | crates/orchestrator/src/dag.rs:215-253 | the chain is enumerated by its two ids, is well-formed for bound 1, and its dependencies are edges |
| Dag.ChainAcyclic | crates/orchestrator/src/dag.rs:215-253 | the chain is well-formed for depth bound 1 |
| Dag.ChainDependencies | crates/orchestrator/src/dag.rs:226-247 | the chain's dependency lists agree with its edge |
| Dag.TwoNodeChainIsValid | crates/orchestrator/src/dag.rs:249-252 | the test's chain validates: valid, no cycle, nothing unreachable |
| Dag.ChainRunAsWritten | crates/orchestrator/src/dag.rs:142-146 | running the Pending chain completes the root and skips its dependent |
| Dag.ChainRunCorrected | crates/orchestrator/src/dag.rs:142-146 | the corrected run completes both nodes of the chain |
| Dispatcher.LowestLatencyUnique | crates/orchestrator/src/dispatcher.rs:113-128 | only one candidate answers LowestLatency |
| Dispatcher.LowestLatencyPick | crates/orchestrator/src/dispatcher.rs:113-128 | the first candidate with the strictly smallest reported latency, skipping failed health checks; the first candidate when none reports |
| Dispatcher.Pick | crates/orchestrator/src/dispatcher.rs:106-158 | an available worker: position counter mod the subset size for RoundRobin and CostOptimized, the BestMatch rule, the lowest latency, or any one for Random |
| Dispatcher.TaskDispatcher.constructor | crates/orchestrator/src/dispatcher.rs:34-41 | all permits free, nothing tracked, counter 0 |
| Dispatcher.TaskDispatcher.SelectAgent | crates/orchestrator/src/dispatcher.rs:88-159 | Agent("No available agents") iff no worker is available; otherwise a worker the strategy picks; the rotating strategies advance the counter by one modulo 2^64, the others leave it; tracking and permits unchanged |
| Dispatcher.TaskDispatcher.Dispatch | crates/orchestrator/src/dispatcher.rs:45-85 | a selection failure returns before tracking; otherwise the picked worker's answer is returned unchanged and the task id is no longer tracked; the permit is always given back |
| Dispatcher.TaskDispatcher.GetStats | crates/orchestrator/src/dispatcher.rs:162-172 | tracked count, free permits and capacity; free never exceeds capacity |
| Dispatcher.FreshDispatcherStats | crates/orchestrator/src/dispatcher.rs:263-270 | a new dispatcher of capacity 10 reports 0 active, 10 available, 10 total |
| Dispatcher.FirstMinIndex | crates/orchestrator/src/dispatcher.rs:205-210 | the first position of a minimal load |
| Dispatcher.LoadBalancer.constructor | crates/orchestrator/src/dispatcher.rs:191-196 | the given dispatchers, counter 0 |
| Dispatcher.LoadBalancer.NextDispatcher | crates/orchestrator/src/dispatcher.rs:199-202 | the dispatcher at counter mod n; the counter advances by one modulo 2^64 |
| Dispatcher.LoadBalancer.Loads | crates/orchestrator/src/dispatcher.rs:205-209 | each dispatcher's count of tracked requests |
| Dispatcher.LoadBalancer.LeastLoadedDispatcher | crates/orchestrator/src/dispatcher.rs:205-210 | the first dispatcher with the fewest tracked requests: no more than any dispatcher, and strictly fewer than every one before it |
| Dispatcher.NextDispatcherInTurn | crates/orchestrator/src/dispatcher.rs:199-202 | the j-th call hands out `dispatchers[j mod n]` |
| Orchestrator.DefaultResourceConstraints | crates/core/src/orchestrator.rs:147-154 | 100 tasks, 8192 MB, 80% CPU, one million tokens per minute |
| Orchestrator.DefaultOrchestratorConfig | crates/orchestrator/src/lib.rs:60-71 | 100 concurrent tasks, 60 s timeout, 3 attempts, 1 s delay, the Adaptive strategy, default constraints |
| Orchestrator.IdText | crates/orchestrator/src/lib.rs:232 | a UUID displays as 36 characters with hyphens at 8, 13, 18 and 23 |
| Orchestrator.HexInjective | crates/orchestrator/src/lib.rs:232 | `width` hex digits tell apart any two numbers below 16^width |
| Orchestrator.IdTextInjective | crates/orchestrator/src/lib.rs:232 | two task ids below 2^128 with the same display text are the same id |
| Orchestrator.BuildRequest | crates/orchestrator/src/lib.rs:268-276 | the request belongs to the task, asks for its provider or OpenAI, prompts with its description or "", carries the timeout in milliseconds truncated to 64 bits, and keeps its metadata |
| Orchestrator.TaskProviderHonoured | crates/orchestrator/src/lib.rs:268-281 | under BestMatch, an attempt for a task naming a provider goes to that provider whenever one is available |
| Orchestrator.DefaultSelectorAttempt | crates/orchestrator/src/lib.rs:279-297 | under the default selector an attempt finds no worker iff none is available, else it gets an available worker's answer |
| Orchestrator.ExecuteTaskWithRetry | crates/orchestrator/src/lib.rs:254-301 | at most `retry_attempts` attempts; Ok iff some attempt succeeds, and then the first success; otherwise the last attempt's error, or Internal("Max retry attempts reached") with no attempt; a delay only after a failed submit that is not the final attempt |
| Orchestrator.Attempt | crates/orchestrator/src/lib.rs:267-297 | one attempt's result, and whether it reached a worker's `submit` |
| Orchestrator.FirstObservedIsEarliest | crates/orchestrator/src/lib.rs:187-199 | the wait sees a final status iff some poll shows one, and then the earliest such poll's |
| Orchestrator.WaitFor | crates/orchestrator/src/lib.rs:184-201 | the first Completed, Failed or Cancelled status seen, else Timeout("Task <id> timed out") with no poll showing one |
| Orchestrator.Outcome | crates/orchestrator/src/lib.rs:141-144 | Completed iff the result is Ok, else Failed |
| Orchestrator.MetaOrchestrator.constructor | crates/orchestrator/src/lib.rs:75-93 | a priority scheduler of capacity 1000 and an empty active-task table |
| Orchestrator.MetaOrchestrator.Dequeue | crates/orchestrator/src/lib.rs:109-117 | an empty queue changes nothing; otherwise the scheduler's maximal task leaves the scheduler's queue and table and is inserted into the active table unchanged (not marked Running); statistics and clock unchanged |
| Orchestrator.MetaOrchestrator.FinishTask | crates/orchestrator/src/lib.rs:140-146 | the entry is removed, so afterwards the status lookup answers not found |
| Orchestrator.MetaOrchestrator.FinishTaskCorrected | crates/orchestrator/src/lib.rs:140-146 | a present entry records Completed or Failed and the time, visible to the status lookup; an absent id changes nothing |
| Orchestrator.MetaOrchestrator.ProcessNextAsWritten | crates/orchestrator/src/lib.rs:106-155 | one turn of the loop as written: the maximal task leaves the scheduler, is run with retries (Ok iff some attempt succeeds), and is then gone from the active table, so its status lookup answers not found |
| Orchestrator.MetaOrchestrator.ProcessNextCorrected | crates/orchestrator/src/lib.rs:106-155 | one turn of the loop with the corrected finish: the maximal task leaves the scheduler, is run with retries and recorded Completed iff some attempt succeeded |
| Orchestrator.MetaOrchestrator.ExecuteTask | crates/orchestrator/src/lib.rs:174-202 | a full queue is refused with QueueFull before any waiting and leaves the scheduler unchanged; otherwise the task is queued at the scheduler's clock and stored with attempt count 0, `total_scheduled` and the clock advance by one, and the answer is the wait's result, a final status or a timeout |
| Orchestrator.MetaOrchestrator.GetTaskStatus | crates/orchestrator/src/lib.rs:228-233 | the stored status iff present, else Internal("Task <id> not found") |
| Orchestrator.MetaOrchestrator.CancelTask | crates/orchestrator/src/lib.rs:235-243 | a present entry becomes Cancelled and nothing else changes; an absent id is refused with not found and nothing changes |
| Orchestrator.MetaOrchestrator.ListActiveTasks | crates/orchestrator/src/lib.rs:245-250 | every stored task exactly once |
| Orchestrator.SucceededTaskAsWritten | crates/orchestrator/src/lib.rs:140-146 | after a successful run the status lookup answers not found and the wait times out |
| Orchestrator.SucceededTaskCorrected | crates/orchestrator/src/lib.rs:140-146 | with the corrected finish, the status lookup and the wait both answer Completed |

## Left out

- The background loop, the per-task spawns, the semaphore waits, the locks and `join_all` polling are concurrency. Calls are modelled one at a time, and `ProcessNextAsWritten` and `ProcessNextCorrected` each run one turn of the loop to its end.
- Wall-clock time, sleeps, `total_duration_ms`, the `Instant` kept in a tracked request, and `ScheduledTask.scheduled_at` are left out. The deadline of `execute_task` is the end of the given sequence of polls.
- Scheduler.PriorityScheduler.NextTask: the source increments `attempt_count` on the copy it removes and then drops it; the model leaves this unobservable change out.
- The floating-point averages of `queue_stats`, the dispatcher's `utilization`, and `get_overall_stats` (sums of counts and a floating-point average over dispatchers) are left out.
- Dispatcher.LowestLatencyPick: latencies are reals. The source starts from `f64::MAX`, so a worker reporting exactly `f64::MAX`, infinity or NaN is never preferred; the model does not capture this.
- Dispatcher.Pick: the Random strategy's generator is modelled as an arbitrary index in range.
- Dispatcher.TaskDispatcher.Dispatch: a call made when no permit is free would wait for one; only calls with a free permit are modelled.
- Depth.CalculateDepth: it requires an acyclic graph (a ranking). On a cycle that a root reaches, the source's relaxation never ends; this is a finding below.
- Dag.ValidateDag: it reports `max_depth` 0 whenever it finds a cycle and does not run the depth search then. On a cycle that no root reaches the source does end: for r → a plus b ⇄ c it reports `max_depth` 1, where the model reports 0.
- Rag.EmbeddingCache.Insert: the model gives the intended eviction. In the source the victim key comes from a `DashMap` iterator that is still alive while `remove` takes the same shard's write lock, so an insert into a full, non-empty cache likely blocks forever; the map library's locking is not part of this model.
- Errors.DisplayInjective: the variants that wrap a library error (Network, Serialization, Io, Unknown) hold that error's display text as their message, so the lemma says nothing about telling the wrapped library errors apart.
- Topo.TopoOrder: Kahn's algorithm replaces petgraph's `is_cyclic_directed` and `Topo`. The model proves the order topological but not that it is the exact order petgraph's walk produces.
- The iteration order of the DAG's node map and of the embedding cache's map are not modelled. The first is a parameter; the eviction victim is any existing entry.
- UUID generation and the timestamps `chrono::Utc::now()` supplies are parameters. Request ids for the retry attempts are given.
- The request's `parameters` field (constant defaults) and the selector's and workers' internal behaviour inside the retry loop are abstract. The retry environment is a function of the attempt number and the request.
- Config loading from files and the environment is left out. Thresholds are reals, so NaN (which passes both range checks in the source) is not modelled.
- The ExecutionStrategy value `Priority` is named `PriorityOrder`, because `Priority` already names the task priority type.
- Metrics, tracing and logging have no state effect on the core and are left out.
- The `u64` statistics counters of the schedulers are unbounded. The dispatcher and load-balancer counters do wrap at 2^64.

## Findings

| source | as written | input that shows it | evidently intended | confidence | as-written member | corrected member |
|---|---|---|---|---|---|---|
| crates/orchestrator/src/dag.rs:142-146 | dependency satisfaction is judged on the DAG's input statuses, which `execute_dag` never updates | a valid chain 1 → 2 with both nodes Pending: node 1 is completed and node 2 is skipped | a node whose dependencies ran earlier in the order counts them as completed, so the whole chain completes | not executed | Dag.ChainRunAsWritten | Dag.ChainRunCorrected |
| crates/orchestrator/src/lib.rs:140-146 | the finishing step removes the task's entry and writes the new status only to the removed copy | a Pending task scheduled, dequeued and run successfully: `get_task_status` answers not found and `execute_task` times out | the entry records Completed or Failed, so `execute_task` and `get_task_status` see the outcome | not executed | Orchestrator.SucceededTaskAsWritten, Orchestrator.MetaOrchestrator.ProcessNextAsWritten | Orchestrator.SucceededTaskCorrected, Orchestrator.MetaOrchestrator.ProcessNextCorrected |
| crates/orchestrator/src/dag.rs:72-84 | the relaxation queues a target again whenever its depth rises and keeps no visited set; `validate_dag` runs it whatever the cycle check answered | the graph 0 → 1, 1 → 2, 2 → 1: from the root, every two pops lift vertex 1 by two and queue it again, so the loop never ends and validation never answers | validation reports the cycle, with depth 0, without running the depth search | not executed | DepthOnCycle.CycleNeverDrains | Dag.ValidateDag |
