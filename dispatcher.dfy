/**
 * `TaskDispatcher` and `LoadBalancer`: a dispatcher holds a permit counter
 * bounded by its capacity, a tracking map of the requests in flight keyed by
 * task id, and a shared round-robin counter; a load balancer hands out one of
 * several dispatchers in turn or the least loaded one. Calls are modelled one
 * at a time.
 */
module Dispatcher {
  import opened Wrappers
  import opened Types
  import opened Agent
  import opened Selector
  import opened Collections
  import E = Errors

  /** `AtomicU64` counters wrap around at 2^64. */
  const U64: nat := 0x1_0000_0000_0000_0000

  /** What is tracked for a request in flight; the start instant is not modelled. */
  datatype DispatchedRequest = DispatchedRequest(agentProvider: LlmProvider, attempt: nat)

  /** `DispatchStats` without the floating-point utilisation. */
  datatype DispatchStats = DispatchStats(activeRequests: nat, availableCapacity: nat, totalCapacity: nat)

  /**
   * The `LowestLatency` answer, as a position `k` in `avail`: when some
   * candidate reported a latency, `k` reported the smallest one and every
   * earlier candidate that reported one reported a strictly larger one;
   * when none did, the first candidate.
   */
  ghost predicate IsLowestLatency(agents: seq<AgentView>, avail: seq<nat>, k: nat)
    requires IndicesIn(agents, avail)
  {
    k < |avail| &&
    if exists j :: 0 <= j < |avail| && agents[avail[j]].latency.Some? then
      agents[avail[k]].latency.Some? &&
      (forall j :: 0 <= j < |avail| && agents[avail[j]].latency.Some? ==>
        agents[avail[k]].latency.value <= agents[avail[j]].latency.value) &&
      (forall j :: 0 <= j < k && agents[avail[j]].latency.Some? ==>
        agents[avail[k]].latency.value < agents[avail[j]].latency.value)
    else k == 0
  }

  /** Only one candidate position answers `LowestLatency`. */
  lemma LowestLatencyUnique(agents: seq<AgentView>, avail: seq<nat>, k1: nat, k2: nat)
    requires IndicesIn(agents, avail)
    requires IsLowestLatency(agents, avail, k1) && IsLowestLatency(agents, avail, k2)
    ensures k1 == k2
  {
  }

  /**
   * The `LowestLatency` loop: starting from the first candidate and an
   * unbeatable latency, take each candidate whose health check answered a
   * strictly smaller latency.
   */
  method LowestLatencyPick(agents: seq<AgentView>, avail: seq<nat>) returns (k: nat)
    requires IndicesIn(agents, avail) && avail != []
    ensures IsLowestLatency(agents, avail, k)
  {
    k := 0;
    var best: Option<real> := None;
    for j := 0 to |avail|
      invariant k < |avail|
      invariant best.None? ==> k == 0 && forall i :: 0 <= i < j ==> agents[avail[i]].latency.None?
      invariant best.Some? ==> k < j && agents[avail[k]].latency == best
      invariant best.Some? ==> forall i :: 0 <= i < j && agents[avail[i]].latency.Some? ==>
        best.value <= agents[avail[i]].latency.value
      invariant best.Some? ==> forall i :: 0 <= i < k && agents[avail[i]].latency.Some? ==>
        best.value < agents[avail[i]].latency.value
    {
      match agents[avail[j]].latency
      case Some(l) =>
        if best.None? || l < best.value {
          best, k := Some(l), j;
        }
      case None =>
    }
  }

  /**
   * What `select_agent` may answer for `strategy`, given the counter value it
   * read: an available worker, chosen by the rotating counter, the
   * `BestMatch` rule, the lowest reported latency, or any (random).
   */
  ghost predicate Picked(strategy: SelectionStrategy, counter: nat, request: LlmRequest, agents: seq<AgentView>, i: nat) {
    var avail := AvailableIndices(agents);
    avail != [] && i in avail &&
    match strategy
    case RoundRobin => i == avail[counter % |avail|]
    case CostOptimized => i == avail[counter % |avail|]
    case BestMatch => i == BestMatchPick(agents, avail, request.provider)
    case LowestLatency => exists k: nat :: IsLowestLatency(agents, avail, k) && i == avail[k]
    case Random => true
  }

  /** The strategies that advance the shared counter. */
  predicate Rotates(strategy: SelectionStrategy) {
    strategy == RoundRobin || strategy == CostOptimized
  }

  /**
   * The strategy arms of `select_agent` once some worker is available, given
   * the counter value the rotating strategies read.
   */
  method Pick(strategy: SelectionStrategy, count: nat, request: LlmRequest, agents: seq<AgentView>) returns (i: nat)
    requires AvailableIndices(agents) != []
    ensures Picked(strategy, count, request, agents, i)
  {
    var avail := AvailableIndices(agents);
    match strategy
    case RoundRobin =>
      i := avail[count % |avail|];
    case LowestLatency =>
      var k := LowestLatencyPick(agents, avail);
      i := avail[k];
    case BestMatch =>
      i := BestMatchPick(agents, avail, request.provider);
    case CostOptimized =>
      i := avail[count % |avail|];
    case Random =>
      var k :| 0 <= k < |avail|;
      i := avail[k];
  }

  class TaskDispatcher {
    var activeRequests: map<TaskId, DispatchedRequest>
    var requestCounter: nat
    const maxConcurrent: nat
    var availablePermits: nat

    /** The permits left never exceed the capacity, and the counter is a `u64`. */
    ghost predicate Valid()
      reads this
    {
      availablePermits <= maxConcurrent && requestCounter < U64
    }

    /** `TaskDispatcher::new`: nothing tracked, counter 0, every permit free. */
    constructor(maxConcurrent: nat)
      ensures Valid()
      ensures this.maxConcurrent == maxConcurrent && availablePermits == maxConcurrent
      ensures activeRequests == map[] && requestCounter == 0
    {
      this.maxConcurrent := maxConcurrent;
      availablePermits := maxConcurrent;
      activeRequests := map[];
      requestCounter := 0;
    }

    /**
     * `select_agent`: `Agent("No available agents")` when no worker is
     * available, before the counter is touched; otherwise a worker `Picked`
     * by the strategy. The rotating strategies advance the counter by one
     * (wrapping at 2^64); the others leave it.
     */
    method SelectAgent(request: LlmRequest, agents: seq<AgentView>, strategy: SelectionStrategy)
      returns (r: Result<nat, E.Error>)
      requires Valid()
      modifies this
      ensures Valid()
      ensures r.Err? <==> AvailableIndices(agents) == []
      ensures r.Err? ==> r.error == NoAvailableAgents()
      ensures r.Ok? ==> Picked(strategy, old(requestCounter), request, agents, r.value)
      ensures requestCounter == if r.Ok? && Rotates(strategy) then (old(requestCounter) + 1) % U64 else old(requestCounter)
      ensures activeRequests == old(activeRequests) && availablePermits == old(availablePermits)
    {
      var avail := AvailableIndices(agents);
      if avail == [] {
        return Err(NoAvailableAgents());
      }
      var count := requestCounter;
      if Rotates(strategy) {
        requestCounter := (requestCounter + 1) % U64;
      }
      var i := Pick(strategy, count, request, agents);
      r := Ok(i);
    }

    /**
     * `dispatch`: takes a permit, selects a worker, tracks the task while the
     * worker's `submit` runs, then untracks it and gives the permit back. A
     * selection failure returns before anything is tracked. The worker's
     * answer is returned unchanged. A call is only modelled when a permit is
     * free: otherwise it would wait for one.
     */
    method Dispatch(request: LlmRequest, agents: seq<AgentView>, strategy: SelectionStrategy)
      returns (r: Result<LlmResponse, E.Error>, ghost pick: nat)
      requires Valid() && availablePermits > 0
      modifies this
      ensures Valid() && availablePermits == old(availablePermits)
      ensures AvailableIndices(agents) == [] ==> r == Err(NoAvailableAgents()) && activeRequests == old(activeRequests)
      ensures AvailableIndices(agents) != [] ==>
        Picked(strategy, old(requestCounter), request, agents, pick) && r == agents[pick].response &&
        activeRequests == old(activeRequests) - {request.taskId}
      ensures requestCounter == if AvailableIndices(agents) != [] && Rotates(strategy)
        then (old(requestCounter) + 1) % U64 else old(requestCounter)
    {
      availablePermits := availablePermits - 1;
      var selected := SelectAgent(request, agents, strategy);
      if selected.Err? {
        r, pick := Err(selected.error), 0;
      } else {
        var i := selected.value;
        pick := i;
        var tracked := activeRequests[request.taskId := DispatchedRequest(agents[i].provider, 1)];
        activeRequests := tracked;
        r := agents[i].response;
        MapPutRemove(old(activeRequests), request.taskId, tracked[request.taskId]);
        activeRequests := tracked - {request.taskId};
      }
      availablePermits := availablePermits + 1;
    }

    /** `get_stats`: tracked requests, free permits and capacity; never more free than total. */
    function GetStats(): (s: DispatchStats)
      reads this
      requires Valid()
      ensures s.availableCapacity <= s.totalCapacity
      ensures s.activeRequests == |activeRequests| && s.totalCapacity == maxConcurrent
      ensures s.totalCapacity - s.availableCapacity == maxConcurrent - availablePermits
    {
      DispatchStats(|activeRequests|, availablePermits, maxConcurrent)
    }
  }

  /** The test `test_dispatcher_creation`: a fresh dispatcher of capacity 10 reports 0 active, 10 of 10 free. */
  method FreshDispatcherStats() returns (s: DispatchStats)
    ensures s == DispatchStats(0, 10, 10)
  {
    var d := new TaskDispatcher(10);
    s := d.GetStats();
  }

  // ---------------------------------------------------------------- LoadBalancer

  /** The position of the first smallest load: `min_by_key` keeps the first minimum. */
  function FirstMinIndex(loads: seq<nat>): (i: nat)
    requires loads != []
    ensures i < |loads|
    ensures forall j :: 0 <= j < |loads| ==> loads[i] <= loads[j]
    ensures forall j :: 0 <= j < i ==> loads[i] < loads[j]
    decreases |loads|
  {
    if |loads| == 1 then 0
    else
      var k := FirstMinIndex(loads[..|loads| - 1]);
      assert forall j :: 0 <= j < |loads| - 1 ==> loads[..|loads| - 1][j] == loads[j];
      if loads[|loads| - 1] < loads[k] then |loads| - 1 else k
  }

  class LoadBalancer {
    const dispatchers: seq<TaskDispatcher>
    var currentIndex: nat

    ghost predicate Valid()
      reads this
    {
      currentIndex < U64
    }

    /** `LoadBalancer::new`: the given dispatchers, index 0. */
    constructor(dispatchers: seq<TaskDispatcher>)
      ensures Valid() && this.dispatchers == dispatchers && currentIndex == 0
    {
      this.dispatchers := dispatchers;
      currentIndex := 0;
    }

    /**
     * `next_dispatcher`: the dispatcher at the current index modulo their
     * number; the index advances by one, wrapping at 2^64. The source divides
     * by the number of dispatchers, so there must be one.
     */
    method NextDispatcher() returns (d: TaskDispatcher)
      requires Valid() && dispatchers != []
      modifies this
      ensures Valid()
      ensures d == dispatchers[old(currentIndex) % |dispatchers|]
      ensures currentIndex == (old(currentIndex) + 1) % U64
    {
      var index := currentIndex;
      currentIndex := (currentIndex + 1) % U64;
      d := dispatchers[index % |dispatchers|];
    }

    /** The tracked-request counts of the dispatchers, in order. */
    function Loads(): (loads: seq<nat>)
      reads this, set i | 0 <= i < |dispatchers| :: dispatchers[i]
      ensures |loads| == |dispatchers|
      ensures forall i :: 0 <= i < |dispatchers| ==> loads[i] == |dispatchers[i].activeRequests|
    {
      seq(|dispatchers|, i reads this, dispatchers requires 0 <= i < |dispatchers| => |dispatchers[i].activeRequests|)
    }

    /**
     * `least_loaded_dispatcher`: the first dispatcher tracking the fewest
     * requests. With no dispatcher the fallback `dispatchers[0]` would panic,
     * so there must be one.
     */
    function LeastLoadedDispatcher(): (d: TaskDispatcher)
      reads this, set i | 0 <= i < |dispatchers| :: dispatchers[i]
      requires dispatchers != []
      ensures d in dispatchers
      ensures forall i :: 0 <= i < |dispatchers| ==> |d.activeRequests| <= |dispatchers[i].activeRequests|
      ensures exists i :: 0 <= i < |dispatchers| && d == dispatchers[i] &&
                          (forall j :: 0 <= j < i ==> |dispatchers[j].activeRequests| > |d.activeRequests|)
    {
      var i := FirstMinIndex(Loads());
      dispatchers[i]
    }
  }

  /**
   * On a fresh load balancer the `j`-th of `k` calls to `next_dispatcher`
   * answers dispatcher `j mod n`.
   */
  method NextDispatcherInTurn(lb: LoadBalancer, k: nat) returns (picked: seq<TaskDispatcher>)
    requires lb.Valid() && lb.currentIndex == 0 && lb.dispatchers != [] && k < U64
    modifies lb
    ensures |picked| == k
    ensures forall j :: 0 <= j < k ==> picked[j] == lb.dispatchers[j % |lb.dispatchers|]
  {
    picked := [];
    for j := 0 to k
      invariant lb.Valid() && lb.currentIndex == j
      invariant |picked| == j
      invariant forall i :: 0 <= i < j ==> picked[i] == lb.dispatchers[i % |lb.dispatchers|]
    {
      var d := lb.NextDispatcher();
      picked := picked + [d];
    }
  }
}
