/**
 * The worker ("agent") boundary: task types and their preferred providers,
 * default capabilities, selection strategies, and the view of a worker
 * that the selector and dispatcher work with.
 */
module Agent {
  import opened Wrappers
  import opened Types
  import E = Errors

  datatype TaskType =
    Reasoning | CodeGeneration | Documentation | Analysis | Creative | Translation | Summarization | QA

  predicate NoDuplicates<T(==)>(s: seq<T>) {
    forall i, j :: 0 <= i < j < |s| ==> s[i] != s[j]
  }

  /**
   * `preferred_providers`: every list is non-empty and duplicate-free, never
   * names `Local` or `CodeWhisperer`; code generation alone gets three
   * providers, translation alone puts OpenAI ahead of Claude among the others.
   */
  function PreferredProviders(t: TaskType): (ps: seq<LlmProvider>)
    ensures 2 <= |ps| <= 3 && NoDuplicates(ps)
    ensures Local !in ps && CodeWhisperer !in ps
    ensures |ps| == 3 <==> t == CodeGeneration
    ensures t == CodeGeneration ==> ps == [OpenAI, Cursor, Copilot]
    ensures t != CodeGeneration ==> ps[1] in {OpenAI, Claude} && ps[0] in {OpenAI, Claude}
    ensures t != CodeGeneration ==> (ps[0] == OpenAI <==> t == Translation)
  {
    match t
    case Reasoning => [Claude, OpenAI]
    case CodeGeneration => [OpenAI, Cursor, Copilot]
    case Documentation => [Claude, OpenAI]
    case Analysis => [Claude, OpenAI]
    case Creative => [Claude, OpenAI]
    case Translation => [OpenAI, Claude]
    case Summarization => [Claude, OpenAI]
    case QA => [Claude, OpenAI]
  }

  datatype AgentCapabilities = AgentCapabilities(
    maxTokens: nat,
    supportsStreaming: bool,
    supportsFunctionCalling: bool,
    supportsVision: bool,
    supportsCodeExecution: bool,
    supportsWebSearch: bool,
    contextWindow: nat,
    languages: seq<string>,
    specializations: seq<string>)

  /** `AgentCapabilities::default`: a streaming-only, English, general-purpose worker. */
  function DefaultCapabilities(): (c: AgentCapabilities)
    ensures c.maxTokens == 4096 && c.contextWindow == 128000 && c.maxTokens < c.contextWindow
    ensures c.supportsStreaming
    ensures !c.supportsFunctionCalling && !c.supportsVision
    ensures !c.supportsCodeExecution && !c.supportsWebSearch
    ensures c.languages == ["en"] && c.specializations == ["general"]
  {
    AgentCapabilities(4096, true, false, false, false, false, 128000, ["en"], ["general"])
  }

  datatype SelectionStrategy = RoundRobin | LowestLatency | BestMatch | CostOptimized | Random

  /**
   * What the core observes of one worker: its provider, what `is_available`
   * answers, the average latency its health check reports (`None` when the
   * health check fails; latencies are an abstract ordered value), and what
   * `submit` returns for the request at hand.
   */
  datatype AgentView = AgentView(
    provider: LlmProvider,
    available: bool,
    latency: Option<real>,
    response: Result<LlmResponse, E.Error>)

  /**
   * Positions of the workers that report available, in their original order:
   * the `filter_map` over the `is_available` answers.
   */
  function AvailableIndices(agents: seq<AgentView>): (idx: seq<nat>)
    ensures forall k :: 0 <= k < |idx| ==> idx[k] < |agents| && agents[idx[k]].available
    ensures forall i :: 0 <= i < |agents| && agents[i].available ==> i in idx
    ensures forall k, l :: 0 <= k < l < |idx| ==> idx[k] < idx[l]
    decreases |agents|
  {
    if agents == [] then []
    else
      var rest := AvailableIndices(agents[..|agents| - 1]);
      if agents[|agents| - 1].available then rest + [|agents| - 1] else rest
  }

  /** The available subset is empty exactly when no worker reports available. */
  lemma {:induction false} AvailableEmptyIff(agents: seq<AgentView>)
    ensures AvailableIndices(agents) == [] <==> forall i :: 0 <= i < |agents| ==> !agents[i].available
  {
    if AvailableIndices(agents) != [] {
      var i := AvailableIndices(agents)[0];
      assert agents[i].available;
    }
  }
}
