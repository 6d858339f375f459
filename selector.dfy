/**
 * The default agent selector: filter the workers that report available, then
 * pick one according to the configured strategy. It keeps no state; its
 * "round robin" always answers the first available worker.
 */
module Selector {
  import opened Wrappers
  import opened Types
  import opened Agent
  import E = Errors

  /** The error returned when no worker reports available. */
  function NoAvailableAgents(): E.Error {
    E.Agent("No available agents")
  }

  predicate IndicesIn(agents: seq<AgentView>, idx: seq<nat>) {
    forall k :: 0 <= k < |idx| ==> idx[k] < |agents|
  }

  /**
   * Scans `idx` in order and answers the position of the first worker serving
   * `p`, or `None` if no worker in `idx` serves it.
   */
  function FirstWithProvider(agents: seq<AgentView>, idx: seq<nat>, p: LlmProvider): (r: Option<nat>)
    requires IndicesIn(agents, idx)
    ensures r.Some? ==> r.value < |idx| && agents[idx[r.value]].provider == p
    ensures r.Some? ==> forall j :: 0 <= j < r.value ==> agents[idx[j]].provider != p
    ensures r.None? ==> forall j :: 0 <= j < |idx| ==> agents[idx[j]].provider != p
    decreases |idx|
  {
    if idx == [] then None
    else if agents[idx[0]].provider == p then Some(0)
    else
      match FirstWithProvider(agents, idx[1..], p)
      case None => None
      case Some(k) => Some(k + 1)
  }

  /**
   * The `BestMatch` rule shared by the selector and the dispatcher: the first
   * candidate whose provider is the requested one, else the first candidate.
   */
  function BestMatchPick(agents: seq<AgentView>, idx: seq<nat>, p: LlmProvider): (i: nat)
    requires IndicesIn(agents, idx) && idx != []
    ensures i in idx
    ensures (exists k :: 0 <= k < |idx| && agents[idx[k]].provider == p) ==> agents[i].provider == p
    ensures (forall k :: 0 <= k < |idx| ==> agents[idx[k]].provider != p) ==> i == idx[0]
  {
    match FirstWithProvider(agents, idx, p)
    case Some(k) => idx[k]
    case None => idx[0]
  }

  /** `DefaultAgentSelector`: a selector configured once with a strategy. */
  datatype DefaultAgentSelector = DefaultAgentSelector(strategy: SelectionStrategy)

  /** `DefaultAgentSelector::new` followed by `strategy()` gives back the strategy. */
  lemma StrategyIsConfigured(s: SelectionStrategy)
    ensures DefaultAgentSelector(s).strategy == s
  {
  }

  /**
   * `select_agent`: fails with `Agent("No available agents")` exactly when no
   * worker is available; otherwise answers (the position of) an available
   * worker. `BestMatch` answers the first available worker serving the
   * requested provider, falling back to the first available worker; every
   * other strategy answers the first available worker.
   */
  function SelectAgent(sel: DefaultAgentSelector, request: LlmRequest, agents: seq<AgentView>): (r: Result<nat, E.Error>)
    ensures r.Err? <==> forall i :: 0 <= i < |agents| ==> !agents[i].available
    ensures r.Err? ==> r.error == NoAvailableAgents()
    ensures r.Ok? ==> r.value < |agents| && agents[r.value].available
    ensures r.Ok? && sel.strategy == BestMatch ==>
      (forall i :: 0 <= i < r.value && agents[i].available ==> agents[i].provider != request.provider) &&
      (agents[r.value].provider == request.provider ||
       forall i :: 0 <= i < |agents| && agents[i].available ==> agents[i].provider != request.provider)
    ensures r.Ok? && (sel.strategy != BestMatch || agents[r.value].provider != request.provider) ==>
      forall i :: 0 <= i < r.value ==> !agents[i].available
  {
    var avail := AvailableIndices(agents);
    if avail == [] then
      AvailableEmptyIff(agents);
      Err(NoAvailableAgents())
    else
      var i := match sel.strategy
        case BestMatch => BestMatchPick(agents, avail, request.provider)
        case _ => avail[0];
      FirstAvailableIsLeast(agents, avail);
      BestMatchIsFirst(agents, avail, request.provider);
      Ok(i)
  }

  /** In a strictly increasing sequence, a smaller element sits at a smaller position. */
  lemma SortedPositions(s: seq<nat>)
    requires forall k, l :: 0 <= k < l < |s| ==> s[k] < s[l]
    ensures forall a, b :: 0 <= a < |s| && 0 <= b < |s| ==> (s[a] < s[b] <==> a < b)
  {
  }

  /** Every available worker sits at or after the first available one. */
  lemma FirstAvailableIsLeast(agents: seq<AgentView>, avail: seq<nat>)
    requires avail == AvailableIndices(agents) && avail != []
    ensures forall j :: 0 <= j < |agents| && agents[j].available ==> avail[0] <= j
  {
    forall j | 0 <= j < |agents| && agents[j].available
      ensures avail[0] <= j
    {
      var kj :| 0 <= kj < |avail| && avail[kj] == j;
      SortedPositions(avail);
    }
  }

  /** Every available worker before the `BestMatch` answer serves another provider. */
  lemma BestMatchIsFirst(agents: seq<AgentView>, avail: seq<nat>, p: LlmProvider)
    requires avail == AvailableIndices(agents) && avail != []
    ensures var i := BestMatchPick(agents, avail, p);
      forall j :: 0 <= j < i && agents[j].available ==> agents[j].provider != p
    ensures var i := BestMatchPick(agents, avail, p);
      agents[i].provider == p || forall j :: 0 <= j < |agents| && agents[j].available ==> agents[j].provider != p
  {
    var i := BestMatchPick(agents, avail, p);
    forall j | 0 <= j < i && agents[j].available
      ensures agents[j].provider != p
    {
      var kj :| 0 <= kj < |avail| && avail[kj] == j;
      match FirstWithProvider(agents, avail, p)
      case Some(k) =>
        SortedPositions(avail);
        assert kj < k;
      case None =>
    }
    forall j | 0 <= j < |agents| && agents[j].available && agents[i].provider != p
      ensures agents[j].provider != p
    {
      assert j in avail;
    }
  }
}
