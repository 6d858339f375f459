/**
 * Configuration records, their defaults, and `Config::validate`, which
 * collects one message per violated rule, in a fixed order.
 */
module Config {
  import opened Wrappers
  import opened Types

  /** A TCP port, Rust's `u16`. */
  newtype Port = x: int | 0 <= x < 0x1_0000

  datatype ServerConfig = ServerConfig(
    host: string,
    port: Port,
    workers: Option<nat>,
    maxConnections: nat,
    requestTimeoutMs: nat)

  datatype OrchestratorSettings = OrchestratorSettings(
    maxConcurrentTasks: nat,
    taskQueueSize: nat,
    defaultTimeoutMs: nat,
    retryAttempts: nat,
    retryDelayMs: nat,
    dagMaxDepth: nat)

  /** The API key is a secret text; the model never looks at it. */
  datatype AgentConfig = AgentConfig(
    apiKey: string,
    baseUrl: string,
    model: string,
    maxRetries: nat,
    timeoutMs: nat,
    rateLimitRpm: Option<nat>,
    enabled: bool)

  datatype RagConfig = RagConfig(
    qdrantUrl: string,
    collectionName: string,
    embeddingModel: string,
    embeddingDimension: nat,
    chunkSize: nat,
    chunkOverlap: nat,
    topK: nat)

  /** Thresholds are `f64` in the source; here they are exact reals (no NaN). */
  datatype EvaluationConfig = EvaluationConfig(
    accuracyThreshold: real,
    bugRateThreshold: real,
    selfCheckIntervalMs: nat,
    fuzzingEnabled: bool,
    fuzzingIterations: nat)

  datatype LogFormat = Json | Pretty | Compact

  datatype ObservabilityConfig = ObservabilityConfig(
    metricsEnabled: bool,
    metricsPort: Port,
    tracingEnabled: bool,
    otlpEndpoint: Option<string>,
    logLevel: string,
    logFormat: LogFormat)

  datatype SecurityConfig = SecurityConfig(
    authEnabled: bool,
    apiKeyHeader: string,
    rateLimitEnabled: bool,
    rateLimitRequestsPerMinute: nat,
    requestSignatureValidation: bool,
    sandboxEnabled: bool)

  datatype Config = Config(
    server: ServerConfig,
    orchestrator: OrchestratorSettings,
    agents: map<LlmProvider, AgentConfig>,
    rag: RagConfig,
    evaluation: EvaluationConfig,
    observability: ObservabilityConfig,
    security: SecurityConfig)

  /** `Config::default`: every section filled in, and no agent configured. */
  function DefaultConfig(): (c: Config)
    ensures c.agents == map[] && c.server.port == 8080
    ensures c.evaluation.accuracyThreshold == 0.9999 && c.evaluation.bugRateThreshold == 0.0005
  {
    Config(
      ServerConfig("0.0.0.0", 8080, None, 1000, 30000),
      OrchestratorSettings(100, 1000, 60000, 3, 1000, 10),
      map[],
      RagConfig("http://localhost:6333", "meta_ai_docs", "BAAI/bge-base-en-v1.5", 768, 512, 128, 5),
      EvaluationConfig(0.9999, 0.0005, 60000, true, 100),
      ObservabilityConfig(true, 9090, true, None, "info", Json),
      SecurityConfig(true, "X-API-Key", true, 60, true, true))
  }

  // ---------------------------------------------------------------- validation

  const AccuracyMsg: string := "Accuracy threshold must be between 0.0 and 1.0"
  const BugRateMsg: string := "Bug rate threshold must be between 0.0 and 1.0"
  const AgentsMsg: string := "At least one agent must be enabled"
  const PortMsg: string := "Server port must be greater than 0"

  /** The four messages in the order `validate` checks their rules. */
  function AllMessages(): seq<string> {
    [AccuracyMsg, BugRateMsg, AgentsMsg, PortMsg]
  }

  predicate OutOfUnitRange(x: real) {
    x < 0.0 || x > 1.0
  }

  /** The providers whose agent configuration is enabled. */
  function EnabledProviders(agents: map<LlmProvider, AgentConfig>): set<LlmProvider> {
    set p | p in agents && agents[p].enabled
  }

  /** The messages `validate` collects, as one expression. */
  function ValidationErrors(c: Config): seq<string> {
    (if OutOfUnitRange(c.evaluation.accuracyThreshold) then [AccuracyMsg] else []) +
    (if OutOfUnitRange(c.evaluation.bugRateThreshold) then [BugRateMsg] else []) +
    (if |EnabledProviders(c.agents)| == 0 then [AgentsMsg] else []) +
    (if c.server.port == 0 then [PortMsg] else [])
  }

  /** No provider is enabled exactly when the enabled set is empty. */
  lemma NoneEnabled(agents: map<LlmProvider, AgentConfig>)
    ensures |EnabledProviders(agents)| == 0 <==> forall p :: p in agents ==> !agents[p].enabled
  {
    if forall p :: p in agents ==> !agents[p].enabled {
      assert EnabledProviders(agents) == {};
    } else {
      var p :| p in agents && agents[p].enabled;
      assert p in EnabledProviders(agents);
    }
  }

  /** Each rule contributes its message exactly when it is violated. */
  lemma ValidationErrorsMeaning(c: Config)
    ensures var errs := ValidationErrors(c);
      (AccuracyMsg in errs <==> OutOfUnitRange(c.evaluation.accuracyThreshold)) &&
      (BugRateMsg in errs <==> OutOfUnitRange(c.evaluation.bugRateThreshold)) &&
      (AgentsMsg in errs <==> forall p :: p in c.agents ==> !c.agents[p].enabled) &&
      (PortMsg in errs <==> c.server.port == 0)
  {
    NoneEnabled(c.agents);
  }

  /**
   * Every message is one of the four and they follow the fixed order
   * without repetition, so there are at most four.
   */
  lemma ValidationErrorsOrdered(c: Config)
    ensures var errs := ValidationErrors(c);
      |errs| <= 4 && forall i :: 0 <= i < |errs| ==> errs[i] in AllMessages()
    ensures var errs := ValidationErrors(c);
      forall i, j :: 0 <= i < j < |errs| ==> MessageRank(errs[i]) < MessageRank(errs[j])
  {
  }

  /** Position of a message among the four (4 for any other text). */
  function MessageRank(m: string): nat {
    if m == AccuracyMsg then 0
    else if m == BugRateMsg then 1
    else if m == AgentsMsg then 2
    else if m == PortMsg then 3
    else 4
  }

  /** `Config::default` fails validation with the agents message alone. */
  lemma DefaultConfigFailsOnAgentsOnly()
    ensures ValidationErrors(DefaultConfig()) == [AgentsMsg]
  {
    assert EnabledProviders(DefaultConfig().agents) == {};
  }

  /** A configuration with one enabled agent and otherwise default values passes. */
  lemma OneEnabledAgentSuffices(p: LlmProvider, a: AgentConfig)
    requires a.enabled
    ensures ValidationErrors(DefaultConfig().(agents := map[p := a])) == []
  {
    assert p in EnabledProviders(map[p := a]);
  }

  /**
   * Counts the enabled agents by visiting the map's entries in an arbitrary
   * order, the `filter(..).count()` over `agents.values()`.
   */
  method CountEnabled(agents: map<LlmProvider, AgentConfig>) returns (n: nat)
    ensures n == |EnabledProviders(agents)|
  {
    n := 0;
    var remaining := agents.Keys;
    ghost var counted: set<LlmProvider> := {};
    while remaining != {}
      invariant remaining <= agents.Keys
      invariant counted == set p | p in agents && p !in remaining && agents[p].enabled
      invariant n == |counted|
      decreases remaining
    {
      var p :| p in remaining;
      if agents[p].enabled {
        assert p !in counted;
        counted := counted + {p};
        n := n + 1;
      }
      remaining := remaining - {p};
    }
    assert counted == EnabledProviders(agents);
  }

  /**
   * `validate`: pushes one message per violated rule, then answers `Ok`
   * exactly when none was pushed, otherwise `Err` with the messages.
   */
  method Validate(c: Config) returns (r: Result<(), seq<string>>)
    ensures r.Ok? <==> ValidationErrors(c) == []
    ensures r.Err? ==> r.error == ValidationErrors(c) && 1 <= |r.error| <= 4
  {
    var errors: seq<string> := [];
    if c.evaluation.accuracyThreshold < 0.0 || c.evaluation.accuracyThreshold > 1.0 {
      errors := errors + [AccuracyMsg];
    }
    if c.evaluation.bugRateThreshold < 0.0 || c.evaluation.bugRateThreshold > 1.0 {
      errors := errors + [BugRateMsg];
    }
    var enabledAgents := CountEnabled(c.agents);
    if enabledAgents == 0 {
      errors := errors + [AgentsMsg];
    }
    if c.server.port == 0 {
      errors := errors + [PortMsg];
    }
    if errors == [] {
      r := Ok(());
    } else {
      r := Err(errors);
    }
  }
}
