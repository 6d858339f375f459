/**
 * Shared value types of the orchestrator: ids, providers, statuses,
 * priorities, tasks, requests and responses.
 */
module Types {
  import opened Wrappers

  /** A UUID. The model only ever compares ids for equality. */
  datatype TaskId = TaskId(uuid: nat)

  /** The UUID of one request. */
  datatype RequestId = RequestId(uuid: nat)

  /** Result of a three-way comparison (Rust's `std::cmp::Ordering`). */
  datatype Ordering = Less | Equal | Greater {
    function Reverse(): Ordering {
      match this
      case Less => Greater
      case Equal => Equal
      case Greater => Less
    }
  }

  /** Three-way comparison of two naturals. */
  function CompareNat(a: nat, b: nat): (o: Ordering)
    ensures o == Equal <==> a == b
    ensures o == Less <==> a < b
  {
    if a < b then Less else if a == b then Equal else Greater
  }

  // ---------------------------------------------------------------- providers

  datatype LlmProvider = OpenAI | Claude | Copilot | Cursor | CodeWhisperer | Local

  /** A non-empty word of lower-case ASCII letters. */
  predicate IsLowerWord(s: string) {
    |s| > 0 && forall i :: 0 <= i < |s| ==> 'a' <= s[i] <= 'z'
  }

  /** The provider's wire name. */
  function AsStr(p: LlmProvider): (s: string)
    ensures IsLowerWord(s)
  {
    match p
    case OpenAI => "openai"
    case Claude => "claude"
    case Copilot => "copilot"
    case Cursor => "cursor"
    case CodeWhisperer => "codewhisperer"
    case Local => "local"
  }

  /** Distinct providers have distinct names, so a name identifies its provider. */
  lemma AsStrInjective(p: LlmProvider, q: LlmProvider)
    requires AsStr(p) == AsStr(q)
    ensures p == q
  {
  }

  // ---------------------------------------------------------------- statuses and priorities

  datatype TaskStatus = Pending | Running | Completed | Failed | Cancelled | Timeout

  datatype Priority = Low | Medium | High | Critical

  /** The declared discriminant of each priority (`Low = 0` ... `Critical = 3`). */
  function Discriminant(p: Priority): (d: nat)
    ensures d <= 3
    ensures p == Low ==> d == 0
    ensures p == Medium ==> d == 1
    ensures p == High ==> d == 2
    ensures p == Critical ==> d == 3
  {
    match p
    case Low => 0
    case Medium => 1
    case High => 2
    case Critical => 3
  }

  /** The derived `Ord` of `Priority`: declaration order, i.e. discriminant order. */
  function ComparePriority(a: Priority, b: Priority): (o: Ordering)
    ensures o == Less <==> Discriminant(a) < Discriminant(b)
    ensures o == Greater <==> Discriminant(b) < Discriminant(a)
  {
    CompareNat(Discriminant(a), Discriminant(b))
  }

  /** The derived order is a strict total order with Low < Medium < High < Critical. */
  lemma PriorityTotalOrder(a: Priority, b: Priority, c: Priority)
    ensures ComparePriority(a, b) == Equal <==> a == b
    ensures ComparePriority(b, a) == ComparePriority(a, b).Reverse()
    ensures ComparePriority(a, b) == Less && ComparePriority(b, c) == Less ==> ComparePriority(a, c) == Less
    ensures ComparePriority(Low, Medium) == Less && ComparePriority(Medium, High) == Less
    ensures ComparePriority(High, Critical) == Less
  {
  }

  // ---------------------------------------------------------------- tasks

  /** Timestamps are instants on an abstract clock; metadata values are JSON texts. */
  datatype Task = Task(
    id: TaskId,
    name: string,
    description: Option<string>,
    status: TaskStatus,
    priority: Priority,
    provider: Option<LlmProvider>,
    createdAt: nat,
    updatedAt: nat,
    metadata: map<string, string>)

  /** `Task::default`: a fresh id and the current time are supplied by the caller. */
  function DefaultTask(id: TaskId, now: nat): (t: Task)
    ensures t.id == id && t.name == "Unnamed Task"
    ensures t.status == Pending && t.priority == Medium
    ensures t.provider == None && t.description == None && t.metadata == map[]
    ensures t.createdAt == t.updatedAt == now
  {
    Task(id, "Unnamed Task", None, Pending, Medium, None, now, now, map[])
  }

  // ---------------------------------------------------------------- requests and responses

  datatype TokenUsage = TokenUsage(promptTokens: nat, completionTokens: nat, totalTokens: nat)

  /** The derived `Default` of `TokenUsage`. */
  function DefaultTokenUsage(): (u: TokenUsage)
    ensures u.promptTokens == 0 && u.completionTokens == 0 && u.totalTokens == 0
  {
    TokenUsage(0, 0, 0)
  }

  /** A request to a worker; the sampling parameters are opaque to the core. */
  datatype LlmRequest = LlmRequest(
    id: RequestId,
    taskId: TaskId,
    provider: LlmProvider,
    prompt: string,
    timeoutMs: Option<nat>,
    metadata: map<string, string>)

  datatype LlmResponse = LlmResponse(
    requestId: RequestId,
    content: string,
    usage: TokenUsage,
    latencyMs: nat,
    provider: LlmProvider,
    metadata: map<string, string>)
}
