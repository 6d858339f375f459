/**
 * The orchestrator itself: its configuration, the retry loop that runs one
 * task against the workers, and the table of active tasks that the
 * background loop fills and empties and that `execute_task`,
 * `get_task_status`, `cancel_task` and `list_active_tasks` consult.
 *
 * The background loop and the per-task executions run concurrently in the
 * system; here their effects on the table are separate sequential steps
 * (`Dequeue`, `FinishTask`), and what `execute_task` sees while it waits is
 * the sequence of table states at its successive polls.
 */
module Orchestrator {
  import opened Wrappers
  import opened Types
  import opened Agent
  import opened Selector
  import opened Collections
  import Scheduler
  import Dispatcher
  import E = Errors

  // ---------------------------------------------------------------- configuration

  datatype ExecutionStrategy = Sequential | Parallel | Adaptive | PriorityOrder

  /** `ResourceConstraints`; the CPU share is an `f32` percentage, here a real. */
  datatype ResourceConstraints = ResourceConstraints(
    maxConcurrentTasks: nat,
    maxMemoryMb: nat,
    maxCpuPercent: real,
    maxTokensPerMinute: nat)

  /** `ResourceConstraints::default`: 100 tasks, 8 GiB, 80 % CPU, a million tokens a minute. */
  function DefaultResourceConstraints(): (c: ResourceConstraints)
    ensures c.maxConcurrentTasks == 100 && c.maxMemoryMb == 8192
    ensures c.maxCpuPercent == 80.0 && 0.0 < c.maxCpuPercent <= 100.0
    ensures c.maxTokensPerMinute == 1_000_000
  {
    ResourceConstraints(100, 8192, 80.0, 1_000_000)
  }

  /** Durations are held in whole milliseconds. */
  datatype OrchestratorConfig = OrchestratorConfig(
    maxConcurrentTasks: nat,
    taskTimeoutMs: nat,
    retryAttempts: nat,
    retryDelayMs: nat,
    executionStrategy: ExecutionStrategy,
    resourceConstraints: ResourceConstraints)

  /**
   * `OrchestratorConfig::default`: 100 concurrent tasks (the same bound as the
   * default resource constraints), a 60 s task timeout, three attempts one
   * second apart, the adaptive strategy.
   */
  function DefaultOrchestratorConfig(): (c: OrchestratorConfig)
    ensures c.maxConcurrentTasks == 100 == c.resourceConstraints.maxConcurrentTasks
    ensures c.taskTimeoutMs == 60_000 && c.retryDelayMs == 1_000 && c.retryAttempts == 3
    ensures c.executionStrategy == Adaptive
    ensures c.resourceConstraints == DefaultResourceConstraints()
  {
    OrchestratorConfig(100, 60 * 1000, 3, 1 * 1000, Adaptive, DefaultResourceConstraints())
  }

  // ---------------------------------------------------------------- messages

  function HexDigit(d: nat): char
    requires d < 16
  {
    "0123456789abcdef"[d]
  }

  /** The low `width` hexadecimal digits of `n`, most significant first. */
  function Hex(n: nat, width: nat): (s: string)
    ensures |s| == width
  {
    if width == 0 then [] else Hex(n / 16, width - 1) + [HexDigit(n % 16)]
  }

  function Pow16(w: nat): (p: nat)
    ensures p >= 1
  {
    if w == 0 then 1 else 16 * Pow16(w - 1)
  }

  /** Distinct digit values have distinct digit characters. */
  lemma HexDigitInjective(a: nat, b: nat)
    requires a < 16 && b < 16 && HexDigit(a) == HexDigit(b)
    ensures a == b
  {
  }

  /** `width` hex digits tell apart any two numbers below 16^width. */
  lemma {:induction false} HexInjective(m: nat, n: nat, width: nat)
    requires m < Pow16(width) && n < Pow16(width) && Hex(m, width) == Hex(n, width)
    ensures m == n
  {
    if width > 0 {
      var hm, hn := Hex(m, width), Hex(n, width);
      assert hm[width - 1] == HexDigit(m % 16) && hn[width - 1] == HexDigit(n % 16);
      HexDigitInjective(m % 16, n % 16);
      assert hm[..width - 1] == Hex(m / 16, width - 1);
      assert hn[..width - 1] == Hex(n / 16, width - 1);
      HexInjective(m / 16, n / 16, width - 1);
    }
  }

  /** A UUID's display text: 32 lower-case hex digits grouped 8-4-4-4-12. */
  function IdText(id: TaskId): (s: string)
    ensures |s| == 36 && s[8] == '-' && s[13] == '-' && s[18] == '-' && s[23] == '-'
  {
    var h := Hex(id.uuid, 32);
    h[..8] + "-" + h[8..12] + "-" + h[12..16] + "-" + h[16..20] + "-" + h[20..]
  }

  /** Dropping the four dashes from the display text gives back the 32 digits. */
  lemma IdTextDigits(id: TaskId)
    ensures var s := IdText(id);
      s[..8] + s[9..13] + s[14..18] + s[19..23] + s[24..] == Hex(id.uuid, 32)
  {
    var h := Hex(id.uuid, 32);
    var s := IdText(id);
    assert s[..8] == h[..8] && s[9..13] == h[8..12] && s[14..18] == h[12..16];
    assert s[19..23] == h[16..20] && s[24..] == h[20..];
    assert h == h[..8] + h[8..12] + h[12..16] + h[16..20] + h[20..];
  }

  /** Two 128-bit task ids with the same display text are the same id. */
  lemma IdTextInjective(a: TaskId, b: TaskId)
    requires a.uuid < Pow16(32) && b.uuid < Pow16(32) && IdText(a) == IdText(b)
    ensures a == b
  {
    IdTextDigits(a);
    IdTextDigits(b);
    HexInjective(a.uuid, b.uuid, 32);
  }

  function NotFound(id: TaskId): E.Error {
    E.Internal("Task " + IdText(id) + " not found")
  }

  function TimedOut(id: TaskId): E.Error {
    E.Timeout("Task " + IdText(id) + " timed out")
  }

  function MaxRetriesReached(): E.Error {
    E.Internal("Max retry attempts reached")
  }

  // ---------------------------------------------------------------- one attempt

  /**
   * The request built for each attempt: it belongs to the task, asks for the
   * task's provider (OpenAI when the task names none), carries the
   * description as prompt (empty when there is none), the task timeout in
   * milliseconds truncated to 64 bits, and the task's metadata.
   */
  function BuildRequest(task: Task, id: RequestId, config: OrchestratorConfig): (r: LlmRequest)
    ensures r.id == id && r.taskId == task.id && r.metadata == task.metadata
    ensures task.provider.Some? ==> r.provider == task.provider.value
    ensures task.provider.None? ==> r.provider == OpenAI
    ensures task.description.Some? ==> r.prompt == task.description.value
    ensures task.description.None? ==> r.prompt == ""
    ensures r.timeoutMs.Some? && r.timeoutMs.value < Dispatcher.U64
    ensures config.taskTimeoutMs < Dispatcher.U64 ==> r.timeoutMs == Some(config.taskTimeoutMs)
  {
    LlmRequest(
      id, task.id,
      match task.provider case Some(p) => p case None => OpenAI,
      match task.description case Some(d) => d case None => "",
      Some(config.taskTimeoutMs % Dispatcher.U64),
      task.metadata)
  }

  /**
   * When the task names a provider and the default selector matches
   * providers, an attempt goes to a worker of that provider whenever one is
   * available.
   */
  lemma TaskProviderHonoured(task: Task, id: RequestId, config: OrchestratorConfig, agents: seq<AgentView>, i: nat)
    requires task.provider.Some? && i < |agents| && agents[i].available && agents[i].provider == task.provider.value
    ensures var r := SelectAgent(DefaultAgentSelector(BestMatch), BuildRequest(task, id, config), agents);
      r.Ok? && agents[r.value].provider == task.provider.value
  {
  }

  /** What one attempt comes to: the selector refused, or a worker answered `submit`. */
  datatype AttemptOutcome = NoAgent(error: E.Error) | Submitted(response: Result<LlmResponse, E.Error>)

  /**
   * The inputs of one `execute_task_with_retry` call. `ids[k]` is the request
   * id drawn for attempt `k` (counting from 0), and `respond(k, request)` is
   * what the selector and the chosen worker make of that attempt's request:
   * the selector is any implementation and the workers answer as they will.
   */
  datatype RetryRun = RetryRun(
    task: Task,
    config: OrchestratorConfig,
    ids: seq<RequestId>,
    respond: (nat, LlmRequest) -> AttemptOutcome)

  /** A request id is available for every allowed attempt. */
  predicate Supplied(run: RetryRun) {
    run.config.retryAttempts <= |run.ids|
  }

  function AttemptOf(run: RetryRun, k: nat): AttemptOutcome
    requires k < |run.ids|
  {
    run.respond(k, BuildRequest(run.task, run.ids[k], run.config))
  }

  /** What attempt `k` yields: the selector's error, or the worker's answer. */
  function AttemptResult(run: RetryRun, k: nat): Result<LlmResponse, E.Error>
    requires k < |run.ids|
  {
    match AttemptOf(run, k)
    case NoAgent(e) => Err(e)
    case Submitted(response) => response
  }

  /** Attempt `k` reached a worker, and that worker's `submit` failed. */
  predicate SubmitFailed(run: RetryRun, k: nat)
    requires k < |run.ids|
  {
    AttemptOf(run, k).Submitted? && AttemptOf(run, k).response.Err?
  }

  /** Some attempt within the configured number succeeds. */
  ghost predicate SomeAttemptSucceeds(run: RetryRun)
    requires Supplied(run)
  {
    exists k: nat :: k < run.config.retryAttempts && AttemptResult(run, k).Ok?
  }

  /**
   * The environment the default selector makes: on attempt `k` the workers
   * report `views[k]`, the selector chooses among them, and the chosen
   * worker answers with its `response`.
   */
  function DefaultSelectorResponds(sel: DefaultAgentSelector, views: seq<seq<AgentView>>): (nat, LlmRequest) -> AttemptOutcome {
    (k: nat, request: LlmRequest) =>
      if k < |views| then
        match SelectAgent(sel, request, views[k])
        case Err(e) => NoAgent(e)
        case Ok(i) => Submitted(views[k][i].response)
      else NoAgent(NoAvailableAgents())
  }

  /**
   * Under the default selector an attempt fails to reach a worker exactly
   * when no worker reports available, and otherwise answers with the
   * response of an available worker.
   */
  lemma DefaultSelectorAttempt(sel: DefaultAgentSelector, task: Task, config: OrchestratorConfig,
                               ids: seq<RequestId>, views: seq<seq<AgentView>>, k: nat)
    requires k < |ids| && k < |views|
    ensures var o := AttemptOf(RetryRun(task, config, ids, DefaultSelectorResponds(sel, views)), k);
      (o.NoAgent? <==> forall i :: 0 <= i < |views[k]| ==> !views[k][i].available) &&
      (o.NoAgent? ==> o.error == NoAvailableAgents()) &&
      (o.Submitted? ==> exists i :: 0 <= i < |views[k]| && views[k][i].available && o.response == views[k][i].response)
  {
    var request := BuildRequest(task, ids[k], config);
    var r := SelectAgent(sel, request, views[k]);
    if r.Ok? {
      assert views[k][r.value].available;
    }
  }

  // ---------------------------------------------------------------- the retry loop

  /**
   * `execute_task_with_retry`: at most `retryAttempts` attempts. The first
   * success is returned at once; when every attempt fails the last attempt's
   * error is returned, and with no attempt at all `Internal("Max retry
   * attempts reached")`. `delays` lists the attempts after which the loop
   * waits `retryDelayMs`: exactly those whose `submit` failed, the final
   * attempt excepted; a selection failure never waits.
   */
  method ExecuteTaskWithRetry(run: RetryRun) returns (r: Result<LlmResponse, E.Error>, attempts: nat, delays: seq<nat>)
    requires Supplied(run)
    ensures attempts <= run.config.retryAttempts
    ensures r.Ok? ==> 0 < attempts && r == AttemptResult(run, attempts - 1) && AllFailed(run, attempts - 1)
    ensures r.Err? ==> attempts == run.config.retryAttempts && AllFailed(run, attempts)
    ensures r.Err? && attempts == 0 ==> r.error == MaxRetriesReached()
    ensures r.Err? && attempts > 0 ==> r == AttemptResult(run, attempts - 1)
    ensures r.Ok? <==> SomeAttemptSucceeds(run)
    ensures DelaysAfter(run, attempts, delays)
  {
    attempts := 0;
    var lastError: Option<E.Error> := None;
    delays := [];
    while attempts < run.config.retryAttempts
      invariant RetryState(run, attempts, lastError, delays)
    {
      var k := attempts;
      attempts := attempts + 1;
      var submitted, reached := Attempt(run, k);
      if submitted.Ok? {
        SuccessKeepsDelays(run, k, lastError, delays);
        r := submitted;
        return;
      }
      FailureKeepsState(run, k, lastError, delays, submitted.error, reached);
      lastError := Some(submitted.error);
      if reached && attempts < run.config.retryAttempts {
        delays := delays + [k];
      }
    }
    NoSuccessWitnessed(run);
    r := Err(match lastError case Some(e) => e case None => MaxRetriesReached());
  }

  /**
   * One attempt: build the request, ask the selector, and submit to the
   * chosen worker. `reached` tells whether a worker was chosen.
   */
  method Attempt(run: RetryRun, k: nat) returns (r: Result<LlmResponse, E.Error>, reached: bool)
    requires k < |run.ids|
    ensures r == AttemptResult(run, k)
    ensures reached == AttemptOf(run, k).Submitted?
    ensures reached && r.Err? <==> SubmitFailed(run, k)
  {
    var request := BuildRequest(run.task, run.ids[k], run.config);
    match run.respond(k, request) {
      case NoAgent(e) =>
        r, reached := Err(e), false;
      case Submitted(response) =>
        r, reached := response, true;
    }
  }

  /** The first `n` attempts all fail. */
  ghost predicate AllFailed(run: RetryRun, n: nat) {
    forall k: nat :: k < n && k < |run.ids| ==> AttemptResult(run, k).Err?
  }

  /** Attempt `k` is followed by a delay: its `submit` failed and another attempt is allowed. */
  predicate DelayDue(run: RetryRun, k: nat) {
    k + 1 < run.config.retryAttempts && k < |run.ids| && SubmitFailed(run, k)
  }

  /** `delays`, in increasing order, lists exactly the attempts before `n` that are followed by a delay. */
  ghost predicate DelaysAfter(run: RetryRun, n: nat, delays: seq<nat>) {
    (forall a :: 0 <= a < |delays| ==> delays[a] < n && DelayDue(run, delays[a])) &&
    (forall k: nat :: k < n && DelayDue(run, k) ==> k in delays) &&
    (forall a, b :: 0 <= a < b < |delays| ==> delays[a] < delays[b])
  }

  /** What the retry loop keeps true between attempts. */
  ghost predicate RetryState(run: RetryRun, attempts: nat, lastError: Option<E.Error>, delays: seq<nat>) {
    attempts <= run.config.retryAttempts && Supplied(run) &&
    AllFailed(run, attempts) &&
    (lastError.None? <==> attempts == 0) &&
    (attempts > 0 ==> Err(lastError.value) == AttemptResult(run, attempts - 1)) &&
    DelaysAfter(run, attempts, delays)
  }

  /** A failed attempt becomes the last error, and is followed by a delay when it reached a worker. */
  lemma FailureKeepsState(run: RetryRun, k: nat, lastError: Option<E.Error>, delays: seq<nat>, e: E.Error, reached: bool)
    requires RetryState(run, k, lastError, delays) && k < run.config.retryAttempts
    requires AttemptResult(run, k) == Err(e) && reached == AttemptOf(run, k).Submitted?
    ensures RetryState(run, k + 1, Some(e), if reached && k + 1 < run.config.retryAttempts then delays + [k] else delays)
  {
    assert DelayDue(run, k) <==> reached && k + 1 < run.config.retryAttempts;
    DelaysStep(run, k, delays);
  }

  /** Passing attempt `k` appends it to the delays exactly when a delay is due after it. */
  lemma DelaysStep(run: RetryRun, k: nat, delays: seq<nat>)
    requires DelaysAfter(run, k, delays)
    ensures DelaysAfter(run, k + 1, if DelayDue(run, k) then delays + [k] else delays)
  {
    var delays' := if DelayDue(run, k) then delays + [k] else delays;
    assert forall a :: 0 <= a < |delays| ==> delays'[a] == delays[a];
    forall j: nat | j < k + 1 && DelayDue(run, j)
      ensures j in delays'
    {
      if j == k {
        assert delays'[|delays'| - 1] == k;
      } else {
        assert j in delays;
      }
    }
  }

  /** A successful attempt adds no delay. */
  lemma SuccessKeepsDelays(run: RetryRun, k: nat, lastError: Option<E.Error>, delays: seq<nat>)
    requires RetryState(run, k, lastError, delays) && k < run.config.retryAttempts
    requires AttemptResult(run, k).Ok?
    ensures DelaysAfter(run, k + 1, delays) && SomeAttemptSucceeds(run)
  {
  }

  lemma NoSuccessWitnessed(run: RetryRun)
    requires Supplied(run) && AllFailed(run, run.config.retryAttempts)
    ensures !SomeAttemptSucceeds(run)
  {
  }

  // ---------------------------------------------------------------- waiting for a task

  predicate Terminal(s: TaskStatus) {
    s == Completed || s == Failed || s == Cancelled
  }

  /** The table holds `id` with a final status. */
  predicate Observed(table: map<TaskId, Task>, id: TaskId) {
    id in table && Terminal(table[id].status)
  }

  /** Poll `k` is the first to find `id` with a final status. */
  predicate FirstAt(polls: seq<map<TaskId, Task>>, id: TaskId, k: nat) {
    k < |polls| && Observed(polls[k], id) && forall j :: 0 <= j < k ==> !Observed(polls[j], id)
  }

  /**
   * The status seen at the first poll that finds `id` with a final status,
   * if any poll does.
   */
  function FirstObserved(polls: seq<map<TaskId, Task>>, id: TaskId): Option<TaskStatus> {
    if polls == [] then None
    else if Observed(polls[0], id) then Some(polls[0][id].status)
    else FirstObserved(polls[1..], id)
  }

  /**
   * `FirstObserved` finds a status exactly when some poll sees a final one,
   * and then it is the status at the earliest such poll.
   */
  lemma {:induction false} FirstObservedIsEarliest(polls: seq<map<TaskId, Task>>, id: TaskId)
    ensures FirstObserved(polls, id).Some? <==> exists k :: 0 <= k < |polls| && Observed(polls[k], id)
    ensures FirstObserved(polls, id).Some? ==>
      exists k: nat :: FirstAt(polls, id, k) && polls[k][id].status == FirstObserved(polls, id).value
  {
    if polls != [] && !Observed(polls[0], id) {
      var rest := polls[1..];
      FirstObservedIsEarliest(rest, id);
      assert forall k :: 0 < k < |polls| ==> polls[k] == rest[k - 1];
      if FirstObserved(rest, id).Some? {
        var k: nat :| FirstAt(rest, id, k) && rest[k][id].status == FirstObserved(rest, id).value;
        assert FirstAt(polls, id, k + 1);
      }
    } else if polls != [] {
      assert FirstAt(polls, id, 0);
    }
  }

  /** What `execute_task` answers after scheduling: the observed status, or a timeout. */
  function WaitResult(polls: seq<map<TaskId, Task>>, id: TaskId): Result<TaskStatus, E.Error> {
    match FirstObserved(polls, id)
    case Some(s) => Ok(s)
    case None => Err(TimedOut(id))
  }

  /**
   * The waiting loop of `execute_task`: poll the table until it holds `id`
   * with a final status, giving up with `Timeout("Task <id> timed out")` when
   * the deadline passes. `polls` are the table states at the polls made
   * before the deadline.
   */
  method WaitFor(polls: seq<map<TaskId, Task>>, id: TaskId) returns (r: Result<TaskStatus, E.Error>)
    ensures r == WaitResult(polls, id)
    ensures r.Ok? ==> Terminal(r.value) && exists k: nat :: FirstAt(polls, id, k) && r.value == polls[k][id].status
    ensures r.Err? ==> r.error == TimedOut(id) && forall k :: 0 <= k < |polls| ==> !Observed(polls[k], id)
  {
    var k := 0;
    while k < |polls|
      invariant k <= |polls|
      invariant FirstObserved(polls, id) == FirstObserved(polls[k..], id)
      invariant forall j :: 0 <= j < k ==> !Observed(polls[j], id)
    {
      assert polls[k..][1..] == polls[k + 1..];
      if id in polls[k] && Terminal(polls[k][id].status) {
        assert FirstAt(polls, id, k);
        return Ok(polls[k][id].status);
      }
      k := k + 1;
    }
    r := Err(TimedOut(id));
  }

  // ---------------------------------------------------------------- the orchestrator

  /** Every entry is filed under its task's id. */
  predicate Keyed(table: map<TaskId, Task>) {
    forall id :: id in table ==> table[id].id == id
  }

  /** The status the finishing step assigns for an execution result. */
  function Outcome(result: Result<LlmResponse, E.Error>): (s: TaskStatus)
    ensures Terminal(s) && s != Cancelled
    ensures s == Completed <==> result.Ok?
  {
    if result.Ok? then Completed else Failed
  }

  class MetaOrchestrator {
    const config: OrchestratorConfig
    const selector: DefaultAgentSelector
    const scheduler: Scheduler.PriorityScheduler
    var activeTasks: map<TaskId, Task>

    ghost predicate Valid()
      reads this, scheduler
    {
      scheduler.Valid() && Keyed(activeTasks)
    }

    /** `MetaAIOrchestrator::new`: an empty priority queue of capacity 1000, no active task. */
    constructor(selector: DefaultAgentSelector, config: OrchestratorConfig, now: nat)
      ensures Valid() && fresh(scheduler)
      ensures this.config == config && this.selector == selector
      ensures scheduler.queue == map[] && scheduler.maxQueueSize == 1000
      ensures activeTasks == map[]
    {
      this.config := config;
      this.selector := selector;
      scheduler := new Scheduler.PriorityScheduler(1000, now);
      activeTasks := map[];
    }

    /**
     * The background loop taking the next task: nothing happens on an empty
     * queue; otherwise the scheduler's highest task leaves the queue and the
     * scheduler's table and is inserted into the active table unchanged (it
     * is not marked `Running`). The statistics and the clock stay as they were.
     */
    method Dequeue() returns (t: Option<Task>)
      requires Valid()
      modifies this, scheduler
      ensures Valid()
      ensures old(scheduler.queue) == map[] ==>
        t == None && activeTasks == old(activeTasks) &&
        scheduler.queue == old(scheduler.queue) && scheduler.tasks == old(scheduler.tasks)
      ensures old(scheduler.queue) != map[] ==>
        t.Some? && Scheduler.IsMax(old(scheduler.queue), t.value.id) &&
        t.value == old(scheduler.tasks)[t.value.id].task &&
        scheduler.queue == old(scheduler.queue) - {t.value.id} &&
        scheduler.tasks == old(scheduler.tasks) - {t.value.id} &&
        activeTasks == old(activeTasks)[t.value.id := t.value]
      ensures scheduler.stats == old(scheduler.stats) && scheduler.clock == old(scheduler.clock)
    {
      t := scheduler.NextTask();
      if t.Some? {
        activeTasks := activeTasks[t.value.id := t.value];
      }
    }

    /**
     * The finishing step as the source writes it: the entry is removed and
     * the new status and time go only to the removed copy, so the id is gone
     * from the table whatever the result.
     */
    method FinishTask(id: TaskId, result: Result<LlmResponse, E.Error>, now: nat)
      requires Valid()
      modifies this
      ensures Valid()
      ensures activeTasks == old(activeTasks) - {id}
      ensures GetTaskStatus(id) == Err(NotFound(id))
    {
      if id in activeTasks {
        var removed := activeTasks[id];
        activeTasks := activeTasks - {id};
        removed := removed.(status := Outcome(result), updatedAt := now);
      }
    }

    /**
     * The finishing step as evidently intended: a present entry records
     * `Completed` or `Failed` and the time, where `execute_task` and
     * `get_task_status` can see it.
     */
    method FinishTaskCorrected(id: TaskId, result: Result<LlmResponse, E.Error>, now: nat)
      requires Valid()
      modifies this
      ensures Valid()
      ensures id in old(activeTasks) ==>
        activeTasks == old(activeTasks)[id := old(activeTasks)[id].(status := Outcome(result), updatedAt := now)]
      ensures id !in old(activeTasks) ==> activeTasks == old(activeTasks)
      ensures id in old(activeTasks) ==> GetTaskStatus(id) == Ok(Outcome(result)) && Observed(activeTasks, id)
    {
      if id in activeTasks {
        activeTasks := activeTasks[id := activeTasks[id].(status := Outcome(result), updatedAt := now)];
      }
    }

    /**
     * One turn of the background loop as the source writes it: take the next
     * task, run it with retries, then finish it with `FinishTask`, so the
     * task has left the active table whatever the outcome.
     */
    method ProcessNextAsWritten(views: seq<seq<AgentView>>, ids: seq<RequestId>, now: nat)
      returns (t: Option<Task>, result: Result<LlmResponse, E.Error>)
      requires Valid()
      requires config.retryAttempts <= |views| && config.retryAttempts <= |ids|
      modifies this, scheduler
      ensures Valid()
      ensures old(scheduler.queue) == map[] ==>
        t == None && activeTasks == old(activeTasks) &&
        scheduler.queue == old(scheduler.queue) && scheduler.tasks == old(scheduler.tasks)
      ensures old(scheduler.queue) != map[] ==> t.Some?
      ensures t.Some? ==>
        Scheduler.IsMax(old(scheduler.queue), t.value.id) &&
        t.value == old(scheduler.tasks)[t.value.id].task &&
        scheduler.queue == old(scheduler.queue) - {t.value.id} &&
        scheduler.tasks == old(scheduler.tasks) - {t.value.id} &&
        (result.Ok? <==> SomeAttemptSucceeds(RetryRun(t.value, config, ids, DefaultSelectorResponds(selector, views)))) &&
        activeTasks == old(activeTasks) - {t.value.id} &&
        GetTaskStatus(t.value.id) == Err(NotFound(t.value.id))
      ensures scheduler.stats == old(scheduler.stats) && scheduler.clock == old(scheduler.clock)
    {
      t := Dequeue();
      result := Err(MaxRetriesReached());
      if t.Some? {
        var attempts, delays;
        result, attempts, delays := ExecuteTaskWithRetry(RetryRun(t.value, config, ids, DefaultSelectorResponds(selector, views)));
        FinishTask(t.value.id, result, now);
        MapPutRemove(old(activeTasks), t.value.id, t.value);
      }
    }

    /**
     * One turn of the background loop as evidently intended: take the next
     * task, run it with retries, record the outcome with
     * `FinishTaskCorrected`. The task ends `Completed` exactly when one of
     * its attempts succeeded.
     */
    method ProcessNextCorrected(views: seq<seq<AgentView>>, ids: seq<RequestId>, now: nat)
      returns (t: Option<Task>, result: Result<LlmResponse, E.Error>)
      requires Valid()
      requires config.retryAttempts <= |views| && config.retryAttempts <= |ids|
      modifies this, scheduler
      ensures Valid()
      ensures old(scheduler.queue) == map[] ==>
        t == None && activeTasks == old(activeTasks) &&
        scheduler.queue == old(scheduler.queue) && scheduler.tasks == old(scheduler.tasks)
      ensures old(scheduler.queue) != map[] ==> t.Some?
      ensures t.Some? ==>
        Scheduler.IsMax(old(scheduler.queue), t.value.id) &&
        t.value == old(scheduler.tasks)[t.value.id].task &&
        scheduler.queue == old(scheduler.queue) - {t.value.id} &&
        scheduler.tasks == old(scheduler.tasks) - {t.value.id} &&
        (result.Ok? <==> SomeAttemptSucceeds(RetryRun(t.value, config, ids, DefaultSelectorResponds(selector, views)))) &&
        activeTasks == old(activeTasks)[t.value.id := t.value.(status := Outcome(result), updatedAt := now)]
      ensures scheduler.stats == old(scheduler.stats) && scheduler.clock == old(scheduler.clock)
    {
      t := Dequeue();
      result := Err(MaxRetriesReached());
      if t.Some? {
        var attempts, delays;
        result, attempts, delays := ExecuteTaskWithRetry(RetryRun(t.value, config, ids, DefaultSelectorResponds(selector, views)));
        FinishTaskCorrected(t.value.id, result, now);
        MapUpdateTwice(old(activeTasks), t.value.id, t.value, t.value.(status := Outcome(result), updatedAt := now));
      }
    }

    /**
     * `execute_task`: a scheduling refusal (a full queue) is returned before
     * any waiting; otherwise the task is queued and the answer is the first
     * final status the polls see, or `Timeout("Task <id> timed out")`.
     */
    method ExecuteTask(task: Task, polls: seq<map<TaskId, Task>>) returns (r: Result<TaskStatus, E.Error>)
      requires Valid()
      modifies scheduler
      ensures Valid()
      ensures old(|scheduler.queue|) >= scheduler.maxQueueSize ==>
        r == Err(Scheduler.QueueFull()) && scheduler.queue == old(scheduler.queue) && scheduler.tasks == old(scheduler.tasks) &&
        scheduler.stats == old(scheduler.stats) && scheduler.clock == old(scheduler.clock)
      ensures old(|scheduler.queue|) < scheduler.maxQueueSize ==>
        scheduler.queue == old(scheduler.queue)[task.id := Scheduler.PriorityWrapper(task.priority, old(scheduler.clock))] &&
        scheduler.tasks == old(scheduler.tasks)[task.id := Scheduler.ScheduledTask(task, 0)] &&
        scheduler.stats == old(scheduler.stats).(totalScheduled := old(scheduler.stats.totalScheduled) + 1) &&
        scheduler.clock == old(scheduler.clock) + 1 &&
        r == WaitResult(polls, task.id)
      ensures r.Ok? ==> Terminal(r.value)
    {
      var s := scheduler.ScheduleTask(task);
      if s.Err? {
        return Err(s.error);
      }
      r := WaitFor(polls, task.id);
    }

    /** `get_task_status`: the stored status, or `Internal("Task <id> not found")`. */
    function GetTaskStatus(id: TaskId): (r: Result<TaskStatus, E.Error>)
      reads this
      ensures r.Ok? <==> id in activeTasks
      ensures r.Ok? ==> r.value == activeTasks[id].status
      ensures r.Err? ==> r.error == NotFound(id)
    {
      if id in activeTasks then Ok(activeTasks[id].status) else Err(NotFound(id))
    }

    /**
     * `cancel_task`: a present entry becomes `Cancelled` with a new update
     * time, and nothing else changes; an absent id is refused with
     * `Internal("Task <id> not found")` and the table is left alone.
     */
    method CancelTask(id: TaskId, now: nat) returns (r: Result<(), E.Error>)
      requires Valid()
      modifies this
      ensures Valid()
      ensures id in old(activeTasks) ==>
        r == Ok(()) && activeTasks == old(activeTasks)[id := old(activeTasks)[id].(status := Cancelled, updatedAt := now)]
      ensures id !in old(activeTasks) ==> r == Err(NotFound(id)) && activeTasks == old(activeTasks)
      ensures r.Ok? ==> GetTaskStatus(id) == Ok(Cancelled) && Observed(activeTasks, id)
    {
      if id in activeTasks {
        activeTasks := activeTasks[id := activeTasks[id].(status := Cancelled, updatedAt := now)];
        r := Ok(());
      } else {
        r := Err(NotFound(id));
      }
    }

    /**
     * `list_active_tasks`: every stored task once, in the table's (unspecified)
     * iteration order.
     */
    method ListActiveTasks() returns (ts: seq<Task>)
      requires Valid()
      ensures |ts| == |activeTasks|
      ensures forall t :: t in ts <==> t in activeTasks.Values
      ensures forall a, b :: 0 <= a < b < |ts| ==> ts[a].id != ts[b].id
    {
      ts := [];
      var remaining := activeTasks.Keys;
      while remaining != {}
        invariant remaining <= activeTasks.Keys
        invariant |ts| + |remaining| == |activeTasks|
        invariant forall i :: 0 <= i < |ts| ==> ts[i].id in activeTasks && ts[i] == activeTasks[ts[i].id] && ts[i].id !in remaining
        invariant forall id :: id in activeTasks && id !in remaining ==> activeTasks[id] in ts
        invariant forall a, b :: 0 <= a < b < |ts| ==> ts[a].id != ts[b].id
        decreases |remaining|
      {
        var id :| id in remaining;
        ts := ts + [activeTasks[id]];
        remaining := remaining - {id};
      }
      assert forall t :: t in activeTasks.Values ==> t in ts by {
        forall t | t in activeTasks.Values
          ensures t in ts
        {
          var id :| id in activeTasks && activeTasks[id] == t;
        }
      }
    }
  }

  // ---------------------------------------------------------------- one task's life, as written and corrected

  /**
   * A fresh orchestrator that has scheduled `t` and whose background loop
   * has taken it: the table holds `t` unchanged.
   */
  method ScheduledAndTaken(t: Task, now: nat) returns (o: MetaOrchestrator)
    ensures fresh(o) && fresh(o.scheduler) && o.Valid()
    ensures o.activeTasks == map[t.id := t]
  {
    o := new MetaOrchestrator(DefaultAgentSelector(RoundRobin), DefaultOrchestratorConfig(), now);
    var scheduled := o.scheduler.ScheduleTask(t);
    assert o.scheduler.tasks == map[t.id := Scheduler.ScheduledTask(t, 0)];
    var taken := o.Dequeue();
    assert taken == Some(t);
  }

  /**
   * A pending task is scheduled and taken by the background loop; its first
   * execution succeeds. `execute_task` polls the table once after the
   * dequeue and once after the finishing step. As written, the first poll
   * sees `Pending` and the second no entry at all, so the caller gets a
   * timeout and `get_task_status` a not-found error.
   */
  method SucceededTaskAsWritten(t: Task, response: LlmResponse, now: nat)
    returns (status: Result<TaskStatus, E.Error>, waited: Result<TaskStatus, E.Error>)
    requires t.status == Pending
    ensures status == Err(NotFound(t.id))
    ensures waited == Err(TimedOut(t.id))
  {
    var o := ScheduledAndTaken(t, now);
    var afterDequeue := o.activeTasks;
    o.FinishTask(t.id, Ok(response), now);
    status := o.GetTaskStatus(t.id);
    waited := WaitFor([afterDequeue, o.activeTasks], t.id);
    assert !Observed(afterDequeue, t.id) && !Observed(o.activeTasks, t.id);
  }

  /** The same run with the corrected finishing step: the caller sees `Completed`. */
  method SucceededTaskCorrected(t: Task, response: LlmResponse, now: nat)
    returns (status: Result<TaskStatus, E.Error>, waited: Result<TaskStatus, E.Error>)
    requires t.status == Pending
    ensures status == Ok(Completed)
    ensures waited == Ok(Completed)
  {
    var o := ScheduledAndTaken(t, now);
    var afterDequeue := o.activeTasks;
    o.FinishTaskCorrected(t.id, Ok(response), now);
    assert o.activeTasks == map[t.id := t.(status := Completed, updatedAt := now)];
    status := o.GetTaskStatus(t.id);
    var polls := [afterDequeue, o.activeTasks];
    waited := WaitFor(polls, t.id);
    assert !Observed(polls[0], t.id) && Observed(polls[1], t.id);
    ghost var k: nat :| FirstAt(polls, t.id, k) && waited.value == polls[k][t.id].status;
    assert k == 1;
  }
}
