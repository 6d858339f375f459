/**
 * Task schedulers. `PriorityScheduler` keeps a priority queue keyed by task
 * id (one entry per id; pushing an id already present re-keys it) beside a
 * table of scheduled tasks; `RoundRobinScheduler` keeps a FIFO of tasks.
 *
 * The wall-clock nanosecond timestamp is a logical clock that advances by one
 * on every push, so timestamps handed out are strictly increasing.
 */
module Scheduler {
  import opened Wrappers
  import opened Types
  import opened Collections
  import E = Errors

  /** The queue key: priority first, then the enqueue timestamp. */
  datatype PriorityWrapper = PriorityWrapper(priority: Priority, timestamp: nat)

  /**
   * `PriorityWrapper::cmp`: a higher priority compares greater; at equal
   * priority the earlier (smaller) timestamp compares greater.
   */
  function Cmp(a: PriorityWrapper, b: PriorityWrapper): (o: Ordering)
    ensures o == Greater <==>
      Discriminant(a.priority) > Discriminant(b.priority) ||
      (a.priority == b.priority && a.timestamp < b.timestamp)
    ensures o == Less <==>
      Discriminant(a.priority) < Discriminant(b.priority) ||
      (a.priority == b.priority && a.timestamp > b.timestamp)
    ensures o == Equal <==> a == b
  {
    PriorityTotalOrder(a.priority, b.priority, b.priority);
    match ComparePriority(a.priority, b.priority)
    case Equal => CompareNat(b.timestamp, a.timestamp)
    case other => other
  }

  /** The wrapper order is a total order: antisymmetric and transitive. */
  lemma CmpTotalOrder(a: PriorityWrapper, b: PriorityWrapper, c: PriorityWrapper)
    ensures Cmp(b, a) == Cmp(a, b).Reverse()
    ensures Cmp(a, b) == Greater && Cmp(b, c) == Greater ==> Cmp(a, c) == Greater
    ensures Cmp(a, b) != Less && Cmp(b, c) != Less ==> Cmp(a, c) != Less
  {
  }

  // ---------------------------------------------------------------- the queue as a map

  /** `id` holds a maximal key of `q`. */
  ghost predicate IsMax(q: map<TaskId, PriorityWrapper>, id: TaskId) {
    id in q && forall k :: k in q ==> Cmp(q[k], q[id]) != Greater
  }

  /** No two entries share a timestamp (true of a strictly increasing clock). */
  ghost predicate DistinctStamps(q: map<TaskId, PriorityWrapper>) {
    forall a, b {:trigger q[a], q[b]} :: a in q && b in q && a != b ==> q[a].timestamp != q[b].timestamp
  }

  /** With distinct timestamps the maximal key is held by one id only. */
  lemma MaxUnique(q: map<TaskId, PriorityWrapper>, a: TaskId, b: TaskId)
    requires DistinctStamps(q) && IsMax(q, a) && IsMax(q, b)
    ensures a == b
  {
    assert Cmp(q[a], q[b]) != Greater && Cmp(q[b], q[a]) != Greater;
  }

  /** A finite non-empty queue has a maximal entry. */
  lemma MaxExists(q: map<TaskId, PriorityWrapper>)
    requires q != map[]
    ensures exists id :: IsMax(q, id)
    decreases |q|
  {
    var k :| k in q;
    var rest := q - {k};
    if rest == map[] {
      forall k' | k' in q
        ensures Cmp(q[k'], q[k]) != Greater
      {
        assert k' !in rest;
      }
      assert IsMax(q, k);
    } else {
      assert |rest| < |q| by { assert rest.Keys == q.Keys - {k}; }
      MaxExists(rest);
      var m :| IsMax(rest, m);
      var best := if Cmp(q[k], q[m]) == Greater then k else m;
      forall k' | k' in q
        ensures Cmp(q[k'], q[best]) != Greater
      {
        if k' != k {
          assert k' in rest;
          CmpTotalOrder(q[k'], q[m], q[best]);
        }
      }
      assert IsMax(q, best);
    }
  }

  /** The id `pop` takes off the queue. */
  ghost function Top(q: map<TaskId, PriorityWrapper>): (id: TaskId)
    requires q != map[]
    ensures IsMax(q, id)
  {
    MaxExists(q);
    var id :| IsMax(q, id); id
  }

  /** The ids in the order repeated `pop`s would return them: each queued id once. */
  ghost function Drain(q: map<TaskId, PriorityWrapper>): (d: seq<TaskId>)
    ensures |d| == |q|
    ensures forall i :: 0 <= i < |d| ==> d[i] in q
    decreases |q|
  {
    if q == map[] then []
    else
      var id := Top(q);
      assert |q - {id}| < |q| by { assert (q - {id}).Keys == q.Keys - {id}; }
      [id] + Drain(q - {id})
  }

  /** Draining a queue whose maximal id is `id` takes `id` first, then drains the rest. */
  lemma DrainTop(q: map<TaskId, PriorityWrapper>, id: TaskId)
    requires DistinctStamps(q) && IsMax(q, id)
    ensures Drain(q) == [id] + Drain(q - {id})
  {
    MaxUnique(q, id, Top(q));
  }

  /** The first drained id outranks every other queued id. */
  lemma TopOutranks(q: map<TaskId, PriorityWrapper>, k: TaskId)
    requires DistinctStamps(q) && q != map[]
    requires k in q && k != Top(q)
    ensures Cmp(q[Top(q)], q[k]) == Greater
  {
    var id := Top(q);
    assert Cmp(q[k], q[id]) != Greater;
    assert q[k].timestamp != q[id].timestamp;
    CmpTotalOrder(q[id], q[k], q[k]);
  }

  /** Removing the top entry leaves a queue whose stamps are still distinct. */
  lemma RestDistinct(q: map<TaskId, PriorityWrapper>, id: TaskId)
    requires DistinctStamps(q)
    ensures DistinctStamps(q - {id})
  {
  }

  /** Every id queued besides the top one has a smaller key than the top one. */
  lemma TopOutranksRest(q: map<TaskId, PriorityWrapper>)
    requires DistinctStamps(q) && q != map[]
    ensures forall k :: k in q - {Top(q)} ==> Cmp(q[Top(q)], q[k]) == Greater
  {
    forall k | k in q - {Top(q)}
      ensures Cmp(q[Top(q)], q[k]) == Greater
    {
      TopOutranks(q, k);
    }
  }

  /** `d` lists queued ids only, each with a greater key than every later one. */
  ghost predicate Descending(q: map<TaskId, PriorityWrapper>, d: seq<TaskId>) {
    (forall i :: 0 <= i < |d| ==> d[i] in q) &&
    forall i, j :: 0 <= i < j < |d| ==> d[i] in q && d[j] in q && Cmp(q[d[i]], q[d[j]]) == Greater
  }

  /** `d` lists every id of `q`. */
  ghost predicate Covers(q: map<TaskId, PriorityWrapper>, d: seq<TaskId>) {
    forall k :: k in q ==> k in d
  }

  /** Putting an id that outranks all the rest in front of a descending listing of the rest. */
  lemma DescendingCons(q: map<TaskId, PriorityWrapper>, rest: map<TaskId, PriorityWrapper>, id: TaskId, dr: seq<TaskId>)
    requires id in q && rest == q - {id}
    requires Descending(rest, dr) && Covers(rest, dr)
    requires forall k :: k in rest ==> Cmp(q[id], q[k]) == Greater
    ensures Descending(q, [id] + dr) && Covers(q, [id] + dr)
  {
    var d := [id] + dr;
    forall i, j | 0 <= i < j < |d|
      ensures d[i] in q && d[j] in q && Cmp(q[d[i]], q[d[j]]) == Greater
    {
      assert d[j] == dr[j - 1];
      if i > 0 {
        assert d[i] == dr[i - 1];
      }
    }
    forall k | k in q
      ensures k in d
    {
      if k != id {
        assert k in rest;
      }
    }
  }

  /** Draining lists every queued id, in strictly descending key order. */
  lemma {:induction false} DrainDescending(q: map<TaskId, PriorityWrapper>)
    requires DistinctStamps(q)
    ensures Descending(q, Drain(q)) && Covers(q, Drain(q))
    decreases |q|
  {
    if q != map[] {
      var id := Top(q);
      var rest := q - {id};
      assert |rest| < |q| by { assert rest.Keys == q.Keys - {id}; }
      RestDistinct(q, id);
      DrainDescending(rest);
      TopOutranksRest(q);
      DescendingCons(q, rest, id, Drain(rest));
      DrainTop(q, id);
    }
  }

  /** Draining returns every queued id exactly once. */
  lemma DrainComplete(q: map<TaskId, PriorityWrapper>)
    requires DistinctStamps(q)
    ensures forall id :: id in q ==> id in Drain(q)
    ensures Distinct(Drain(q))
  {
    DrainDescending(q);
  }

  /**
   * Draining puts each id strictly before every entry with a smaller key:
   * non-increasing priority, and among equal priorities the earlier push first.
   */
  lemma DrainOrder(q: map<TaskId, PriorityWrapper>)
    requires DistinctStamps(q)
    ensures forall i, j :: 0 <= i < j < |Drain(q)| ==> Cmp(q[Drain(q)[i]], q[Drain(q)[j]]) == Greater
  {
    DrainDescending(q);
  }

  /** The drained order separates priorities and keeps FIFO order within one. */
  lemma DrainPriorityFifo(q: map<TaskId, PriorityWrapper>, i: nat, j: nat)
    requires DistinctStamps(q)
    requires i < j < |Drain(q)|
    ensures var d := Drain(q);
      Discriminant(q[d[i]].priority) >= Discriminant(q[d[j]].priority) &&
      (q[d[i]].priority == q[d[j]].priority ==> q[d[i]].timestamp < q[d[j]].timestamp)
  {
    DrainOrder(q);
  }

  /** Every stamp lies below `clock`. */
  ghost predicate StampsBelow(q: map<TaskId, PriorityWrapper>, clock: nat) {
    forall id :: id in q ==> q[id].timestamp < clock
  }

  /** Pushing with the current clock value keeps stamps distinct and below the advanced clock. */
  lemma PushFreshStamp(q: map<TaskId, PriorityWrapper>, id: TaskId, p: Priority, clock: nat)
    requires DistinctStamps(q) && StampsBelow(q, clock)
    ensures var q' := q[id := PriorityWrapper(p, clock)];
      DistinctStamps(q') && StampsBelow(q', clock + 1)
  {
  }

  /** Scans the queue for a maximal key, as `pop` finds it. */
  method MaxKey(q: map<TaskId, PriorityWrapper>) returns (best: TaskId)
    requires q != map[]
    ensures IsMax(q, best)
  {
    var rest := q.Keys;
    best :| best in rest;
    rest := rest - {best};
    while rest != {}
      invariant rest <= q.Keys && best in q
      invariant forall k :: k in q && k !in rest ==> Cmp(q[k], q[best]) != Greater
      decreases rest
    {
      var k :| k in rest;
      if Cmp(q[k], q[best]) == Greater {
        best := k;
      }
      rest := rest - {k};
    }
  }

  // ---------------------------------------------------------------- PriorityScheduler

  /** A table entry; the `Instant` it was scheduled at is not modelled. */
  datatype ScheduledTask = ScheduledTask(task: Task, attemptCount: nat)

  /**
   * The queue and the table hold the same ids; every entry is filed under
   * its task's id with that task's priority; every timestamp was handed out
   * before `clock`, and no two are equal.
   */
  ghost predicate Coherent(queue: map<TaskId, PriorityWrapper>, tasks: map<TaskId, ScheduledTask>, clock: nat) {
    queue.Keys == tasks.Keys &&
    (forall id :: id in tasks ==> tasks[id].task.id == id && queue[id].priority == tasks[id].task.priority) &&
    StampsBelow(queue, clock) && DistinctStamps(queue)
  }

  /** Filing a task and pushing its id with the current clock keeps the two coherent. */
  lemma PushCoherent(queue: map<TaskId, PriorityWrapper>, tasks: map<TaskId, ScheduledTask>, clock: nat, task: Task, count: nat)
    requires Coherent(queue, tasks, clock)
    ensures Coherent(queue[task.id := PriorityWrapper(task.priority, clock)], tasks[task.id := ScheduledTask(task, count)], clock + 1)
  {
    PushFreshStamp(queue, task.id, task.priority, clock);
  }

  /** Popping the maximal id: the rest stays coherent, one shorter, and drains as before minus that id. */
  lemma PopTop(queue: map<TaskId, PriorityWrapper>, tasks: map<TaskId, ScheduledTask>, clock: nat, id: TaskId)
    requires Coherent(queue, tasks, clock) && IsMax(queue, id)
    ensures Coherent(queue - {id}, tasks - {id}, clock)
    ensures id in tasks && tasks[id].task.id == id && |queue - {id}| == |queue| - 1
    ensures Drain(queue) == [id] + Drain(queue - {id})
  {
    DrainTop(queue, id);
    PopCoherent(queue, tasks, clock, id);
    MapRemoveCard(queue, id);
  }

  /** Popping an id from both keeps them coherent. */
  lemma PopCoherent(queue: map<TaskId, PriorityWrapper>, tasks: map<TaskId, ScheduledTask>, clock: nat, id: TaskId)
    requires Coherent(queue, tasks, clock)
    ensures Coherent(queue - {id}, tasks - {id}, clock)
  {
    RestDistinct(queue, id);
  }

  /** The counters; the cumulative wait and execution durations are not modelled. */
  datatype SchedulerStats = SchedulerStats(
    totalScheduled: nat,
    totalCompleted: nat,
    totalFailed: nat,
    totalRequeued: nat)

  /** `QueueStats` without its two `f64` averages. */
  datatype QueueStats = QueueStats(
    pendingTasks: nat,
    runningTasks: nat,
    completedTasks: nat,
    failedTasks: nat)

  function QueueFull(): E.Error {
    E.Internal("Task queue is full")
  }

  class PriorityScheduler {
    var queue: map<TaskId, PriorityWrapper>
    var tasks: map<TaskId, ScheduledTask>
    const maxQueueSize: nat
    var stats: SchedulerStats
    /** The next timestamp to hand out. */
    var clock: nat

    /**
     * The queue and the table hold the same ids; every entry is filed under
     * its task's id with that task's priority; every timestamp was handed out
     * before, and no two are equal.
     */
    ghost predicate Valid()
      reads this
    {
      Coherent(queue, tasks, clock)
    }

    /** `PriorityScheduler::new`: empty, counters at zero. */
    constructor(maxQueueSize: nat, now: nat)
      ensures Valid()
      ensures queue == map[] && tasks == map[] && this.maxQueueSize == maxQueueSize
      ensures stats == SchedulerStats(0, 0, 0, 0) && clock == now
    {
      queue := map[];
      tasks := map[];
      this.maxQueueSize := maxQueueSize;
      stats := SchedulerStats(0, 0, 0, 0);
      clock := now;
    }

    /** The ids in the order `next_task` will return them. */
    ghost function Order(): seq<TaskId>
      reads this
    {
      Drain(queue)
    }

    /**
     * `schedule_task`: refused with `Internal("Task queue is full")` when the
     * queue already holds `maxQueueSize` entries (nothing changes); otherwise
     * the task is filed under its id with attempt count 0, the id is pushed
     * (or re-keyed) with the task's priority and a fresh timestamp, and
     * `totalScheduled` grows by one.
     */
    method ScheduleTask(task: Task) returns (r: Result<(), E.Error>)
      requires Valid()
      modifies this
      ensures Valid()
      ensures old(|queue|) >= maxQueueSize ==>
        r == Err(QueueFull()) && queue == old(queue) && tasks == old(tasks) &&
        stats == old(stats) && clock == old(clock)
      ensures old(|queue|) < maxQueueSize ==>
        r == Ok(()) &&
        queue == old(queue)[task.id := PriorityWrapper(task.priority, old(clock))] &&
        tasks == old(tasks)[task.id := ScheduledTask(task, 0)] &&
        stats == old(stats).(totalScheduled := old(stats.totalScheduled) + 1) &&
        clock == old(clock) + 1 && |queue| <= maxQueueSize
    {
      if |queue| >= maxQueueSize {
        return Err(QueueFull());
      }
      MapUpdateCard(queue, task.id, PriorityWrapper(task.priority, clock));
      File(task, 0);
      stats := stats.(totalScheduled := stats.totalScheduled + 1);
      r := Ok(());
    }

    /** Files `task` with attempt count `count` and pushes its id with the current clock, which then advances. */
    method File(task: Task, count: nat)
      requires Valid()
      modifies this
      ensures Valid()
      ensures queue == old(queue)[task.id := PriorityWrapper(task.priority, old(clock))]
      ensures tasks == old(tasks)[task.id := ScheduledTask(task, count)]
      ensures clock == old(clock) + 1 && stats == old(stats)
    {
      PushCoherent(queue, tasks, clock, task, count);
      queue, tasks, clock := queue[task.id := PriorityWrapper(task.priority, clock)], tasks[task.id := ScheduledTask(task, count)], clock + 1;
    }

    /**
     * `next_task`: `None` on an empty queue; otherwise pops the id with the
     * maximal key, removes its table entry and returns that task. What is
     * left drains in the same order as before, minus the returned id.
     */
    method NextTask() returns (r: Option<Task>)
      requires Valid()
      modifies this
      ensures Valid()
      ensures old(queue) == map[] ==> r == None && queue == old(queue) && tasks == old(tasks)
      ensures old(queue) != map[] ==>
        r.Some? && IsMax(old(queue), r.value.id) &&
        r.value == old(tasks)[r.value.id].task &&
        queue == old(queue) - {r.value.id} && tasks == old(tasks) - {r.value.id} &&
        |queue| == old(|queue|) - 1 &&
        old(Order()) == [r.value.id] + Order()
      ensures stats == old(stats) && clock == old(clock)
    {
      if queue == map[] {
        return None;
      }
      var id := MaxKey(queue);
      PopTop(queue, tasks, clock, id);
      var st := tasks[id];
      queue := queue - {id};
      tasks := tasks - {id};
      r := Some(st.task);
    }

    /**
     * `requeue_task`: never refused, no capacity check. An id not in the
     * table gets a fresh entry; either way the entry now holds `task` and its
     * attempt count is one more than before (1 for a fresh entry). The id is
     * pushed (or re-keyed) with a fresh timestamp; `totalRequeued` grows by one.
     */
    method RequeueTask(task: Task) returns (r: Result<(), E.Error>)
      requires Valid()
      modifies this
      ensures Valid()
      ensures r == Ok(())
      ensures tasks == old(tasks)[task.id := ScheduledTask(task,
        if task.id in old(tasks) then old(tasks)[task.id].attemptCount + 1 else 1)]
      ensures queue == old(queue)[task.id := PriorityWrapper(task.priority, old(clock))]
      ensures stats == old(stats).(totalRequeued := old(stats.totalRequeued) + 1)
      ensures clock == old(clock) + 1
    {
      var entry := if task.id in tasks then tasks[task.id] else ScheduledTask(task, 0);
      entry := entry.(task := task, attemptCount := entry.attemptCount + 1);
      File(task, entry.attemptCount);
      stats := stats.(totalRequeued := stats.totalRequeued + 1);
      r := Ok(());
    }

    /** `queue_stats`: pending is the queue length; nothing is ever counted as running. */
    function GetQueueStats(): (s: QueueStats)
      reads this
      ensures s.pendingTasks == |queue| && s.runningTasks == 0
      ensures s.completedTasks == stats.totalCompleted && s.failedTasks == stats.totalFailed
    {
      QueueStats(|queue|, 0, stats.totalCompleted, stats.totalFailed)
    }
  }

  /**
   * The scheduler's own test: schedule a low-priority task, then a
   * high-priority one; the first `next_task` returns the high one, the second
   * the low one.
   */
  method HighBeforeLow(low: Task, high: Task, now: nat) returns (first: Option<Task>, second: Option<Task>)
    requires low.priority == Low && high.priority == High && low.id != high.id
    ensures first == Some(high) && second == Some(low)
  {
    var s := ScheduleTwo(low, high, now);
    ghost var q := s.queue;
    first := s.NextTask();
    OnlyMaxOfTwo(q, low.id, high.id, first.value.id);
    second := s.NextTask();
  }

  /** Of two queued ids, the one with the greater key is the only maximal one. */
  lemma OnlyMaxOfTwo(q: map<TaskId, PriorityWrapper>, low: TaskId, high: TaskId, id: TaskId)
    requires q.Keys == {low, high} && Cmp(q[low], q[high]) == Less
    requires IsMax(q, id)
    ensures id == high
  {
    assert high in q;
    CmpTotalOrder(q[low], q[high], q[high]);
  }

  /** A fresh scheduler after `schedule_task(low)` then `schedule_task(high)`. */
  method ScheduleTwo(low: Task, high: Task, now: nat) returns (s: PriorityScheduler)
    requires low.priority == Low && high.priority == High && low.id != high.id
    ensures fresh(s) && s.Valid()
    ensures s.queue.Keys == {low.id, high.id} && Cmp(s.queue[low.id], s.queue[high.id]) == Less
    ensures s.tasks == map[low.id := ScheduledTask(low, 0), high.id := ScheduledTask(high, 0)]
  {
    s := new PriorityScheduler(100, now);
    var ok := s.ScheduleTask(low);
    ok := s.ScheduleTask(high);
  }

  // ---------------------------------------------------------------- RoundRobinScheduler

  class RoundRobinScheduler {
    var queue: seq<Task>
    const maxQueueSize: nat
    var stats: SchedulerStats

    /** `RoundRobinScheduler::new`. */
    constructor(maxQueueSize: nat)
      ensures queue == [] && this.maxQueueSize == maxQueueSize && stats == SchedulerStats(0, 0, 0, 0)
    {
      queue := [];
      this.maxQueueSize := maxQueueSize;
      stats := SchedulerStats(0, 0, 0, 0);
    }

    /** `schedule_task`: refused at capacity, else appended at the back. */
    method ScheduleTask(task: Task) returns (r: Result<(), E.Error>)
      modifies this
      ensures old(|queue|) >= maxQueueSize ==> r == Err(QueueFull()) && queue == old(queue) && stats == old(stats)
      ensures old(|queue|) < maxQueueSize ==>
        r == Ok(()) && queue == old(queue) + [task] &&
        stats == old(stats).(totalScheduled := old(stats.totalScheduled) + 1)
    {
      if |queue| >= maxQueueSize {
        return Err(QueueFull());
      }
      queue := queue + [task];
      stats := stats.(totalScheduled := stats.totalScheduled + 1);
      r := Ok(());
    }

    /** `next_task`: the front task, in push order; `None` when empty. */
    method NextTask() returns (r: Option<Task>)
      modifies this
      ensures old(queue) == [] ==> r == None && queue == []
      ensures old(queue) != [] ==> r == Some(old(queue)[0]) && queue == old(queue)[1..]
      ensures stats == old(stats)
    {
      if queue == [] {
        return None;
      }
      r := Some(queue[0]);
      queue := queue[1..];
    }

    /** `requeue_task`: appended at the back with no capacity check. */
    method RequeueTask(task: Task) returns (r: Result<(), E.Error>)
      modifies this
      ensures r == Ok(()) && queue == old(queue) + [task]
      ensures stats == old(stats).(totalRequeued := old(stats.totalRequeued) + 1)
    {
      queue := queue + [task];
      stats := stats.(totalRequeued := stats.totalRequeued + 1);
      r := Ok(());
    }

    /** `queue_stats`: pending is the queue length. */
    function GetQueueStats(): (s: QueueStats)
      reads this
      ensures s.pendingTasks == |queue| && s.runningTasks == 0
      ensures s.completedTasks == stats.totalCompleted && s.failedTasks == stats.totalFailed
    {
      QueueStats(|queue|, 0, stats.totalCompleted, stats.totalFailed)
    }
  }

  /** Tasks leave a round-robin scheduler in the order they were scheduled. */
  method RoundRobinFifo(a: Task, b: Task) returns (first: Option<Task>, second: Option<Task>)
    ensures first == Some(a) && second == Some(b)
  {
    var s := new RoundRobinScheduler(2);
    var ok := s.ScheduleTask(a);
    ok := s.ScheduleTask(b);
    first := s.NextTask();
    second := s.NextTask();
  }
}
