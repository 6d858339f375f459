/** The task graph handed to the DAG executor, and what the executor reports. */
module DagTypes {
  import opened Wrappers
  import opened Types

  /** When a dependent may run; the executor only stores it on the graph. */
  datatype EdgeCondition = OnSuccess | OnFailure | Always | Custom(expr: string)

  datatype DagNode = DagNode(
    taskId: TaskId,
    task: Task,
    dependencies: seq<TaskId>,
    dependents: seq<TaskId>,
    status: TaskStatus)

  datatype DagEdge = DagEdge(from: TaskId, to: TaskId, condition: Option<EdgeCondition>)

  /** Nodes keyed by task id, and the edges between them (endpoints may be missing). */
  datatype TaskDag = TaskDag(nodes: map<TaskId, DagNode>, edges: seq<DagEdge>)

  datatype DagValidation = DagValidation(
    valid: bool,
    hasCycles: bool,
    unreachableNodes: seq<TaskId>,
    maxDepth: nat)

  /** The result of a run; the elapsed wall-clock time is not modelled. */
  datatype DagExecutionResult = DagExecutionResult(
    completedTasks: seq<TaskId>,
    failedTasks: seq<TaskId>,
    skippedTasks: seq<TaskId>)
}
