/** `WorkflowStatisticsStorage`, the collaborator the mapper asks for
    statistics. Its queries are not part of this model: the storage is an
    oracle over a table of stored statistics, and the ghost counters record
    how many times each query is issued. */
module StatisticsStorage {
  import opened Wrappers
  import opened Php
  import opened AutomationData

  /** What `getWorkflowStats(id)` answers for the table `stored`. */
  function SingleStats(stored: map<int, WorkflowStatistics>, workflowId: int): (r: Result<WorkflowStatistics, Error>)
  {
    if workflowId in stored then Success(stored[workflowId]) else Failure(StatisticsNotFound(workflowId))
  }

  /** What `getWorkflowStatisticsForWorkflows(...$workflows)` answers for the
      table `stored`: one entry per requested id that has stored statistics. */
  function BatchStats(stored: map<int, WorkflowStatistics>, workflows: seq<Workflow>): (m: map<int, WorkflowStatistics>)
    ensures m.Keys == WorkflowIds(workflows) * stored.Keys
    ensures forall id :: id in m ==> m[id] == stored[id]
  {
    map id | id in WorkflowIds(workflows) && id in stored :: stored[id]
  }

  class WorkflowStatisticsStorage {
    const stored: map<int, WorkflowStatistics>
    ghost var singleQueries: nat
    ghost var batchQueries: nat

    constructor (stored: map<int, WorkflowStatistics>)
      ensures this.stored == stored
      ensures singleQueries == 0 && batchQueries == 0
    {
      this.stored := stored;
      singleQueries := 0;
      batchQueries := 0;
    }

    /** `getWorkflowStats($workflowId)`: one single-workflow query. */
    method GetWorkflowStats(workflowId: int) returns (r: Result<WorkflowStatistics, Error>)
      modifies this
      ensures singleQueries == old(singleQueries) + 1 && batchQueries == old(batchQueries)
      ensures r == SingleStats(stored, workflowId)
    {
      singleQueries := singleQueries + 1;
      r := SingleStats(stored, workflowId);
    }

    /** `getWorkflowStatisticsForWorkflows(...$workflows)`: one batched query. */
    method GetWorkflowStatisticsForWorkflows(workflows: seq<Workflow>) returns (m: map<int, WorkflowStatistics>)
      modifies this
      ensures batchQueries == old(batchQueries) + 1 && singleQueries == old(singleQueries)
      ensures m == BatchStats(stored, workflows)
    {
      batchQueries := batchQueries + 1;
      m := BatchStats(stored, workflows);
    }
  }
}
