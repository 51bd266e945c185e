/** The automation engine's entities as the mapper reads them: a workflow
    snapshot, its steps and their outgoing edges, its author and its
    statistics. All are read-only values here. */
module AutomationData {
  import opened Wrappers
  import opened Php

  /** A `DateTimeImmutable`: an instant and the UTC offset it is shown in. */
  datatype DateTime = DateTime(epochSeconds: int, utcOffsetSeconds: int)

  /** The `WP_User` author, reduced to the two properties the mapper reads (`ID`, `display_name`). */
  datatype Author = Author(id: int, displayName: string)

  /** An outgoing edge of a step; `id` names the target step. */
  datatype NextStep = NextStep(id: string)

  /** A node of the workflow graph. `args` is an opaque configuration payload;
      `nextSteps` is the PHP array returned by `getNextSteps()`. */
  datatype Step = Step(id: string, stepType: string, key: string, args: Value, nextSteps: seq<Slot<NextStep>>)

  /** A workflow snapshot. `steps` is the PHP array returned by `getSteps()`,
      with its own keys and order. */
  datatype Workflow = Workflow(
    id: int,
    name: string,
    status: string,
    createdAt: DateTime,
    updatedAt: DateTime,
    activatedAt: Option<DateTime>,
    author: Author,
    steps: seq<Slot<Step>>)

  /** Aggregate run counters of one workflow. */
  datatype WorkflowStatistics = WorkflowStatistics(workflowId: int, totals: map<string, int>)

  /** The library and entity methods whose code is not part of this model:
      `DateTimeImmutable::format(DateTimeImmutable::W3C)`, `NextStep::toArray`
      and `WorkflowStatistics::toArray`. Passed in so that nothing is assumed
      about them beyond being functions. */
  datatype Serializers = Serializers(
    formatW3C: DateTime -> string,
    nextStepToArray: NextStep -> Value,
    statisticsToArray: WorkflowStatistics -> Value)

  /** Why a projection fails. */
  datatype Error =
    | StatisticsNotFound(workflowId: int)   // the single statistics lookup has no entry
    | MissingStatistics(workflowId: int)    // the batch result lacks the id: `null` reaches the typed `WorkflowStatistics` parameter

  /** The ids of a list of workflows. */
  function WorkflowIds(ws: seq<Workflow>): (ids: set<int>)
  {
    set i | 0 <= i < |ws| :: ws[i].id
  }
}
