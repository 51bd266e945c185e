/** `WorkflowMapper`: projects a workflow onto the PHP array the API returns,
    in a detail view (with the step graph as per-step adjacency lists) and a
    list view (header fields only, statistics fetched in one batch). */
module Mappers {
  import opened Wrappers
  import opened Php
  import opened AutomationData
  import opened StatisticsStorage

  /** The keys of the detail view, in the order the source writes them. */
  const DetailKeys: seq<Key> := [
    StrKey("id"), StrKey("name"), StrKey("status"), StrKey("created_at"), StrKey("updated_at"),
    StrKey("activated_at"), StrKey("author"), StrKey("stats"), StrKey("steps")]

  /** The keys of a list item, in the order the source writes them (`stats` before `activated_at`). */
  const ListItemKeys: seq<Key> := [
    StrKey("id"), StrKey("name"), StrKey("status"), StrKey("created_at"), StrKey("updated_at"),
    StrKey("stats"), StrKey("activated_at"), StrKey("author")]

  /** `activated_at`: the formatted activation time, or null when the workflow
      has none (a `DateTimeImmutable` is truthy, null is not). */
  function ActivatedAt(s: Serializers, w: Workflow): (v: Value)
    ensures v == Null <==> w.activatedAt.None?
    ensures w.activatedAt.Some? ==> v == Str(s.formatW3C(w.activatedAt.value))
  {
    match w.activatedAt
    case None => Null
    case Some(t) => Str(s.formatW3C(t))
  }

  /** `author`: the user's `ID` and `display_name`, under exactly the keys `id` and `name`. */
  function AuthorArray(a: Author): (r: Value)
    ensures r.Arr? && DistinctKeys(r.slots) && Keys(r.slots) == [StrKey("id"), StrKey("name")]
  {
    Arr([Slot(StrKey("id"), Int(a.id)), Slot(StrKey("name"), Str(a.displayName))])
  }

  /** One entry of `steps`: exactly the step's own fields and its outgoing
      edges, one hop only (targets are not followed). */
  function StepArray(s: Serializers, step: Step): (r: Value)
    ensures r.Arr? && DistinctKeys(r.slots)
    ensures Keys(r.slots) == [StrKey("id"), StrKey("type"), StrKey("key"), StrKey("args"), StrKey("next_steps")]
  {
    Arr([
      Slot(StrKey("id"), Str(step.id)),
      Slot(StrKey("type"), Str(step.stepType)),
      Slot(StrKey("key"), Str(step.key)),
      Slot(StrKey("args"), step.args),
      Slot(StrKey("next_steps"), Arr(ArrayMap(s.nextStepToArray, step.nextSteps)))])
  }

  /** The array `buildWorkflow` returns once `stats` has been fetched. */
  function WorkflowDetail(s: Serializers, w: Workflow, stats: WorkflowStatistics): (r: Value)
    ensures r.Arr? && DistinctKeys(r.slots) && Keys(r.slots) == DetailKeys
  {
    Arr([
      Slot(StrKey("id"), Int(w.id)),
      Slot(StrKey("name"), Str(w.name)),
      Slot(StrKey("status"), Str(w.status)),
      Slot(StrKey("created_at"), Str(s.formatW3C(w.createdAt))),
      Slot(StrKey("updated_at"), Str(s.formatW3C(w.updatedAt))),
      Slot(StrKey("activated_at"), ActivatedAt(s, w)),
      Slot(StrKey("author"), AuthorArray(w.author)),
      Slot(StrKey("stats"), s.statisticsToArray(stats)),
      Slot(StrKey("steps"), Arr(ArrayMap((step: Step) => StepArray(s, step), w.steps)))])
  }

  /** `buildWorkflowListItem`: the header fields of the detail view, no `steps`. */
  function BuildWorkflowListItem(s: Serializers, w: Workflow, stats: WorkflowStatistics): (r: Value)
    ensures r.Arr? && DistinctKeys(r.slots) && Keys(r.slots) == ListItemKeys
    ensures StrKey("steps") !in Keys(r.slots)
  {
    Arr([
      Slot(StrKey("id"), Int(w.id)),
      Slot(StrKey("name"), Str(w.name)),
      Slot(StrKey("status"), Str(w.status)),
      Slot(StrKey("created_at"), Str(s.formatW3C(w.createdAt))),
      Slot(StrKey("updated_at"), Str(s.formatW3C(w.updatedAt))),
      Slot(StrKey("stats"), s.statisticsToArray(stats)),
      Slot(StrKey("activated_at"), ActivatedAt(s, w)),
      Slot(StrKey("author"), AuthorArray(w.author))])
  }

  /** The `array_map` of `buildWorkflowList` over `workflows` with the batch
      result `batch`. It walks the workflows in order and stops at the first
      one whose id has no batch entry: `$statistics[$id]` is then null and
      the typed parameter of `buildWorkflowListItem` refuses it. */
  function ListItems(s: Serializers, workflows: seq<Slot<Workflow>>, batch: map<int, WorkflowStatistics>)
    : (r: Result<seq<Slot<Value>>, Error>)
    ensures r.Success? <==> forall i :: 0 <= i < |workflows| ==> workflows[i].value.id in batch
    ensures r.Success? ==>
      && |r.value| == |workflows|
      && forall i :: 0 <= i < |workflows| ==>
           r.value[i] == Slot(workflows[i].key, BuildWorkflowListItem(s, workflows[i].value, batch[workflows[i].value.id]))
    ensures r.Failure? ==>
      exists i :: 0 <= i < |workflows|
        && workflows[i].value.id !in batch
        && r.error == MissingStatistics(workflows[i].value.id)
        && forall j :: 0 <= j < i ==> workflows[j].value.id in batch
  {
    if workflows == [] then Success([])
    else
      var w := workflows[0].value;
      if w.id !in batch then Failure(MissingStatistics(w.id))
      else
        match ListItems(s, workflows[1..], batch)
        case Failure(e) =>
          assert forall j :: 1 <= j < |workflows| ==> workflows[j] == workflows[1..][j - 1];
          Failure(e)
        case Success(rest) =>
          assert forall j :: 1 <= j < |workflows| ==> workflows[j] == workflows[1..][j - 1];
          Success([Slot(workflows[0].key, BuildWorkflowListItem(s, w, batch[w.id]))] + rest)
  }

  /** The array `buildWorkflowList` returns for the batch result `batch`: as
      long as the input, under the input's keys and in its order, entry `i`
      built from workflow `i` and its batch entry; or the failure of the first
      workflow whose id has no batch entry. */
  function WorkflowList(s: Serializers, workflows: seq<Slot<Workflow>>, batch: map<int, WorkflowStatistics>)
    : (r: Result<Value, Error>)
    ensures r.Success? <==> forall i :: 0 <= i < |workflows| ==> workflows[i].value.id in batch
    ensures r.Success? ==>
      && r.value.Arr?
      && |r.value.slots| == |workflows|
      && Keys(r.value.slots) == Keys(workflows)
      && forall i :: 0 <= i < |workflows| ==>
           r.value.slots[i].value == BuildWorkflowListItem(s, workflows[i].value, batch[workflows[i].value.id])
    ensures r.Failure? ==>
      exists i :: 0 <= i < |workflows|
        && workflows[i].value.id !in batch
        && r.error == MissingStatistics(workflows[i].value.id)
        && forall j :: 0 <= j < i ==> workflows[j].value.id in batch
  {
    match ListItems(s, workflows, batch)
    case Success(items) => Success(Arr(items))
    case Failure(e) => Failure(e)
  }

  class WorkflowMapper {
    const statisticsStorage: WorkflowStatisticsStorage

    constructor (statisticsStorage: WorkflowStatisticsStorage)
      ensures this.statisticsStorage == statisticsStorage
    {
      this.statisticsStorage := statisticsStorage;
    }

    /** `buildWorkflow`: one single-workflow statistics query, then the detail
        view; a failed query propagates. */
    method BuildWorkflow(s: Serializers, w: Workflow) returns (r: Result<Value, Error>)
      modifies statisticsStorage
      ensures statisticsStorage.singleQueries == old(statisticsStorage.singleQueries) + 1
      ensures statisticsStorage.batchQueries == old(statisticsStorage.batchQueries)
      ensures w.id in statisticsStorage.stored ==>
        r == Success(WorkflowDetail(s, w, statisticsStorage.stored[w.id]))
      ensures w.id !in statisticsStorage.stored ==> r == Failure(StatisticsNotFound(w.id))
    {
      var stats := statisticsStorage.GetWorkflowStats(w.id);
      match stats
      case Success(st) => r := Success(WorkflowDetail(s, w, st));
      case Failure(e) => r := Failure(e);
    }

    /** `buildWorkflowList`: exactly one batched statistics query, issued before
        and outside the per-item map whatever the length of the list (also for
        an empty list), and no single-workflow query. */
    method BuildWorkflowList(s: Serializers, workflows: seq<Slot<Workflow>>) returns (r: Result<Value, Error>)
      modifies statisticsStorage
      ensures statisticsStorage.batchQueries == old(statisticsStorage.batchQueries) + 1
      ensures statisticsStorage.singleQueries == old(statisticsStorage.singleQueries)
      ensures r == WorkflowList(s, workflows, BatchStats(statisticsStorage.stored, Values(workflows)))
    {
      var statistics := statisticsStorage.GetWorkflowStatisticsForWorkflows(Values(workflows));
      r := WorkflowList(s, workflows, statistics);
    }
  }
}
