/** What the two views of `WorkflowMapper` promise, field by field, and how
    they relate to each other and to the statistics storage. */
module MapperProperties {
  import opened Wrappers
  import opened Php
  import opened AutomationData
  import opened StatisticsStorage
  import opened Mappers

  /** `Get(v, k)` when `v` is an array without repeated keys whose slot `i`
      has the key `k`. */
  lemma FieldAt(v: Value, i: nat, k: string)
    requires v.Arr? && DistinctKeys(v.slots)
    requires i < |v.slots| && v.slots[i].key == StrKey(k)
    ensures Get(v, k) == Some(v.slots[i].value)
  {
    LookupDistinct(v.slots, i);
  }

  /** The items of the array stored under `k` in `v`, when there is one. */
  function ItemsAt(v: Value, k: string): (items: Option<seq<Slot<Value>>>)
  {
    match Get(v, k)
    case Some(Arr(items)) => Some(items)
    case _ => None
  }

  /** Detail view: id, name and status are copied verbatim, the timestamps
      formatted, the author reduced to its id and display name, and `stats` is
      the `toArray()` of the fetched statistics. */
  lemma DetailHeader(s: Serializers, w: Workflow, stats: WorkflowStatistics)
    ensures var d := WorkflowDetail(s, w, stats);
      && Get(d, "id") == Some(Int(w.id))
      && Get(d, "name") == Some(Str(w.name))
      && Get(d, "status") == Some(Str(w.status))
      && Get(d, "created_at") == Some(Str(s.formatW3C(w.createdAt)))
      && Get(d, "updated_at") == Some(Str(s.formatW3C(w.updatedAt)))
      && Get(d, "stats") == Some(s.statisticsToArray(stats))
      && AuthorIs(Get(d, "author"), w.author)
  {
    var d := WorkflowDetail(s, w, stats);
    FieldAt(d, 0, "id");
    FieldAt(d, 1, "name");
    FieldAt(d, 2, "status");
    FieldAt(d, 3, "created_at");
    FieldAt(d, 4, "updated_at");
    FieldAt(d, 6, "author");
    AuthorFields(w.author);
    FieldAt(d, 7, "stats");
  }

  /** `author` holds exactly `{id: ID, name: display_name}`. */
  predicate AuthorIs(v: Option<Value>, a: Author)
  {
    && v.Some?
    && Get(v.value, "id") == Some(Int(a.id))
    && Get(v.value, "name") == Some(Str(a.displayName))
    && v.value.Arr? && |v.value.slots| == 2
  }

  lemma AuthorFields(a: Author)
    ensures AuthorIs(Some(AuthorArray(a)), a)
  {
    var v := AuthorArray(a);
    FieldAt(v, 0, "id");
    FieldAt(v, 1, "name");
  }

  /** Detail view: `steps` has one entry per step, in the same order and
      under the same keys. */
  lemma DetailStepCount(s: Serializers, w: Workflow, stats: WorkflowStatistics)
    ensures var steps := ItemsAt(WorkflowDetail(s, w, stats), "steps");
      && steps.Some?
      && |steps.value| == |w.steps|
      && Keys(steps.value) == Keys(w.steps)
  {
  }

  /** Detail view: entry `i` of `steps` has exactly the keys id, type, key,
      args and next_steps, carries step `i`'s id, type, key and args unchanged, and its `next_steps` is the element-wise `toArray()` of
      the step's edges, same length, order and keys. Only this step is read:
      edge targets are not followed, so cycles and shared targets are harmless. */
  lemma {:induction false} DetailStepAt(s: Serializers, w: Workflow, stats: WorkflowStatistics, i: nat)
    requires i < |w.steps|
    ensures var steps := ItemsAt(WorkflowDetail(s, w, stats), "steps");
      && steps.Some? && i < |steps.value|
      && var step := w.steps[i].value;
      && var entry := steps.value[i];
      && entry.key == w.steps[i].key
      && entry.value.Arr?
      && Keys(entry.value.slots) == [StrKey("id"), StrKey("type"), StrKey("key"), StrKey("args"), StrKey("next_steps")]
      && Get(entry.value, "id") == Some(Str(step.id))
      && Get(entry.value, "type") == Some(Str(step.stepType))
      && Get(entry.value, "key") == Some(Str(step.key))
      && Get(entry.value, "args") == Some(step.args)
      && var next := ItemsAt(entry.value, "next_steps");
      && next.Some?
      && |next.value| == |step.nextSteps|
      && forall j :: 0 <= j < |step.nextSteps| ==>
           next.value[j] == Slot(step.nextSteps[j].key, s.nextStepToArray(step.nextSteps[j].value))
  {
    DetailStepCount(s, w, stats);
    var entry := StepArray(s, w.steps[i].value);
    FieldAt(entry, 0, "id");
    FieldAt(entry, 1, "type");
    FieldAt(entry, 2, "key");
    FieldAt(entry, 3, "args");
    FieldAt(entry, 4, "next_steps");
  }

  /** Detail view: a step's entry depends on that step alone, not on the
      other steps of the workflow nor on whether its edges' targets exist. */
  lemma StepEntryIsLocal(
    s: Serializers, w1: Workflow, w2: Workflow, stats1: WorkflowStatistics, stats2: WorkflowStatistics, i: nat)
    requires i < |w1.steps| && i < |w2.steps| && w1.steps[i] == w2.steps[i]
    ensures var steps1 := ItemsAt(WorkflowDetail(s, w1, stats1), "steps");
      var steps2 := ItemsAt(WorkflowDetail(s, w2, stats2), "steps");
      && steps1.Some? && steps2.Some? && i < |steps1.value| && i < |steps2.value|
      && steps1.value[i] == steps2.value[i]
  {
  }

  /** `activated_at` is null exactly when the workflow has no activation time,
      and otherwise that time formatted, in both views. */
  lemma ActivatedAtNullIffAbsent(s: Serializers, w: Workflow, stats: WorkflowStatistics)
    ensures Get(WorkflowDetail(s, w, stats), "activated_at") == Some(ActivatedAt(s, w))
    ensures Get(BuildWorkflowListItem(s, w, stats), "activated_at") == Some(ActivatedAt(s, w))
    ensures Get(WorkflowDetail(s, w, stats), "activated_at") == Some(Null) <==> w.activatedAt.None?
    ensures Get(BuildWorkflowListItem(s, w, stats), "activated_at") == Some(Null) <==> w.activatedAt.None?
    ensures w.activatedAt.Some? ==>
      Get(BuildWorkflowListItem(s, w, stats), "activated_at") == Some(Str(s.formatW3C(w.activatedAt.value)))
  {
  }

  /** A list item has exactly the eight header keys and no `steps` key at all
      (absent, not an empty list). */
  lemma ListItemHasNoSteps(s: Serializers, w: Workflow, stats: WorkflowStatistics)
    ensures Get(BuildWorkflowListItem(s, w, stats), "steps") == None
    ensures forall k :: StrKey(k) in Keys(BuildWorkflowListItem(s, w, stats).slots) <==> StrKey(k) in ListItemKeys
  {
  }

  /** The two views agree: every key of the list item is a key of the detail
      view with the same value, and the detail view adds only `steps`. */
  lemma {:induction false} ViewsAgree(s: Serializers, w: Workflow, stats: WorkflowStatistics)
    ensures forall k :: StrKey(k) in ListItemKeys ==>
      Get(BuildWorkflowListItem(s, w, stats), k) == Get(WorkflowDetail(s, w, stats), k)
    ensures forall k :: StrKey(k) in DetailKeys <==> StrKey(k) in ListItemKeys || k == "steps"
  {
    var d := WorkflowDetail(s, w, stats);
    var item := BuildWorkflowListItem(s, w, stats);
    forall k | StrKey(k) in ListItemKeys
      ensures Get(item, k) == Get(d, k)
    {
      var i :| 0 <= i < |ListItemKeys| && ListItemKeys[i] == StrKey(k);
      var j := if i < 5 then i else if i == 5 then 7 else i - 1;
      assert d.slots[j].key == StrKey(k);
      FieldAt(item, i, k);
      FieldAt(d, j, k);
    }
  }

  /** An empty list gives an empty array (the batched query is still issued once). */
  lemma EmptyList(s: Serializers, batch: map<int, WorkflowStatistics>)
    ensures WorkflowList(s, [], batch) == Success(Arr([]))
  {
  }

  /** End to end over one storage: the list view succeeds exactly when every
      listed workflow has stored statistics, which is exactly when the detail
      view of each listed workflow succeeds; and then item `i` agrees on every
      header field with the detail view of workflow `i`, so both views show
      the same statistics. */
  lemma {:induction false} ListAgreesWithDetail(
    s: Serializers, stored: map<int, WorkflowStatistics>, workflows: seq<Slot<Workflow>>)
    ensures var list := WorkflowList(s, workflows, BatchStats(stored, Values(workflows)));
      && (list.Success? <==> forall i :: 0 <= i < |workflows| ==> SingleStats(stored, workflows[i].value.id).Success?)
      && (list.Success? ==>
            list.value.Arr? && |list.value.slots| == |workflows|
            && forall i, k :: 0 <= i < |workflows| && StrKey(k) in ListItemKeys ==>
                 Get(list.value.slots[i].value, k)
                 == Get(WorkflowDetail(s, workflows[i].value, SingleStats(stored, workflows[i].value.id).value), k))
  {
    var ws := Values(workflows);
    var batch := BatchStats(stored, ws);
    assert forall i :: 0 <= i < |workflows| ==> workflows[i].value.id in WorkflowIds(ws) by {
      forall i | 0 <= i < |workflows| ensures workflows[i].value.id in WorkflowIds(ws) {
        assert ws[i] == workflows[i].value;
      }
    }
    var list := WorkflowList(s, workflows, batch);
    if list.Success? {
      forall i, k | 0 <= i < |workflows| && StrKey(k) in ListItemKeys
        ensures Get(list.value.slots[i].value, k)
                == Get(WorkflowDetail(s, workflows[i].value, SingleStats(stored, workflows[i].value.id).value), k)
      {
        var w := workflows[i].value;
        ViewsAgree(s, w, stored[w.id]);
      }
    }
  }

  /** A batch result lacking one listed id makes the whole list fail with that
      id; no item is emitted with empty or zeroed statistics. */
  lemma MissingEntryFails()
    ensures var s := Serializers((t: DateTime) => "", (n: NextStep) => Null, (st: WorkflowStatistics) => Null);
      var w5 := Workflow(5, "Welcome Series", "active", DateTime(0, 0), DateTime(0, 0), None, Author(1, "admin"), []);
      var w7 := w5.(id := 7, name := "Re-engagement");
      var stored := map[5 := WorkflowStatistics(5, map["sent" := 100, "opened" := 40])];
      var workflows := [Slot(IntKey(0), w5), Slot(IntKey(1), w7)];
      WorkflowList(s, workflows, BatchStats(stored, Values(workflows))) == Failure(MissingStatistics(7))
  {
    var w5 := Workflow(5, "Welcome Series", "active", DateTime(0, 0), DateTime(0, 0), None, Author(1, "admin"), []);
    var w7 := w5.(id := 7, name := "Re-engagement");
    var workflows := [Slot(IntKey(0), w5), Slot(IntKey(1), w7)];
    assert WorkflowIds(Values(workflows)) == {5, 7} by {
      assert Values(workflows)[0] == w5 && Values(workflows)[1] == w7;
    }
  }
}
