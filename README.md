# MailPoet automation: `WorkflowMapper`

A Dafny model of `WorkflowMapper`, the serialiser of MailPoet's automation
engine. It turns a `Workflow` aggregate (header fields, author, lifecycle
timestamps and a graph of steps with outgoing `NextStep` edges) into the PHP
array the API returns, in two views:

- the **detail view** (`buildWorkflow`): the header fields, the statistics of
  the one workflow from a single-workflow query, and `steps`, one entry per
  step with its fields and its adjacency list `next_steps`;
- the **list view** (`buildWorkflowList` / `buildWorkflowListItem`): one item
  per workflow with the header fields and statistics only, no `steps`, the
  statistics of all workflows fetched by one batched query before the
  per-item map.

Files:

- `wrappers.dfy` (module `Wrappers`): `Option` and `Result`.
- `php.dfy` (module `Php`): PHP arrays as ordered sequences of `key => value`
  slots, lookup `$a[$k]` and `array_map` over one array (it keeps keys and
  order).
- `automation_data.dfy` (module `AutomationData`): `Workflow`, `Step`,
  `NextStep`, `Author`, `WorkflowStatistics`, the error cases, and
  `Serializers`, the functions whose code is outside the model
  (`DateTimeImmutable::format(W3C)`, `NextStep::toArray`,
  `WorkflowStatistics::toArray`), passed in as function values so that
  nothing is assumed about them.
- `statistics_storage.dfy` (module `StatisticsStorage`): the statistics
  storage as an oracle over a table, with ghost counters of the single and
  batched queries it receives.
- `workflow_mapper.dfy` (module `Mappers`): both views as functions, and the
  `WorkflowMapper` class whose methods issue the statistics queries.
- `workflow_mapper_properties.dfy` (module `MapperProperties`): the
  field-by-field promises of the views and how the views relate.

The mapper's only field, the storage, is set once in the constructor and only
read afterwards; the views are pure functions of the workflow and the
statistics. The class methods exist to count the storage queries: the list
view issues exactly one batched query and no single query, whatever the
length of the list, including an empty list.

A list item that cannot find its workflow's id in the batch result receives
`null` where a `WorkflowStatistics` is required; PHP raises a `TypeError`
there. The model returns `Failure(MissingStatistics(id))` for the first
workflow, in list order, whose id is missing, since `array_map` stops at that
item.

Three details of the code that the model keeps:

- Line 54 issues the batched query once, even for an empty list, and passes
  it every workflow of the list, duplicates included.
- Lines 55-57 use `array_map`, which keeps the keys of the input array, so a
  list keyed `0, 1, 2, ...` gives items under the same integer keys. The same
  holds for `steps` and `next_steps` at lines 38-48.
- Lines 67-68 write `stats` before `activated_at` in a list item, while the
  detail view writes `activated_at` first.

## Model

| member | source | states |
|---|---|---|
| `Mappers.ActivatedAt` | wp-content/plugins/mailpoet/lib/Automation/Engine/Mappers/WorkflowMapper.php:32 | `activated_at` is null if and only if the workflow has no activation time, and otherwise that time formatted |
| `Mappers.WorkflowDetail` | wp-content/plugins/mailpoet/lib/Automation/Engine/Mappers/WorkflowMapper.php:26-49 | the detail array has exactly the keys id, name, status, created_at, updated_at, activated_at, author, stats, steps, in that order, none repeated |
| `Mappers.BuildWorkflowListItem` | wp-content/plugins/mailpoet/lib/Automation/Engine/Mappers/WorkflowMapper.php:60-74 | a list item has exactly the keys id, name, status, created_at, updated_at, stats, activated_at, author, in that order, none repeated; `steps` is not among them |
| `Mappers.AuthorArray` | wp-content/plugins/mailpoet/lib/Automation/Engine/Mappers/WorkflowMapper.php:33-36 | `author` has exactly the keys id and name, in that order, none repeated |
| `Mappers.StepArray` | wp-content/plugins/mailpoet/lib/Automation/Engine/Mappers/WorkflowMapper.php:39-47 | a step entry has exactly the keys id, type, key, args and next_steps, in that order, none repeated |
| `Mappers.ListItems` | wp-content/plugins/mailpoet/lib/Automation/Engine/Mappers/WorkflowMapper.php:55-57 | the per-item map succeeds if and only if every listed id has a batch entry; then it is as long as the input and entry i is the list item of workflow i, under workflow i's key, with that workflow's batch entry; otherwise it fails with the first missing id in list order |
| `Mappers.WorkflowList` | wp-content/plugins/mailpoet/lib/Automation/Engine/Mappers/WorkflowMapper.php:53-58 | the list view succeeds if and only if every listed id is in the batch result; then it has the input's length, keys and order, and item i is built from workflow i and its batch entry; otherwise it names the first missing id |
| `Mappers.WorkflowMapper.constructor` | wp-content/plugins/mailpoet/lib/Automation/Engine/Mappers/WorkflowMapper.php:19-23 | the mapper keeps the storage it is given |
| `Mappers.WorkflowMapper.BuildWorkflow` | wp-content/plugins/mailpoet/lib/Automation/Engine/Mappers/WorkflowMapper.php:25-50 | one single-workflow query and no batched query; the detail view with the stored statistics, or the query's not-found failure propagated |
| `Mappers.WorkflowMapper.BuildWorkflowList` | wp-content/plugins/mailpoet/lib/Automation/Engine/Mappers/WorkflowMapper.php:53-58 | exactly one batched query, over all the listed workflows, and no single-workflow query, for any list length; the result is the list view over that one batch result |
| `StatisticsStorage.BatchStats` | wp-content/plugins/mailpoet/lib/Automation/Engine/Mappers/WorkflowMapper.php:54 | the batch result holds an entry for a requested id exactly when the storage has statistics for it, and that entry is the stored one |
| `StatisticsStorage.WorkflowStatisticsStorage.GetWorkflowStats` | wp-content/plugins/mailpoet/lib/Automation/Engine/Mappers/WorkflowMapper.php:37 | counts one single-workflow query; answers the stored statistics or not-found |
| `StatisticsStorage.WorkflowStatisticsStorage.GetWorkflowStatisticsForWorkflows` | wp-content/plugins/mailpoet/lib/Automation/Engine/Mappers/WorkflowMapper.php:54 | counts one batched query; answers the batch result for the given workflows |
| `Php.ArrayMap` | wp-content/plugins/mailpoet/lib/Automation/Engine/Mappers/WorkflowMapper.php:44-46 | `array_map` over one array: same length, and slot i keeps input slot i's key and holds the callback applied to its value |
| `Php.Lookup` | wp-content/plugins/mailpoet/lib/Automation/Engine/Mappers/WorkflowMapper.php:26-49 | reading a key of an emitted array (the reader the property lemmas use): no value exactly when the key is absent, otherwise the value of a slot with that key |
| `Php.LookupDistinct` | wp-content/plugins/mailpoet/lib/Automation/Engine/Mappers/WorkflowMapper.php:26-49 | in an array literal without repeated keys, reading a key yields the value written under it |
| `MapperProperties.DetailHeader` | wp-content/plugins/mailpoet/lib/Automation/Engine/Mappers/WorkflowMapper.php:26-37 | id, name and status copied verbatim, created_at and updated_at formatted, author is exactly `{id, name}` from the user's ID and display name, stats is the `toArray()` of the fetched statistics |
| `MapperProperties.AuthorFields` | wp-content/plugins/mailpoet/lib/Automation/Engine/Mappers/WorkflowMapper.php:33-36 | `author` holds exactly two fields, the user's ID and display name |
| `MapperProperties.DetailStepCount` | wp-content/plugins/mailpoet/lib/Automation/Engine/Mappers/WorkflowMapper.php:38-48 | `steps` has as many entries as the workflow has steps, with the same keys in the same order |
| `MapperProperties.DetailStepAt` | wp-content/plugins/mailpoet/lib/Automation/Engine/Mappers/WorkflowMapper.php:38-48 | entry i of `steps` has exactly the keys id, type, key, args and next_steps, and carries step i's key, id, type, key and args unchanged, and its `next_steps` is the element-wise `toArray()` of the step's edges with the same length, keys and order |
| `MapperProperties.StepEntryIsLocal` | wp-content/plugins/mailpoet/lib/Automation/Engine/Mappers/WorkflowMapper.php:44-46 | a step's entry depends on that step alone: edges are emitted one hop deep and targets are never followed, so cycles and shared targets are harmless |
| `MapperProperties.ActivatedAtNullIffAbsent` | wp-content/plugins/mailpoet/lib/Automation/Engine/Mappers/WorkflowMapper.php:68 | in both views `activated_at` is null if and only if there is no activation time, and otherwise that time formatted |
| `MapperProperties.ListItemHasNoSteps` | wp-content/plugins/mailpoet/lib/Automation/Engine/Mappers/WorkflowMapper.php:61-73 | reading `steps` from a list item finds no key at all (absent, not empty); its keys are exactly the eight header keys |
| `MapperProperties.ViewsAgree` | wp-content/plugins/mailpoet/lib/Automation/Engine/Mappers/WorkflowMapper.php:61-72 | for the same workflow and statistics, every field of the list item equals the detail view's field of the same name, and the detail view adds only `steps` |
| `MapperProperties.EmptyList` | wp-content/plugins/mailpoet/lib/Automation/Engine/Mappers/WorkflowMapper.php:53-57 | an empty list gives an empty array |
| `MapperProperties.ListAgreesWithDetail` | wp-content/plugins/mailpoet/lib/Automation/Engine/Mappers/WorkflowMapper.php:54-56 | over one storage, the list view succeeds exactly when the single lookup succeeds for every listed workflow, and then item i agrees on every header field, stats included, with the detail view of workflow i |
| `MapperProperties.MissingEntryFails` | wp-content/plugins/mailpoet/lib/Automation/Engine/Mappers/WorkflowMapper.php:56 | workflows 5 and 7 with statistics stored only for 5: the list view fails naming 7 and emits no item with empty statistics |

## Left out

- The `ABSPATH` guard at the top of the file: a WordPress loading check, not mapping logic.
- Timestamp formatting (`DateTimeImmutable::format` with the W3C profile of ISO 8601), `NextStep::toArray` and `WorkflowStatistics::toArray`: library and entity code outside this model, taken as arbitrary functions.
- The step `args` payload: carried as an opaque value, never interpreted.
- The statistics storage's queries: not part of this model. The storage is a table of stored statistics; the single query answers not-found for an id without stored statistics, and the batched query answers the table restricted to the requested ids. The real storage may instead fill in zero counters.
- The `WP_User` author beyond `ID` and `display_name`.
- JSON encoding and the HTTP layer that consumes the arrays.
- PHP's warning "Undefined array key" that precedes the `TypeError` for a missing batch entry: both are folded into one failure.
- Mappers.WorkflowMapper.BuildWorkflowList: accepts a workflow array with string keys and keeps those keys. In the code, the spread `...$workflows` at line 54 rejects such an array before the query (PHP 7: "Cannot unpack array with string keys"; PHP 8: a string key followed by an integer key is refused too). Callers pass integer-keyed lists, where the model and the code agree.
- The graph invariants of a workflow (edge targets exist, step ids unique): the mapper neither checks nor relies on them.
