# Task planner and scheduler, modelled in Dafny

This project models the engine of a goal-to-plan task manager in Dafny and
proves properties of it. The engine has three parts:

- **Scheduler** (`scheduler.dfy`, from `scheduler.ts`). It takes a batch of
  tasks with durations and dependency ids. A Kahn topological sort orders
  them, and a batch containing a cycle is rejected with "Cyclic dependency
  detected in tasks". Each task is then dated in that order. It starts on
  the later of the batch start and the latest end of its dependencies, and
  lasts `max(1, duration)` days. Last, the span of the batch is measured.
  The model is imperative: a loop over a queue with in-degree maps, a
  second loop over the sorted ids with start/end maps, and a final min/max
  over the dated tasks.
  The main results are:
  - the batch is scheduled exactly when its dependency lists are well formed
    and a topological order exists;
  - the dates satisfy the start rule, and that rule determines them uniquely;
  - the span starts on the batch start.
- **Task service** (`task_service.dfy`, from `taskService.ts`). This part
  covers:
  - the priority score, which adds an urgency band, priority points and a
    bonus for short tasks;
  - the "by priority" ranking: the pending tasks, stably sorted by
    descending score;
  - the loop that generates recurring task instances, over a table of rows;
  - the builder of the SET list and bound values of a task update.
- **Planner** (`planner.dfy`, from `planner.ts`). This part covers:
  - the timeframe parser: `(\d+)\s*(day|days|week|weeks|month|months)` on
    the lower-cased goal;
  - the keyword templates;
  - the planning pipeline: normalise the drafts into tasks, resolve
    dependency titles to ids (case-insensitive, last title wins, unknown
    titles dropped), rescale the durations to the timeframe, and fall back
    to a sequential chain when no task has a dependency. The pipeline is
    modelled twice: with the rescaling exactly as written
    (`PlanTasksAsWritten`), and with the rescaling corrected as Findings
    describes (`PlanTasks`).

`tasks.dfy` holds the shared `Task` record, `Option`, and a few facts about
sets of ids.

Ids are parameters: the `randomUUID` values of the service are given as a
sequence of distinct ids. Dates are whole day numbers. The current day is
a parameter `today`. The LLM's reply is a parameter `generated`: `None`
means the service fell back to the keyword templates.

The comment at planner.ts:131 says that rescaling makes the durations add
up to the timeframe exactly. The code does this only when the last task
can absorb the rounding drift (see Findings). `Planner.Rescale` models
the code as written. The planning pipeline modelled here uses the
corrected rescaling, `Planner.RescaleExactly`.

## Model

| member | source | states |
|---|---|---|
| Scheduler.Length | scheduler.ts:45 | a task occupies at least one day and at least its duration; exactly its duration when that is 1 or more |
| Scheduler.InDegrees | scheduler.ts:8-10 | each task's in-degree starts as the number of entries in its dependency list, repeated entries counted each time |
| Scheduler.Decrement | scheduler.ts:19-24 | placing a dependency lowers its dependent's count of unplaced dependency entries by one, and that count was not already zero |
| Scheduler.ReleaseStep | scheduler.ts:19-24 | one step of the release loop: a task listing the placed id has its in-degree lowered by one and joins the queue when it reaches zero; other tasks are untouched |
| Scheduler.ReleaseDependents | scheduler.ts:19-25 | after the release loop, every dependent of the placed id has its in-degree lowered and the queue has only grown, keeping the loop invariant |
| Scheduler.PlaceHead | scheduler.ts:17-18 | the task taken from the head of the queue is not yet sorted and has all of its dependencies already sorted |
| Scheduler.QueueHeadReady | scheduler.ts:16-18 | the id at the head of the queue is a task of the batch whose dependencies are all placed |
| Scheduler.KahnDone | scheduler.ts:16-28 | when the loop has placed every task, the order is topological and every dependency list is well formed |
| Scheduler.KahnComplete | scheduler.ts:16-28 | if a topological order exists, the Kahn loop places every task |
| Scheduler.KahnStuck | scheduler.ts:28-30 | if the loop stops with tasks unplaced, no topological order exists, so the cycle error is raised only for batches that cannot be ordered |
| Scheduler.TopologicalSort | scheduler.ts:4-30 | the sort places every task exactly when the batch is schedulable, and then its order is topological |
| Scheduler.EarliestStart | scheduler.ts:38-42 | the earliest start is at least the batch start and every known dependency end, and is the batch start or one of those ends |
| Scheduler.AssignDates | scheduler.ts:36-51 | the date loop dates every task: its end is its start plus its length, and its start follows the start rule |
| Scheduler.DatesToSchedule | scheduler.ts:36-53 | the dated tasks, read back in input order, form a schedule that obeys the start rule |
| Scheduler.DateInOrder | scheduler.ts:32-58 | dating in a topological order yields a schedule in input order that obeys the start rule, with its span |
| Scheduler.MinStart | scheduler.ts:54 | the overall start is the earliest start date of the batch and belongs to one of its tasks |
| Scheduler.MaxEnd | scheduler.ts:55 | the overall end is the latest end date of the batch and belongs to one of its tasks |
| Scheduler.MeasureSpan | scheduler.ts:53-56 | the span runs from the earliest start to the latest end, and its day count is their difference |
| Scheduler.ScheduleTasks | scheduler.ts:3-59 | the batch is scheduled exactly when it is schedulable, and otherwise the cycle error is reported; a schedule keeps the input order, dates every task by the start rule, and carries its span |
| Scheduler.LatestEndBounds | scheduler.ts:38-42 | the latest dependency end is at least the batch start and every dependency's end, and is the batch start or one of those ends |
| Scheduler.StartIsLatestDependencyEnd | scheduler.ts:38-43 | in a valid schedule each task starts on the later of the batch start and its latest dependency end |
| Scheduler.LatestEndDependsOnDeps | scheduler.ts:39-42 | a task's earliest start depends only on the end dates of its own dependencies |
| Scheduler.ScheduleIsUnique | scheduler.ts:36-51 | a schedulable batch has exactly one schedule that obeys the start rule |
| Scheduler.RootStartsAtBatchStart | scheduler.ts:38-43 | in a non-empty schedulable batch some task starts on the batch start |
| Scheduler.SpanStartsAtBatchStart | scheduler.ts:53-56 | the span of a non-empty schedulable batch starts on the batch start and covers at least one day |
| Scheduler.DependencyPrecedes | scheduler.ts:16-26 | in a topological order every dependency comes before its dependent |
| Scheduler.SelfDependencyRejected | scheduler.ts:10-29 | a task that depends on itself makes the batch unschedulable |
| Scheduler.MutualDependencyRejected | scheduler.ts:10-29 | two tasks that depend on each other make the batch unschedulable |
| Scheduler.UnknownDependencyRejected | scheduler.ts:10-29 | a dependency id outside the batch makes the batch unschedulable, because that task's in-degree never reaches zero |
| Scheduler.RepeatedDependencyRejected | scheduler.ts:10-29 | a dependency listed twice makes the batch unschedulable: it is counted twice but released once |
| Scheduler.ExampleIsSchedulable | scheduler.ts:3-30 | a three-task batch where two tasks depend on the first is schedulable |
| Scheduler.ExampleDates | scheduler.ts:36-51 | in that batch the first task runs on days 0-2 and both dependents start on day 2 |
| Scheduler.ScheduleExample | scheduler.ts:3-59 | scheduling that batch from day 0 gives the dates above and the span (0, 5, 5 days) |
| TaskService.DaysUntilDue | taskService.ts:233-235 | the days until the due date count from today to the end date; a task without an end date is due now (0 days) |
| TaskService.Urgency | taskService.ts:238-243 | urgency is one of 20, 40, 60, 80 or 100 |
| TaskService.UrgencyByThresholds | taskService.ts:238-243 | urgency is 100 minus 20 for each of the thresholds 0, 1, 3 and 7 days that the due date lies beyond |
| TaskService.UrgencyMonotone | taskService.ts:238-243 | a nearer due date never gives a lower urgency |
| TaskService.PriorityPoints | taskService.ts:246-251 | priority is worth 10, 20 or 30 points |
| TaskService.DurationBonus | taskService.ts:254 | the short-task bonus is never negative, and is 0 or 10 minus the duration |
| TaskService.PriorityScore | taskService.ts:232-257 | the score is at least 30, and at most 139 for a task of one day or more |
| TaskService.EarlierDueNeverLowersScore | taskService.ts:234-243 | moving the due date earlier, or removing it, never lowers the score |
| TaskService.HigherPriorityScoresHigher | taskService.ts:246-251 | a higher priority always scores strictly higher, all else equal |
| TaskService.ShorterNeverLowersScore | taskService.ts:254 | a shorter duration never lowers the score |
| TaskService.RankingScenario | taskService.ts:232-257 | an overdue two-day high-priority task scores 138, and the same task due in ten days scores 58 |
| TaskService.PendingOnly | taskService.ts:260 | the filter keeps exactly the pending tasks, each as often as it appears |
| TaskService.Insert | taskService.ts:261 | inserting adds the entry and nothing else |
| TaskService.InsertRanked | taskService.ts:261 | inserting into a ranked sequence keeps it ranked |
| TaskService.SortByKey | taskService.ts:261 | the sort is a permutation and ranks by descending key |
| TaskService.InsertWithKey | taskService.ts:261 | inserting an entry puts it ahead of the entries with its key and keeps their order |
| TaskService.SortIsStable | taskService.ts:261 | the sort keeps the input order among entries with equal keys |
| TaskService.RankedStableUnique | taskService.ts:261 | two ranked sequences with the same entries, in the same order within each key, are equal |
| TaskService.RankedByScore | taskService.ts:261 | a sequence ranked by score has non-increasing scores |
| TaskService.TasksByPriority | taskService.ts:259-262 | the ranking holds exactly the pending tasks, with multiplicity, in non-increasing score order |
| TaskService.RankingIsStableSort | taskService.ts:259-262 | the ranking keeps storage order among equal scores, and it is the only ranked arrangement of the pending tasks that does |
| TaskService.StepDays | taskService.ts:309-319 | for a frequency value of 1 or more, the step is at least that value (days, weeks of 7, months of 30) |
| TaskService.Limit | taskService.ts:292 | generation stops at the end date, or 30 days after now when there is none |
| TaskService.Occurrences | taskService.ts:294-295 | there is no occurrence exactly when the start is not before the limit |
| TaskService.OccurrencesInWindow | taskService.ts:294-320 | the occurrence dates start at the start date, increase, stay before the limit, and one more step would reach it |
| TaskService.OccurrencesAreSteps | taskService.ts:308-319 | the k-th occurrence is the start date plus k steps |
| TaskService.MissingRows | taskService.ts:299-306 | every added row is a fresh pending instance of the recurring task on one of the occurrence dates |
| TaskService.MissingRowsAreMissing | taskService.ts:300-301 | rows are added only for dates without an existing instance |
| TaskService.AddedRowsAreEarlier | taskService.ts:300 | rows added for earlier dates do not change whether the current date already has an instance |
| TaskService.MissingRowsSnoc | taskService.ts:299-306 | one more occurrence adds one row exactly when its date has no instance |
| TaskService.OccurrencesSnoc | taskService.ts:294-320 | advancing by one step moves the current date from the remaining occurrences to the visited ones |
| TaskService.GenerationStep | taskService.ts:295-320 | one turn of the loop keeps the table equal to the stored rows plus the missing rows of the visited dates |
| TaskService.StepThroughOccurrences | taskService.ts:294-320 | the loop appends, in date order, one instance for each occurrence date that had none |
| TaskService.GenerateRecurringInstances | taskService.ts:287-321 | an unknown recurring task leaves the table unchanged; otherwise the table gains exactly the missing rows of the occurrence dates |
| TaskService.MissingRowsIncreasing | taskService.ts:294-320 | the added rows have strictly increasing dates |
| TaskService.GenerationKeepsDatesUnique | taskService.ts:299-306 | if the stored rows have at most one instance per date, so does the table after generation |
| TaskService.MissingRowsCover | taskService.ts:294-306 | after generation every occurrence date has an instance |
| TaskService.MissingRowsNone | taskService.ts:299-306 | when every date already has an instance, nothing is added |
| TaskService.GenerationIsIdempotent | taskService.ts:299-306 | running generation a second time adds nothing |
| TaskService.BindsIffPlaceholder | taskService.ts:73-101 | an assignment binds a value exactly when its text ends in a placeholder |
| TaskService.ClauseTextInjective | taskService.ts:73-101 | distinct assignments have distinct SQL texts |
| TaskService.BoundValue | taskService.ts:73-99 | an assignment binds one value when it is requested and has a placeholder, and that value is the one the update gives |
| TaskService.RequiredInOrder | taskService.ts:73-101 | the reference SET list keeps the fixed order of the assignments |
| TaskService.RequiredMembers | taskService.ts:73-101 | the reference SET list holds exactly the requested assignments |
| TaskService.BindsExtend | taskService.ts:73-99 | adding an assignment and its bound value keeps placeholders and values in step |
| TaskService.RequiredBinds | taskService.ts:73-102 | the k-th placeholder of the reference list binds the k-th value, and that value is the update's |
| TaskService.ContentAssignments | taskService.ts:73-84 | the title, description and priority assignments are those requested, with their values |
| TaskService.StateAssignments | taskService.ts:85-99 | the status, completion-stamp, start and end assignments follow, with their values |
| TaskService.BuildUpdate | taskService.ts:69-103 | the SET list holds exactly the requested assignments in the fixed order and ends with the update stamp; each placeholder binds the update's value in order, and the task id comes last |
| Planner.Lower | planner.ts:6 | lower-casing keeps the length and maps each character on its own |
| Planner.DigitsEnd | planner.ts:7 | the digit run starting at a position is taken whole |
| Planner.SpacesEnd | planner.ts:7 | the blank run starting at a position is taken whole |
| Planner.Number | planner.ts:11 | the number read from the digits is never negative |
| Planner.FirstMatch | planner.ts:7 | the match found is the leftmost one, and none is found only when the text has no match |
| Planner.ExtractTimeframeDays | planner.ts:5-18 | the timeframe is absent exactly when the lower-cased goal has no match, and at least 1 day when present |
| Planner.TimeframeIsLeftmost | planner.ts:7-17 | the timeframe is the count of the leftmost match times 1, 7 or 30 for its unit, raised to at least 1 |
| Planner.TimeframeExample | planner.ts:5-18 | "Run 2 Weeks" names a timeframe of 14 days |
| Planner.MatchInsideRun | planner.ts:7 | a match at a later digit of a run means there is also a match at the earlier digit |
| Planner.LeftmostMatchStartsRun | planner.ts:7 | the leftmost match starts at the beginning of a digit run |
| Planner.CategoryOf | planner.ts:24-98 | the template chosen is the first category in the fixed order whose keyword the goal contains, and the general one when the goal contains none |
| Planner.SizeDays | planner.ts:27 | a template step lasts at least one day |
| Planner.Window | planner.ts:22 | the templates size their steps from a window of at least one day: the goal's timeframe when it names one, and a week when it names none |
| Planner.HeuristicDraft | planner.ts:20-105 | the drafts follow the chosen template step by step: same titles and priorities, no dependencies, and each duration the step's days in the goal's window (its whole-day percentage share raised to 1, or one day), so a whole number of at least one day |
| Planner.TemplateDrafts | planner.ts:20-105 | a template becomes one draft per step, in order, each sized from that step in the given window |
| Planner.StepDraft | planner.ts:27 | a step's draft keeps its title and priority, has no dependencies, and lasts the step's days in the window |
| Planner.Ceil | planner.ts:116 | rounding up gives the least whole number not below the value |
| Planner.DraftDays | planner.ts:116 | a draft's duration is rounded up and raised to at least 1 day; a missing duration gives 1 day |
| Planner.Normalize | planner.ts:112-119 | a normalised task lasts at least a day and has no dependencies yet |
| Planner.Normalized | planner.ts:112-119 | the drafts become tasks one for one, with the given ids in order |
| Planner.TitleIndexLastWins | planner.ts:121-122 | every lower-cased title is indexed, to the id of the last task with that title |
| Planner.TitleIndexValues | planner.ts:121-122 | the index maps only to ids of the batch |
| Planner.IndexTitles | planner.ts:121-122 | the loop builds the title index |
| Planner.Resolve | planner.ts:126-128 | every resolved dependency is a non-empty id found in the title index |
| Planner.ResolveKnown | planner.ts:126-128 | titles that are all known resolve one for one to their indexed ids |
| Planner.ResolveUnknown | planner.ts:126-128 | titles that are all unknown are dropped |
| Planner.ResolveAppend | planner.ts:126-128 | resolving is done title by title: resolving two lists one after the other gives the resolutions of each, in order, so known titles keep their ids and places and unknown ones are dropped wherever they stand |
| Planner.AttachDependencies | planner.ts:123-129 | each task gets the resolved dependency titles of its own draft, and nothing else changes |
| Planner.TotalAtLeastCount | planner.ts:134 | tasks of at least a day each add up to at least one day per task |
| Planner.RoundHalfUp | planner.ts:139 | rounding gives the whole number nearest the quotient, halves going up |
| Planner.Scaled | planner.ts:139 | a scaled duration is at least 1 day |
| Planner.ScaledAll | planner.ts:138-141 | scaling changes each task's duration to its scaled value and nothing else |
| Planner.ScaleDurations | planner.ts:136-141 | the scaling loop scales every duration and sums the new durations |
| Planner.FittedTotal | planner.ts:133-146 | the rescaled tasks differ only in duration and each lasts at least a day; all but the last keep their scaled duration; the last absorbs the drift, raised to 1; the total never falls short of the timeframe, and equals it exactly when the last task needed no raising |
| Planner.Rescale | planner.ts:131-148 | the rescaling step as written: nothing changes without a timeframe, without tasks, or when the total already matches; otherwise the durations are fitted as above |
| Planner.RescaleExample | planner.ts:131-148 | durations [2, 2, 2] rescaled to 10 days become [3, 3, 4] |
| Planner.RescaleOvershoots | planner.ts:142-146 | durations [5, 1] rescaled to 2 days become [2, 1], which is 3 days |
| Planner.TrimShape | planner.ts:131-148 | trimming changes only durations, and keeps each between 1 and its old value |
| Planner.TrimStep | planner.ts:131-148 | one trimming step takes days off the last task first and passes the rest of the excess on |
| Planner.TrimTakesExcess | planner.ts:131-148 | trimming takes off exactly the excess when the tasks have that many days above one day each |
| Planner.TrimBottomsOut | planner.ts:131-148 | trimming by more than the tasks have above one day each leaves every task at one day |
| Planner.TrimToTarget | planner.ts:131-148 | trimming to a target never falls short of it, and meets it when there are no more tasks than days |
| Planner.FittedExactlyTotal | planner.ts:131-148 | the corrected rescaling changes only durations, keeps each at least 1, never falls short of the timeframe, and meets it exactly when there are no more tasks than days |
| Planner.RescaleExactly | planner.ts:131-148 | the corrected step is the step as written followed by trimming the excess over the timeframe |
| Planner.CorrectedRescaleFits | planner.ts:131-148 | with the correction, durations [5, 1] rescaled to 2 days become [1, 1] |
| Planner.ChainIfUnlinked | planner.ts:150-156 | if no task has a dependency, the tasks are chained, each after its predecessor; otherwise every dependency list stays as it is; nothing else changes |
| Planner.ChainIsSchedulable | planner.ts:150-156 | a chain over distinct ids is accepted by the scheduler |
| Planner.Resolved | planner.ts:112-129 | each task is its normalised draft with the dependencies its draft's titles resolve to |
| Planner.ResolveDrafts | planner.ts:111-129 | normalising and resolving keeps the ids in order, and every dependency is an id of the batch |
| Planner.TemplateHasNoDeps | planner.ts:20-105 | template drafts give tasks without dependencies |
| Planner.RescaleAsWrittenKeeps | planner.ts:131-148 | the rescaling as written keeps everything but durations and keeps them at least 1; it changes nothing when no rescaling is needed; it never falls short of the timeframe, and after rescaling meets it exactly when the last task absorbs the drift |
| Planner.RescaleKeeps | planner.ts:131-148 | the corrected rescaling keeps everything but durations, keeps them at least 1, never falls short of the timeframe, and meets it when there are no more tasks than days |
| Planner.ChainKeeps | planner.ts:150-156 | the chain step keeps the ids, the durations and every dependency inside the batch; it keeps the dependencies when any task had one, and makes a chain otherwise |
| Planner.PipelineKeeps | planner.ts:111-158 | the three steps together give tasks with the given ids, at least a day each, dependencies inside the batch, and the timeframe met |
| Planner.PlanDrafts | planner.ts:111-158 | planning drafts keeps titles, descriptions and priorities, assigns the ids in order, and keeps every duration at least 1 with all dependencies inside the batch; the total meets the timeframe when there are no more tasks than days and never falls short of it; given dependencies are kept, and otherwise the tasks form a chain |
| Planner.PlanTasks | planner.ts:107-159 | the same for a goal, with the timeframe parsed from it and the template drafts used when nothing was generated; a template plan is always a chain the scheduler accepts |
| Planner.AsWrittenPipelineKeeps | planner.ts:111-158 | the three steps as written give tasks with the given ids, at least a day each, dependencies inside the batch, the durations of the rescaling as written, a total never under the timeframe and equal to it after rescaling exactly when the last task absorbs the drift |
| Planner.PlanDraftsAsWritten | planner.ts:111-158 | planning drafts as written keeps titles, descriptions and priorities, assigns the ids in order, keeps dependencies inside the batch, gives the durations of the rescaling as written (unchanged when none is needed), never falls short of the timeframe and meets it after rescaling exactly when the last task absorbs the drift; given dependencies are kept, and otherwise the tasks form a chain |
| Planner.PlanTasksAsWritten | planner.ts:107-159 | the same for a goal, with the timeframe parsed from it and the template drafts used when nothing was generated; a template plan is always a chain the scheduler accepts |
| Planner.SameDurationsSameTotal | planner.ts:134 | tasks with the same durations have the same total |

## Left out

- The SQL storage is not part of this model. The task-instance table is a sequence of rows, and the "does an instance exist" query is a search of that sequence. Inserts, the schema, and the other queries and REST endpoints are not modelled.
- `randomUUID` is not modelled: ids are a parameter, assumed distinct. That includes the ids of recurring instances, which are not modelled at all, and `created_at` timestamps.
- JavaScript `Date` is not modelled. Dates are whole day numbers, and time zones and millisecond differences are not modelled. The clock is a parameter. `today` and `pastMidnight` stand for `new Date()`: without an end date, the recurring window ends 30 days after the current instant.
- Floating point is not modelled. `Math.round(d * factor)` is modelled as exact rational rounding with halves going up, and `Math.floor(totalDays * p)` as exact integer percentages. Float rounding at exact halves may differ, and agreement with the float results is not claimed.
- `Number.isFinite` and very large numbers are not modelled: integers are unbounded, so a huge count in the goal never overflows.
- `toLowerCase` is modelled for ASCII letters only. Other letters keep their case.
- The LLM call is not modelled. Its reply is the parameter `generated`, and its JSON parsing is not part of this model.
- Scheduler durations are whole days: `Math.ceil` of a fractional duration is not modelled in the scheduler. The planner's draft durations are reals and are rounded up.
- Invalid priority or frequency strings, and missing or NaN durations on stored tasks, are not modelled. The datatypes admit only valid values.
- An empty batch has no span in the model (`None`). The service returns undefined dates and a NaN day count for it.
- The router code, including persisting the undated tasks in `tasks.ts`, is not part of this model, and neither are `planner.js`, the older compiled build of the planner, or the browser UI.
- Planner.PlanDrafts: does not use the rescaling as written. It uses the corrected rescaling `Planner.RescaleExactly`; the pipeline as written is `Planner.PlanDraftsAsWritten`.
- Planner.PipelineKeeps: states the pipeline with the corrected rescaling. The as-written pipeline's guarantee is `Planner.AsWrittenPipelineKeeps`.
- Planner.PlanTasks: does not use the rescaling as written. It uses the corrected rescaling `Planner.RescaleExactly`, so its total meets the timeframe whenever there are no more tasks than days. The code as written is modelled by `Planner.Rescale` and `Planner.PlanTasksAsWritten` and falls short of this, as Findings shows.
- Planner.RescaleExactly: the correction is a function applied after the scaling loop, not a loop of its own. The code has no such loop to model.
- Ties among tasks that are ready at the same time are broken by queue order, which is first-seen input order. No other tie-break is modelled.

## Findings

| source | as written | input that shows it | evidently intended | confidence | as-written member | corrected member |
|---|---|---|---|---|---|---|
| planner.ts:142-146 | the rounding drift is added to the last task only, and the result is raised to at least 1, so when the last task cannot absorb a negative drift the total exceeds the timeframe | durations [5, 1] with a timeframe of 2 days rescale to [2, 1], 3 days, although [1, 1] fits | the durations add up to the timeframe exactly whenever there are no more tasks than days, as the comment at planner.ts:131 says | not executed | Planner.RescaleOvershoots | Planner.FittedExactlyTotal |
