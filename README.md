# stackpm core, modelled in Dafny

stackpm keeps a local SQL copy of the iterations (epics), tasks (stories),
users and change events of an upstream project manager such as Jira. It
computes work-day lead times and per-day delivery statistics from that
copy. This project models the core of that system and proves properties of
the model:

- **work-day calendar arithmetic** (`stackpm/workdays.py`): the work week
  of `_ruleset`, the calendar of `workday_calendar`, NETWORKDAYS
  (`net_workdays`) and WORKDAY (`workday`) — module `Workdays`
  (workdays.dfy);
- **the stored tables** (`stackpm/models.py`): rows as column maps, the
  uniqueness constraints of User, Iteration, Task and Event, the ids handed
  out, and the Sync checkpoint log — module `Store` (store.dfy). A
  `Database` class holds them and is updated in place by commits;
- **`Task.cache_workdays`, `Task.as_of`, `Iteration.as_of`**
  (`stackpm/models.py`) — module `Models` (models.dfy). `Task` is a class
  whose cached work-day columns are set in place;
- **`_batch_sync`, `_sync_since`, `_record_sync`** (`stackpm/sync.py`):
  the upsert of a batch keyed by one or more columns, the high-water mark
  of `updated_on`, and the sync checkpoints — module `Sync` (sync.dfy);
- **the batching loops**: records gathered into dicts and flushed every
  `SYNC_BATCH` (100) keys, plus `sync_iterations` — module `SyncFlows`
  (sync_flows.dfy);
- **`sync_tasks`, `_batch_sync_tasks`, `sync`**: users keyed by stripped
  email, iterations synced first, tasks linked to their User and
  Iteration, events re-keyed by row ids. Every sync keeps the rows already
  stored under their key columns, and leaves every record it read with its
  User, Task and event rows — module `TaskSync` (task_sync.dfy);
- **`lead_time_stats`** (`stackpm/stats.py`): the per-day evidence of the
  dev-done and prod-done lead times — module `Stats` (stats.dfy);
- **`task_efforts`, `iteration_efforts`, `iteration_values`**
  (`stackpm/estimates.py`): distinct estimate values, meant to be
  filtered by user or team; as written the filter is never applied (see
  "## Findings") — module `Estimates` (estimates.dfy).

`Common` (common.dfy) holds `Option` and `Result`. It also holds `Arg`,
which distinguishes an argument left at the `null` sentinel (`Omitted`)
from one passed as `None` (`Passed(None)`).

Dates are whole days: day `d` falls on weekday `d % 7`, 0 being Monday
(Python's `toordinal() - 1`). Rows are maps from column name to `Value`
(`Null`, a number or a text), so a datetime column holds a day number.
A table maps row ids to rows. A Python dict the code fills is a `Dict`: a
map plus an order of its keys. Python 2 leaves a dict's iteration order
unspecified; the model fixes it to insertion order (see "## Left out").

Calls the code makes into things outside the model are parameters:

| outside call | parameter |
|---|---|
| the project-manager connector (`pm.iterations`, `pm.tasks`) | `IterationSource` / `TaskSource` functions from `(since, ids)` to the records |
| the model constructors `model(**obj)` | `Construct` functions from fields to the stored row |
| the third-party `networkdays` | a `NetworkDays` function |
| `datetime.now()` | a `now` / `today` day |

Where a result depends on a constructor, it is stated for a constructor
that keeps the fields it is given (`KeepsFields`).

Where a docstring and the code differ, the model follows the code:
`sync_tasks` does not force the work-day caches to be recomputed,
`sync_iterations(ids=...)` records an iteration checkpoint too, and `sync()`
runs only the iteration and task syncs.

Where the code has a defect listed under "## Findings", the model states
the code as written in the finding's as-written member and builds the rest
on the corrected definition. Each operation built on a corrected
definition has a line under "## Left out" naming what the code does
instead.

## Model

| member | source | states |
|---|---|---|
| Workdays.WeekdayOf | stackpm/workdays.py:21-22 | the weekday of a day is its number modulo 7, Monday first |
| Workdays.Ruleset | stackpm/workdays.py:16-18 | a week naming some weekday wins; otherwise the configured `work.days` whenever the key exists, even empty; otherwise Monday to Friday |
| Workdays.WorkdayCalendar | stackpm/workdays.py:25-58 | a day is in the calendar iff it is on the work week, on or after `start` (today when absent), on or before `stop` when given, and not excluded |
| Workdays.NetWorkdays | stackpm/workdays.py:60-91 | the count is never below 1 |
| Workdays.WorkDatesMembers | stackpm/workdays.py:91 | `between(start, stop, inc=True)` lists exactly the calendar days of `[start, stop]`, both ends included |
| Workdays.WorkDatesIncreasing | stackpm/workdays.py:91 | those dates come in strictly increasing order, so none is repeated |
| Workdays.WorkDatesExcluding | stackpm/workdays.py:55-57 | excluding one more date lowers the number of work dates by one when it was a work date in range, and leaves it unchanged otherwise |
| Workdays.NetWorkdaysCounts | stackpm/workdays.py:88-91 | `net_workdays` is the number of days of `[start, stop]` that are on the work week and not excluded, or 1 when there is none |
| Workdays.NetWorkdaysFloor | stackpm/workdays.py:91 | with no work day in range, including `stop < start`, the result is 1 |
| Workdays.SameDay | stackpm/workdays.py:88-91 | a one-day interval counts 1, whether the day is worked or not |
| Workdays.ExcludeOneMore | stackpm/workdays.py:55-57 | one more excluded date never raises the count; if it was a counted day and at least two were counted, the count drops by exactly one |
| Workdays.NeverCounted | stackpm/workdays.py:50-57 | an excluded date or a day off the work week is never among the counted dates |
| Workdays.NewYearWeek | stackpm/workdays.py:60-91 | worked example: Mon 2024-01-01 to Mon 2024-01-08 with Wed 2024-01-03 excluded counts 5; a single day counts 1 |
| Workdays.FirstFrom | stackpm/workdays.py:124 | the first work date on or after a day: itself a work date, with no work date before it |
| Workdays.NthFrom | stackpm/workdays.py:124 | the work date at index `k` from a day is on or after that day and in the calendar |
| Workdays.NthFromIsIndex | stackpm/workdays.py:124 | that date is element `k` of the calendar's dates from the day, and the last one up to itself |
| Workdays.Workday | stackpm/workdays.py:93-124 | the result is on or after `start`, on the work week and not excluded |
| Workdays.WorkdayIsIndex | stackpm/workdays.py:122-124 | `workday(start, n)` is element `max(n - 1, 0)` of the work dates from `start`; for `n <= 1` no work date precedes it |
| Workdays.NetWorkdaysOfWorkday | stackpm/workdays.py:88-124 | for `n >= 1`, `net_workdays(start, workday(start, n)) == n`: the two are inverse |
| Workdays.NetWorkdaysAsWritten | stackpm/workdays.py:50-54 | as written the count is never below 1 |
| Workdays.AsWrittenIgnoresWeek | stackpm/workdays.py:51-52 | as written the count equals that of a week naming no weekday: every non-excluded day counts |
| Workdays.WeekendCounted | stackpm/workdays.py:88-91 | Fri 2024-01-05 to Mon 2024-01-08: 4 as written, 2 on the work week |
| Store.KeyOf | stackpm/sync.py:49-53 | a row's key has one part per key column |
| Store.KeyOfColumns | stackpm/sync.py:49-53 | part `i` of the key is the value of key column `i`, NULL when the row lacks it |
| Store.EmptyDict | stackpm/sync.py:161 | `{}` is an empty, well-formed dict |
| Store.Put | stackpm/sync.py:163 | `d[k] = v`: the map gets `k := v` and nothing else changes; in the model's order a new key goes last and an existing one keeps its place |
| Store.SetDefault | stackpm/sync.py:203 | `setdefault`: an existing key leaves the dict unchanged; a new key is added at the end with the value |
| Store.ReplaceTable | stackpm/models.py:45-48 | a table that keeps its model's unique columns, with ids below the next id, keeps every constraint of the database |
| Store.Database.Commit | stackpm/sync.py:71 | a commit replaces one table and the next id, keeps the constraints, and leaves every other table unchanged |
| Models.Task.SetCache | stackpm/models.py:195-198 | sets one cached work-day count; every other column is unchanged |
| Models.WithCache | stackpm/models.py:195-198 | setting one stage's cached count leaves the other stage's count unchanged |
| Models.RecacheStages | stackpm/models.py:191-198 | recomputing the stages changes only the two cached counts |
| Models.RecacheIdle | stackpm/models.py:186-188 | unforced, with no done date missing its count, `cache_workdays` changes nothing |
| Models.RecacheOnlyCaches | stackpm/models.py:183-199 | `cache_workdays` writes only `dev_done_workdays` and `prod_done_workdays` |
| Models.RecacheStage | stackpm/models.py:191-198 | with `started_on` and the stage's date, the count is `networkdays(started_on, date, days off)`; otherwise forced means `None` and unforced means unchanged |
| Models.RecacheSettles | stackpm/models.py:183-199 | after any `cache_workdays`, an unforced call has nothing to do and changes nothing (idempotence) |
| Models.NewTaskCachesDev | stackpm/models.py:176-178 | a new started, dev-done task without a cached count gets it computed by its constructor |
| Models.Task.constructor | stackpm/models.py:176-178 | `Task(**kwargs)`: the columns given, then `cache_workdays()` over the user's vacations and the holidays |
| Models.Task.CacheWorkdays | stackpm/models.py:183-199 | the new columns are the recomputed row, and the two returned counts are the new cached counts |
| Models.RevertOther | stackpm/models.py:229-233 | an event reverts only the field its own type tracks |
| Models.NoUndoKeeps | stackpm/models.py:229-233 | with no event of a type on or after `dt`, the field that type tracks keeps its current value |
| Models.LastUndoWins | stackpm/models.py:229-233 | the last reverting event of a type, in loop order, decides the field |
| Models.EarliestUndoWins | stackpm/models.py:229-233 | with events newest first, the earliest change since `dt` supplies the value the field had at `dt` |
| Models.RevertKeepsColumns | stackpm/models.py:225-233 | the event loop touches no column but the effort estimate (besides the related iteration and user) |
| Models.ClearFuture | stackpm/models.py:216-223 | a date later than `dt` is cleared; a done date is cleared together with its cached count, which is kept with the date otherwise |
| Models.TaskAsOf | stackpm/models.py:201-234 | there is a view exactly when `dt` is not before the row's `created_on` |
| Models.TaskAsOfDates | stackpm/models.py:214-223 | the view keeps each date on or before `dt` and no later one, and every other column but the estimate as it is now |
| Models.TaskAsOfReverts | stackpm/models.py:225-233 | the view's estimate, iteration and user are the current ones without a change since `dt`, else the `from_` value of the earliest such change |
| Models.CopyAsOfAsWritten | stackpm/models.py:19-30 | as written `_copy_as_of` fails iff a Task has no iteration; otherwise it copies the row with its iteration and user ids |
| Models.TaskAsOfAsWritten | stackpm/models.py:201-234 | as written the result is "no view" exactly when `dt` is before creation |
| Models.StartedOnInverted | stackpm/models.py:217-218 | a task started on day 5 reads as not started on day 10 and started on day 3 as written; the corrected view says the opposite |
| Models.NoIterationRaises | stackpm/models.py:25-28 | as written the view of a task without an iteration, after its creation, raises; the corrected view exists |
| Models.InIterationAtAsWritten | stackpm/models.py:124 | the membership test fails iff the view has no iteration; otherwise it agrees with the corrected test |
| Models.MovedFromNoIterationRaises | stackpm/models.py:120-125 | a view with no iteration makes the as-written membership test raise, where the corrected test leaves that Task out of the iteration |
| Models.RolledMembers | stackpm/models.py:119-125 | the view's tasks are exactly the views at `dt` of the candidate tasks that existed then and were in the iteration then |
| Models.IterationEffortKept | stackpm/models.py:112-117 | since every event has a task, the revert loop never changes the iteration's estimate |
| Models.IterationAsOf | stackpm/models.py:97-127 | no view before creation; otherwise the iteration's columns with the reverted estimate and the rolled tasks |
| Stats.Dones | stackpm/stats.py:39-45 | no more completions than tasks, each with a non-zero work-day count |
| Stats.InsertByDate | stackpm/stats.py:49 | inserting into a date-sorted list keeps it sorted |
| Stats.SortByDate | stackpm/stats.py:48-49 | the sort is sorted by date and a permutation of its input |
| Stats.Completions | stackpm/stats.py:38-49 | one series: sorted by date, a permutation of the selected completions, every count non-zero |
| Stats.Unpack | stackpm/stats.py:38-45 | the unpacking loop builds the dev-done and prod-done series of the query's tasks |
| Stats.UpToLater | stackpm/stats.py:68-70 | completions dated after the day add no evidence |
| Stats.Evidence | stackpm/stats.py:67-71 | on a date-sorted series, the inner loop stopped at the first later completion gathers exactly the evidence dated on or before the day |
| Stats.UpToGrows | stackpm/stats.py:68-71 | evidence only accumulates as the day advances |
| Stats.UpToHas | stackpm/stats.py:68-71 | a completion dated on or before the day is evidence for it |
| Stats.UpToFrom | stackpm/stats.py:68-71 | every piece of evidence is the count of a completion dated on or before the day |
| Stats.StatOn | stackpm/stats.py:62-92 | a day's record is dated that day and carries the estimate |
| Stats.EmitDays | stackpm/stats.py:60-92 | the records of those of the `(until - start).days` days from `start` that have evidence, in day order |
| Stats.LeadTimeStats | stackpm/stats.py:27-94 | the method computes the per-day records of `lead_time_stats` |
| Stats.NoEvidenceNoStats | stackpm/stats.py:53-55 | without a counted completion the result is empty |
| Stats.StatsFromIn | stackpm/stats.py:60-92 | every emitted record is the record of its own day, which lies in range |
| Stats.StatsFromOrdered | stackpm/stats.py:60-63 | records come in strictly increasing day order |
| Stats.StatsFromAll | stackpm/stats.py:60-92 | every day in range with evidence has its record among those emitted |
| Stats.SampleSizesGrow | stackpm/stats.py:64-80 | between two records, the later one is for a later day and has sample sizes at least as large |
| Stats.FirstDayHasEvidence | stackpm/stats.py:57-63 | without `since`, a nonempty range starts with a record for the earliest completion's day |
| Stats.EvidenceOfRecord | stackpm/stats.py:64-91 | each record carries the estimate, has some evidence, and its sample sizes and values are those of the completions dated on or before its day |
| Estimates.Est | stackpm/estimates.py:14-18 | once the filter is applied: the values of the column over the rows passing it, each exactly once |
| Estimates.EstAsWritten | stackpm/estimates.py:12-18 | as written: raises TypeError iff the clause is an `IS NULL` test; otherwise every row's value, each exactly once, as `if xtra_filter:` is false for an `==` clause |
| Estimates.Distinct | stackpm/estimates.py:18 | `GROUP BY`: no value twice, and exactly the values of the input |
| Estimates.TaskEfforts | stackpm/estimates.py:32-41 | with the filter applied: each `effort_est` of a task of the chosen user or users, exactly once; with no `user` argument, of every task |
| Estimates.NoUserNoEfforts | stackpm/estimates.py:36-38 | with the filter applied, `task_efforts(user=None)` is empty, since `user_id` is never NULL |
| Estimates.TaskEffortsAsWritten | stackpm/estimates.py:32-41 | as written: raises iff `user` is None or a collection; otherwise every task's `effort_est`, each exactly once, whatever user was asked for |
| Estimates.OtherUserListed | stackpm/estimates.py:15-38 | asked for user 1, as written the estimate of a task of user 2 is listed; with the filter applied it is not |
| Estimates.IterEstAsWritten | stackpm/estimates.py:20-29 | as written: raises iff `team` is None; otherwise the column's value of every iteration, each exactly once, whatever team was asked for |
| Estimates.OneTeamIgnored | stackpm/estimates.py:24-25 | as written, one named team gives the same listing as no team argument |
| Estimates.TeamCollectionIgnored | stackpm/estimates.py:26-27 | as written, a team collection gives the same listing as no team argument |
| Estimates.OtherTeamListed | stackpm/estimates.py:26-27 | asked for team "a", as written the estimate of a team-"b" iteration is listed |
| Estimates.IterEst | stackpm/estimates.py:20-29 | with the filter applied: each value of the column over the iterations of the chosen team or teams, exactly once |
| Estimates.OtherTeamNotListed | stackpm/estimates.py:26-27 | with the membership filter, the team-"b" iteration is not listed for team "a" |
| Estimates.IterationEfforts | stackpm/estimates.py:43-46 | with the filter applied: each `effort_est` over the chosen teams' iterations, exactly once |
| Estimates.IterationValues | stackpm/estimates.py:48-51 | with the filter applied: each `value_est` over the chosen teams' iterations, exactly once |
| Sync.CreateKeys | stackpm/sync.py:59-63 | the save loop creates a row for exactly the batch keys not matched, one new id each |
| Sync.CreateIds | stackpm/sync.py:59-63 | stored rows keep their ids; new rows get ids from `next` on, all in use |
| Sync.CreateRows | stackpm/sync.py:59-63 | each created row is `model(**entry)` of its key; no two keys share a row; every new row belongs to a key |
| Sync.UpsertCreates | stackpm/sync.py:58-63 | `_batch_sync` creates rows for exactly the batch keys without a stored row |
| Sync.UpsertKeeps | stackpm/sync.py:48-56 | stored rows keep their ids and are patched; every other row has a fresh id |
| Sync.UpsertBuilds | stackpm/sync.py:59-63 | each created row is `model(**entry)` under a fresh id |
| Sync.UpsertOnto | stackpm/sync.py:59-63 | every new row belongs to a created key |
| Sync.UpsertSpec | stackpm/sync.py:18-72 | the whole upsert: patched stored rows, one new row per unmatched key with ids `next ..`, injective and onto |
| Sync.UpsertIds | stackpm/sync.py:59-63 | ids stay below the next id, which never decreases |
| Sync.UpsertOverwrites | stackpm/sync.py:54-55 | a row with a batch key takes every field of the entry and keeps its other fields; a row without one is unchanged |
| Sync.UpsertCovers | stackpm/sync.py:48-63 | after the upsert, every batch key has a stored row with that key (entries carrying their key, constructor keeping fields) |
| Sync.UpsertSettled | stackpm/sync.py:54-55 | after the upsert, patching any row again changes nothing |
| Sync.UpsertMatchesAll | stackpm/sync.py:48-56 | after the upsert, the query finds a row for every batch key |
| Sync.UpsertPatchedSettled | stackpm/sync.py:48-56 | after the upsert, the overwrite loop again changes nothing |
| Sync.UpsertTwice | stackpm/sync.py:18-72 | the same batch synced again creates no row and changes nothing (idempotence) |
| Sync.UpsertKeepsKeys | stackpm/sync.py:48-63 | the upsert removes no stored row and changes no stored row's key columns (entries carrying their key) |
| Sync.HasRowKept | stackpm/sync.py:48-63 | a row with a key is still found under that key after any change that keeps keys |
| Sync.KeysKeptTrans | stackpm/sync.py:18-72 | keeping rows and keys composes over successive syncs of a table |
| Sync.TablesKeptTrans | stackpm/sync.py:18-72 | keeping rows and keys composes over successive syncs of the whole database |
| Sync.HighWaterIsMax | stackpm/sync.py:64-68 | the mark is the maximum of the present stamps and the input mark, absent iff all are absent |
| Sync.HighWaterConcat | stackpm/sync.py:64-68 | threading the mark through two runs of stamps is threading it through both at once |
| Sync.MatchRows | stackpm/sync.py:48-56 | the overwrite loop yields the patched table and a map from each matched key to a row having that key |
| Sync.SaveRows | stackpm/sync.py:58-68 | the save loop yields the upserted table and ids, a row for every batch key, and the mark raised by each row's stamp in batch order |
| Sync.Reconcile | stackpm/sync.py:48-68 | the two loops together: the upserted table, the batch keys' rows and the mark |
| Sync.ReconciledKeys | stackpm/sync.py:56-63 | after the save loop the batch has exactly its own keys, each mapped to a row |
| Sync.CarriedKeys | stackpm/sync.py:48-63 | after the loops, every batch key has a row with that key |
| Sync.SaveBatch | stackpm/sync.py:32-71 | the loops and the commit: fails iff the upserted table breaks a unique constraint, and then changes nothing; else installs it |
| Sync.BatchSync | stackpm/sync.py:18-72 | empty batch returns the mark unchanged; no key column is ValueError; otherwise upsert, mark = max over the rows' stamps, commit or IntegrityError with nothing changed; on the model's key columns, no stored row loses its id or key and every batch key has a row |
| Sync.ReconciledRows | stackpm/sync.py:48-63 | each batch key's row, created or overwritten, carries the key's entry |
| Sync.ReconciledCarried | stackpm/sync.py:48-68 | the mark is threaded through the stamps of the batch keys' rows, which are the entries' stamps when the entries carry one |
| Sync.StampsOfEntries | stackpm/sync.py:64-68 | rows carrying their entries have the entries' stamps |
| Sync.LastSeen | stackpm/sync.py:74-82 | `_sync_since`: the largest `last_seen_update` among checkpoints of the type, absent iff there is none |
| Sync.RecordSync | stackpm/sync.py:84-96 | no mark records nothing; otherwise exactly one checkpoint is appended and returned, and no table changes |
| Sync.RecordThenSince | stackpm/sync.py:74-96 | after recording `v`, `_sync_since` of that type is the larger of `v` and the previous mark; other types are unaffected |
| Sync.LastSeenOthers | stackpm/sync.py:74-82 | checkpoints of other types appended to the log leave `_sync_since` of a type unchanged |
| SyncFlows.KeyOrder | stackpm/sync.py:161-163 | a dict's keys: each key of the records exactly once (the model's order: first occurrence) |
| SyncFlows.Gather | stackpm/sync.py:161-163 | the dict built by `d[key] = record` holds exactly the records' keys (in the model's first-occurrence order) |
| SyncFlows.GatherFirst | stackpm/sync.py:203 | the dict built by `setdefault` holds exactly the records' keys (in the model's first-occurrence order) |
| SyncFlows.GatherLatest | stackpm/sync.py:163 | each key of a dict built by assignment holds the value of the last record with that key |
| SyncFlows.GatherFirstEarliest | stackpm/sync.py:203 | each key of a dict built by `setdefault` holds the value of the first record with that key |
| SyncFlows.GatherSnoc | stackpm/sync.py:163 | one more record is one more `d[key] = value` or `setdefault` |
| SyncFlows.ChunkCovers | stackpm/sync.py:161-166 | the cut loses, repeats and reorders no record; flushed groups hold exactly `SYNC_BATCH` keys, the pending one fewer |
| SyncFlows.FlushesCover | stackpm/sync.py:161-169 | the flushes, laid end to end, are the records; each holds 1 to `SYNC_BATCH` keys, all but the last exactly `SYNC_BATCH` |
| SyncFlows.ChunkSnoc | stackpm/sync.py:163-166 | one more record joins the pending group, or flushes it when it reaches `SYNC_BATCH` keys |
| SyncFlows.ChunkNext | stackpm/sync.py:161-166 | the cut of the first `i + 1` records follows from the cut of the first `i`: the record joins the pending group, which is flushed once it holds `SYNC_BATCH` keys |
| SyncFlows.FlushesOfChunk | stackpm/sync.py:168-169 | the last, partial group is flushed iff it holds a record |
| SyncFlows.IterationFields | stackpm/sync.py:163 | an iteration record's fields carry its `ext_id` key and its other fields |
| SyncFlows.IterationBatch | stackpm/sync.py:161-163 | the batch of a group of records is keyed by exactly their `ext_id`s (in the model's first-occurrence order) |
| SyncFlows.IterationBatchKeyed | stackpm/sync.py:163 | every entry carries its own `ext_id`, and `updated_on` when its record does |
| SyncFlows.IterationBatchHas | stackpm/sync.py:161-163 | every record's `ext_id` is a key of its group's batch |
| SyncFlows.IterationsStoredKept | stackpm/sync.py:165 | records with an Iteration row keep one under any later sync that keeps keys |
| SyncFlows.IterationNext | stackpm/sync.py:162-166 | one record through the loop: the dict gains it and the cut follows its size |
| SyncFlows.FlushIterations | stackpm/sync.py:165 | one flush upserts its group into the Iteration table and threads the mark through the stamps it reads; stored rows keep their ids and `ext_id`s; every record of this flush and of the earlier ones has a row with its `ext_id`; no other table changes |
| SyncFlows.FlushAllIterations | stackpm/sync.py:160-172 | the loop flushes exactly the groups of `Flushes`, the mark is threaded through their stamps, which are the records' own; stored rows keep their `ext_id`s and every record has a row with its `ext_id` |
| SyncFlows.SyncIterations | stackpm/sync.py:153-173 | records since `since` (or the last checkpoint) flushed in order; the final mark recorded as one checkpoint iff present; nothing recorded on failure; stored rows keep their `ext_id`s and every record read has a row with its `ext_id` |
| TaskSync.Strip | stackpm/sync.py:202 | the result is the input with only blanks cut from either end (a slice with blanks before and after it), has no blank at either end, and is the input when it has no blank |
| TaskSync.TaskFields | stackpm/sync.py:186-206 | a task's fields carry its `ext_id` key |
| TaskSync.UserFields | stackpm/sync.py:202-203 | the stored user fields carry the stripped email as the `email` key |
| TaskSync.Tags | stackpm/sync.py:186-194 | every event kept is tagged with its task's `ext_id` |
| TaskSync.TagsRefs | stackpm/sync.py:187-189 | every event kept names an iteration that joins the ids to sync |
| TaskSync.TaskBatch | stackpm/sync.py:206 | the batch's keys are exactly the `ext_id`s (in the model's first-occurrence order) |
| TaskSync.TaggedSnoc | stackpm/sync.py:184-199 | one more record adds its tagged events and the iterations it names |
| TaskSync.TagsNext | stackpm/sync.py:186-194 | an event without an iteration is skipped; one with an iteration is kept and its iteration named |
| TaskSync.GatherEvents | stackpm/sync.py:186-194 | the events loop puts each event that names an iteration under its natural key and adds its iteration |
| TaskSync.GatherRefs | stackpm/sync.py:186-199 | events and iteration ids stay those gathered from the records so far |
| TaskSync.GatherTask | stackpm/sync.py:184-206 | one pass keeps the four dicts equal to those gathered from the records so far |
| TaskSync.FindIterations | stackpm/sync.py:105-107 | `iters` maps exactly the named `ext_id`s that have a stored Iteration to that row |
| TaskSync.SyncNamedIterations | stackpm/sync.py:101-107 | no named iteration: nothing synced and `iters` empty; otherwise iterations synced and found; only iteration checkpoints appended |
| TaskSync.SyncUsers | stackpm/sync.py:109-110 | each email of the users dict gets a stored User row with that email; stored rows keep their ids and key columns |
| TaskSync.LinkTasks | stackpm/sync.py:112-116 | the linking loop links every task, in batch order |
| TaskSync.LinkedKeyed | stackpm/sync.py:112-116 | linking keeps each task entry keyed by its `ext_id` |
| TaskSync.LinkedStamps | stackpm/sync.py:112-119 | linking sets no stamp: the linked entries carry the tasks' own `updated_on` |
| TaskSync.SyncLinkedTasks | stackpm/sync.py:112-119 | every task gets a row carrying its linked fields; the mark is raised by the tasks' own stamps; stored rows keep their ids and key columns |
| TaskSync.EventFields | stackpm/sync.py:123-129 | an event's fields carry its new key (type, iteration row id, time, task row id) |
| TaskSync.RekeyedSnoc | stackpm/sync.py:123-129 | one more event puts its re-keyed fields under its new key |
| TaskSync.RekeyedKeyed | stackpm/sync.py:127-129 | no event is mislabelled: each entry of `new_events` carries its own key |
| TaskSync.RekeyedCovers | stackpm/sync.py:122-129 | no event is lost: each event's new key is in `new_events` |
| TaskSync.RekeyedRows | stackpm/sync.py:121-133 | once stored, every event has a row carrying its new key |
| TaskSync.RekeyEvents | stackpm/sync.py:121-129 | the re-keying loop builds `new_events` from the events in order |
| TaskSync.SyncRekeyedEvents | stackpm/sync.py:121-133 | every event gets a stored row with its new key; only the Event table changes, and its stored rows keep their keys |
| TaskSync.SyncLinkedEvents | stackpm/sync.py:121-133 | every event row is linked to its task's row and Iteration; only the Event table changes, and its rows keep their keys |
| TaskSync.IterationRefLinks | stackpm/sync.py:115 | `iters.get(x)` links the stored Iteration of `ext_id` `x`, and NULL exactly when there is none |
| TaskSync.TaskLinkedRow | stackpm/sync.py:113-119 | a task row carrying its linked fields refers to the User of its stripped email and to its Iteration |
| TaskSync.TasksLinkedRows | stackpm/sync.py:113-119 | every task row of the batch is linked |
| TaskSync.EventsLinkedRows | stackpm/sync.py:121-133 | every event row has its type and time, its task's row and its Iteration |
| TaskSync.SyncUsersAndTasks | stackpm/sync.py:109-119 | users and then tasks are synced; every task row is linked to its User and Iteration; stored rows keep their key columns |
| TaskSync.SyncTasksAndEvents | stackpm/sync.py:109-133 | users, tasks and events are synced; the Iteration table is unchanged; every event row is linked to its task row and Iteration; stored rows keep their key columns |
| TaskSync.BatchSyncTasks | stackpm/sync.py:98-135 | `_batch_sync_tasks`: returns the tasks' mark; tasks and events are linked; only iteration checkpoints are appended; stored rows keep their key columns |
| TaskSync.TaggedFrom | stackpm/sync.py:186-194 | every gathered event belongs to a gathered task and names a gathered iteration |
| TaskSync.TaskRefs | stackpm/sync.py:197-199 | every task's iteration is among the flush's iteration ids |
| TaskSync.TasksReadyOf | stackpm/sync.py:184-206 | each gathered task's user and iteration are in its flush |
| TaskSync.UsersKeyedOf | stackpm/sync.py:202-203 | each gathered user carries its key as its email |
| TaskSync.EventsReadyOf | stackpm/sync.py:186-206 | each gathered event's task and iteration are in its flush |
| TaskSync.TaskFlushStampsSnoc | stackpm/sync.py:207-214 | one more flush appends its tasks' stamps |
| TaskSync.GatherNext | stackpm/sync.py:184-207 | one record through the loop: the dicts gather it, and the cut follows the number of tasks |
| TaskSync.TasksKeyedOf | stackpm/sync.py:206 | each entry of the tasks dict carries its `ext_id` key |
| TaskSync.TagsIn | stackpm/sync.py:186-194 | every kept event of a gathered record is among the flush's events |
| TaskSync.TaskRowKey | stackpm/sync.py:112-119 | each linked task's row has the task's `ext_id` |
| TaskSync.EventRowKey | stackpm/sync.py:123-129 | a linked event row is keyed by its type, time, its task's row and, when not NULL, the Iteration row of its `ext_id` |
| TaskSync.EventOfFlushStored | stackpm/sync.py:121-133 | each event of a flush has a stored row under its task's row |
| TaskSync.FlushStored | stackpm/sync.py:109-133 | after a flush, each of its records has its User, its Task and each of its events stored |
| TaskSync.RecordsStoredKept | stackpm/sync.py:98-135 | stored records stay stored under any later sync that keeps keys |
| TaskSync.FlushTasks | stackpm/sync.py:207-210 | one flush threads the mark through the stamps it reads; stored rows keep their ids and key columns; every record of this flush, and of the earlier ones, has its User, its Task and each of its events stored |
| TaskSync.FlushFull | stackpm/sync.py:207-210 | a full batch is flushed and the dicts start empty; stored rows keep their key columns; the records flushed so far keep their User, Task and events stored |
| TaskSync.TaskStep | stackpm/sync.py:184-210 | one turn gathers the record and flushes a full batch, keeping the loop state: the cut so far, the dicts of the pending records, the mark threaded through the stamps consumed; stored rows keep their key columns and every record flushed so far has its User, Task and events stored |
| TaskSync.FlushLast | stackpm/sync.py:212-214 | the remainder is flushed iff nonempty; the flushes are exactly the `Flushes` groups; stored rows keep their key columns, and then every record has its User, Task and events stored |
| TaskSync.GatherAll | stackpm/sync.py:182-210 | the record loop gathers every record and flushes each full batch: the cut of all the records, the dicts of the remainder, the mark threaded through the stamps consumed, the flushed records stored |
| TaskSync.FlushAllTasks | stackpm/sync.py:182-217 | the loop flushes exactly the groups of `Flushes` by distinct task; the mark is threaded through the tasks' own stamps; stored rows keep their key columns; every record has its User, Task and events stored |
| TaskSync.SyncTasks | stackpm/sync.py:175-219 | records since `since` (or the last checkpoint) flushed in order; the final mark recorded as the last checkpoint iff present; stored rows keep their key columns; every record read has its User, Task and events stored |
| TaskSync.FullMark | stackpm/sync.py:144-150 | the latest of the recorded marks, absent iff neither sync recorded one |
| TaskSync.TaskSinceKept | stackpm/sync.py:74-82 | an iteration checkpoint does not move the `since` of the task sync that follows it in `sync` |
| TaskSync.SyncIterationsAndTasks | stackpm/sync.py:144-149 | the two syncs of `sync`, each from its own `since`: each returns the checkpoint of the high-water mark of the stamps it read; the iteration checkpoint is appended first and the task checkpoint last; the records read are stored |
| TaskSync.CheckpointsAt | stackpm/sync.py:144-151 | after the full checkpoint, the iteration checkpoint sits first among the appended rows and the task checkpoint just before the full one |
| TaskSync.SyncAll | stackpm/sync.py:139-151 | `sync`: iterations, then tasks, each from its own `since` and recording the high-water mark of the stamps it read (the iteration checkpoint first in the log, the task checkpoint just before the full one); then a `full` checkpoint at their latest mark, none when neither recorded one; stored rows keep their key columns; every record read is stored |
| TaskSync.PaddedUsers | stackpm/sync.py:202-203 | as written, a padded email is keyed stripped but stored as sent |
| TaskSync.PaddedFirstSync | stackpm/sync.py:58-63 | the first sync of that user creates one row, id 0, holding the email as sent |
| TaskSync.PaddedSecondSync | stackpm/sync.py:54-63 | the second sync of that user finds no row under the stripped key and creates another |
| TaskSync.PaddedTwice | stackpm/models.py:45 | two User rows with the same email break the uniqueness of `email` |
| TaskSync.UnstrippedEmailDuplicates | stackpm/sync.py:202-203 | as written, syncing one padded user twice creates a second row with the same email, breaking User uniqueness |
| TaskSync.ResyncCreatesNoUser | stackpm/sync.py:202-203 | with the stripped email stored, syncing the users of any records again creates no row and changes nothing |

## Left out

- Floating point: the means, standard deviations, medians, standard errors, confidence intervals and half-life weights of `lead_time_stats` (stats.py:19-25, 72-86). A record keeps its evidence lists, which determine the sample sizes and every statistic.
- Time of day: dates are whole days. `exdate` matching an exact datetime, `datetime.now()` and `timedelta` are not modelled beyond day numbers.
- Workdays.Workday: follows the work-week calendar. As written, the daily rule from `start` (workdays.py:51-52) also makes every non-excluded day from `start` a candidate date, and, for a `start` in the future, the weekdays from today on as well. This is the discrepancy listed under Findings for `net_workdays`.
- Workdays.WorkdayCalendar: returns a description of the calendar, not a `dateutil` rruleset object; the union-of-rules semantics appears only in `NetWorkdaysAsWritten`.
- The project-manager connector, the model constructors and `networkdays` are function parameters. Their own behaviour, and exceptions they raise, are not modelled.
- Store.Database.Commit: a batch whose upsert breaks a unique column fails with `IntegrityError` and changes nothing. Constraint violations the database would raise for other reasons (NOT NULL, foreign keys) are not modelled.
- The rollback in `sync_iterations` and `sync_tasks` (sync.py:170-172, 215-217) undoes only the open session. Batches committed before a failing one stay, and the model keeps them too. The re-raise is a `Failure` result.
- Relationships (`task.user`, `task.iteration`, `event.task`) are their foreign-key columns holding row ids. SQLAlchemy identity-map and lazy-loading behaviour is not modelled.
- `Task.__init__` for rows built by `_batch_sync` is the `Construct` parameter. The link between it and `Models.Task.constructor` is not stated.
- Strings: `str.strip()` removes ASCII whitespace only; Unicode whitespace is not modelled.
- `task.pop('iteration_ext_id')` and `task['user']['email']` on records without those fields (a `KeyError`): the record types always carry them.
- Events keyed alike: two events whose new key coincides keep the fields of the later one, as the dict does. The Event table's own unique index (`task_id`, `type`, `occured_on`) is enforced at commit like every other constraint.
- Linking is stated per flush: each flush's tasks and events are linked to the rows stored at that flush. Rows later overwritten by a later flush are not tracked across flushes.
- The `Simulation`, `Stat`, `Holiday` and `Vacation` tables and the holiday and vacation syncs are outside this model. Vacations and holidays enter `cache_workdays` as the sets of days off.
- `sync_tasks` does not force the work-day caches to be recomputed, and the model does not either.
- Dict order: Python 2 iterates a dict in an unspecified (hash) order; the model fixes insertion order. The key sets, the stored rows' fields, the marks and the constraints proved do not depend on it. Two things do: which new row gets which id in `_batch_sync`, and which of two events that share a new key is stored.
- Models.ClearFuture: follows the corrected `started_on` test of the models.py:217-218 Finding (cleared when later than `dt`); as written it is cleared when earlier than `dt` (`StartedOnInverted`).
- Models.TaskAsOfReverts: states the corrected view of the models.py:25-28 and 217-218 Findings; as written a task without an iteration raises (`CopyAsOfAsWritten`) and `started_on` reads inverted.
- Models.IterationAsOf: built on the corrected `TaskAsOf` and `InIterationAt`; as written a candidate task without an iteration raises (models.py:25-28), so does one moved into the iteration from none (models.py:124, `InIterationAtAsWritten`), and each view's `started_on` reads inverted.
- Estimates.Est: states `_est` once the extra filter is applied; as written `if xtra_filter:` never applies one (`EstAsWritten`, the estimates.py:15 Finding).
- Estimates.TaskEfforts: the intended user filter; as written every task's estimate is listed for one user, and `user=None` or a collection of users raises (`TaskEffortsAsWritten`).
- Estimates.NoUserNoEfforts: about the intended filter; as written `task_efforts(user=None)` raises TypeError rather than listing nothing.
- Estimates.IterEst: the intended team filter; as written every iteration's value is listed for any team but `None`, which raises (`IterEstAsWritten`).
- Estimates.IterationEfforts: built on the corrected `IterEst`; the as-written listing is `IterEstAsWritten` with the `effort_est` column.
- Estimates.IterationValues: built on the corrected `IterEst`; the as-written listing is `IterEstAsWritten` with the `value_est` column.
- TaskSync.GatherTask: follows the corrected users dict of the sync.py:202-203 Finding (the email stored stripped); as written the dict holds the email as sent (`UserBatchAsWritten`).
- TaskSync.GatherNext: gathers the corrected users dict of the sync.py:202-203 Finding; as written the email is stored as sent.
- TaskSync.FlushTasks: flushes the corrected users dict of the sync.py:202-203 Finding; as written a padded email already stored fails the flush with IntegrityError (`UnstrippedEmailDuplicates`).
- TaskSync.FlushFull: as FlushTasks, follows the corrected users dict of the sync.py:202-203 Finding.
- TaskSync.TaskStep: as FlushTasks, follows the corrected users dict of the sync.py:202-203 Finding.
- TaskSync.FlushLast: as FlushTasks, follows the corrected users dict of the sync.py:202-203 Finding.
- TaskSync.GatherAll: as FlushTasks, gathers and flushes the corrected users dict of the sync.py:202-203 Finding; as written the email is stored as sent, and a second sync of a padded email fails with IntegrityError.
- TaskSync.FlushAllTasks: as FlushTasks, follows the corrected users dict of the sync.py:202-203 Finding; as written a second sync of a padded email fails instead of succeeding.
- TaskSync.SyncTasks: as FlushAllTasks; as written `sync_tasks` fails with IntegrityError on the second sync of a padded email and rolls back that flush.
- TaskSync.SyncIterationsAndTasks: built on SyncTasks, so it follows the corrected users dict of the sync.py:202-203 Finding; as written the second sync of a padded email fails with IntegrityError.
- TaskSync.SyncAll: built on SyncTasks, so it follows the corrected users dict of the sync.py:202-203 Finding too.
- TaskSync.UsersKeyedOf: about the corrected users dict; as written the stored email is the unstripped one (`PaddedUsers`).
- TaskSync.TasksReadyOf: about the corrected users dict of the sync.py:202-203 Finding.
- TaskSync.EventRowKey: states an event row's Iteration link only when it is not NULL. An event stored with a NULL link stays stored after a later sync stores that Iteration, so the stored facts do not say that a NULL link means no Iteration was stored.
- TaskSync.RecordsStoredKept: keeps each record's rows by their key columns only; the other fields of a row that a later sync overwrites are not tracked.

## Findings

| source | as written | input that shows it | evidently intended | confidence | as-written member | corrected member |
|---|---|---|---|---|---|---|
| stackpm/workdays.py:51-52 | the daily rule added for `start` makes the rruleset contain every day from `start`, so `net_workdays` counts weekends | Fri 2024-01-05 to Mon 2024-01-08, default week: 4 | count only work-week days, 2 | high, not executed | Workdays.WeekendCounted | Workdays.NetWorkdaysCounts |
| stackpm/models.py:217-218 | `started_on` is cleared when `dt > started_on`, the inverse of the done dates' test | a task started on day 5, viewed on day 10 reads as not started | clear it when `dt < started_on` | high, not executed | Models.StartedOnInverted | Models.TaskAsOfDates |
| stackpm/models.py:25-28 | `_copy_as_of(task, relateds=['iteration', 'user'])` reads `None.id` for a task without an iteration | any task with `iteration_id` NULL, viewed after its creation | a view with no iteration | high, not executed | Models.NoIterationRaises | Models.TaskAsOf |
| stackpm/models.py:124 | `task_on_dt['iteration'].id` raises when a Task's view has no iteration | a candidate task that was moved into the iteration from none, viewed before the move | leave that task out of the iteration's view | high, not executed | Models.MovedFromNoIterationRaises | Models.RolledMembers |
| stackpm/estimates.py:15 | `if xtra_filter:` takes the truth value of a SQL clause: an `==` clause compares the hashes of its operands and is false, so the filter is never applied; `== None` has no truth value and raises TypeError | a task of user 2 estimated "x", `task_efforts(user=u1)`: "x" listed | apply the clause when one was built (`is not None`) | medium, not executed | Estimates.OtherUserListed | Estimates.TaskEfforts |
| stackpm/estimates.py:26-27 | a team collection's `in_` clause goes to an unused local, so no filter is applied | iteration of team "b" with effort "x", teams {"a"}: "x" listed | filter by membership | high, not executed | Estimates.OtherTeamListed | Estimates.OtherTeamNotListed |
| stackpm/sync.py:202-203 | users are keyed by the stripped email but stored with the email as sent | a user email "a@x.com " synced twice: a second row with the same email, IntegrityError | store the stripped email | high, not executed | TaskSync.UnstrippedEmailDuplicates | TaskSync.ResyncCreatesNoUser |
