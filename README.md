# mcp-scheduler, modelled in Dafny

mcp-scheduler lets an MCP client schedule recurring prompts to Claude. It
has four parts, and each is one module here:

- **The task ledger** (`TaskStore`, from `mcp_scheduler/task_store.py`).
  It is a SQLite database with two tables: `tasks`, keyed by a 12-character
  id, and `task_runs`, with an AUTOINCREMENT id and a cascading foreign key
  into `tasks`. Class `TaskStore.Store` holds both tables in memory. Its
  invariant `Valid()` says three things. Every row is stored under its own id.
  The row order agrees with `created_at`. Every run belongs to an existing
  task, and the runs are in id order and in start order.
- **The crontab synchroniser** (`CronManager`, from
  `mcp_scheduler/cron_manager.py`). Class `CronManager.CronTab` holds the
  user's crontab as an ordered list of entries. The scheduler owns exactly
  the entries whose comment is `claude-scheduler:<task id>`. The model proves
  that no operation adds, drops or changes an entry of any other comment, and
  that a task never gets two entries.
- **The MCP tools** (`Server`, from `mcp_scheduler/server.py`). First come the
  pydantic input models, as validation functions that return either the
  stripped, defaulted input or the set of offending fields. Then come the
  tools, as methods of class `Server.Scheduler`, which owns the ledger and
  the crontab. Its invariant adds one cross-store property: the crontab
  never carries an entry for a task that the ledger does not hold.
- **The task runner** (`Runner`, from `mcp_scheduler/run_task.py`). This is
  the program a crontab entry starts. It loads the task and records a run,
  asks the model, hands the answer to a delivery handler, and records the
  outcome. It ends with exit status 0 or 1.

The outside world is passed in as values and functions:

- Timestamps are integer readings of a monotone clock (`now`, `start`,
  `finish`).
- The fresh task id is a parameter that satisfies `IsTaskId`.
- python-crontab's expression validator and next-fire computation are the
  functions `CronTab.valid` and `CronTab.nextFire`.
- `shutil.which`, `sys.executable` and the log directory are
  `CronManager.Host`.
- The child process of `scheduler_run_now` is `Scheduler.spawn`.
- The Messages API is `RunEnv.backend`.
- The environment's API key is `RunEnv.apiKey`.
- The file and stdout writes of the delivery handlers are `Runner.Effect`
  values. Performing one can fail, and that is `RunEnv.perform`.

## Model

| member | source | states |
|---|---|---|
| Wrappers.ErrorText | mcp_scheduler/run_task.py:150 | The reported error text is the exception's class name, then `": "`, then its message, stated piece by piece. |
| Text.Strip | mcp_scheduler/server.py:39 | `str.strip`. The result is `TrimmedFrom` the input: a slice `s[i..j]` with only whitespace before `i` and after `j`. It is empty exactly when the input is all whitespace, and it otherwise neither starts nor ends with whitespace. |
| Text.StripIdempotent | mcp_scheduler/server.py:39 | Stripping twice gives the same string as stripping once. |
| Text.JoinSnoc | mcp_scheduler/cron_manager.py:58 | `" ".join` on a list with one more part puts one separator before the new last part. |
| Text.Lower | mcp_scheduler/run_task.py:67 | ASCII `lower()`. It keeps the length, lowers each character, and leaves no upper-case letter. |
| Text.ReplaceChar | mcp_scheduler/run_task.py:67 | `replace(' ', '_')` for one character. It keeps the length, and each position holds either the replacement or the original character. When the two characters differ, the replaced character no longer occurs. |
| Text.Last | mcp_scheduler/server.py:409-410 | The slice `s[-n:]`. It is the suffix of `s` with length `min(n, len(s))`. |
| Seqs.Filter | mcp_scheduler/task_store.py:111 | The kept elements are elements of the input that pass the test. Every element that passes is kept. The result is never longer than the input. |
| Seqs.FilterAppend | mcp_scheduler/cron_manager.py:88-98 | Filtering distributes over concatenation. |
| Seqs.FilterPairwise | mcp_scheduler/task_store.py:111-113 | A relation that holds between every earlier and every later element still holds after filtering. This is how the order of a table survives a `WHERE`. |
| Seqs.FilterKeepsAll | mcp_scheduler/task_store.py:113 | Without a condition, the filter keeps every row. |
| Seqs.FilterIdempotent | mcp_scheduler/cron_manager.py:53 | Filtering twice with the same test is the same as filtering once. |
| Seqs.Reverse | mcp_scheduler/task_store.py:111-113 | `DESC` over rows kept in ascending order. Position `k` of the result holds position `len-1-k` of the input. |
| Seqs.Limit | mcp_scheduler/task_store.py:178 | SQL `LIMIT n`: a prefix of the sequence. Its length is `n` when `0 <= n` is below the length, and the whole length otherwise (a negative `n` means no limit). |
| TaskStore.Allowed | mcp_scheduler/task_store.py:120-121 | The keywords kept are exactly those naming one of the eight updatable columns, with their own values. |
| TaskStore.Patched | mcp_scheduler/task_store.py:129-133 | The `UPDATE` keeps the id and both stamps. An empty patch changes nothing. A given `delivery_config` dict or `enabled` flag is taken. |
| TaskStore.UnknownKeysIgnored | mcp_scheduler/task_store.py:121 | Keywords outside the allowed columns have no effect on the row. |
| TaskStore.PatchedColumn | mcp_scheduler/task_store.py:129-133 | For each of the eight updatable columns, a column whose key is absent keeps its value, and each text or integer column given a value of its type takes that value (the dict and flag columns are taken as `Patched` itself states). |
| TaskStore.PatchEnabled | mcp_scheduler/task_store.py:118-136 | `update_task(id, enabled=b)` keeps the keyword and changes only the flag. |
| TaskStore.ListingRows | mcp_scheduler/task_store.py:110-115 | A listing holds only stored rows, and only enabled ones when asked. |
| TaskStore.ListingComplete | mcp_scheduler/task_store.py:110-115 | A listing misses no row that satisfies the condition. |
| TaskStore.ListingOrdered | mcp_scheduler/task_store.py:111-113 | Rows inserted in `created_at` order come out with distinct ids and `created_at` descending. |
| TaskStore.ListingAll | mcp_scheduler/task_store.py:113 | Without `enabled_only`, the listing has one element per stored row. |
| TaskStore.ListingOk | mcp_scheduler/task_store.py:107-115 | Over a consistent table, the listing has all four properties above together. |
| TaskStore.InsertKeeps | mcp_scheduler/task_store.py:76-91 | Appending a new row stamped `now` keeps the row invariants and the order invariant. |
| TaskStore.RewriteKeeps | mcp_scheduler/task_store.py:128-133 | Rewriting a row with the same id and `created_at`, stamped `now`, keeps the row invariants and the order invariant. |
| TaskStore.DeleteOrderKeeps | mcp_scheduler/task_store.py:142 | Deleting a row leaves an order that lists exactly the remaining rows, in `created_at` order. |
| TaskStore.DeleteRunsKeep | mcp_scheduler/task_store.py:57 | `ON DELETE CASCADE`: dropping the deleted task's runs keeps the foreign-key invariant and the order of the runs. |
| TaskStore.DeleteKeeps | mcp_scheduler/task_store.py:139-145 | Deleting a row together with its runs keeps every invariant of the two tables. |
| TaskStore.DistinctCount | mcp_scheduler/task_store.py:145 | In a list without duplicates, removing one id shortens the list by one exactly when the id was there. |
| TaskStore.NewestRunsFirst | mcp_scheduler/task_store.py:178 | Runs in id order, read backwards and truncated, come out with ids strictly decreasing and start stamps non-increasing. |
| TaskStore.Finished | mcp_scheduler/task_store.py:166-169 | The `UPDATE ... WHERE id = ?` rewrites the five outcome columns of the run with that id, and every other run stays as it was. |
| TaskStore.FinishKeeps | mcp_scheduler/task_store.py:162-171 | Finishing a run keeps the runs invariant under the later clock. |
| TaskStore.HistoryComplete | mcp_scheduler/task_store.py:177-180 | When the limit does not cut the history short, it contains every run of the task. |
| TaskStore.HistoryNewest | mcp_scheduler/task_store.py:177-180 | With `ORDER BY started_at DESC LIMIT ?` over runs in start order, any run of the task the limit leaves out is older than every run it keeps. |
| TaskStore.HistoryOk | mcp_scheduler/task_store.py:174-182 | Over a consistent run table the result satisfies `IsHistory`: only the task's own runs, ids and start stamps descending, exactly `min(limit, count)` of them (all when `limit` is negative), and every run of the task left out is older than every run kept. |
| TaskStore.Store.constructor | mcp_scheduler/task_store.py:31-60 | `_init_db` creates empty tables. The invariant holds, and the AUTOINCREMENT counter starts at 1. |
| TaskStore.Store.GetTask | mcp_scheduler/task_store.py:97-104 | The result is present exactly when a row has that id, and then it is that row. |
| TaskStore.Store.ListTasks | mcp_scheduler/task_store.py:107-115 | The result holds stored rows only, and enabled ones only when asked. Every qualifying row appears. Ids are distinct, and `created_at` is descending. Without the filter, every row appears. |
| TaskStore.Store.History | mcp_scheduler/task_store.py:174-182 | The result satisfies `IsHistory`: the task's own runs, newest first, exactly `min(limit, count)` of them, every omitted run of the task older than every kept one. |
| TaskStore.Store.CreateTask | mcp_scheduler/task_store.py:63-94 | A used id gives the primary-key `IntegrityError` and changes nothing. Otherwise the new row is enabled, stamped twice with `now`, and has `{}` for a missing config. It is appended to the row order, and `get_task` returns it. |
| TaskStore.Store.UpdateTask | mcp_scheduler/task_store.py:118-136 | With no allowed keyword, nothing is written and the current row is returned. Otherwise the row, if any, is patched and stamped `now`, and the new row is returned. An unknown id gives `None`. |
| TaskStore.Store.Deleted | mcp_scheduler/task_store.py:139-145 | The tables left by the delete are consistent, and they hold neither the row nor any run of it. |
| TaskStore.Store.DeleteTask | mcp_scheduler/task_store.py:139-145 | The result is true exactly when the row existed. The row is removed, its runs cascade, and everything else is unchanged. |
| TaskStore.Store.LogRunStart | mcp_scheduler/task_store.py:148-159 | An unknown task fails the foreign key and changes nothing. Otherwise the result is a `running` row with the next AUTOINCREMENT id, appended at the end. The id is above every earlier id. |
| TaskStore.Store.LogRunFinish | mcp_scheduler/task_store.py:162-171 | Only the run with that id gets the finish stamp and outcome columns. An unknown id changes no row. |
| CronManager.JobComment | mcp_scheduler/cron_manager.py:38-40 | The comment is `claude-scheduler:` followed by the task id. |
| CronManager.TaskIdOf | mcp_scheduler/cron_manager.py:89-90 | A comment yields a task id exactly when it starts with the prefix. That task's tag is then the comment itself. |
| CronManager.TagRoundTrip | mcp_scheduler/cron_manager.py:38-40 | Reading the id back off a task's tag gives the task id, so distinct tasks get distinct tags. |
| CronManager.RunnerArgs | mcp_scheduler/cron_manager.py:21-30 | The program is the console script when `which` finds one, otherwise the interpreter. The command always ends `--task-id <id>`. |
| CronManager.CommandRunsTask | mcp_scheduler/cron_manager.py:56-58 | The installed command is the program's arguments, then ` --task-id <id>`, then the redirection into the task's log. |
| CronManager.CountPositive | mcp_scheduler/cron_manager.py:79-81 | `remove_all`'s count is positive exactly when some entry carries the comment. |
| CronManager.CountWithout | mcp_scheduler/cron_manager.py:53 | `remove_all(comment=c)` leaves no entry of `c`, and every other comment keeps its count. |
| CronManager.Installed | mcp_scheduler/cron_manager.py:49-67 | After install, the task has exactly one entry. The other entries are the old ones in their old order. No other comment gains or loses an entry, and at most one entry per task still holds. |
| CronManager.Removed | mcp_scheduler/cron_manager.py:77-80 | After removal, the task has no entry and every other comment keeps its entries. Removal is idempotent, and at most one entry per task still holds. |
| CronManager.WithEnabled | mcp_scheduler/cron_manager.py:106-107 | `job.enable(flag)` on the entries of `c`: each of them takes the flag, and every other entry is unchanged. |
| CronManager.Toggled | mcp_scheduler/cron_manager.py:101-124 | Toggling adds and removes no entry of any comment and leaves every other entry in place. It changes nothing when the task has no entry. At most one entry per task still holds. |
| CronManager.ManagedJobsSnoc | mcp_scheduler/cron_manager.py:88-98 | One more entry at the end adds its jobs at the end of the report. |
| CronManager.JobFromEntry | mcp_scheduler/cron_manager.py:88-97 | Each reported job is read off an entry tagged for that task, with the same expression, command and flag. |
| CronManager.JobsOfTask | mcp_scheduler/cron_manager.py:84-98 | `list_jobs` reports exactly as many jobs for a task as there are entries with that task's tag. Untagged and foreign entries give no job. |
| CronManager.LookupJob | mcp_scheduler/server.py:195-199 | The dict built from the job list finds a task exactly when some job has that id. The job found is the last job with that id, as a later key overwrites an earlier one. |
| CronManager.FirstTagged | mcp_scheduler/cron_manager.py:131 | `find_comment` finds nothing exactly when no entry carries the comment. Otherwise what it yields first is the first entry with that comment. |
| CronManager.CronTab.constructor | mcp_scheduler/cron_manager.py:33-35 | `CronTab(user=True)` loads the given entries with the given validator and next-fire oracles. |
| CronManager.CronTab.NextRun | mcp_scheduler/cron_manager.py:127-135 | There is no next run exactly when the task has no entry. |
| CronManager.CronTab.InstallJob | mcp_scheduler/cron_manager.py:43-68 | With a valid expression, the task's old entries are replaced by one new enabled entry at the end, and the `Installed: ...` line is returned. With an invalid expression, `ValueError` is raised and the crontab is not written. Other tasks' entries never change. |
| CronManager.CronTab.RemoveJob | mcp_scheduler/cron_manager.py:71-81 | The result is true exactly when the task had an entry. Afterwards it has none, and other tasks keep theirs. |
| CronManager.CronTab.ListJobs | mcp_scheduler/cron_manager.py:84-98 | The loop reports the managed entries in crontab order, one job per managed entry. |
| CronManager.CronTab.SetEnabled | mcp_scheduler/cron_manager.py:101-124 | The loop over `find_comment` reports whether it found an entry, and leaves the entries with the task's entries switched. |
| CronManager.CronTab.EnableJob | mcp_scheduler/cron_manager.py:101-111 | The result is true exactly when the task had an entry. Afterwards all its entries are enabled, and nothing else changes. |
| CronManager.CronTab.DisableJob | mcp_scheduler/cron_manager.py:114-124 | The result is true exactly when the task had an entry. Afterwards all its entries are disabled but still present, and nothing else changes. |
| CronManager.CronTab.GetNextRun | mcp_scheduler/cron_manager.py:127-135 | The loop returns the next fire time of the first entry of the task, and `None` exactly when it has none. |
| Server.ValidateAddTask | mcp_scheduler/server.py:37-80 | Validation succeeds exactly when `name` (1-200 stripped characters), `prompt` (at least one) and `cron_expression` are present, `max_tokens` is in 100..64000, and there are no extra keys. The input is then stripped and defaulted. On failure, every offending field is named. |
| Server.ValidateUpdateTask | mcp_scheduler/server.py:90-101 | Validation succeeds exactly when `task_id` has 1-20 stripped characters, a given `max_tokens` is in range, and there are no extra keys. Every optional field is then kept, stripped. On failure, every offending field is named. |
| Server.ValidateTaskId | mcp_scheduler/server.py:83-87 | Validation succeeds exactly when `task_id` has 1-20 stripped characters and there are no extra keys. |
| Server.ValidateTaskHistory | mcp_scheduler/server.py:104-109 | A valid task id, plus a `limit` in 1..100 that defaults to 10. On failure, every offending field is named. |
| Server.ValidateListTasks | mcp_scheduler/server.py:112-116 | Only extra keys are rejected. `enabled_only` defaults to false. |
| Server.Updates | mcp_scheduler/server.py:262 | `model_dump(exclude_none, exclude task_id)`: only allowed columns and never `enabled`. The result is empty exactly when no field was given, and has `cron_expression` exactly when one was given. |
| Server.UpdatesApply | mcp_scheduler/server.py:262-266 | Every keyword passes `update_task`'s filter. The patch sets exactly the given fields and keeps the other columns, `enabled` and the stamps. |
| Server.RunReport | mcp_scheduler/server.py:405-415 | On exit, the status is `completed` exactly when the return code is 0. Each output is the suffix of its stream of length `min(2000, length)`. On timeout, the reply is the 120 s message. Any other exception gives its `Type: message` text. |
| Server.NewTask | mcp_scheduler/server.py:148-156 | The row created for a validated input carries its name, prompt and expression, is enabled, and is stamped `now` twice. |
| Server.NoOrphansKept | mcp_scheduler/server.py:159 | A step that changes only one task's entries, and leaves that task existing whenever it has an entry, keeps the crontab free of orphan entries. |
| Server.NoOrphansRemoved | mcp_scheduler/server.py:298-299 | Dropping a task together with its entries leaves no orphan. |
| Server.NoOrphansToggled | mcp_scheduler/server.py:330 | Enabling or disabling entries creates no orphan. |
| Server.Scheduler.constructor | mcp_scheduler/server.py:29-31 | The tools share one ledger and one crontab, and start from a consistent pair. |
| Server.Scheduler.AddTask | mcp_scheduler/server.py:132-172 | Invalid arguments change nothing. A clashing id changes nothing and gives an `IntegrityError` reply. Otherwise the row is created, its id is appended to the creation order and the clock moves to `now`. With a valid expression, the reply carries the row, the install line and a next run. With an invalid one, the reply is the `ValueError` and the row stays. The runs and the run counter never change. |
| Server.Scheduler.Add | mcp_scheduler/server.py:148-172 | The same outcomes (`Added`, including the creation order, clock and run counter) for an input that is already valid. The invariant is kept. |
| Server.Scheduler.Describe | mcp_scheduler/server.py:199-204 | The task's marks: `cron_installed` exactly when it has an entry, a `cron_enabled` flag exactly then, read off one of its entries, and its next run. |
| Server.Scheduler.DescribeAll | mcp_scheduler/server.py:195-205 | The loop gives one listing per task, in order, each with the marks above. |
| Server.Scheduler.ListTasks | mcp_scheduler/server.py:185-207 | The reply has the ledger's listing, task by task, each with its crontab marks. |
| Server.Scheduler.GetTask | mcp_scheduler/server.py:220-236 | An unknown id gives the not-found reply. Otherwise the reply has the row, its next run, and its history limited to five runs. |
| Server.Scheduler.UpdateTask | mcp_scheduler/server.py:249-273 | Invalid arguments, an unknown id, or no changes write nothing: rows, crontab and clock are as before. Otherwise the outcome is the one stated by `Rewrite`. The creation order, runs and run counter never change. |
| Server.Scheduler.Rewrite | mcp_scheduler/server.py:266-273 | The given fields are written and `updated_at` is stamped; the clock moves to `now`, and the creation order and run counter are kept. Only when an expression is given, it is reinstalled. An invalid expression escapes as `ValueError` after the row has been written, with the crontab untouched. |
| Server.Scheduler.RemoveTask | mcp_scheduler/server.py:286-307 | Invalid arguments or an unknown id change nothing: rows, runs, creation order, run counter, clock and crontab are as before. Otherwise `Dropped` holds: the row, its creation-order slot and its runs are filtered out, the run counter and clock are unchanged, the task's entries are removed, and the reply says whether an entry existed. |
| Server.Scheduler.Remove | mcp_scheduler/server.py:296-307 | `remove_job`, then `delete_task`, for a task that exists. `Dropped` holds: the row, the task's runs and its entries are filtered out and nothing else changes; the invariant is kept. |
| Server.Scheduler.SetRowFlag | mcp_scheduler/server.py:330 | `update_task(id, enabled=flag)` sets only the flag and the stamp. The runs, creation order and run counter are kept, and the clock moves to `now`. |
| Server.Scheduler.Switch | mcp_scheduler/server.py:330-331 | `Switched`: the row's flag and the flags of the task's entries are set, the clock moves to `now`, and the rows, runs, creation order and run counter are otherwise unchanged. |
| Server.Scheduler.EnableTask | mcp_scheduler/server.py:320-337 | Invalid arguments or an unknown id change nothing, including the creation order, run counter and clock. Otherwise `Switched` holds with the flag on, and the reply has the next run. |
| Server.Scheduler.DisableTask | mcp_scheduler/server.py:350-366 | Invalid arguments or an unknown id change nothing, including the creation order, run counter and clock. Otherwise `Switched` holds with the flag off, and the entries stay in the crontab. |
| Server.Scheduler.RunNow | mcp_scheduler/server.py:379-415 | An unknown id gives the not-found reply. Otherwise the runner's argument vector (`RunnerArgs`, without the entry's log redirection) is spawned, and its outcome is reported as `RunReport` states. |
| Server.Scheduler.ListCron | mcp_scheduler/server.py:428-438 | The reply holds the managed jobs of the crontab. |
| Server.Scheduler.TaskHistory | mcp_scheduler/server.py:451-469 | An unknown id gives the not-found reply. Otherwise the reply has the task's name and at most `limit` of its most recent runs. |
| Runner.TextOfAppend | mcp_scheduler/run_task.py:43-46 | The gathered text of a response split in two is the text of the first part followed by the text of the second. |
| Runner.TextOfOnlyText | mcp_scheduler/run_task.py:45 | Blocks whose type is not `text` contribute nothing. |
| Runner.Generated | mcp_scheduler/run_task.py:48-54 | A backend exception passes through unchanged. Otherwise the result has the response's text, its model, both token counts, and their sum. |
| Runner.CallClaude | mcp_scheduler/run_task.py:20-54 | A missing or empty key raises the `RuntimeError`. Otherwise the loop gathers exactly the response's text, in order, with the token counts. |
| Runner.FileName | mcp_scheduler/run_task.py:67 | The file name is the task name with spaces as `_` and no upper-case letters, followed by `_<timestamp>.<format>`. |
| Runner.DeliverFile | mcp_scheduler/run_task.py:57-71 | The text is written to `<directory>/<file name>`, with the configured directory and format, defaulting to the output directory and `md`. That path is returned. |
| Runner.DeliverAppend | mcp_scheduler/run_task.py:80-96 | It fails exactly when `filepath` is missing or empty. Otherwise the separator, configured or dated by default, is appended, then the text, and the file path is returned. |
| Runner.Deliver | mcp_scheduler/run_task.py:100-104 | It succeeds exactly when the type is one of the three handler names and, for `append`, a non-empty `filepath` is configured. A success writes exactly the text to the output path it returns (`stdout` for a print). An unknown name gives the `ValueError` that lists the handlers. |
| Runner.Attempt | mcp_scheduler/run_task.py:123-147 | Without a key the run fails with the `RuntimeError` text. With a key, each stage decides: a backend error, a delivery error or a failed write gives that exception's text; otherwise the run succeeds with the delivery's output path and input plus output tokens, and the text written is the response's text. |
| Runner.UnknownDeliveryFails | mcp_scheduler/run_task.py:133-136 | An unknown delivery type always fails the run. After a successful call, it fails with that error. |
| Runner.FinalRun | mcp_scheduler/run_task.py:142-153 | The finished row keeps its id, task and start. Its status is `success` exactly on success, with the path and tokens. Otherwise its status is `error`, with the message. |
| Runner.Perform | mcp_scheduler/run_task.py:123-147 | The `try` body ends in exactly the outcome `Attempt` defines. |
| Runner.FinishLast | mcp_scheduler/run_task.py:142-153 | Finishing the run just started rewrites only the row just appended. |
| Runner.Finish | mcp_scheduler/run_task.py:142-152 | `log_run_finish` with the columns of the outcome: only that run changes, into `FinalRun`; the rows, order and run counter are kept and the clock is `finish`. |
| Runner.RunTask | mcp_scheduler/run_task.py:107-153 | An unknown task exits 1 and a disabled one exits 0, neither with a record, a new run id or a clock change. An enabled task gets exactly one new run, finished as `FinalRun` of its attempt, the run counter advances by one and the clock ends at `finish`. It exits 0 exactly on success and 1 exactly on failure. The tasks and their order are untouched. |
| Runner.DryRun | mcp_scheduler/run_task.py:162-168 | The result shows the task exactly when it exists, and writes nothing. |
| Runner.Launch | mcp_scheduler/run_task.py:156-170 | A dry run exits 0 and changes no run, run counter or clock. Otherwise the outcomes are those of `RunTask`: exit 0 exactly on success and 1 exactly on failure, one new run, the run counter advanced by one and the clock at `finish`; an unknown or disabled task leaves the runs, counter and clock alone. |

## Left out

- Integer widths: SQLite integers, the AUTOINCREMENT counter and token counts are unbounded here. The source never comes near 64-bit limits.
- Timestamps: the ISO-8601 UTC strings are integer clock readings. `datetime.isoformat()` leaves out the `.ffffff` part when the microseconds are zero, so the strings do not all have the same shape; string order still agrees with time order, because `+` (of `+00:00`) sorts before `.`. `now` can only move forward.
- Tie order: rows with equal `created_at` and runs with equal `started_at` have no defined order in SQL. The model lists them from the last inserted to the first.
- Connections, WAL mode, `PRAGMA foreign_keys` and concurrent writers are not modelled. Each operation is one atomic step on the tables. The foreign key is taken as enforced, as `_get_conn` sets it.
- `_row_to_dict`: a `delivery_config` that is not valid JSON is kept as text in the source. Here the column is always a decoded string dictionary, and config values are strings.
- `TaskStore.Store.UpdateTask`: keyword values of a type the column cannot hold (a string for `max_tokens`, say) leave the column unchanged here. SQLite would store them anyway.
- JSON output of the tools: replies are datatypes, not `json.dumps` text. The `count` fields are the lengths of the lists beside them.
- `schedule_description` and `job.description()`: no model of cron-to-English rendering, so the field is omitted from `Server.Listing` and `CronManager.Job`.
- `job.slices` is written back as the expression given, without python-crontab's normalisation.
- Cron expression validity and next-fire times are the oracles `CronTab.valid` and `CronTab.nextFire`. `get_next_run` returns an ISO string; here it returns the oracle's integer.
- The `ImportError` branch of `call_claude`: a missing `anthropic` package prints and calls `sys.exit(1)`. This happens after `log_run_start`, and the `SystemExit` it raises is not an `Exception`, so `run_task`'s handler does not catch it and the started run stays `running` for good. It is the one path on which `Runner.RunTask`'s "exactly one run, finished" does not hold in the source. Package presence is outside the model.
- Console output: the `print` calls of `run_task` (progress lines, `ERROR:` and `SKIP:` on stderr) and the dry run's JSON dump are not modelled. `Runner.DryRun` returns the task it would print.
- `mkdir(parents=True, exist_ok=True)` in the delivery handlers is part of the effect of writing a file. Path normalisation by `pathlib` is not modelled: the path is `directory + "/" + file name`, and the append target is the configured string.
- Clock formatting: `%Y%m%d_%H%M%S` and `%Y-%m-%d %H:%M` are given as `Runner.Stamps`.
- Validation messages: a rejected call yields the set of offending fields, not pydantic's error text. Type errors of individual fields, such as a string where an integer is expected, are outside the argument datatypes. An explicit `null` for a defaulted field that is not `Optional` (`delivery_type`, `model`, `max_tokens`, `enabled_only`) is treated as absent, where pydantic would reject it.
- `Text.Lower` lowers only the ASCII letters `A`-`Z`. Python's `str.lower` in `deliver_file` also lowers other cased letters, such as `É`, so file names differ for task names with such letters.
- `Server.Scheduler.RunNow`: the spawned `run_task` child records a run in the ledger (`log_run_start`, then `log_run_finish`). `spawn` is an oracle that returns only the process outcome, so the child's writes to the run table are not reflected in `store`, and a later `TaskHistory` does not show that run.
- `Text.IsSpace` counts the characters Python's `str.isspace` does, including U+001C to U+001F. The whitespace set pydantic's `str_strip_whitespace` strips may differ at these edges.
- Server startup and the MCP transport (`mcp.run()`) are not part of this model. Neither are `paths.py` and `__main__.py`: the database, log and output locations are parameters.
- `Server.Scheduler.Describe`: when a task has several entries, the source reports the flag of the last. The contract says only that the flag is that of one of the task's entries. Under `Server.Scheduler.Valid` there is at most one entry per task, so the two agree.

## Notes on the source

Three behaviours of the code that a reader of the tools' interface might not expect. The model follows the code in each:

- An invalid cron expression is not rejected before the ledger changes. Both `scheduler_add_task` and `scheduler_update_task` write the row first. The two bullets below give the details.
- Recording a run start fails when the task has just been deleted. Foreign keys are on, so `log_run_start` raises. `TaskStore.Store.LogRunStart` states this.
- Not every caller-facing error comes back as `{error: ...}`. The `ValueError` of `scheduler_update_task` escapes the tool. This is `Reply.Raised` in the model.

Other behaviours of the code, also modelled as written:

- `scheduler_add_task` creates the row before it installs the entry. If the expression is invalid, the tool reports the `ValueError`, but the row stays in the ledger, enabled and without an entry. `Server.Scheduler.Added` states this.
- After the row is written, `scheduler_update_task` reinstalls the entry whenever an expression is given. Nothing catches an invalid expression there, so the exception escapes with the row already updated. Reinstalling also creates the entry enabled, even for a disabled task. `Server.Scheduler.Rewritten` states both.
- `log_run_start` for an unknown task fails on the foreign key, which `_get_conn` turns on. `run_task` never calls it for an unknown task.
- `scheduler_list_tasks` builds `{task_id: job}` from `list_jobs`, so when a task has two entries the later one wins. Through `Installed` and `Toggled`, the model proves that the tools never create a second entry.
