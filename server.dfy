/**
 * The MCP tools of `mcp_scheduler/server.py`: argument validation as the
 * pydantic input models perform it, then each tool's calls into the task
 * ledger and the crontab. Class `Scheduler` bundles the two stores with the
 * host facts and the child-process oracle that `scheduler_run_now` needs.
 */
module Server {
  import opened Wrappers
  import opened Text
  import Seqs
  import TaskStore
  import CronManager

  type Task = TaskStore.Task
  type Run = TaskStore.Run
  type Config = TaskStore.Config

  /** The model `AddTaskInput` falls back to. */
  const DefaultModel: string := "claude-sonnet-4-20250514"

  /** How long `scheduler_run_now` waits for the runner, in seconds. */
  const RunTimeout: nat := 120

  /** How many trailing characters of each output stream `scheduler_run_now` reports. */
  const TailLength: nat := 2000

  // ─── Arguments as a client sends them ─────────────────────────────
  // An absent or null field is `None`; `extra` holds the keys no field declares.

  datatype AddTaskArgs = AddTaskArgs(
    name: Option<string>, prompt: Option<string>, cronExpression: Option<string>,
    deliveryType: Option<string>, deliveryConfig: Option<Config>, model: Option<string>,
    maxTokens: Option<int>, extra: set<string>)

  datatype UpdateTaskArgs = UpdateTaskArgs(
    taskId: Option<string>, name: Option<string>, prompt: Option<string>, cronExpression: Option<string>,
    deliveryType: Option<string>, deliveryConfig: Option<Config>, model: Option<string>,
    maxTokens: Option<int>, extra: set<string>)

  datatype TaskIdArgs = TaskIdArgs(taskId: Option<string>, extra: set<string>)

  datatype TaskHistoryArgs = TaskHistoryArgs(taskId: Option<string>, limit: Option<int>, extra: set<string>)

  datatype ListTasksArgs = ListTasksArgs(enabledOnly: Option<bool>, extra: set<string>)

  // ─── Validated inputs ─────────────────────────────────────────────

  datatype AddTaskInput = AddTaskInput(
    name: string, prompt: string, cronExpression: string, deliveryType: string,
    deliveryConfig: Option<Config>, model: string, maxTokens: int)

  datatype UpdateTaskInput = UpdateTaskInput(
    taskId: string, name: Option<string>, prompt: Option<string>, cronExpression: Option<string>,
    deliveryType: Option<string>, deliveryConfig: Option<Config>, model: Option<string>,
    maxTokens: Option<int>)

  datatype TaskHistoryInput = TaskHistoryInput(taskId: string, limit: int)

  /** A required string field: present, and of `minLen..maxLen` characters once stripped (`maxLen < 0`: no maximum). */
  predicate TextOk(v: Option<string>, minLen: nat, maxLen: int) {
    v.Some? && minLen <= |Strip(v.value)| && (maxLen < 0 || |Strip(v.value)| <= maxLen)
  }

  /** An integer field with `ge=lo, le=hi`; an absent one takes its default. */
  predicate RangeOk(v: Option<int>, lo: int, hi: int) {
    v.None? || lo <= v.value <= hi
  }

  function FieldError(ok: bool, field: string): set<string> {
    if ok then {} else {field}
  }

  /** `str_strip_whitespace=True` on an optional field. */
  function StripOpt(v: Option<string>): Option<string> {
    if v.Some? then Some(Strip(v.value)) else None
  }

  /** `scheduler_add_task`'s `AddTaskInput`: the offending fields, or the stripped input with defaults filled in. */
  function ValidateAddTask(a: AddTaskArgs): (r: Result<AddTaskInput, set<string>>)
    ensures r.Ok? <==>
      TextOk(a.name, 1, 200) && TextOk(a.prompt, 1, -1) && a.cronExpression.Some? &&
      RangeOk(a.maxTokens, 100, 64000) && a.extra == {}
    ensures r.Ok? ==>
      && 1 <= |r.value.name| <= 200 && r.value.name == Strip(a.name.value)
      && 1 <= |r.value.prompt| && r.value.prompt == Strip(a.prompt.value)
      && r.value.cronExpression == Strip(a.cronExpression.value)
      && r.value.deliveryType == (if a.deliveryType.Some? then Strip(a.deliveryType.value) else "file")
      && r.value.deliveryConfig == a.deliveryConfig
      && r.value.model == (if a.model.Some? then Strip(a.model.value) else DefaultModel)
      && 100 <= r.value.maxTokens <= 64000
      && r.value.maxTokens == (if a.maxTokens.Some? then a.maxTokens.value else 4096)
    ensures r.Err? ==>
      && a.extra <= r.error
      && (!TextOk(a.name, 1, 200) ==> "name" in r.error)
      && (!TextOk(a.prompt, 1, -1) ==> "prompt" in r.error) && (a.cronExpression.None? ==> "cron_expression" in r.error)
      && (!RangeOk(a.maxTokens, 100, 64000) ==> "max_tokens" in r.error)
  {
    var errors := FieldError(TextOk(a.name, 1, 200), "name") + FieldError(TextOk(a.prompt, 1, -1), "prompt")
      + FieldError(a.cronExpression.Some?, "cron_expression") + FieldError(RangeOk(a.maxTokens, 100, 64000), "max_tokens")
      + a.extra;
    if errors != {} then Err(errors)
    else
      assert "name" !in errors && "prompt" !in errors && "cron_expression" !in errors && "max_tokens" !in errors;
      Ok(AddTaskInput(
        Strip(a.name.value), Strip(a.prompt.value), Strip(a.cronExpression.value),
        if a.deliveryType.Some? then Strip(a.deliveryType.value) else "file",
        a.deliveryConfig,
        if a.model.Some? then Strip(a.model.value) else DefaultModel,
        if a.maxTokens.Some? then a.maxTokens.value else 4096))
  }

  /** `UpdateTaskInput`: every field but `task_id` is optional; a given `max_tokens` must be in range. */
  function ValidateUpdateTask(a: UpdateTaskArgs): (r: Result<UpdateTaskInput, set<string>>)
    ensures r.Ok? <==> TextOk(a.taskId, 1, 20) && RangeOk(a.maxTokens, 100, 64000) && a.extra == {}
    ensures r.Ok? ==>
      && 1 <= |r.value.taskId| <= 20 && r.value.taskId == Strip(a.taskId.value)
      && r.value.name == StripOpt(a.name) && r.value.prompt == StripOpt(a.prompt)
      && r.value.cronExpression == StripOpt(a.cronExpression) && r.value.deliveryType == StripOpt(a.deliveryType)
      && r.value.deliveryConfig == a.deliveryConfig && r.value.model == StripOpt(a.model)
      && r.value.maxTokens == a.maxTokens
    ensures r.Err? ==>
      && a.extra <= r.error
      && (!TextOk(a.taskId, 1, 20) ==> "task_id" in r.error)
      && (!RangeOk(a.maxTokens, 100, 64000) ==> "max_tokens" in r.error)
  {
    var errors := FieldError(TextOk(a.taskId, 1, 20), "task_id") + FieldError(RangeOk(a.maxTokens, 100, 64000), "max_tokens")
      + a.extra;
    if errors != {} then Err(errors)
    else
      assert "task_id" !in errors && "max_tokens" !in errors;
      Ok(UpdateTaskInput(Strip(a.taskId.value), StripOpt(a.name), StripOpt(a.prompt), StripOpt(a.cronExpression),
                         StripOpt(a.deliveryType), a.deliveryConfig, StripOpt(a.model), a.maxTokens))
  }

  /** `TaskIdInput`: a task id of 1 to 20 characters once stripped. */
  function ValidateTaskId(a: TaskIdArgs): (r: Result<string, set<string>>)
    ensures r.Ok? <==> TextOk(a.taskId, 1, 20) && a.extra == {}
    ensures r.Ok? ==> 1 <= |r.value| <= 20 && r.value == Strip(a.taskId.value)
    ensures r.Err? ==>
      && a.extra <= r.error
      && (!TextOk(a.taskId, 1, 20) ==> "task_id" in r.error)
  {
    var errors := FieldError(TextOk(a.taskId, 1, 20), "task_id") + a.extra;
    if errors != {} then Err(errors)
    else
      assert "task_id" !in errors;
      Ok(Strip(a.taskId.value))
  }

  /** `TaskHistoryInput`: a task id as above and a limit of 1 to 100, 10 when absent. */
  function ValidateTaskHistory(a: TaskHistoryArgs): (r: Result<TaskHistoryInput, set<string>>)
    ensures r.Ok? <==> TextOk(a.taskId, 1, 20) && RangeOk(a.limit, 1, 100) && a.extra == {}
    ensures r.Ok? ==>
      && r.value.taskId == Strip(a.taskId.value) && 1 <= r.value.limit <= 100
      && r.value.limit == (if a.limit.Some? then a.limit.value else 10)
    ensures r.Err? ==>
      && a.extra <= r.error
      && (!TextOk(a.taskId, 1, 20) ==> "task_id" in r.error)
      && (!RangeOk(a.limit, 1, 100) ==> "limit" in r.error)
  {
    var errors := FieldError(TextOk(a.taskId, 1, 20), "task_id") + FieldError(RangeOk(a.limit, 1, 100), "limit") + a.extra;
    if errors != {} then Err(errors)
    else
      assert "task_id" !in errors && "limit" !in errors;
      Ok(TaskHistoryInput(Strip(a.taskId.value), if a.limit.Some? then a.limit.value else 10))
  }

  /** `ListTasksInput`: only `enabled_only`, false when absent. */
  function ValidateListTasks(a: ListTasksArgs): (r: Result<bool, set<string>>)
    ensures r.Ok? <==> a.extra == {}
    ensures r.Ok? ==> r.value == (a.enabledOnly.Some? && a.enabledOnly.value)
    ensures r.Err? ==> r.error == a.extra
  {
    if a.extra != {} then Err(a.extra) else Ok(a.enabledOnly.Some? && a.enabledOnly.value)
  }

  /** The keywords `scheduler_update_task` can pass on: every allowed column but `enabled`. */
  const UpdateKeys: set<string> :=
    {"name", "prompt", "cron_expression", "delivery_type", "delivery_config", "model", "max_tokens"}

  /** The keyword value of one field of the input, if the client gave it. */
  function Field(u: UpdateTaskInput, key: string): Option<TaskStore.Value> {
    if key == "name" && u.name.Some? then Some(TaskStore.Text(u.name.value))
    else if key == "prompt" && u.prompt.Some? then Some(TaskStore.Text(u.prompt.value))
    else if key == "cron_expression" && u.cronExpression.Some? then Some(TaskStore.Text(u.cronExpression.value))
    else if key == "delivery_type" && u.deliveryType.Some? then Some(TaskStore.Text(u.deliveryType.value))
    else if key == "delivery_config" && u.deliveryConfig.Some? then Some(TaskStore.Dict(u.deliveryConfig.value))
    else if key == "model" && u.model.Some? then Some(TaskStore.Text(u.model.value))
    else if key == "max_tokens" && u.maxTokens.Some? then Some(TaskStore.Number(u.maxTokens.value))
    else None
  }

  /** `params.model_dump(exclude_none=True, exclude={"task_id"})`: the given fields, as `update_task` keywords. */
  function Updates(u: UpdateTaskInput): (kwargs: map<string, TaskStore.Value>)
    ensures kwargs.Keys <= TaskStore.AllowedKeys && "enabled" !in kwargs
    ensures kwargs == map[] <==>
      u.name.None? && u.prompt.None? && u.cronExpression.None? && u.deliveryType.None? &&
      u.deliveryConfig.None? && u.model.None? && u.maxTokens.None?
    ensures "cron_expression" in kwargs <==> u.cronExpression.Some?
  {
    var kwargs := map k | k in UpdateKeys && Field(u, k).Some? :: Field(u, k).value;
    assert u.name.Some? ==> "name" in kwargs;
    assert u.prompt.Some? ==> "prompt" in kwargs;
    assert u.cronExpression.Some? ==> "cron_expression" in kwargs;
    assert u.deliveryType.Some? ==> "delivery_type" in kwargs;
    assert u.deliveryConfig.Some? ==> "delivery_config" in kwargs;
    assert u.model.Some? ==> "model" in kwargs;
    assert u.maxTokens.Some? ==> "max_tokens" in kwargs;
    kwargs
  }

  /** A value if given, else the current one. */
  function Or<T>(v: Option<T>, current: T): T {
    if v.Some? then v.value else current
  }

  /**
   * A partial update sets exactly the fields the client gave, keeps every
   * other column, and never touches `enabled`, the id or the stamps.
   */
  lemma UpdatesApply(t: Task, u: UpdateTaskInput)
    ensures TaskStore.Allowed(Updates(u)) == Updates(u)
    ensures TaskStore.Patched(t, Updates(u)) ==
      t.(name := Or(u.name, t.name), prompt := Or(u.prompt, t.prompt),
         cronExpression := Or(u.cronExpression, t.cronExpression),
         deliveryType := Or(u.deliveryType, t.deliveryType),
         deliveryConfig := Or(u.deliveryConfig, t.deliveryConfig),
         model := Or(u.model, t.model), maxTokens := Or(u.maxTokens, t.maxTokens))
  {
    var kw := Updates(u);
    assert u.name.Some? <==> "name" in kw;
    assert u.prompt.Some? <==> "prompt" in kw;
    assert u.cronExpression.Some? <==> "cron_expression" in kw;
    assert u.deliveryType.Some? <==> "delivery_type" in kw;
    assert u.deliveryConfig.Some? <==> "delivery_config" in kw;
    assert u.model.Some? <==> "model" in kw;
    assert u.maxTokens.Some? <==> "max_tokens" in kw;
  }

  // ─── Replies ──────────────────────────────────────────────────────

  /** One element of `scheduler_list_tasks`' `tasks` array. */
  datatype Listing = Listing(task: Task, cronInstalled: bool, nextRun: Option<int>, cronEnabled: Option<bool>)

  /** How the child process of `scheduler_run_now` ended. */
  datatype ProcessOutcome =
    | Exited(returncode: int, stdout: string, stderr: string)
    | Expired                                  // `subprocess.TimeoutExpired`
    | SpawnFailed(exception: Exception)        // any other exception, e.g. no such executable

  /**
   * What a tool hands back. `Rejected` is a validation failure and `Raised`
   * an exception escaping the tool; `Failure` is the `{"error": ...}` object.
   * Every other variant is one of the tools' JSON objects; a `count` field
   * is the length of the list beside it.
   */
  datatype Reply =
    | Rejected(fields: set<string>)
    | Raised(exception: Exception)
    | Failure(error: string)
    | Created(task: Task, cron: string, nextRun: Option<int>)
    | Listed(tasks: seq<Listing>)
    | Details(task: Task, nextRun: Option<int>, recentRuns: seq<Run>)
    | NoChanges(task: Task)
    | Updated(task: Task, nextRun: Option<int>)
    | Removed(taskName: string, cronRemoved: bool, dbRemoved: bool)
    | Enabled(taskName: string, nextRun: Option<int>)
    | Disabled(taskName: string)
    | Ran(status: string, taskName: string, returncode: int, stdout: string, stderr: string)
    | TimedOut(taskName: string, error: string)
    | RunFailed(error: string)
    | CronJobs(jobs: seq<CronManager.Job>)
    | RunHistory(taskName: string, runs: seq<Run>)

  /** `{"error": f"Task not found: {task_id}"}` */
  function NotFound(taskId: string): Reply {
    Failure("Task not found: " + taskId)
  }

  /** `scheduler_run_now`'s report on the runner process. */
  function RunReport(taskName: string, outcome: ProcessOutcome): (r: Reply)
    ensures outcome.Exited? ==>
      && r.Ran? && r.taskName == taskName && r.returncode == outcome.returncode
      && (r.status == "completed" <==> outcome.returncode == 0)
      && (r.status == "failed" <==> outcome.returncode != 0)
      && |r.stdout| <= TailLength && |r.stdout| <= |outcome.stdout| && r.stdout == outcome.stdout[|outcome.stdout| - |r.stdout|..]
      && |r.stderr| <= TailLength && |r.stderr| <= |outcome.stderr| && r.stderr == outcome.stderr[|outcome.stderr| - |r.stderr|..]
      && (|outcome.stdout| <= TailLength ==> r.stdout == outcome.stdout)
      && (|outcome.stderr| <= TailLength ==> r.stderr == outcome.stderr)
      && |r.stdout| == (if |outcome.stdout| <= TailLength then |outcome.stdout| else TailLength)
      && |r.stderr| == (if |outcome.stderr| <= TailLength then |outcome.stderr| else TailLength)
    ensures outcome.Expired? ==> r == TimedOut(taskName, "Task exceeded 120s timeout")
    ensures outcome.SpawnFailed? ==> r == RunFailed(ErrorText(outcome.exception))
  {
    match outcome
    case Exited(code, out, err) =>
      Ran(if code == 0 then "completed" else "failed", taskName, code, Last(out, TailLength), Last(err, TailLength))
    case Expired => TimedOut(taskName, "Task exceeded 120s timeout")
    case SpawnFailed(e) => RunFailed(ErrorText(e))
  }

  /** The row `create_task` inserts for a validated input: enabled, and stamped twice with `now`. */
  function NewTask(input: AddTaskInput, id: string, now: int): (t: Task)
    ensures t.id == id && t.name == input.name && t.prompt == input.prompt && t.cronExpression == input.cronExpression
    ensures t.enabled && t.createdAt == t.updatedAt == now
  {
    TaskStore.Task(id, input.name, input.prompt, input.cronExpression, input.deliveryType,
                   if input.deliveryConfig.Some? then input.deliveryConfig.value else map[],
                   input.model, input.maxTokens, true, now, now)
  }

  /** The crontab never carries an entry for a task the ledger does not hold. */
  ghost predicate NoOrphans(tasks: map<string, Task>, entries: seq<CronManager.Entry>) {
    forall taskId :: CronManager.Count(entries, CronManager.JobComment(taskId)) > 0 ==> taskId in tasks
  }

  /** Overwriting the row of an existing id leaves the set of ids. */
  lemma KeysKept(tasks: map<string, Task>, id: string, row: Task)
    requires id in tasks
    ensures tasks[id := row].Keys == tasks.Keys
  {
  }

  /**
   * A step that keeps every other task's entry count and holds no entry for
   * `taskId` unless that task exists afterwards keeps the crontab free of
   * orphans, provided no other task disappeared from the ledger.
   */
  lemma NoOrphansKept(tasks: map<string, Task>, entries: seq<CronManager.Entry>,
                      tasks': map<string, Task>, entries': seq<CronManager.Entry>, taskId: string)
    requires NoOrphans(tasks, entries)
    requires tasks.Keys - {taskId} <= tasks'.Keys
    requires CronManager.Count(entries', CronManager.JobComment(taskId)) > 0 ==> taskId in tasks'
    requires forall other :: other != taskId ==>
      CronManager.Count(entries', CronManager.JobComment(other)) == CronManager.Count(entries, CronManager.JobComment(other))
    ensures NoOrphans(tasks', entries')
  {
  }

  /** Dropping a task together with its entries leaves no orphan. */
  lemma NoOrphansRemoved(tasks: map<string, Task>, entries: seq<CronManager.Entry>, id: string)
    requires NoOrphans(tasks, entries)
    ensures NoOrphans(tasks - {id}, CronManager.Without(entries, CronManager.JobComment(id)))
  {
    var c := CronManager.JobComment(id);
    forall other | CronManager.Count(CronManager.Without(entries, c), CronManager.JobComment(other)) > 0
      ensures other in tasks - {id}
    {
      CronManager.TagRoundTrip(other, id);
      CronManager.CountWithout(entries, c, CronManager.JobComment(other));
    }
  }

  /** Switching entries on or off adds no entry, so it creates no orphan. */
  lemma NoOrphansToggled(tasks: map<string, Task>, entries: seq<CronManager.Entry>, c: string, flag: bool)
    requires NoOrphans(tasks, entries)
    ensures NoOrphans(tasks, CronManager.WithEnabled(entries, c, flag))
  {
    CronManager.Toggled(entries, c, flag);
  }

  /** The ledger, the crontab, and the facts about the host the tools need. */
  class Scheduler {
    const store: TaskStore.Store
    const cron: CronManager.CronTab
    const host: CronManager.Host
    /** `subprocess.run(args, capture_output=True, text=True, timeout=120)` */
    const spawn: seq<string> -> ProcessOutcome

    /** Both stores keep their own guarantees, and the crontab only holds entries of existing tasks. */
    ghost predicate Valid()
      reads this, store, cron
    {
      && store.Valid()
      && CronManager.AtMostOnePerTask(cron.entries)
      && NoOrphans(store.tasks, cron.entries)
    }

    constructor (store: TaskStore.Store, cron: CronManager.CronTab, host: CronManager.Host,
                 spawn: seq<string> -> ProcessOutcome)
      requires store.Valid() && CronManager.AtMostOnePerTask(cron.entries) && NoOrphans(store.tasks, cron.entries)
      ensures Valid()
      ensures this.store == store && this.cron == cron && this.host == host && this.spawn == spawn
    {
      this.store := store;
      this.cron := cron;
      this.host := host;
      this.spawn := spawn;
    }

    /**
     * `scheduler_add_task`: create the row, then install its entry. An
     * exception from either step becomes an error reply, and a row whose
     * entry could not be installed stays in the ledger.
     */
    method AddTask(args: AddTaskArgs, id: string, now: int) returns (reply: Reply)
      requires Valid() && store.clock <= now && TaskStore.IsTaskId(id)
      modifies store, cron
      ensures Valid() && store.runs == old(store.runs)
      ensures ValidateAddTask(args).Err? ==>
        reply == Rejected(ValidateAddTask(args).error) &&
        store.tasks == old(store.tasks) && cron.entries == old(cron.entries) &&
        store.order == old(store.order) && store.nextRunId == old(store.nextRunId) && store.clock == old(store.clock)
      ensures ValidateAddTask(args).Ok? ==> Added(ValidateAddTask(args).value, id, reply, now)
    {
      var validated := ValidateAddTask(args);
      if validated.Err? {
        return Rejected(validated.error);
      }
      reply := Add(validated.value, id, now);
    }

    /**
     * The state and reply after `scheduler_add_task` with a validated input:
     * a clashing id changes nothing; otherwise the row exists, and the
     * task's one entry exists exactly when the expression is valid.
     */
    twostate predicate Added(input: AddTaskInput, id: string, reply: Reply, now: int)
      reads this, store, cron
    {
      && store.nextRunId == old(store.nextRunId)
      && (id in old(store.tasks) ==>
            && reply == Failure(ErrorText(Exception("IntegrityError", "UNIQUE constraint failed: tasks.id")))
            && store.tasks == old(store.tasks) && cron.entries == old(cron.entries)
            && store.order == old(store.order) && store.clock == old(store.clock))
      && (id !in old(store.tasks) ==>
            && store.tasks == old(store.tasks)[id := NewTask(input, id, now)]
            && store.order == old(store.order) + [id] && store.clock == now
            && (cron.valid(input.cronExpression) ==>
                  && cron.entries == CronManager.Without(old(cron.entries), CronManager.JobComment(id))
                                     + [CronManager.Entry(CronManager.JobComment(id), CronManager.JobCommand(id, host),
                                                          input.cronExpression, true)]
                  && CronManager.Count(cron.entries, CronManager.JobComment(id)) == 1
                  && reply == Created(NewTask(input, id, now),
                                      "Installed: " + input.cronExpression + " -> " + CronManager.JobCommand(id, host),
                                      cron.NextRun(id, now))
                  && reply.nextRun.Some?)
            && (!cron.valid(input.cronExpression) ==>
                  && cron.entries == old(cron.entries)
                  && reply == Failure(ErrorText(Exception("ValueError", "Invalid cron expression: '" + input.cronExpression + "'")))))
    }

    /** The ledger and crontab work of `scheduler_add_task`. */
    method Add(input: AddTaskInput, id: string, now: int) returns (reply: Reply)
      requires Valid() && store.clock <= now && TaskStore.IsTaskId(id)
      modifies store, cron
      ensures Valid() && store.runs == old(store.runs)
      ensures Added(input, id, reply, now)
    {
      var created := store.CreateTask(id, now, input.name, input.prompt, input.cronExpression,
                                      input.deliveryType, input.deliveryConfig, input.model, input.maxTokens);
      if created.Err? {
        return Failure(ErrorText(created.error));
      }
      ghost var entries0 := cron.entries;
      var info := cron.InstallJob(id, input.cronExpression, host);
      NoOrphansKept(old(store.tasks), entries0, store.tasks, cron.entries, id);
      if info.Err? {
        return Failure(ErrorText(info.error));
      }
      var nextRun := cron.GetNextRun(id, now);
      reply := Created(created.value, info.value, nextRun);
    }

    /** `l` is what `scheduler_list_tasks` reports for `t`. */
    ghost predicate Lists(l: Listing, t: Task, now: int)
      reads this, cron
    {
      && l.task == t
      && (l.cronInstalled <==> CronManager.Count(cron.entries, CronManager.JobComment(t.id)) > 0)
      && (l.cronEnabled.Some? <==> l.cronInstalled)
      && (l.cronEnabled.Some? ==>
            exists i :: (0 <= i < |cron.entries| && cron.entries[i].comment == CronManager.JobComment(t.id) &&
                         cron.entries[i].enabled == l.cronEnabled.value))
      && l.nextRun == cron.NextRun(t.id, now)
    }

    /** The body of `scheduler_list_tasks`' loop, for one task. */
    method Describe(task: Task, jobs: seq<CronManager.Job>, now: int) returns (l: Listing)
      requires jobs == CronManager.ManagedJobs(cron.entries)
      ensures Lists(l, task, now)
    {
      var cj := CronManager.LookupJob(jobs, task.id);
      CronManager.JobsOfTask(cron.entries, task.id);
      var nextRun := cron.GetNextRun(task.id, now);
      if cj.Some? {
        CronManager.JobFromEntry(cron.entries, cj.value);
      }
      var enabled := if cj.Some? then Some(cj.value.enabled) else None;
      l := Listing(task, cj.Some?, nextRun, enabled);
    }

    /** `scheduler_list_tasks`' loop: one listing per task, in the ledger's order. */
    method DescribeAll(tasks: seq<Task>, now: int) returns (enriched: seq<Listing>)
      ensures |enriched| == |tasks|
      ensures forall k :: 0 <= k < |tasks| ==> Lists(enriched[k], tasks[k], now)
    {
      var jobs := cron.ListJobs();
      enriched := [];
      var i := 0;
      while i < |tasks|
        invariant 0 <= i <= |tasks| && |enriched| == i
        invariant forall k :: 0 <= k < i ==> Lists(enriched[k], tasks[k], now)
      {
        var l := Describe(tasks[i], jobs, now);
        enriched := enriched + [l];
        i := i + 1;
      }
    }

    /**
     * `scheduler_list_tasks`: the ledger's listing, each task marked with
     * whether the crontab has its entry, that entry's flag, and its next run.
     */
    method ListTasks(args: ListTasksArgs, now: int) returns (reply: Reply)
      requires Valid()
      ensures ValidateListTasks(args).Err? ==> reply == Rejected(ValidateListTasks(args).error)
      ensures ValidateListTasks(args).Ok? ==>
        var tasks := store.ListTasks(ValidateListTasks(args).value);
        && reply.Listed? && |reply.tasks| == |tasks|
        && forall k :: 0 <= k < |tasks| ==> Lists(reply.tasks[k], tasks[k], now)
    {
      var validated := ValidateListTasks(args);
      if validated.Err? {
        return Rejected(validated.error);
      }
      var tasks := store.ListTasks(validated.value);
      var enriched := DescribeAll(tasks, now);
      reply := Listed(enriched);
    }

    /** `scheduler_get_task`: the row, its next run, and its five most recent runs. */
    method GetTask(args: TaskIdArgs, now: int) returns (reply: Reply)
      requires Valid()
      ensures ValidateTaskId(args).Err? ==> reply == Rejected(ValidateTaskId(args).error)
      ensures ValidateTaskId(args).Ok? ==>
        var id := ValidateTaskId(args).value;
        && (id !in store.tasks ==> reply == NotFound(id))
        && (id in store.tasks ==>
              reply == Details(store.tasks[id], cron.NextRun(id, now), store.History(id, 5)) &&
              |reply.recentRuns| <= 5)
    {
      var validated := ValidateTaskId(args);
      if validated.Err? {
        return Rejected(validated.error);
      }
      var id := validated.value;
      var task := store.GetTask(id);
      if task.None? {
        return NotFound(id);
      }
      var nextRun := cron.GetNextRun(id, now);
      reply := Details(task.value, nextRun, store.History(id, 5));
    }

    /**
     * `scheduler_update_task`: write the given fields, then reinstall the
     * entry when a new expression was given. Nothing catches the install's
     * exception, so an invalid expression escapes after the row is written.
     */
    method UpdateTask(args: UpdateTaskArgs, now: int) returns (reply: Reply)
      requires Valid() && store.clock <= now
      modifies store, cron
      ensures Valid()
      ensures store.runs == old(store.runs) && store.order == old(store.order) && store.nextRunId == old(store.nextRunId)
      ensures ValidateUpdateTask(args).Err? ==>
        reply == Rejected(ValidateUpdateTask(args).error) &&
        store.tasks == old(store.tasks) && cron.entries == old(cron.entries) && store.clock == old(store.clock)
      ensures ValidateUpdateTask(args).Ok? ==>
        var u := ValidateUpdateTask(args).value;
        && (u.taskId !in old(store.tasks) ==>
              reply == NotFound(u.taskId) && store.tasks == old(store.tasks) && cron.entries == old(cron.entries) &&
              store.clock == old(store.clock))
        && (u.taskId in old(store.tasks) && Updates(u) == map[] ==>
              reply == NoChanges(old(store.tasks)[u.taskId]) && store.tasks == old(store.tasks) &&
              cron.entries == old(cron.entries) && store.clock == old(store.clock))
        && (u.taskId in old(store.tasks) && Updates(u) != map[] ==> Rewritten(u, reply, now))
    {
      var validated := ValidateUpdateTask(args);
      if validated.Err? {
        return Rejected(validated.error);
      }
      var u := validated.value;
      var task := store.GetTask(u.taskId);
      if task.None? {
        return NotFound(u.taskId);
      }
      if Updates(u) == map[] {
        return NoChanges(task.value);
      }
      reply := Rewrite(u, now);
    }

    /**
     * The state and reply after `scheduler_update_task` writes a non-empty
     * update: the patched row, and the task's entry reinstalled when the
     * client gave an expression (left alone when the expression is invalid).
     */
    twostate predicate Rewritten(u: UpdateTaskInput, reply: Reply, now: int)
      reads this, store, cron
    {
      && u.taskId in old(store.tasks)
      && store.tasks == old(store.tasks)[u.taskId := TaskStore.Patched(old(store.tasks)[u.taskId], Updates(u)).(updatedAt := now)]
      && store.order == old(store.order) && store.nextRunId == old(store.nextRunId) && store.clock == now
      && (u.cronExpression.None? ==>
            cron.entries == old(cron.entries) &&
            reply == Updated(store.tasks[u.taskId], cron.NextRun(u.taskId, now)))
      && (u.cronExpression.Some? && cron.valid(u.cronExpression.value) ==>
            && cron.entries == CronManager.Without(old(cron.entries), CronManager.JobComment(u.taskId))
                               + [CronManager.Entry(CronManager.JobComment(u.taskId),
                                                    CronManager.JobCommand(u.taskId, host), u.cronExpression.value, true)]
            && reply == Updated(store.tasks[u.taskId], cron.NextRun(u.taskId, now)))
      && (u.cronExpression.Some? && !cron.valid(u.cronExpression.value) ==>
            cron.entries == old(cron.entries) &&
            reply == Raised(Exception("ValueError", "Invalid cron expression: '" + u.cronExpression.value + "'")))
    }

    /** The writing half of `scheduler_update_task`, for a task that exists and an update that is not empty. */
    method Rewrite(u: UpdateTaskInput, now: int) returns (reply: Reply)
      requires Valid() && store.clock <= now
      requires u.taskId in store.tasks && Updates(u) != map[]
      modifies store, cron
      ensures Valid()
      ensures store.tasks.Keys == old(store.tasks).Keys && store.runs == old(store.runs)
      ensures Rewritten(u, reply, now)
    {
      UpdatesApply(store.tasks[u.taskId], u);
      KeysKept(store.tasks, u.taskId, TaskStore.Patched(store.tasks[u.taskId], Updates(u)).(updatedAt := now));
      var updated := store.UpdateTask(u.taskId, Updates(u), now);
      ghost var entries0 := cron.entries;
      if u.cronExpression.Some? {
        var installed := cron.InstallJob(u.taskId, u.cronExpression.value, host);
        if installed.Err? {
          return Raised(installed.error);
        }
      }
      NoOrphansKept(old(store.tasks), entries0, store.tasks, cron.entries, u.taskId);
      var nextRun := cron.GetNextRun(u.taskId, now);
      reply := Updated(updated.value, nextRun);
    }

    /** `scheduler_remove_task`: remove the task's entries, then its row and runs. */
    method RemoveTask(args: TaskIdArgs) returns (reply: Reply)
      requires Valid()
      modifies store, cron
      ensures Valid()
      ensures ValidateTaskId(args).Err? ==>
        reply == Rejected(ValidateTaskId(args).error) &&
        store.tasks == old(store.tasks) && store.runs == old(store.runs) && cron.entries == old(cron.entries) &&
        store.order == old(store.order) && store.nextRunId == old(store.nextRunId) && store.clock == old(store.clock)
      ensures ValidateTaskId(args).Ok? ==>
        var id := ValidateTaskId(args).value;
        && (id !in old(store.tasks) ==>
              reply == NotFound(id) &&
              store.tasks == old(store.tasks) && store.runs == old(store.runs) && cron.entries == old(cron.entries) &&
              store.order == old(store.order) && store.nextRunId == old(store.nextRunId) && store.clock == old(store.clock))
        && (id in old(store.tasks) ==>
              Dropped(id, reply) && store.GetTask(id) == None && store.History(id, -1) == [])
    {
      var validated := ValidateTaskId(args);
      if validated.Err? {
        return Rejected(validated.error);
      }
      var id := validated.value;
      var task := store.GetTask(id);
      if task.None? {
        return NotFound(id);
      }
      reply := Remove(id, task.value.name);
    }

    /** The task's entries, row and runs are gone; the reply says whether the crontab had an entry. */
    twostate predicate Dropped(id: string, reply: Reply)
      reads this, store, cron
    {
      && id in old(store.tasks)
      && reply == Removed(old(store.tasks)[id].name,
                          CronManager.Count(old(cron.entries), CronManager.JobComment(id)) > 0, true)
      && store.tasks == old(store.tasks) - {id}
      && store.order == Seqs.Filter(old(store.order), TaskStore.OtherThan(id))
      && store.runs == Seqs.Filter(old(store.runs), TaskStore.NotOfTask(id))
      && store.nextRunId == old(store.nextRunId) && store.clock == old(store.clock)
      && cron.entries == CronManager.Without(old(cron.entries), CronManager.JobComment(id))
      && CronManager.Count(cron.entries, CronManager.JobComment(id)) == 0
    }

    /** `remove_job`, then `delete_task`, for a task that exists. */
    method Remove(id: string, name: string) returns (reply: Reply)
      requires Valid() && id in store.tasks && name == store.tasks[id].name
      modifies store, cron
      ensures Valid() && Dropped(id, reply)
      ensures store.GetTask(id) == None && store.History(id, -1) == []
    {
      NoOrphansRemoved(store.tasks, cron.entries, id);
      var cronRemoved := cron.RemoveJob(id);
      var dbRemoved := store.DeleteTask(id);
      reply := Removed(name, cronRemoved, dbRemoved);
    }

    /** `task_store.update_task(task_id, enabled=flag)` for a task that exists: only the flag and the stamp change. */
    method SetRowFlag(id: string, flag: bool, now: int)
      requires Valid() && store.clock <= now && id in store.tasks
      modifies store
      ensures Valid()
      ensures store.tasks == old(store.tasks)[id := old(store.tasks)[id].(enabled := flag, updatedAt := now)]
      ensures store.runs == old(store.runs) && store.order == old(store.order)
      ensures store.nextRunId == old(store.nextRunId) && store.clock == now
    {
      TaskStore.PatchEnabled(store.tasks[id], flag);
      ghost var row := store.tasks[id].(enabled := flag, updatedAt := now);
      KeysKept(store.tasks, id, row);
      var _ := store.UpdateTask(id, map["enabled" := TaskStore.Flag(flag)], now);
    }

    /** The row's flag and the flag of each of the task's entries are set to `flag`; nothing else changes. */
    twostate predicate Switched(id: string, flag: bool, now: int)
      reads this, store, cron
    {
      && id in old(store.tasks)
      && store.tasks == old(store.tasks)[id := old(store.tasks)[id].(enabled := flag, updatedAt := now)]
      && store.runs == old(store.runs) && store.order == old(store.order)
      && store.nextRunId == old(store.nextRunId) && store.clock == now
      && cron.entries == CronManager.WithEnabled(old(cron.entries), CronManager.JobComment(id), flag)
    }

    /** `update_task(task_id, enabled=flag)`, then `enable_job` or `disable_job`. */
    method Switch(id: string, flag: bool, now: int)
      requires Valid() && store.clock <= now && id in store.tasks
      modifies store, cron
      ensures Valid() && Switched(id, flag, now)
    {
      SetRowFlag(id, flag, now);
      NoOrphansToggled(store.tasks, cron.entries, CronManager.JobComment(id), flag);
      var found;
      if flag {
        found := cron.EnableJob(id);
      } else {
        found := cron.DisableJob(id);
      }
    }

    /** `scheduler_enable_task`: enable the row and the task's entries, and report the next run. */
    method EnableTask(args: TaskIdArgs, now: int) returns (reply: Reply)
      requires Valid() && store.clock <= now
      modifies store, cron
      ensures Valid() && store.runs == old(store.runs)
      ensures ValidateTaskId(args).Err? ==>
        reply == Rejected(ValidateTaskId(args).error) &&
        store.tasks == old(store.tasks) && cron.entries == old(cron.entries) &&
        store.order == old(store.order) && store.nextRunId == old(store.nextRunId) && store.clock == old(store.clock)
      ensures ValidateTaskId(args).Ok? ==>
        var id := ValidateTaskId(args).value;
        && (id !in old(store.tasks) ==>
              reply == NotFound(id) && store.tasks == old(store.tasks) && cron.entries == old(cron.entries) &&
              store.order == old(store.order) && store.nextRunId == old(store.nextRunId) && store.clock == old(store.clock))
        && (id in old(store.tasks) ==>
              Switched(id, true, now) && reply == Enabled(old(store.tasks)[id].name, cron.NextRun(id, now)))
    {
      var validated := ValidateTaskId(args);
      if validated.Err? {
        return Rejected(validated.error);
      }
      var id := validated.value;
      var task := store.GetTask(id);
      if task.None? {
        return NotFound(id);
      }
      Switch(id, true, now);
      var nextRun := cron.GetNextRun(id, now);
      reply := Enabled(task.value.name, nextRun);
    }

    /** `scheduler_disable_task`: disable the row and the task's entries, which stay in the crontab. */
    method DisableTask(args: TaskIdArgs, now: int) returns (reply: Reply)
      requires Valid() && store.clock <= now
      modifies store, cron
      ensures Valid() && store.runs == old(store.runs)
      ensures ValidateTaskId(args).Err? ==>
        reply == Rejected(ValidateTaskId(args).error) &&
        store.tasks == old(store.tasks) && cron.entries == old(cron.entries) &&
        store.order == old(store.order) && store.nextRunId == old(store.nextRunId) && store.clock == old(store.clock)
      ensures ValidateTaskId(args).Ok? ==>
        var id := ValidateTaskId(args).value;
        && (id !in old(store.tasks) ==>
              reply == NotFound(id) && store.tasks == old(store.tasks) && cron.entries == old(cron.entries) &&
              store.order == old(store.order) && store.nextRunId == old(store.nextRunId) && store.clock == old(store.clock))
        && (id in old(store.tasks) ==> Switched(id, false, now) && reply == Disabled(old(store.tasks)[id].name))
    {
      var validated := ValidateTaskId(args);
      if validated.Err? {
        return Rejected(validated.error);
      }
      var id := validated.value;
      var task := store.GetTask(id);
      if task.None? {
        return NotFound(id);
      }
      Switch(id, false, now);
      reply := Disabled(task.value.name);
    }

    /** `scheduler_run_now`: spawn the runner's argument vector (without the entry's log redirection), with a 120-second ceiling, and report. */
    method RunNow(args: TaskIdArgs) returns (reply: Reply)
      requires Valid()
      ensures ValidateTaskId(args).Err? ==> reply == Rejected(ValidateTaskId(args).error)
      ensures ValidateTaskId(args).Ok? ==>
        var id := ValidateTaskId(args).value;
        && (id !in store.tasks ==> reply == NotFound(id))
        && (id in store.tasks ==>
              reply == RunReport(store.tasks[id].name, spawn(CronManager.RunnerArgs(id, host))))
    {
      var validated := ValidateTaskId(args);
      if validated.Err? {
        return Rejected(validated.error);
      }
      var id := validated.value;
      var task := store.GetTask(id);
      if task.None? {
        return NotFound(id);
      }
      var runnerArgs := CronManager.RunnerArgs(id, host);
      var outcome := spawn(runnerArgs);
      reply := RunReport(task.value.name, outcome);
    }

    /** `scheduler_list_cron`: the managed entries, in crontab order. */
    method ListCron(args: ListTasksArgs) returns (reply: Reply)
      requires Valid()
      ensures ValidateListTasks(args).Err? ==> reply == Rejected(ValidateListTasks(args).error)
      ensures ValidateListTasks(args).Ok? ==> reply == CronJobs(CronManager.ManagedJobs(cron.entries))
    {
      var validated := ValidateListTasks(args);
      if validated.Err? {
        return Rejected(validated.error);
      }
      var jobs := cron.ListJobs();
      reply := CronJobs(jobs);
    }

    /** `scheduler_task_history`: the task's most recent runs, at most `limit` of them. */
    method TaskHistory(args: TaskHistoryArgs) returns (reply: Reply)
      requires Valid()
      ensures ValidateTaskHistory(args).Err? ==> reply == Rejected(ValidateTaskHistory(args).error)
      ensures ValidateTaskHistory(args).Ok? ==>
        var input := ValidateTaskHistory(args).value;
        && (input.taskId !in store.tasks ==> reply == NotFound(input.taskId))
        && (input.taskId in store.tasks ==>
              && reply == RunHistory(store.tasks[input.taskId].name, store.History(input.taskId, input.limit))
              && |reply.runs| <= input.limit)
    {
      var validated := ValidateTaskHistory(args);
      if validated.Err? {
        return Rejected(validated.error);
      }
      var input := validated.value;
      var task := store.GetTask(input.taskId);
      if task.None? {
        return NotFound(input.taskId);
      }
      reply := RunHistory(task.value.name, store.History(input.taskId, input.limit));
    }
  }
}
