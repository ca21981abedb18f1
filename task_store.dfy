/**
 * The task ledger of `mcp_scheduler/task_store.py`: the `tasks` table keyed
 * by a 12-character id and the `task_runs` table with an AUTOINCREMENT id
 * and a cascading foreign key to `tasks`. The SQLite database is modelled
 * by the in-memory tables of class `Store`; timestamps are readings of a
 * monotone clock, passed in as `now`.
 */
module TaskStore {
  import opened Wrappers
  import opened Seqs

  /** The `delivery_config` column: the JSON object it holds, as the dictionary it decodes to. */
  type Config = map<string, string>

  /** A row of `tasks`, as `_row_to_dict` returns it (`enabled` as a bool, `delivery_config` decoded). */
  datatype Task = Task(
    id: string,
    name: string,
    prompt: string,
    cronExpression: string,
    deliveryType: string,
    deliveryConfig: Config,
    model: string,
    maxTokens: int,
    enabled: bool,
    createdAt: int,
    updatedAt: int)

  /** The values the runner writes into `task_runs.status`. */
  datatype Status = Running | Success | Error

  /** A row of `task_runs`; a NULL column is `None`. */
  datatype Run = Run(
    id: nat,
    taskId: string,
    startedAt: int,
    finishedAt: Option<int>,
    status: Status,
    outputPath: Option<string>,
    error: Option<string>,
    tokensUsed: Option<int>)

  /** A keyword-argument value handed to `update_task`. */
  datatype Value = Text(s: string) | Number(n: int) | Flag(b: bool) | Dict(d: Config)

  /** The columns `update_task` may set. */
  const AllowedKeys: set<string> :=
    {"name", "prompt", "cron_expression", "delivery_type", "delivery_config", "model", "max_tokens", "enabled"}

  /** What `uuid.uuid4().hex[:12]` yields: twelve lower-case hexadecimal digits. */
  predicate IsTaskId(id: string) {
    |id| == 12 && forall i :: 0 <= i < |id| ==> id[i] in "0123456789abcdef"
  }

  /** The keyword arguments `update_task` keeps: those naming an allowed column. */
  function Allowed(kwargs: map<string, Value>): (u: map<string, Value>)
    ensures u.Keys == kwargs.Keys * AllowedKeys
    ensures forall k :: k in u ==> u[k] == kwargs[k]
  {
    map k | k in kwargs && k in AllowedKeys :: kwargs[k]
  }

  function TextColumn(u: map<string, Value>, key: string, current: string): string {
    if key in u && u[key].Text? then u[key].s else current
  }

  /** An INTEGER column; a Python bool is stored as 0 or 1. */
  function IntColumn(u: map<string, Value>, key: string, current: int): int {
    if key !in u then current
    else match u[key]
      case Number(n) => n
      case Flag(b) => if b then 1 else 0
      case _ => current
  }

  /** The `enabled` column as `bool(row["enabled"])` reads it back. */
  function FlagColumn(u: map<string, Value>, key: string, current: bool): bool {
    if key !in u then current
    else match u[key]
      case Flag(b) => b
      case Number(n) => n != 0
      case _ => current
  }

  /** `delivery_config`: a dictionary is stored as JSON and decoded to an equal dictionary. */
  function DictColumn(u: map<string, Value>, key: string, current: Config): Config {
    if key in u && u[key].Dict? then u[key].d else current
  }

  /** The row after `UPDATE tasks SET k = v, ...` for the pairs of `u` (`updated_at` apart). */
  function Patched(t: Task, u: map<string, Value>): (r: Task)
    ensures r.id == t.id && r.createdAt == t.createdAt && r.updatedAt == t.updatedAt
    ensures u == map[] ==> r == t
    ensures "delivery_config" in u && u["delivery_config"].Dict? ==> r.deliveryConfig == u["delivery_config"].d
    ensures "enabled" in u && u["enabled"].Flag? ==> r.enabled == u["enabled"].b
  {
    t.(name := TextColumn(u, "name", t.name),
       prompt := TextColumn(u, "prompt", t.prompt),
       cronExpression := TextColumn(u, "cron_expression", t.cronExpression),
       deliveryType := TextColumn(u, "delivery_type", t.deliveryType),
       deliveryConfig := DictColumn(u, "delivery_config", t.deliveryConfig),
       model := TextColumn(u, "model", t.model),
       maxTokens := IntColumn(u, "max_tokens", t.maxTokens),
       enabled := FlagColumn(u, "enabled", t.enabled))
  }

  /** Keys outside the allowed set have no effect on the row. */
  lemma UnknownKeysIgnored(t: Task, kwargs: map<string, Value>)
    ensures Patched(t, Allowed(kwargs)) == Patched(t, kwargs)
  {
  }

  /** A column whose key is absent keeps its value; one given a value of its kind takes it. */
  lemma PatchedColumn(t: Task, u: map<string, Value>)
    ensures "name" !in u ==> Patched(t, u).name == t.name
    ensures "name" in u && u["name"].Text? ==> Patched(t, u).name == u["name"].s
    ensures "prompt" !in u ==> Patched(t, u).prompt == t.prompt
    ensures "prompt" in u && u["prompt"].Text? ==> Patched(t, u).prompt == u["prompt"].s
    ensures "cron_expression" !in u ==> Patched(t, u).cronExpression == t.cronExpression
    ensures "cron_expression" in u && u["cron_expression"].Text? ==> Patched(t, u).cronExpression == u["cron_expression"].s
    ensures "delivery_type" !in u ==> Patched(t, u).deliveryType == t.deliveryType
    ensures "delivery_type" in u && u["delivery_type"].Text? ==> Patched(t, u).deliveryType == u["delivery_type"].s
    ensures "delivery_config" !in u ==> Patched(t, u).deliveryConfig == t.deliveryConfig
    ensures "model" !in u ==> Patched(t, u).model == t.model
    ensures "model" in u && u["model"].Text? ==> Patched(t, u).model == u["model"].s
    ensures "max_tokens" !in u ==> Patched(t, u).maxTokens == t.maxTokens
    ensures "max_tokens" in u && u["max_tokens"].Number? ==> Patched(t, u).maxTokens == u["max_tokens"].n
    ensures "enabled" !in u ==> Patched(t, u).enabled == t.enabled
  {
  }

  /** Setting only `enabled` flips the flag and leaves every other column. */
  lemma PatchEnabled(t: Task, b: bool)
    ensures Allowed(map["enabled" := Flag(b)]) == map["enabled" := Flag(b)]
    ensures Patched(t, map["enabled" := Flag(b)]) == t.(enabled := b)
  {
    var u := map["enabled" := Flag(b)];
    assert u.Keys == {"enabled"};
    assert "name" !in u && "prompt" !in u && "cron_expression" !in u && "delivery_type" !in u;
    assert "delivery_config" !in u && "model" !in u && "max_tokens" !in u;
  }

  /** Selects the runs of one task. */
  function OfTask(taskId: string): Run -> bool {
    (r: Run) => r.taskId == taskId
  }

  /** Selects the runs of every other task. */
  function NotOfTask(taskId: string): Run -> bool {
    (r: Run) => r.taskId != taskId
  }

  /** Selects the ids other than `id`. */
  function OtherThan(id: string): string -> bool {
    (x: string) => x != id
  }

  /** Row order of `task_runs`: AUTOINCREMENT ids grow, and so do the clock's start stamps. */
  predicate RunBefore(a: Run, b: Run) {
    a.id < b.id && a.startedAt <= b.startedAt
  }

  /** The rows stored under `ids`, in that order. */
  function Rows(tasks: map<string, Task>, ids: seq<string>): (r: seq<Task>)
    requires forall i :: 0 <= i < |ids| ==> ids[i] in tasks
    ensures |r| == |ids| && forall i :: 0 <= i < |ids| ==> r[i] == tasks[ids[i]]
  {
    seq(|ids|, i requires 0 <= i < |ids| => tasks[ids[i]])
  }

  /** `WHERE enabled = 1` when asked for, no condition otherwise. */
  function Selected(enabledOnly: bool): Task -> bool {
    (t: Task) => !enabledOnly || t.enabled
  }

  /** Earlier in `ORDER BY created_at` among distinct rows. */
  predicate OlderRow(a: Task, b: Task) {
    a.id != b.id && a.createdAt <= b.createdAt
  }

  /** Every element of a sequence is still there once the sequence is reversed. */
  lemma ReverseHas<T>(s: seq<T>, x: T)
    requires x in s
    ensures x in Reverse(s)
  {
    var j :| 0 <= j < |s| && s[j] == x;
    assert Reverse(s)[|s| - 1 - j] == x;
  }

  /** The selected rows, read from the last inserted to the first. */
  function Listing(tasks: map<string, Task>, ids: seq<string>, enabledOnly: bool): seq<Task>
    requires forall i :: 0 <= i < |ids| ==> ids[i] in tasks
  {
    Reverse(Filter(Rows(tasks, ids), Selected(enabledOnly)))
  }

  /** A listing holds stored rows only, and only selected ones. */
  lemma ListingRows(tasks: map<string, Task>, ids: seq<string>, enabledOnly: bool)
    requires forall i :: 0 <= i < |ids| ==> ids[i] in tasks && tasks[ids[i]].id == ids[i]
    ensures var r := Listing(tasks, ids, enabledOnly);
      forall k :: 0 <= k < |r| ==> r[k].id in tasks && r[k] == tasks[r[k].id] && (enabledOnly ==> r[k].enabled)
  {
    var rows := Rows(tasks, ids);
    var kept := Filter(rows, Selected(enabledOnly));
    var r := Reverse(kept);
    forall k | 0 <= k < |r| ensures r[k].id in tasks && r[k] == tasks[r[k].id] && (enabledOnly ==> r[k].enabled) {
      var x := kept[|kept| - 1 - k];
      assert r[k] == x && x in rows && Selected(enabledOnly)(x);
      var i :| 0 <= i < |rows| && rows[i] == x;
      assert x == tasks[ids[i]];
    }
  }

  /** A listing misses no selected row of the table. */
  lemma ListingComplete(tasks: map<string, Task>, ids: seq<string>, enabledOnly: bool)
    requires forall i :: 0 <= i < |ids| ==> ids[i] in tasks
    requires forall id :: id in tasks ==> id in ids
    ensures forall id :: id in tasks && (!enabledOnly || tasks[id].enabled) ==> tasks[id] in Listing(tasks, ids, enabledOnly)
  {
    var rows := Rows(tasks, ids);
    var kept := Filter(rows, Selected(enabledOnly));
    forall id | id in tasks && (!enabledOnly || tasks[id].enabled) ensures tasks[id] in Reverse(kept) {
      var i :| 0 <= i < |ids| && ids[i] == id;
      assert rows[i] == tasks[id] && Selected(enabledOnly)(rows[i]);
      ReverseHas(kept, tasks[id]);
    }
  }

  /** Rows inserted in `created_at` order, read newest first, come out in `created_at DESC` order. */
  lemma ListingOrdered(tasks: map<string, Task>, ids: seq<string>, enabledOnly: bool)
    requires forall i :: 0 <= i < |ids| ==> ids[i] in tasks
    requires forall i, j :: 0 <= i < j < |ids| ==>
      ids[i] != ids[j] && tasks[ids[i]].id == ids[i] && tasks[ids[j]].id == ids[j] &&
      tasks[ids[i]].createdAt <= tasks[ids[j]].createdAt
    ensures var r := Listing(tasks, ids, enabledOnly);
      forall k, l :: 0 <= k < l < |r| ==> r[k].id != r[l].id && r[k].createdAt >= r[l].createdAt
  {
    var rows := Rows(tasks, ids);
    var kept := Filter(rows, Selected(enabledOnly));
    var r := Reverse(kept);
    forall i, j | 0 <= i < j < |rows| ensures OlderRow(rows[i], rows[j]) {
      assert rows[i] == tasks[ids[i]] && rows[j] == tasks[ids[j]];
    }
    FilterPairwise(rows, Selected(enabledOnly), OlderRow);
    forall k, l | 0 <= k < l < |r| ensures r[k].id != r[l].id && r[k].createdAt >= r[l].createdAt {
      assert OlderRow(kept[|kept| - 1 - l], kept[|kept| - 1 - k]);
    }
  }

  /** Without the `enabled` condition every row is listed once. */
  lemma ListingAll(tasks: map<string, Task>, ids: seq<string>)
    requires forall i :: 0 <= i < |ids| ==> ids[i] in tasks
    ensures |Listing(tasks, ids, false)| == |ids|
  {
    var rows := Rows(tasks, ids);
    forall i | 0 <= i < |rows| ensures Selected(false)(rows[i]) { }
    FilterKeepsAll(rows, Selected(false));
  }

  /** Row order of `tasks`: no id twice, and `created_at` never decreases. */
  predicate CreatedBefore(tasks: map<string, Task>, a: string, b: string) {
    a != b && (a in tasks && b in tasks ==> tasks[a].createdAt <= tasks[b].createdAt)
  }

  /** Every row is stored under its own id, stamped no later than `clock`, and updated no earlier than created. */
  ghost predicate RowsOk(tasks: map<string, Task>, clock: int) {
    forall id :: id in tasks ==> tasks[id].id == id && tasks[id].createdAt <= tasks[id].updatedAt <= clock
  }

  /** `order` lists every id of `tasks` exactly once, in insertion (hence `created_at`) order. */
  ghost predicate OrderOk(tasks: map<string, Task>, order: seq<string>) {
    && |order| == |tasks|
    && (forall id :: id in tasks ==> id in order)
    && (forall i :: 0 <= i < |order| ==> order[i] in tasks)
    && (forall i, j :: 0 <= i < j < |order| ==> CreatedBefore(tasks, order[i], order[j]))
  }

  /** All three invariants of the two tables. */
  ghost predicate Consistent(tasks: map<string, Task>, order: seq<string>, runs: seq<Run>, nextRunId: nat, clock: int) {
    RowsOk(tasks, clock) && OrderOk(tasks, order) && RunsOk(tasks, runs, nextRunId, clock)
  }

  /** The foreign key holds, every id is below the AUTOINCREMENT counter, and rows are in id and start order. */
  ghost predicate RunsOk(tasks: map<string, Task>, runs: seq<Run>, nextRunId: nat, clock: int) {
    && 1 <= nextRunId
    && (forall i :: 0 <= i < |runs| ==> runs[i].taskId in tasks && runs[i].id < nextRunId && runs[i].startedAt <= clock)
    && (forall i, j :: 0 <= i < j < |runs| ==> RunBefore(runs[i], runs[j]))
  }

  /** `list_tasks` over a consistent table: the listing of its row order has every property promised. */
  lemma ListingOk(tasks: map<string, Task>, order: seq<string>, clock: int, enabledOnly: bool)
    requires RowsOk(tasks, clock) && OrderOk(tasks, order)
    ensures forall i :: 0 <= i < |order| ==> order[i] in tasks
    ensures var r := Listing(tasks, order, enabledOnly);
      && (forall k :: 0 <= k < |r| ==> r[k].id in tasks && r[k] == tasks[r[k].id] && (enabledOnly ==> r[k].enabled))
      && (forall id :: id in tasks && (!enabledOnly || tasks[id].enabled) ==> tasks[id] in r)
      && (forall k, l :: 0 <= k < l < |r| ==> r[k].id != r[l].id && r[k].createdAt >= r[l].createdAt)
      && (!enabledOnly ==> |r| == |tasks|)
  {
    assert forall i, j :: 0 <= i < j < |order| ==> CreatedBefore(tasks, order[i], order[j]);
    ListingRows(tasks, order, enabledOnly);
    ListingComplete(tasks, order, enabledOnly);
    ListingOrdered(tasks, order, enabledOnly);
    ListingAll(tasks, order);
  }

  /** Inserting a fresh row stamped `now` at the end keeps the task invariants. */
  lemma InsertKeeps(tasks: map<string, Task>, order: seq<string>, clock: int, t: Task, now: int)
    requires RowsOk(tasks, clock) && OrderOk(tasks, order) && clock <= now
    requires t.id !in tasks && t.createdAt == t.updatedAt == now
    ensures RowsOk(tasks[t.id := t], now) && OrderOk(tasks[t.id := t], order + [t.id])
  {
    var tasks', order' := tasks[t.id := t], order + [t.id];
    forall i, j | 0 <= i < j < |order'| ensures CreatedBefore(tasks', order'[i], order'[j]) {
      if j < |order| {
        assert CreatedBefore(tasks, order[i], order[j]);
      } else {
        assert order'[i] == order[i] && order[i] in tasks;
      }
    }
  }

  /** Rewriting one row, keeping its id and `created_at` and stamping `now`, keeps the task invariants. */
  lemma RewriteKeeps(tasks: map<string, Task>, order: seq<string>, clock: int, row: Task, now: int)
    requires RowsOk(tasks, clock) && OrderOk(tasks, order) && clock <= now
    requires row.id in tasks && row.createdAt == tasks[row.id].createdAt && row.updatedAt == now
    ensures RowsOk(tasks[row.id := row], now) && OrderOk(tasks[row.id := row], order)
  {
    var tasks' := tasks[row.id := row];
    forall i, j | 0 <= i < j < |order| ensures CreatedBefore(tasks', order[i], order[j]) {
      assert CreatedBefore(tasks, order[i], order[j]);
    }
  }

  /** The runs invariant survives a later clock and more rows in `tasks`. */
  lemma RunsWeaken(tasks: map<string, Task>, tasks': map<string, Task>, runs: seq<Run>, n: nat, clock: int, clock': int)
    requires RunsOk(tasks, runs, n, clock) && tasks.Keys <= tasks'.Keys && clock <= clock'
    ensures RunsOk(tasks', runs, n, clock')
  {
  }

  /** Deleting a row keeps the row order consistent with the rows that remain. */
  lemma DeleteOrderKeeps(tasks: map<string, Task>, order: seq<string>, id: string)
    requires OrderOk(tasks, order)
    ensures OrderOk(tasks - {id}, Filter(order, OtherThan(id)))
  {
    var tasks', order' := tasks - {id}, Filter(order, OtherThan(id));
    FilterPairwise(order, OtherThan(id), (a, b) => CreatedBefore(tasks, a, b));
    forall i, j | 0 <= i < j < |order'| ensures CreatedBefore(tasks', order'[i], order'[j]) {
      assert CreatedBefore(tasks, order'[i], order'[j]);
    }
    forall x | x in tasks' ensures x in order' {
      var i :| 0 <= i < |order| && order[i] == x;
      assert OtherThan(id)(order[i]);
    }
    forall i | 0 <= i < |order'| ensures order'[i] in tasks' {
      assert order'[i] in order && OtherThan(id)(order'[i]);
    }
    forall i, j | 0 <= i < j < |order| ensures order[i] != order[j] {
      assert CreatedBefore(tasks, order[i], order[j]);
    }
    DistinctCount(order, id);
  }

  /** `ON DELETE CASCADE`: dropping the runs of a deleted task keeps the runs invariant. */
  lemma DeleteRunsKeep(tasks: map<string, Task>, runs: seq<Run>, n: nat, clock: int, id: string)
    requires RunsOk(tasks, runs, n, clock)
    ensures RunsOk(tasks - {id}, Filter(runs, NotOfTask(id)), n, clock)
  {
    var runs' := Filter(runs, NotOfTask(id));
    FilterPairwise(runs, NotOfTask(id), RunBefore);
    forall i | 0 <= i < |runs'| ensures runs'[i].taskId in tasks - {id} && runs'[i].id < n && runs'[i].startedAt <= clock {
      assert runs'[i] in runs && NotOfTask(id)(runs'[i]);
    }
  }

  /** Deleting a row and cascading to its runs keeps every invariant. */
  lemma DeleteKeeps(tasks: map<string, Task>, order: seq<string>, runs: seq<Run>, n: nat, clock: int, id: string,
                    tasks': map<string, Task>, order': seq<string>, runs': seq<Run>)
    requires Consistent(tasks, order, runs, n, clock)
    requires tasks' == tasks - {id} && order' == Filter(order, OtherThan(id)) && runs' == Filter(runs, NotOfTask(id))
    ensures Consistent(tasks', order', runs', n, clock)
  {
    DeleteOrderKeeps(tasks, order, id);
    DeleteRunsKeep(tasks, runs, n, clock, id);
  }

  /** Removing one id from a duplicate-free list that holds it shortens it by one. */
  lemma {:induction false} DistinctCount(ids: seq<string>, id: string)
    requires forall i, j :: 0 <= i < j < |ids| ==> ids[i] != ids[j]
    ensures |Filter(ids, OtherThan(id))| == if id in ids then |ids| - 1 else |ids|
  {
    if ids != [] {
      forall i, j | 0 <= i < j < |ids[1..]| ensures ids[1..][i] != ids[1..][j] {
        assert ids[1..][i] == ids[i + 1] && ids[1..][j] == ids[j + 1];
      }
      DistinctCount(ids[1..], id);
      assert ids[0] != id ==> (id in ids <==> id in ids[1..]);
    }
  }

  /** Runs of one task, read newest first: ids and start stamps decrease. */
  lemma NewestRunsFirst(runs: seq<Run>, limit: int)
    requires forall i, j :: 0 <= i < j < |runs| ==> RunBefore(runs[i], runs[j])
    ensures var r := Limit(Reverse(runs), limit);
      forall k, l :: 0 <= k < l < |r| ==> r[k].id > r[l].id && r[k].startedAt >= r[l].startedAt
  {
    var rev := Reverse(runs);
    forall k, l | 0 <= k < l < |rev| ensures rev[k].id > rev[l].id && rev[k].startedAt >= rev[l].startedAt {
      assert RunBefore(runs[|runs| - 1 - l], runs[|runs| - 1 - k]);
    }
  }

  /** `UPDATE task_runs SET finished_at = ?, status = ?, ... WHERE id = ?` */
  function Finished(rows: seq<Run>, runId: nat, now: int, status: Status, outputPath: Option<string>,
                    error: Option<string>, tokensUsed: Option<int>): (r: seq<Run>)
    ensures |r| == |rows|
    ensures forall i :: 0 <= i < |rows| ==>
      r[i] == (if rows[i].id == runId
               then rows[i].(finishedAt := Some(now), status := status, outputPath := outputPath,
                             error := error, tokensUsed := tokensUsed)
               else rows[i])
  {
    seq(|rows|, i requires 0 <= i < |rows| =>
      if rows[i].id == runId
      then rows[i].(finishedAt := Some(now), status := status, outputPath := outputPath,
                    error := error, tokensUsed := tokensUsed)
      else rows[i])
  }

  /** Finishing a run leaves its id, task and start stamp, so the runs invariant survives. */
  lemma FinishKeeps(tasks: map<string, Task>, rows: seq<Run>, n: nat, clock: int, now: int, runId: nat,
                    status: Status, outputPath: Option<string>, error: Option<string>, tokensUsed: Option<int>)
    requires RunsOk(tasks, rows, n, clock) && clock <= now
    ensures RunsOk(tasks, Finished(rows, runId, now, status, outputPath, error, tokensUsed), n, now)
  {
    var r := Finished(rows, runId, now, status, outputPath, error, tokensUsed);
    forall i, j | 0 <= i < j < |r| ensures RunBefore(r[i], r[j]) {
      assert RunBefore(rows[i], rows[j]);
    }
  }

  /** With no limit cutting it short, the history holds every run of the task. */
  lemma HistoryComplete(runs: seq<Run>, taskId: string, limit: int)
    requires limit < 0 || |Filter(runs, OfTask(taskId))| <= limit
    ensures forall i :: 0 <= i < |runs| && runs[i].taskId == taskId ==>
      runs[i] in Limit(Reverse(Filter(runs, OfTask(taskId))), limit)
  {
    var mine := Filter(runs, OfTask(taskId));
    var rev := Reverse(mine);
    assert Limit(rev, limit) == rev;
    forall i | 0 <= i < |runs| && runs[i].taskId == taskId ensures runs[i] in rev {
      assert OfTask(taskId)(runs[i]);
      ReverseHas(mine, runs[i]);
    }
  }

  /** `SELECT * FROM task_runs WHERE task_id = ? ORDER BY started_at DESC LIMIT ?` over rows kept in id order. */
  function Recent(runs: seq<Run>, taskId: string, limit: int): seq<Run> {
    Limit(Reverse(Filter(runs, OfTask(taskId))), limit)
  }

  /** A run of the task that the limit leaves out of the newest-first list is older than every run it keeps. */
  lemma OlderThanKept(mine: seq<Run>, rev: seq<Run>, r: seq<Run>, p: nat)
    requires forall i, j :: 0 <= i < j < |mine| ==> RunBefore(mine[i], mine[j])
    requires |rev| == |mine| && forall k :: 0 <= k < |mine| ==> rev[k] == mine[|mine| - 1 - k]
    requires |r| <= |rev| && r == rev[..|r|]
    requires p < |mine| && mine[p] !in r
    ensures forall k :: 0 <= k < |r| ==> mine[p].id < r[k].id
  {
    var q := |mine| - 1 - p;
    assert rev[q] == mine[p];
    assert forall k :: 0 <= k < |r| ==> r[k] != mine[p];
    assert |r| <= q;
    forall k | 0 <= k < |r| ensures mine[p].id < r[k].id {
      assert r[k] == mine[|mine| - 1 - k];
      assert RunBefore(mine[p], mine[|mine| - 1 - k]);
    }
  }

  /** The runs of the task kept in the history are the newest ones. */
  predicate KeepsNewest(runs: seq<Run>, taskId: string, r: seq<Run>) {
    forall i, k :: 0 <= i < |runs| && runs[i].taskId == taskId && runs[i] !in r && 0 <= k < |r| ==> runs[i].id < r[k].id
  }

  /**
   * `LIMIT` over runs read newest first keeps the newest ones: as many as the
   * limit allows, and every run of the task it leaves out is older than
   * every run it keeps.
   */
  lemma HistoryNewest(runs: seq<Run>, taskId: string, limit: int)
    requires forall i, j :: 0 <= i < j < |runs| ==> RunBefore(runs[i], runs[j])
    ensures KeepsNewest(runs, taskId, Recent(runs, taskId, limit))
  {
    var mine := Filter(runs, OfTask(taskId));
    FilterPairwise(runs, OfTask(taskId), RunBefore);
    NewestKept(runs, taskId, mine, Reverse(mine), Limit(Reverse(mine), limit));
  }

  /** `HistoryNewest` over the newest-first list `rev` of the task's runs `mine` and its prefix `r`. */
  lemma NewestKept(runs: seq<Run>, taskId: string, mine: seq<Run>, rev: seq<Run>, r: seq<Run>)
    requires forall i :: 0 <= i < |runs| && OfTask(taskId)(runs[i]) ==> runs[i] in mine
    requires forall i, j :: 0 <= i < j < |mine| ==> RunBefore(mine[i], mine[j])
    requires |rev| == |mine| && forall k :: 0 <= k < |mine| ==> rev[k] == mine[|mine| - 1 - k]
    requires |r| <= |rev| && r == rev[..|r|]
    ensures KeepsNewest(runs, taskId, r)
  {
    forall i, k | 0 <= i < |runs| && runs[i].taskId == taskId && runs[i] !in r && 0 <= k < |r|
      ensures runs[i].id < r[k].id
    {
      assert OfTask(taskId)(runs[i]);
      var p :| 0 <= p < |mine| && mine[p] == runs[i];
      OlderThanKept(mine, rev, r, p);
    }
  }

  /** The history holds runs of the table, and only runs of the task. */
  lemma HistoryOwn(runs: seq<Run>, taskId: string, limit: int)
    ensures var r := Recent(runs, taskId, limit);
      forall k :: 0 <= k < |r| ==> r[k] in runs && r[k].taskId == taskId
  {
    var mine := Filter(runs, OfTask(taskId));
    var rev := Reverse(mine);
    var r := Limit(rev, limit);
    forall k | 0 <= k < |r| ensures r[k] in runs && r[k].taskId == taskId {
      assert r[k] == rev[k] == mine[|mine| - 1 - k];
      assert mine[|mine| - 1 - k] in runs && OfTask(taskId)(mine[|mine| - 1 - k]);
    }
  }

  /**
   * What `ORDER BY started_at DESC LIMIT limit` over the task's runs means:
   * only the task's own runs, newest first, as many as the limit allows
   * (all of them when it allows that many), and none left out that is newer
   * than one kept.
   */
  predicate IsHistory(runs: seq<Run>, taskId: string, limit: int, r: seq<Run>) {
    && (forall k :: 0 <= k < |r| ==> r[k] in runs && r[k].taskId == taskId)
    && (0 <= limit ==> |r| <= limit)
    && (forall k, l :: 0 <= k < l < |r| ==> r[k].id > r[l].id && r[k].startedAt >= r[l].startedAt)
    && (limit < 0 || |Filter(runs, OfTask(taskId))| <= limit ==>
          forall i :: 0 <= i < |runs| && runs[i].taskId == taskId ==> runs[i] in r)
    && |r| == (if 0 <= limit < |Filter(runs, OfTask(taskId))| then limit else |Filter(runs, OfTask(taskId))|)
    && KeepsNewest(runs, taskId, r)
  }

  /** The history of a consistent run table has every property `IsHistory` names. */
  lemma HistoryOk(tasks: map<string, Task>, runs: seq<Run>, n: nat, clock: int, taskId: string, limit: int)
    requires RunsOk(tasks, runs, n, clock)
    ensures IsHistory(runs, taskId, limit, Recent(runs, taskId, limit))
  {
    HistoryNewest(runs, taskId, limit);
    HistoryOwn(runs, taskId, limit);
    var mine := Filter(runs, OfTask(taskId));
    FilterPairwise(runs, OfTask(taskId), RunBefore);
    NewestRunsFirst(mine, limit);
    if limit < 0 || |mine| <= limit {
      HistoryComplete(runs, taskId, limit);
    }
  }

  /**
   * The two tables. `order` lists the task ids in row (insertion) order,
   * `nextRunId` is the AUTOINCREMENT counter of `task_runs`, and `clock` is
   * the latest timestamp the ledger has written.
   */
  class Store {
    var tasks: map<string, Task>
    var order: seq<string>
    var runs: seq<Run>
    var nextRunId: nat
    var clock: int

    /** The schema's guarantees: primary key, foreign key, AUTOINCREMENT, and monotone stamps. */
    ghost predicate Valid()
      reads this
    {
      Consistent(tasks, order, runs, nextRunId, clock)
    }

    /** `_init_db` on an empty database. */
    constructor (start: int)
      ensures Valid()
      ensures tasks == map[] && order == [] && runs == [] && nextRunId == 1 && clock == start
    {
      tasks, order, runs, nextRunId, clock := map[], [], [], 1, start;
    }

    /** `get_task`: the row with that id, or `None`. */
    function GetTask(id: string): (r: Option<Task>)
      reads this
      ensures r.Some? <==> id in tasks
      ensures r.Some? ==> r.value == tasks[id]
    {
      if id in tasks then Some(tasks[id]) else None
    }

    /** `list_tasks`: the tasks (the enabled ones, if asked), newest `created_at` first. */
    function ListTasks(enabledOnly: bool := false): (r: seq<Task>)
      reads this
      requires Valid()
      ensures forall k :: 0 <= k < |r| ==> r[k].id in tasks && r[k] == tasks[r[k].id] && (enabledOnly ==> r[k].enabled)
      ensures forall id :: id in tasks && (!enabledOnly || tasks[id].enabled) ==> tasks[id] in r
      ensures forall k, l :: 0 <= k < l < |r| ==> r[k].id != r[l].id && r[k].createdAt >= r[l].createdAt
      ensures !enabledOnly ==> |r| == |tasks|
    {
      ListingOk(tasks, order, clock, enabledOnly);
      Listing(tasks, order, enabledOnly)
    }

    /** `get_task_history`: the newest `limit` runs of one task, newest `started_at` first. */
    function History(taskId: string, limit: int := 20): (r: seq<Run>)
      reads this
      requires Valid()
      ensures IsHistory(runs, taskId, limit, r)
    {
      HistoryOk(tasks, runs, nextRunId, clock, taskId, limit);
      Recent(runs, taskId, limit)
    }

    /**
     * `create_task`. The id comes from a fresh-id oracle (`uuid4().hex[:12]`)
     * and `now` from the clock; the new row is enabled and stamped twice with
     * `now`. An id already in use makes the INSERT violate the primary key.
     */
    method CreateTask(id: string, now: int, name: string, prompt: string, cronExpression: string,
                      deliveryType: string := "file", deliveryConfig: Option<Config> := None,
                      model: string := "sonnet", maxTokens: int := 4096)
      returns (r: Result<Task, Exception>)
      requires Valid() && clock <= now
      requires IsTaskId(id)
      modifies this
      ensures Valid()
      ensures id in old(tasks) ==>
        r == Err(Exception("IntegrityError", "UNIQUE constraint failed: tasks.id")) &&
        tasks == old(tasks) && order == old(order) && clock == old(clock)
      ensures id !in old(tasks) ==>
        && r == Ok(Task(id, name, prompt, cronExpression, deliveryType,
                        if deliveryConfig.Some? then deliveryConfig.value else map[],
                        model, maxTokens, true, now, now))
        && tasks == old(tasks)[id := r.value] && order == old(order) + [id] && clock == now
        && GetTask(id) == Some(r.value)
      ensures r.Ok? ==> |r.value.id| == 12 && r.value.enabled && r.value.createdAt == r.value.updatedAt
      ensures runs == old(runs) && nextRunId == old(nextRunId)
    {
      if id in tasks {
        return Err(Exception("IntegrityError", "UNIQUE constraint failed: tasks.id"));
      }
      var config := if deliveryConfig.Some? then deliveryConfig.value else map[];
      var t := Task(id, name, prompt, cronExpression, deliveryType, config, model, maxTokens, true, now, now);
      InsertKeeps(tasks, order, clock, t, now);
      RunsWeaken(tasks, tasks[id := t], runs, nextRunId, clock, now);
      tasks, order, clock := tasks[id := t], order + [id], now;
      r := Ok(t);
    }

    /**
     * `update_task`. Keys outside the allowed columns are dropped; with none
     * left nothing is written and the current row is returned. Otherwise the
     * given columns and `updated_at` are set on the row with that id, if any.
     */
    method UpdateTask(id: string, kwargs: map<string, Value>, now: int) returns (r: Option<Task>)
      requires Valid() && clock <= now
      modifies this
      ensures Valid()
      ensures order == old(order) && runs == old(runs) && nextRunId == old(nextRunId)
      ensures Allowed(kwargs) == map[] ==>
        tasks == old(tasks) && clock == old(clock) && r == old(GetTask(id))
      ensures Allowed(kwargs) != map[] && id in old(tasks) ==>
        tasks == old(tasks)[id := Patched(old(tasks)[id], Allowed(kwargs)).(updatedAt := now)] &&
        r == Some(tasks[id]) && clock == now
      ensures Allowed(kwargs) != map[] && id !in old(tasks) ==> tasks == old(tasks) && r == None && clock == now
    {
      var updates := Allowed(kwargs);
      if updates == map[] {
        return GetTask(id);
      }
      RunsWeaken(tasks, tasks, runs, nextRunId, clock, now);
      if id in tasks {
        var row := Patched(tasks[id], updates).(updatedAt := now);
        RewriteKeeps(tasks, order, clock, row, now);
        RunsWeaken(tasks, tasks[id := row], runs, nextRunId, now, now);
        tasks := tasks[id := row];
      }
      clock := now;
      r := GetTask(id);
    }

    /** The tables left by `delete_task` are consistent and hold neither the row nor any of its runs. */
    lemma Deleted(s: Store, tasks0: map<string, Task>, order0: seq<string>, runs0: seq<Run>, id: string)
      requires Consistent(tasks0, order0, runs0, s.nextRunId, s.clock)
      requires s.tasks == tasks0 - {id} && s.order == Filter(order0, OtherThan(id)) && s.runs == Filter(runs0, NotOfTask(id))
      ensures s.Valid() && s.GetTask(id) == None && s.History(id, -1) == []
    {
      DeleteKeeps(tasks0, order0, runs0, s.nextRunId, s.clock, id, s.tasks, s.order, s.runs);
    }

    /** `delete_task`: removes the row and, through `ON DELETE CASCADE`, its runs. */
    method DeleteTask(id: string) returns (existed: bool)
      requires Valid()
      modifies this
      ensures Valid()
      ensures existed == (id in old(tasks))
      ensures tasks == old(tasks) - {id} && order == Filter(old(order), OtherThan(id))
      ensures runs == Filter(old(runs), NotOfTask(id))
      ensures nextRunId == old(nextRunId) && clock == old(clock)
      ensures GetTask(id) == None && History(id, -1) == []
    {
      existed := id in tasks;
      ghost var tasks0, order0, runs0 := tasks, order, runs;
      assert Consistent(tasks0, order0, runs0, nextRunId, clock);
      tasks, order, runs := tasks - {id}, Filter(order, OtherThan(id)), Filter(runs, NotOfTask(id));
      Deleted(this, tasks0, order0, runs0, id);
    }

    /**
     * `log_run_start`: inserts a `running` row with no `finished_at` and returns
     * its id; with foreign keys on, an unknown task makes the INSERT fail.
     */
    method LogRunStart(taskId: string, now: int) returns (r: Result<nat, Exception>)
      requires Valid() && clock <= now
      modifies this
      ensures Valid()
      ensures tasks == old(tasks) && order == old(order) && clock == now
      ensures taskId !in old(tasks) ==>
        r == Err(Exception("IntegrityError", "FOREIGN KEY constraint failed")) &&
        runs == old(runs) && nextRunId == old(nextRunId)
      ensures taskId in old(tasks) ==>
        r == Ok(old(nextRunId)) && nextRunId == old(nextRunId) + 1 &&
        runs == old(runs) + [Run(old(nextRunId), taskId, now, None, Running, None, None, None)]
      ensures r.Ok? ==> forall i :: 0 <= i < |old(runs)| ==> old(runs)[i].id < r.value
    {
      RunsWeaken(tasks, tasks, runs, nextRunId, clock, now);
      clock := now;
      if taskId !in tasks {
        return Err(Exception("IntegrityError", "FOREIGN KEY constraint failed"));
      }
      var runId := nextRunId;
      runs, nextRunId := runs + [Run(runId, taskId, now, None, Running, None, None, None)], nextRunId + 1;
      r := Ok(runId);
    }

    /** `log_run_finish`: overwrites the outcome columns of the run with that id; no other run changes. */
    method LogRunFinish(runId: nat, status: Status, now: int, outputPath: Option<string> := None,
                        error: Option<string> := None, tokensUsed: Option<int> := None)
      requires Valid() && clock <= now
      modifies this
      ensures Valid()
      ensures tasks == old(tasks) && order == old(order) && nextRunId == old(nextRunId) && clock == now
      ensures |runs| == |old(runs)|
      ensures forall i :: 0 <= i < |runs| ==>
        runs[i] == (if old(runs)[i].id == runId
                    then old(runs)[i].(finishedAt := Some(now), status := status, outputPath := outputPath,
                                       error := error, tokensUsed := tokensUsed)
                    else old(runs)[i])
      ensures (forall i :: 0 <= i < |old(runs)| ==> old(runs)[i].id != runId) ==> runs == old(runs)
    {
      FinishKeeps(tasks, runs, nextRunId, clock, now, runId, status, outputPath, error, tokensUsed);
      runs := Finished(runs, runId, now, status, outputPath, error, tokensUsed);
      clock := now;
    }
  }
}
