/**
 * The crontab synchroniser of `mcp_scheduler/cron_manager.py`. The user's
 * crontab is a shared, ordered list of entries; every operation loads it
 * into a working copy, edits the copy and commits it with `cron.write()`.
 * The scheduler owns exactly the entries whose comment is
 * `"claude-scheduler:" + task_id`; no operation changes any other entry.
 * Whether python-crontab accepts an expression, and when an entry fires
 * next, are the oracles `valid` and `nextFire` of class `CronTab`.
 */
module CronManager {
  import opened Wrappers
  import opened Text
  import opened Seqs

  /** Marks the entries this system owns. */
  const CommentPrefix: string := "claude-scheduler:"

  /** A crontab line: its comment ("" when it has none), command, schedule and whether it is active. */
  datatype Entry = Entry(comment: string, command: string, expression: string, enabled: bool)

  /** The dictionary `list_jobs` reports for a managed entry. */
  datatype Job = Job(taskId: string, expression: string, command: string, enabled: bool)

  /** What the host supplies: `shutil.which("mcp-scheduler-run")`, `sys.executable` and the log directory. */
  datatype Host = Host(runner: Option<string>, executable: string, logDir: string)

  /** `_job_comment`: the tag of a task's entry. */
  function JobComment(taskId: string): (c: string)
    ensures StartsWith(c, CommentPrefix) && c[|CommentPrefix|..] == taskId
  {
    CommentPrefix + taskId
  }

  /** The task id `list_jobs` reads off a comment, or `None` for an entry the system does not own. */
  function TaskIdOf(comment: string): (r: Option<string>)
    ensures r.Some? <==> StartsWith(comment, CommentPrefix)
    ensures r.Some? ==> JobComment(r.value) == comment
  {
    if comment != "" && StartsWith(comment, CommentPrefix) then Some(comment[|CommentPrefix|..]) else None
  }

  /** Stripping the prefix off a task's tag gives back the task id, so distinct tasks have distinct tags. */
  lemma TagRoundTrip(taskId: string, other: string)
    ensures TaskIdOf(JobComment(taskId)) == Some(taskId)
    ensures JobComment(taskId) == JobComment(other) ==> taskId == other
  {
    var c := JobComment(taskId);
    assert c[|CommentPrefix|..] == taskId;
    assert JobComment(other)[|CommentPrefix|..] == other;
  }

  /** `get_runner_args`: the installed console script when `which` finds one, else `python -m`. */
  function RunnerArgs(taskId: string, host: Host): (args: seq<string>)
    ensures 3 <= |args| && args[|args| - 2..] == ["--task-id", taskId]
    ensures args[0] == if host.runner.Some? && host.runner.value != "" then host.runner.value else host.executable
  {
    if host.runner.Some? && host.runner.value != "" then [host.runner.value, "--task-id", taskId]
    else [host.executable, "-m", "mcp_scheduler.run_task", "--task-id", taskId]
  }

  /** `get_log_dir() / f"{task_id}.log"` */
  function LogPath(taskId: string, host: Host): string {
    host.logDir + "/" + taskId + ".log"
  }

  /** The redirection `install_job` appends: all output goes to the end of the task's log. */
  function Redirection(taskId: string, host: Host): string {
    " >> " + LogPath(taskId, host) + " 2>&1"
  }

  /** The command `install_job` writes: the runner arguments joined by spaces, then the redirection. */
  function JobCommand(taskId: string, host: Host): string {
    Join(RunnerArgs(taskId, host), " ") + Redirection(taskId, host)
  }

  /** Every installed command runs the task runner for exactly its own task and logs to the task's file. */
  lemma CommandRunsTask(taskId: string, host: Host)
    ensures var args := RunnerArgs(taskId, host);
      JobCommand(taskId, host) == Join(args[..|args| - 2], " ") + " --task-id " + taskId + Redirection(taskId, host)
  {
    var args := RunnerArgs(taskId, host);
    var front := args[..|args| - 2];
    assert args == front + ["--task-id"] + [taskId];
    JoinSnoc(front, "--task-id", " ");
    JoinSnoc(front + ["--task-id"], taskId, " ");
    var j := Join(front, " ");
    assert Join(args, " ") == j + " " + "--task-id" + " " + taskId;
    assert j + " " + "--task-id" + " " + taskId == j + " --task-id " + taskId;
  }

  /** Selects the entries carrying comment `c`. */
  function Tagged(c: string): Entry -> bool {
    (e: Entry) => e.comment == c
  }

  /** Selects the entries carrying any other comment. */
  function Untagged(c: string): Entry -> bool {
    (e: Entry) => e.comment != c
  }

  /** How many entries carry comment `c`. */
  function Count(es: seq<Entry>, c: string): nat {
    |Filter(es, Tagged(c))|
  }

  /** `cron.remove_all(comment=c)`: every entry with that comment is dropped; the rest keep their order. */
  function Without(es: seq<Entry>, c: string): seq<Entry> {
    Filter(es, Untagged(c))
  }

  /** The scheduler's guarantee: no task has two entries. */
  ghost predicate AtMostOnePerTask(es: seq<Entry>) {
    forall taskId :: Count(es, JobComment(taskId)) <= 1
  }

  /** Some entry carries comment `c` exactly when the count is positive. */
  lemma CountPositive(es: seq<Entry>, c: string)
    ensures Count(es, c) > 0 <==> exists i :: 0 <= i < |es| && es[i].comment == c
  {
    var f := Filter(es, Tagged(c));
    if Count(es, c) > 0 {
      assert f[0] in es && Tagged(c)(f[0]);
    }
    if exists i :: 0 <= i < |es| && es[i].comment == c {
      var i :| 0 <= i < |es| && es[i].comment == c;
      assert Tagged(c)(es[i]);
      assert es[i] in f;
    }
  }

  /** Counting distributes over concatenation. */
  lemma CountAppend(a: seq<Entry>, b: seq<Entry>, c: string)
    ensures Count(a + b, c) == Count(a, c) + Count(b, c)
  {
    FilterAppend(a, b, Tagged(c));
  }

  /** The count of a list is that of its first entry plus that of the rest. */
  lemma CountCons(e: Entry, tail: seq<Entry>, d: string)
    ensures Count([e] + tail, d) == (if e.comment == d then 1 else 0) + Count(tail, d)
  {
    var es := [e] + tail;
    assert es[0] == e && es[1..] == tail;
  }

  /** Removal from a list is removal from its first entry followed by removal from the rest. */
  lemma WithoutCons(e: Entry, tail: seq<Entry>, c: string)
    ensures Without([e] + tail, c) == (if e.comment != c then [e] else []) + Without(tail, c)
  {
    var es := [e] + tail;
    assert es[0] == e && es[1..] == tail;
  }

  /** Removing the entries of one comment leaves the count of every other comment. */
  lemma {:induction false} CountWithout(es: seq<Entry>, c: string, d: string)
    ensures Count(Without(es, c), d) == if d == c then 0 else Count(es, d)
  {
    if es != [] {
      var e := es[0];
      var tail := es[1..];
      assert es == [e] + tail;
      CountWithout(tail, c, d);
      WithoutCons(e, tail, c);
      CountCons(e, tail, d);
      if e.comment != c {
        CountCons(e, Without(tail, c), d);
      } else {
        assert Without(es, c) == Without(tail, c);
      }
    }
  }

  /**
   * The crontab `install_job` commits: every entry of `c` replaced by one
   * new entry at the end. It holds exactly one entry of `c`, its other
   * entries are the old ones in their old order, and no other comment
   * gains or loses an entry.
   */
  lemma Installed(es: seq<Entry>, e: Entry)
    ensures var es' := Without(es, e.comment) + [e];
      && Count(es', e.comment) == 1
      && Without(es', e.comment) == Without(es, e.comment)
      && (forall d :: d != e.comment ==> Count(es', d) == Count(es, d))
      && (AtMostOnePerTask(es) ==> AtMostOnePerTask(es'))
  {
    var c := e.comment;
    var es' := Without(es, c) + [e];
    forall d ensures Count(es', d) == (if d == c then 1 else Count(es, d)) {
      CountAppend(Without(es, c), [e], d);
      CountWithout(es, c, d);
    }
    FilterAppend(Without(es, c), [e], Untagged(c));
    FilterIdempotent(es, Untagged(c));
  }

  /** `remove_job`'s commit: no entry of `c` is left and every other comment keeps its entries. */
  lemma Removed(es: seq<Entry>, c: string)
    ensures Count(Without(es, c), c) == 0
    ensures forall d :: d != c ==> Count(Without(es, c), d) == Count(es, d)
    ensures Without(Without(es, c), c) == Without(es, c)
    ensures AtMostOnePerTask(es) ==> AtMostOnePerTask(Without(es, c))
  {
    forall d ensures Count(Without(es, c), d) == if d == c then 0 else Count(es, d) {
      CountWithout(es, c, d);
    }
    FilterIdempotent(es, Untagged(c));
  }

  /** The entries after `job.enable(flag)` on every entry of `c`. */
  function WithEnabled(es: seq<Entry>, c: string, flag: bool): (r: seq<Entry>)
    ensures |r| == |es|
    ensures forall i :: 0 <= i < |es| ==>
      r[i] == if es[i].comment == c then es[i].(enabled := flag) else es[i]
  {
    if es == [] then []
    else [if es[0].comment == c then es[0].(enabled := flag) else es[0]] + WithEnabled(es[1..], c, flag)
  }

  /** Toggling the entries of `c` leaves every entry of another comment as it was, in its place. */
  lemma {:induction false} ToggledOthers(es: seq<Entry>, c: string, flag: bool)
    ensures Without(WithEnabled(es, c, flag), c) == Without(es, c)
  {
    if es != [] {
      var e := es[0];
      var tail := es[1..];
      var first := if e.comment == c then e.(enabled := flag) else e;
      var rest := WithEnabled(tail, c, flag);
      ToggledOthers(tail, c, flag);
      assert WithEnabled(es, c, flag) == [first] + rest;
      assert es == [e] + tail;
      WithoutCons(first, rest, c);
      WithoutCons(e, tail, c);
      if e.comment == c {
        assert Without([first] + rest, c) == Without(rest, c);
      } else {
        assert first == e;
      }
    }
  }

  /** Toggling adds and removes no entry of any comment. */
  lemma {:induction false} ToggledCount(es: seq<Entry>, c: string, flag: bool, d: string)
    ensures Count(WithEnabled(es, c, flag), d) == Count(es, d)
  {
    if es != [] {
      var e := es[0];
      var tail := es[1..];
      var first := if e.comment == c then e.(enabled := flag) else e;
      ToggledCount(tail, c, flag, d);
      assert WithEnabled(es, c, flag) == [first] + WithEnabled(tail, c, flag);
      assert es == [e] + tail;
      CountCons(first, WithEnabled(tail, c, flag), d);
      CountCons(e, tail, d);
    }
  }

  /**
   * Toggling the entries of `c` adds and removes nothing, leaves every entry
   * of another comment as it was, and changes nothing when `c` has no entry.
   */
  lemma Toggled(es: seq<Entry>, c: string, flag: bool)
    ensures Without(WithEnabled(es, c, flag), c) == Without(es, c)
    ensures forall d :: Count(WithEnabled(es, c, flag), d) == Count(es, d)
    ensures Count(es, c) == 0 ==> WithEnabled(es, c, flag) == es
    ensures AtMostOnePerTask(es) ==> AtMostOnePerTask(WithEnabled(es, c, flag))
  {
    ToggledOthers(es, c, flag);
    forall d ensures Count(WithEnabled(es, c, flag), d) == Count(es, d) {
      ToggledCount(es, c, flag, d);
    }
    if Count(es, c) == 0 {
      CountPositive(es, c);
    }
  }

  /** The jobs `list_jobs` reports for one entry: one if it is managed, none otherwise. */
  function JobsOf(e: Entry): seq<Job> {
    match TaskIdOf(e.comment)
    case Some(taskId) => [Job(taskId, e.expression, e.command, e.enabled)]
    case None => []
  }

  /** What `list_jobs` reports for a whole crontab, in crontab order. */
  function ManagedJobs(es: seq<Entry>): seq<Job> {
    if es == [] then [] else JobsOf(es[0]) + ManagedJobs(es[1..])
  }

  /** One more entry at the end adds its jobs at the end of the report. */
  lemma {:induction false} ManagedJobsSnoc(es: seq<Entry>, e: Entry)
    ensures ManagedJobs(es + [e]) == ManagedJobs(es) + JobsOf(e)
  {
    if es == [] {
      assert es + [e] == [e];
    } else {
      assert (es + [e])[1..] == es[1..] + [e];
      ManagedJobsSnoc(es[1..], e);
    }
  }

  /** Every job `list_jobs` reports is read off an entry tagged for that job's task. */
  lemma {:induction false} JobFromEntry(es: seq<Entry>, j: Job)
    requires j in ManagedJobs(es)
    ensures exists i :: (0 <= i < |es| && es[i].comment == JobComment(j.taskId) &&
                          es[i].expression == j.expression && es[i].command == j.command && es[i].enabled == j.enabled)
  {
    if j in JobsOf(es[0]) {
      assert es[0].comment == JobComment(j.taskId);
    } else {
      JobFromEntry(es[1..], j);
      var i :| 0 <= i < |es[1..]| && es[1..][i].comment == JobComment(j.taskId) &&
        es[1..][i].expression == j.expression && es[1..][i].command == j.command && es[1..][i].enabled == j.enabled;
      assert es[i + 1] == es[1..][i];
    }
  }

  /** Selects the jobs of one task. */
  function OfTask(taskId: string): Job -> bool {
    (j: Job) => j.taskId == taskId
  }

  /**
   * `list_jobs` reports one job for each entry tagged for the task, and
   * none for an entry without a comment or with a foreign one.
   */
  lemma {:induction false} JobsOfTask(es: seq<Entry>, taskId: string)
    ensures |Filter(ManagedJobs(es), OfTask(taskId))| == Count(es, JobComment(taskId))
  {
    if es != [] {
      JobsOfTask(es[1..], taskId);
      FilterAppend(JobsOf(es[0]), ManagedJobs(es[1..]), OfTask(taskId));
      CountAppend([es[0]], es[1..], JobComment(taskId));
      assert es == [es[0]] + es[1..];
      TagRoundTrip(taskId, taskId);
      match TaskIdOf(es[0].comment)
      case Some(other) =>
        TagRoundTrip(other, taskId);
      case None =>
    }
  }

  /** `{j["task_id"]: j for j in jobs}.get(taskId)`: a later job of the same id overwrites an earlier one. */
  function LookupJob(jobs: seq<Job>, taskId: string): (r: Option<Job>)
    ensures r.Some? ==> r.value in jobs && r.value.taskId == taskId
    ensures r.Some? <==> |Filter(jobs, OfTask(taskId))| > 0
    ensures r.Some? ==> exists k :: (0 <= k < |jobs| && jobs[k] == r.value &&
                                     forall l :: k < l < |jobs| ==> jobs[l].taskId != taskId)
  {
    if jobs == [] then None
    else
      var last := jobs[|jobs| - 1];
      FilterAppend(jobs[..|jobs| - 1], [last], OfTask(taskId));
      assert jobs == jobs[..|jobs| - 1] + [last];
      if last.taskId == taskId then Some(last)
      else
        var r := LookupJob(jobs[..|jobs| - 1], taskId);
        if r.Some? then LastShift(jobs, jobs[..|jobs| - 1], taskId, r.value); r else r
  }

  /** A job last among all but the final one, when the final one is another task's, is last in the whole list. */
  lemma LastShift(jobs: seq<Job>, front: seq<Job>, taskId: string, x: Job)
    requires jobs != [] && front == jobs[..|jobs| - 1] && jobs[|jobs| - 1].taskId != taskId
    requires exists k :: (0 <= k < |front| && front[k] == x && forall l :: k < l < |front| ==> front[l].taskId != taskId)
    ensures exists k :: (0 <= k < |jobs| && jobs[k] == x && forall l :: k < l < |jobs| ==> jobs[l].taskId != taskId)
  {
    var k :| 0 <= k < |front| && front[k] == x && forall l :: k < l < |front| ==> front[l].taskId != taskId;
    forall l | k < l < |jobs| ensures jobs[l].taskId != taskId {
      if l < |front| {
        assert jobs[l] == front[l];
      }
    }
    assert jobs[k] == x;
  }

  /** The first entry of `c`, the one `find_comment` yields first. */
  function FirstTagged(es: seq<Entry>, c: string): (r: Option<Entry>)
    ensures r.Some? ==> r.value in es && r.value.comment == c
    ensures r.None? <==> Count(es, c) == 0
    ensures r.Some? ==> exists k :: (0 <= k < |es| && es[k] == r.value &&
                                     forall l :: 0 <= l < k ==> es[l].comment != c)
  {
    CountPositive(es, c);
    if es == [] then None
    else if es[0].comment == c then Some(es[0])
    else
      CountPositive(es[1..], c);
      assert forall i :: 1 <= i < |es| ==> es[1..][i - 1] == es[i];
      var r := FirstTagged(es[1..], c);
      if r.Some? then FirstShift(es, c, r.value); r else r
  }

  /** An entry first among the rest of a list whose head lacks the comment is first in the whole list. */
  lemma FirstShift(es: seq<Entry>, c: string, x: Entry)
    requires es != [] && es[0].comment != c
    requires exists k :: (0 <= k < |es[1..]| && es[1..][k] == x && forall l :: 0 <= l < k ==> es[1..][l].comment != c)
    ensures exists k :: (0 <= k < |es| && es[k] == x && forall l :: 0 <= l < k ==> es[l].comment != c)
  {
    var k :| 0 <= k < |es[1..]| && es[1..][k] == x && forall l :: 0 <= l < k ==> es[1..][l].comment != c;
    forall l | 0 <= l < k + 1 ensures es[l].comment != c {
      if l > 0 {
        assert es[l] == es[1..][l - 1];
      }
    }
    assert es[k + 1] == x;
  }

  /** The user's crontab, with python-crontab's validator and next-fire computation as oracles. */
  class CronTab {
    var entries: seq<Entry>
    /** `job.is_valid()` after `job.setall(expression)` */
    const valid: string -> bool
    /** `job.schedule(date_from=now).get_next()` */
    const nextFire: (string, int) -> int

    constructor (initial: seq<Entry>, valid: string -> bool, nextFire: (string, int) -> int)
      ensures entries == initial && this.valid == valid && this.nextFire == nextFire
    {
      this.entries := initial;
      this.valid := valid;
      this.nextFire := nextFire;
    }

    /** When the task's first entry fires next, or `None` when it has no entry. */
    function NextRun(taskId: string, now: int): (r: Option<int>)
      reads this
      ensures r.None? <==> Count(entries, JobComment(taskId)) == 0
    {
      match FirstTagged(entries, JobComment(taskId))
      case Some(e) => Some(nextFire(e.expression, now))
      case None => None
    }

    /**
     * `install_job`: drop the task's entries, append a new enabled one, and
     * write only if the expression is valid; an invalid one raises before
     * the write, so the crontab is untouched.
     */
    method InstallJob(taskId: string, expression: string, host: Host) returns (r: Result<string, Exception>)
      modifies this
      ensures var c := JobComment(taskId);
        if valid(expression) then
          && entries == Without(old(entries), c) + [Entry(c, JobCommand(taskId, host), expression, true)]
          && r == Ok("Installed: " + expression + " -> " + JobCommand(taskId, host))
          && Count(entries, c) == 1
          && Without(entries, c) == Without(old(entries), c)
        else
          && entries == old(entries)
          && r == Err(Exception("ValueError", "Invalid cron expression: '" + expression + "'"))
      ensures AtMostOnePerTask(old(entries)) ==> AtMostOnePerTask(entries)
      ensures forall other :: other != taskId ==> Count(entries, JobComment(other)) == Count(old(entries), JobComment(other))
    {
      var work := entries;
      var comment := JobComment(taskId);
      forall other | other != taskId ensures JobComment(other) != comment {
        TagRoundTrip(other, taskId);
      }
      work := Without(work, comment);
      var command := JobCommand(taskId, host);
      var job := Entry(comment, command, expression, true);
      work := work + [job];
      if !valid(expression) {
        return Err(Exception("ValueError", "Invalid cron expression: '" + expression + "'"));
      }
      Installed(entries, job);
      entries := work;
      r := Ok("Installed: " + expression + " -> " + command);
    }

    /** `remove_job`: drop every entry of the task and write; report whether there was one. */
    method RemoveJob(taskId: string) returns (removed: bool)
      modifies this
      ensures removed <==> Count(old(entries), JobComment(taskId)) > 0
      ensures entries == Without(old(entries), JobComment(taskId))
      ensures Count(entries, JobComment(taskId)) == 0
      ensures AtMostOnePerTask(old(entries)) ==> AtMostOnePerTask(entries)
      ensures forall other :: other != taskId ==> Count(entries, JobComment(other)) == Count(old(entries), JobComment(other))
    {
      var work := entries;
      var comment := JobComment(taskId);
      forall other | other != taskId ensures JobComment(other) != comment {
        TagRoundTrip(other, taskId);
      }
      var count := Count(work, comment);
      work := Without(work, comment);
      Removed(entries, comment);
      entries := work;
      removed := count > 0;
    }

    /** `list_jobs`: the managed entries, in crontab order. */
    method ListJobs() returns (jobs: seq<Job>)
      ensures jobs == ManagedJobs(entries)
    {
      var all := entries;
      jobs := [];
      var i := 0;
      while i < |all|
        invariant 0 <= i <= |all|
        invariant jobs == ManagedJobs(all[..i])
      {
        var e := all[i];
        match TaskIdOf(e.comment) {
          case Some(taskId) =>
            jobs := jobs + [Job(taskId, e.expression, e.command, e.enabled)];
          case None =>
        }
        assert all[..i + 1] == all[..i] + [e];
        ManagedJobsSnoc(all[..i], e);
        i := i + 1;
      }
      assert all[..|all|] == all;
    }

    /** The loop shared by `enable_job` and `disable_job`. */
    method SetEnabled(taskId: string, flag: bool) returns (found: bool)
      modifies this
      ensures found <==> Count(old(entries), JobComment(taskId)) > 0
      ensures entries == WithEnabled(old(entries), JobComment(taskId), flag)
    {
      var start := entries;
      var comment := JobComment(taskId);
      var work := start;
      found := false;
      var i := 0;
      while i < |work|
        invariant 0 <= i <= |work| == |start|
        invariant forall j :: 0 <= j < |work| ==>
          work[j] == if j < i && start[j].comment == comment then start[j].(enabled := flag) else start[j]
        invariant found <==> exists j :: 0 <= j < i && start[j].comment == comment
      {
        if work[i].comment == comment {
          work := work[i := work[i].(enabled := flag)];
          found := true;
        }
        i := i + 1;
      }
      assert work == WithEnabled(start, comment, flag);
      CountPositive(start, comment);
      if found {
        entries := work;
      } else {
        Toggled(start, comment, flag);
      }
    }

    /** `enable_job`: activate the task's entries; write only if there is one. */
    method EnableJob(taskId: string) returns (found: bool)
      modifies this
      ensures found <==> Count(old(entries), JobComment(taskId)) > 0
      ensures entries == WithEnabled(old(entries), JobComment(taskId), true)
      ensures Without(entries, JobComment(taskId)) == Without(old(entries), JobComment(taskId))
      ensures AtMostOnePerTask(old(entries)) ==> AtMostOnePerTask(entries)
      ensures forall other :: Count(entries, JobComment(other)) == Count(old(entries), JobComment(other))
      ensures forall i :: 0 <= i < |entries| && entries[i].comment == JobComment(taskId) ==> entries[i].enabled
    {
      Toggled(entries, JobComment(taskId), true);
      found := SetEnabled(taskId, true);
    }

    /** `disable_job`: deactivate the task's entries without removing them; write only if there is one. */
    method DisableJob(taskId: string) returns (found: bool)
      modifies this
      ensures found <==> Count(old(entries), JobComment(taskId)) > 0
      ensures entries == WithEnabled(old(entries), JobComment(taskId), false)
      ensures Without(entries, JobComment(taskId)) == Without(old(entries), JobComment(taskId))
      ensures AtMostOnePerTask(old(entries)) ==> AtMostOnePerTask(entries)
      ensures forall other :: Count(entries, JobComment(other)) == Count(old(entries), JobComment(other))
      ensures forall i :: 0 <= i < |entries| && entries[i].comment == JobComment(taskId) ==> !entries[i].enabled
    {
      Toggled(entries, JobComment(taskId), false);
      found := SetEnabled(taskId, false);
    }

    /** `get_next_run`: the next fire time of the first entry of the task, or `None` when it has none. */
    method GetNextRun(taskId: string, now: int) returns (r: Option<int>)
      ensures r == NextRun(taskId, now)
      ensures r.None? <==> Count(entries, JobComment(taskId)) == 0
    {
      var all := entries;
      var comment := JobComment(taskId);
      var i := 0;
      while i < |all|
        invariant 0 <= i <= |all|
        invariant FirstTagged(all, comment) == FirstTagged(all[i..], comment)
      {
        if all[i].comment == comment {
          return Some(nextFire(all[i].expression, now));
        }
        assert all[i..][1..] == all[i + 1..];
        i := i + 1;
      }
      return None;
    }
  }
}
