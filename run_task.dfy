/**
 * The task runner of `mcp_scheduler/run_task.py`, the program each crontab
 * entry starts: load the task, record a run, ask the model, deliver the
 * answer, record the outcome. The model backend and the writes a delivery
 * performs are oracles in `RunEnv`; the ledger is `TaskStore.Store`.
 */
module Runner {
  import opened Wrappers
  import opened Text
  import Seqs
  import TaskStore

  /** One content block of a Messages API response. */
  datatype Block = Block(kind: string, text: string)

  /** The parts of a Messages API response `call_claude` reads. */
  datatype ApiResponse = ApiResponse(content: seq<Block>, model: string, inputTokens: int, outputTokens: int)

  /** What `client.messages.create` is asked for: one user message. */
  datatype Request = Request(model: string, maxTokens: int, prompt: string)

  /** The dictionary `call_claude` returns. */
  datatype Generation = Generation(text: string, model: string, inputTokens: int, outputTokens: int, totalTokens: int)

  /** The `RuntimeError` raised when no API key is configured. */
  const MissingKey: Exception := Exception("RuntimeError", "ANTHROPIC_API_KEY environment variable not set")

  /** Whether a block is one `call_claude` takes text from. */
  predicate IsText(b: Block) {
    b.kind == "text"
  }

  /** The texts of the `"text"` blocks, concatenated in order. */
  function TextOf(blocks: seq<Block>): string {
    if blocks == [] then ""
    else TextOf(blocks[..|blocks| - 1]) + (if IsText(blocks[|blocks| - 1]) then blocks[|blocks| - 1].text else "")
  }

  /** The text of a response split in two is the text of the first part followed by that of the second. */
  lemma {:induction false} TextOfAppend(a: seq<Block>, b: seq<Block>)
    ensures TextOf(a + b) == TextOf(a) + TextOf(b)
  {
    if b == [] {
      assert a + b == a;
    } else {
      var last := b[|b| - 1];
      assert (a + b)[..|a + b| - 1] == a + b[..|b| - 1];
      TextOfAppend(a, b[..|b| - 1]);
    }
  }

  /** Blocks of any other kind (tool use, thinking, ...) contribute nothing. */
  lemma {:induction false} TextOfOnlyText(blocks: seq<Block>)
    ensures TextOf(blocks) == TextOf(Seqs.Filter(blocks, IsText))
  {
    if blocks != [] {
      var head := blocks[0];
      var tail := blocks[1..];
      assert blocks == [head] + tail;
      TextOfAppend([head], tail);
      TextOfOnlyText(tail);
      var kept := if IsText(head) then [head] else [];
      assert Seqs.Filter(blocks, IsText) == kept + Seqs.Filter(tail, IsText);
      TextOfAppend(kept, Seqs.Filter(tail, IsText));
      assert [head][..0] == [];
      if IsText(head) {
        assert TextOf(kept) == head.text;
      } else {
        assert TextOf(kept) == "";
        assert TextOf([head]) == "";
      }
    }
  }

  /** What `call_claude` makes of the backend's answer, or the backend's own exception. */
  function Generated(answer: Result<ApiResponse, Exception>): (r: Result<Generation, Exception>)
    ensures answer.Err? ==> r == Err(answer.error)
    ensures answer.Ok? ==>
      && r.Ok? && r.value.text == TextOf(answer.value.content) && r.value.model == answer.value.model
      && r.value.totalTokens == r.value.inputTokens + r.value.outputTokens
      && r.value.inputTokens == answer.value.inputTokens && r.value.outputTokens == answer.value.outputTokens
  {
    match answer
    case Err(e) => Err(e)
    case Ok(resp) =>
      Ok(Generation(TextOf(resp.content), resp.model, resp.inputTokens, resp.outputTokens,
                    resp.inputTokens + resp.outputTokens))
  }

  /**
   * `call_claude`: refuse without an API key, send the prompt, and gather
   * the response's text blocks in order with the token counts and their sum.
   */
  method CallClaude(prompt: string, model: string, maxTokens: int, apiKey: Option<string>,
                    backend: Request -> Result<ApiResponse, Exception>)
    returns (r: Result<Generation, Exception>)
    ensures apiKey.None? || apiKey.value == "" ==> r == Err(MissingKey)
    ensures apiKey.Some? && apiKey.value != "" ==> r == Generated(backend(Request(model, maxTokens, prompt)))
  {
    if apiKey.None? || apiKey.value == "" {
      return Err(MissingKey);
    }
    var answer := backend(Request(model, maxTokens, prompt));
    if answer.Err? {
      return Err(answer.error);
    }
    var response := answer.value;
    var text := "";
    var i := 0;
    while i < |response.content|
      invariant 0 <= i <= |response.content|
      invariant text == TextOf(response.content[..i])
    {
      var block := response.content[i];
      if block.kind == "text" {
        text := text + block.text;
      }
      assert response.content[..i + 1][..i] == response.content[..i];
      i := i + 1;
    }
    assert response.content[..i] == response.content;
    r := Ok(Generation(text, response.model, response.inputTokens, response.outputTokens,
                       response.inputTokens + response.outputTokens));
  }

  // ─── Delivery ─────────────────────────────────────────────────────

  /** The write a delivery handler performs. */
  datatype Effect =
    | WriteFile(path: string, contents: string)                      // `output_path.write_text(text)`
    | AppendFile(path: string, separator: string, contents: string)  // `f.write(separator); f.write(text)` in mode "a"
    | PrintLine(text: string)                                       // `print(text)`

  /** A handler's effect and the output path it returns. */
  datatype Delivery = Delivery(effect: Effect, outputPath: string)

  /** The two readings of the local clock the handlers format: `%Y%m%d_%H%M%S` and `%Y-%m-%d %H:%M`. */
  datatype Stamps = Stamps(file: string, minute: string)

  /** The keys of `DELIVERY_HANDLERS`, in order. */
  const DeliveryTypes: seq<string> := ["file", "stdout", "append"]

  /** `f"{task['name'].replace(' ', '_').lower()}_{timestamp}.{fmt}"` */
  function FileName(name: string, stamp: string, fmt: string): (f: string)
    ensures |f| == |name| + 1 + |stamp| + 1 + |fmt|
    ensures forall i :: 0 <= i < |name| ==> f[i] == LowerChar(if name[i] == ' ' then '_' else name[i])
    ensures forall i :: 0 <= i < |name| ==> f[i] != ' ' && !('A' <= f[i] <= 'Z')
    ensures f[|name|..] == "_" + stamp + "." + fmt
  {
    var base := Lower(ReplaceChar(name, ' ', '_'));
    assert forall i :: 0 <= i < |name| ==> base[i] == LowerChar(if name[i] == ' ' then '_' else name[i]);
    base + "_" + stamp + "." + fmt
  }

  /** `deliver_file`: a new file named after the task in the configured directory, `md` unless configured. */
  function DeliverFile(task: TaskStore.Task, text: string, outputDir: string, stamps: Stamps): (d: Delivery)
    ensures d.effect == WriteFile(d.outputPath, text)
    ensures var dir := GetOr(task.deliveryConfig, "directory", outputDir);
      d.outputPath == dir + "/" + FileName(task.name, stamps.file, GetOr(task.deliveryConfig, "format", "md"))
  {
    var fmt := GetOr(task.deliveryConfig, "format", "md");
    var directory := GetOr(task.deliveryConfig, "directory", outputDir);
    var path := directory + "/" + FileName(task.name, stamps.file, fmt);
    Delivery(WriteFile(path, text), path)
  }

  /** `deliver_stdout`: print the text; the output path is the word `stdout`. */
  function DeliverStdout(text: string): (d: Delivery)
    ensures d.outputPath == "stdout" && d.effect.PrintLine? && d.effect.text == text
  {
    Delivery(PrintLine(text), "stdout")
  }

  /** The `ValueError` of `deliver_append` without a target file. */
  const MissingFilepath: Exception :=
    Exception("ValueError", "delivery_config.filepath required for 'append' delivery type")

  /** `deliver_append`: a configured, non-empty `filepath` is required; a dated separator goes before the text. */
  function DeliverAppend(task: TaskStore.Task, text: string, stamps: Stamps): (r: Result<Delivery, Exception>)
    ensures r.Err? <==> "filepath" !in task.deliveryConfig || task.deliveryConfig["filepath"] == ""
    ensures r.Err? ==> r.error == MissingFilepath
    ensures r.Ok? ==>
      && r.value.outputPath == task.deliveryConfig["filepath"]
      && r.value.effect == AppendFile(r.value.outputPath, GetOr(task.deliveryConfig, "separator",
                                       "\n\n---\n\n## " + stamps.minute + "\n\n"), text)
  {
    var config := task.deliveryConfig;
    if "filepath" !in config || config["filepath"] == "" then Err(MissingFilepath)
    else
      var separator := GetOr(config, "separator", "\n\n---\n\n## " + stamps.minute + "\n\n");
      Ok(Delivery(AppendFile(config["filepath"], separator, text), config["filepath"]))
  }

  /** The `ValueError` for a delivery type `DELIVERY_HANDLERS` does not know. */
  function UnknownDelivery(deliveryType: string): Exception {
    Exception("ValueError", "Unknown delivery type: '" + deliveryType + "'. Available: ['file', 'stdout', 'append']")
  }

  /** A delivery writes exactly `text`, to the output path it reports (a print reports `stdout`). */
  predicate Delivers(d: Delivery, text: string) {
    match d.effect
    case WriteFile(path, contents) => path == d.outputPath && contents == text
    case AppendFile(path, _, contents) => path == d.outputPath && contents == text
    case PrintLine(line) => line == text && d.outputPath == "stdout"
  }

  /** `DELIVERY_HANDLERS.get(delivery_type)` and the call of the handler found. */
  function Deliver(task: TaskStore.Task, text: string, outputDir: string, stamps: Stamps): (r: Result<Delivery, Exception>)
    ensures task.deliveryType !in DeliveryTypes ==> r == Err(UnknownDelivery(task.deliveryType))
    ensures task.deliveryType == "file" ==> r == Ok(DeliverFile(task, text, outputDir, stamps))
    ensures task.deliveryType == "stdout" ==> r == Ok(DeliverStdout(text))
    ensures task.deliveryType == "append" ==> r == DeliverAppend(task, text, stamps)
    ensures r.Ok? <==>
      task.deliveryType in DeliveryTypes &&
      (task.deliveryType == "append" ==> "filepath" in task.deliveryConfig && task.deliveryConfig["filepath"] != "")
    ensures r.Ok? ==> Delivers(r.value, text)
  {
    match task.deliveryType
    case "file" => Ok(DeliverFile(task, text, outputDir, stamps))
    case "stdout" => Ok(DeliverStdout(text))
    case "append" => DeliverAppend(task, text, stamps)
    case _ => Err(UnknownDelivery(task.deliveryType))
  }

  // ─── The run ──────────────────────────────────────────────────────

  /**
   * Everything outside the ledger a run depends on: the API key, the
   * default output directory, the clock readings, the backend, and the
   * outcome of performing a write (`None` when it succeeds).
   */
  datatype RunEnv = RunEnv(
    apiKey: Option<string>,
    outputDir: string,
    stamps: Stamps,
    backend: Request -> Result<ApiResponse, Exception>,
    perform: Effect -> Option<Exception>)

  /** A finished attempt: the output path and token count, or the error text. */
  datatype Outcome = Succeeded(outputPath: string, tokensUsed: int) | Failed(error: string)

  /** What the body of `run_task`'s `try` ends in, for an enabled task. */
  function Attempt(task: TaskStore.Task, env: RunEnv): (o: Outcome)
    ensures (env.apiKey.None? || env.apiKey.value == "") ==> o == Failed(ErrorText(MissingKey))
    ensures o.Succeeded? ==>
      && env.apiKey.Some? && env.apiKey.value != ""
      && var answer := env.backend(Request(task.model, task.maxTokens, task.prompt));
         && answer.Ok? && o.tokensUsed == answer.value.inputTokens + answer.value.outputTokens
         && task.deliveryType in DeliveryTypes
    ensures env.apiKey.Some? && env.apiKey.value != "" ==>
      var answer := env.backend(Request(task.model, task.maxTokens, task.prompt));
      && (answer.Err? ==> o == Failed(ErrorText(answer.error)))
      && (answer.Ok? ==>
            var text := TextOf(answer.value.content);
            var d := Deliver(task, text, env.outputDir, env.stamps);
            && (d.Err? ==> o == Failed(ErrorText(d.error)))
            && (d.Ok? && env.perform(d.value.effect).Some? ==> o == Failed(ErrorText(env.perform(d.value.effect).value)))
            && (d.Ok? && env.perform(d.value.effect).None? ==>
                  && o == Succeeded(d.value.outputPath, answer.value.inputTokens + answer.value.outputTokens)
                  && Delivers(d.value, text)))
  {
    var generation :=
      if env.apiKey.None? || env.apiKey.value == "" then Err(MissingKey)
      else Generated(env.backend(Request(task.model, task.maxTokens, task.prompt)));
    match generation
    case Err(e) => Failed(ErrorText(e))
    case Ok(g) =>
      match Deliver(task, g.text, env.outputDir, env.stamps)
      case Err(e) => Failed(ErrorText(e))
      case Ok(d) =>
        match env.perform(d.effect)
        case Some(e) => Failed(ErrorText(e))
        case None => Succeeded(d.outputPath, g.totalTokens)
  }

  /** An unknown delivery type fails the run, after the model has been asked. */
  lemma UnknownDeliveryFails(task: TaskStore.Task, env: RunEnv)
    requires task.deliveryType !in DeliveryTypes
    ensures Attempt(task, env).Failed?
    ensures env.apiKey.Some? && env.apiKey.value != "" &&
            env.backend(Request(task.model, task.maxTokens, task.prompt)).Ok? ==>
              Attempt(task, env) == Failed(ErrorText(UnknownDelivery(task.deliveryType)))
  {
  }

  /** The run row as `log_run_finish` leaves it. */
  function FinalRun(runId: nat, taskId: string, start: int, finish: int, o: Outcome): (r: TaskStore.Run)
    ensures r.id == runId && r.taskId == taskId && r.startedAt == start && r.finishedAt == Some(finish)
    ensures r.status == TaskStore.Success <==> o.Succeeded?
    ensures o.Succeeded? ==> r.outputPath == Some(o.outputPath) && r.tokensUsed == Some(o.tokensUsed) && r.error.None?
    ensures o.Failed? ==> r.status == TaskStore.Error && r.error == Some(o.error) && r.outputPath.None? && r.tokensUsed.None?
  {
    match o
    case Succeeded(path, tokens) => TaskStore.Run(runId, taskId, start, Some(finish), TaskStore.Success, Some(path), None, Some(tokens))
    case Failed(msg) => TaskStore.Run(runId, taskId, start, Some(finish), TaskStore.Error, None, Some(msg), None)
  }

  /** The body of `run_task`'s `try` for an enabled task: ask the model, deliver, report how it ended. */
  method Perform(task: TaskStore.Task, env: RunEnv) returns (outcome: Outcome)
    ensures outcome == Attempt(task, env)
  {
    var generation := CallClaude(task.prompt, task.model, task.maxTokens, env.apiKey, env.backend);
    if generation.Err? {
      return Failed(ErrorText(generation.error));
    }
    var delivery := Deliver(task, generation.value.text, env.outputDir, env.stamps);
    if delivery.Err? {
      return Failed(ErrorText(delivery.error));
    }
    var failure := env.perform(delivery.value.effect);
    if failure.Some? {
      return Failed(ErrorText(failure.value));
    }
    outcome := Succeeded(delivery.value.outputPath, generation.value.totalTokens);
  }

  /** Finishing the run just started rewrites only the row just appended. */
  lemma FinishLast(before: seq<TaskStore.Run>, started: TaskStore.Run, after: seq<TaskStore.Run>, finished: TaskStore.Run)
    requires forall i :: 0 <= i < |before| ==> before[i].id < started.id
    requires |after| == |before| + 1
    requires forall i :: 0 <= i < |after| ==>
      after[i] == (if (before + [started])[i].id == started.id then finished else (before + [started])[i])
    ensures after == before + [finished]
  {
    assert forall i :: 0 <= i < |before| ==> (before + [started])[i] == before[i];
  }

  /** `log_run_finish` with the columns an outcome sets. */
  method Finish(store: TaskStore.Store, runId: nat, finish: int, outcome: Outcome)
    requires store.Valid() && store.clock <= finish
    modifies store
    ensures store.Valid()
    ensures store.tasks == old(store.tasks) && store.order == old(store.order) && store.nextRunId == old(store.nextRunId)
    ensures store.clock == finish
    ensures |store.runs| == |old(store.runs)|
    ensures forall i :: 0 <= i < |store.runs| ==>
      store.runs[i] == (if old(store.runs)[i].id == runId
                        then FinalRun(runId, old(store.runs)[i].taskId, old(store.runs)[i].startedAt, finish, outcome)
                        else old(store.runs)[i])
  {
    match outcome {
      case Succeeded(path, tokens) =>
        store.LogRunFinish(runId, TaskStore.Success, finish, outputPath := Some(path), tokensUsed := Some(tokens));
      case Failed(msg) =>
        store.LogRunFinish(runId, TaskStore.Error, finish, error := Some(msg));
    }
  }

  /**
   * `run_task`: an unknown task exits with status 1 and a disabled one with
   * status 0, neither leaving a record; an enabled one gets exactly one run,
   * started at `start` and finished at `finish` as a success (status 0) or
   * an error (status 1).
   */
  method RunTask(store: TaskStore.Store, taskId: string, env: RunEnv, start: int, finish: int)
    returns (exitCode: int)
    requires store.Valid() && store.clock <= start <= finish
    modifies store
    ensures store.Valid()
    ensures store.tasks == old(store.tasks) && store.order == old(store.order)
    ensures store.clock == (if taskId in old(store.tasks) && old(store.tasks)[taskId].enabled then finish else old(store.clock))
    ensures taskId !in old(store.tasks) ==>
      exitCode == 1 && store.runs == old(store.runs) && store.nextRunId == old(store.nextRunId)
    ensures taskId in old(store.tasks) && !old(store.tasks)[taskId].enabled ==>
      exitCode == 0 && store.runs == old(store.runs) && store.nextRunId == old(store.nextRunId)
    ensures taskId in old(store.tasks) && old(store.tasks)[taskId].enabled ==>
      var o := Attempt(old(store.tasks)[taskId], env);
      && store.runs == old(store.runs) + [FinalRun(old(store.nextRunId), taskId, start, finish, o)]
      && store.nextRunId == old(store.nextRunId) + 1
      && (exitCode == 0 <==> o.Succeeded?) && (exitCode == 1 <==> o.Failed?)
  {
    var found := store.GetTask(taskId);
    if found.None? {
      return 1;
    }
    var task := found.value;
    if !task.enabled {
      return 0;
    }
    ghost var before := store.runs;
    var started := store.LogRunStart(taskId, start);
    var runId := started.value;
    var outcome := Perform(task, env);
    Finish(store, runId, finish, outcome);
    FinishLast(before, TaskStore.Run(runId, taskId, start, None, TaskStore.Running, None, None, None),
               store.runs, FinalRun(runId, taskId, start, finish, outcome));
    exitCode := if outcome.Succeeded? then 0 else 1;
  }

  /** `main` with `--dry-run`: only reads the task; no run is started. */
  method DryRun(store: TaskStore.Store, taskId: string) returns (shown: Option<TaskStore.Task>)
    ensures shown.Some? <==> taskId in store.tasks
    ensures shown.Some? ==> shown.value == store.tasks[taskId]
  {
    shown := store.GetTask(taskId);
  }

  /** `main`: with `--dry-run` only show the task (exit status 0); otherwise run it. */
  method Launch(store: TaskStore.Store, taskId: string, dryRun: bool, env: RunEnv, start: int, finish: int)
    returns (exitCode: int, shown: Option<TaskStore.Task>)
    requires store.Valid() && store.clock <= start <= finish
    modifies store
    ensures store.Valid()
    ensures store.tasks == old(store.tasks) && store.order == old(store.order)
    ensures store.clock ==
      (if !dryRun && taskId in old(store.tasks) && old(store.tasks)[taskId].enabled then finish else old(store.clock))
    ensures dryRun ==>
      exitCode == 0 && shown == old(store.GetTask(taskId)) && store.runs == old(store.runs) &&
      store.nextRunId == old(store.nextRunId)
    ensures !dryRun ==> shown.None?
    ensures !dryRun && taskId !in old(store.tasks) ==>
      exitCode == 1 && store.runs == old(store.runs) && store.nextRunId == old(store.nextRunId)
    ensures !dryRun && taskId in old(store.tasks) && !old(store.tasks)[taskId].enabled ==>
      exitCode == 0 && store.runs == old(store.runs) && store.nextRunId == old(store.nextRunId)
    ensures !dryRun && taskId in old(store.tasks) && old(store.tasks)[taskId].enabled ==>
      var o := Attempt(old(store.tasks)[taskId], env);
      && store.runs == old(store.runs) + [FinalRun(old(store.nextRunId), taskId, start, finish, o)]
      && store.nextRunId == old(store.nextRunId) + 1
      && (exitCode == 0 <==> o.Succeeded?) && (exitCode == 1 <==> o.Failed?)
  {
    if dryRun {
      shown := DryRun(store, taskId);
      return 0, shown;
    }
    exitCode := RunTask(store, taskId, env, start, finish);
    shown := None;
  }
}
