/** `app/task_queue.py`: the task registry, its job FIFO, one iteration of
    the worker loop, and `_process_one` with the OCR service, the result
    downloads and the filesystem as abstract inputs. */
module TaskQueue {
  import opened Utils
  import opened Wrappers
  import opened OcrClient
  import opened Storage

  // ------------------------------------------------------------------
  // Records

  /** The status strings of tasks and items; items never get `Canceled`. */
  datatype Status = Queued | Running | Done | Failed | Canceled

  /** Why `_process_one` raised. */
  datatype Failure =
    | InputMissing(path: Path)
    | ClientFailed(error: OcrError)
    | MissingJsonUrl
    | StorageFailed(reason: StorageError)

  /** `TaskItem`; `error` is None while the item has not failed (the empty
      string of the source). */
  datatype TaskItem = TaskItem(
    itemId: string, filename: string, relpath: string, size: int,
    status: Status, error: Option<Failure>, outputDir: Path,
    mdFiles: seq<Path>, assets: seq<Path>)

  /** `Task`, without its creation time. */
  datatype Task = Task(
    taskId: string, status: Status, total: nat, done: nat, failed: nat,
    message: string, items: seq<TaskItem>)

  /** `EnqueuedItem`: one job in the FIFO. */
  datatype Job = Job(
    taskId: string, itemId: string, localPath: Path, filename: string,
    relpath: string, forceAsync: bool, options: OcrOptions)

  /** The registry and the FIFO, as the worker sees them between two jobs. */
  datatype QueueState = QueueState(tasks: map<string, Task>, jobs: seq<Job>)

  /** `self._tasks[task_id]` raising `KeyError`. */
  datatype QueueError = UnknownTask(taskId: string)

  /** What `_process_one` returns (md files, assets) or raises. */
  type Outcome = Result<(seq<Path>, seq<Path>), Failure>

  // ------------------------------------------------------------------
  // create_task, get_task, enqueue_file

  function NewTask(taskId: string): Task {
    Task(taskId, Queued, 0, 0, 0, "", [])
  }

  /** `create_task` with the generated id given. */
  function Create(s: QueueState, taskId: string): QueueState {
    QueueState(s.tasks[taskId := NewTask(taskId)], s.jobs)
  }

  function NewItem(outputRoot: Path, taskId: string, itemId: string, filename: string, relpath: string, size: int): TaskItem {
    TaskItem(itemId, filename, relpath, size, Queued, None, outputRoot + [taskId], [], [])
  }

  /** `enqueue_file` with the generated item id given: the new state and the item it returns. */
  function Enqueue(s: QueueState, outputRoot: Path, taskId: string, itemId: string, localPath: Path,
                   filename: string, relpath: string, size: int, forceAsync: bool, options: OcrOptions)
    : Result<(QueueState, TaskItem), QueueError>
  {
    if taskId !in s.tasks then Err(UnknownTask(taskId))
    else
      var task := s.tasks[taskId];
      var item := NewItem(outputRoot, taskId, itemId, filename, relpath, size);
      var task' := task.(items := task.items + [item], total := task.total + 1,
                         status := if task.done + task.failed == 0 then Queued else task.status);
      var job := Job(taskId, itemId, localPath, filename, relpath, forceAsync, options);
      Ok((QueueState(s.tasks[taskId := task'], s.jobs + [job]), item))
  }

  /** A new task is queued, empty and zeroed; no other task and no job changes. */
  lemma CreateFresh(s: QueueState, taskId: string)
    ensures var s' := Create(s, taskId);
      s'.tasks.Keys == s.tasks.Keys + {taskId}
      && s'.tasks[taskId].status == Queued && s'.tasks[taskId].items == []
      && s'.tasks[taskId].total == 0 && s'.tasks[taskId].done == 0 && s'.tasks[taskId].failed == 0
      && (forall id :: id in s.tasks && id != taskId ==> s'.tasks[id] == s.tasks[id])
      && s'.jobs == s.jobs
  {
  }

  /** `enqueue_file` fails exactly on an unknown task; otherwise it appends
      one queued item and one job with the same ids, adds one to `total`,
      resets the status to queued only while nothing has finished, and
      leaves everything else alone. */
  lemma EnqueueEffect(s: QueueState, outputRoot: Path, taskId: string, itemId: string, localPath: Path,
                      filename: string, relpath: string, size: int, forceAsync: bool, options: OcrOptions)
    ensures var r := Enqueue(s, outputRoot, taskId, itemId, localPath, filename, relpath, size, forceAsync, options);
      (r.Err? <==> taskId !in s.tasks)
      && (r.Ok? ==>
        var (s', item) := r.value;
        var t, t' := s.tasks[taskId], s'.tasks[taskId];
        s'.tasks.Keys == s.tasks.Keys
        && item.itemId == itemId && item.status == Queued && item.outputDir == outputRoot + [taskId]
        && t'.items == t.items + [item]
        && t'.total == t.total + 1 && t'.done == t.done && t'.failed == t.failed
        && t'.status == (if t.done + t.failed == 0 then Queued else t.status)
        && |s'.jobs| == |s.jobs| + 1 && s'.jobs[..|s.jobs|] == s.jobs
        && Last(s'.jobs).taskId == taskId && Last(s'.jobs).itemId == itemId
        && (forall id :: id in s.tasks && id != taskId ==> s'.tasks[id] == s.tasks[id]))
  {
    var r := Enqueue(s, outputRoot, taskId, itemId, localPath, filename, relpath, size, forceAsync, options);
    if r.Ok? {
      assert r.value.0.jobs[..|s.jobs|] == s.jobs;
    }
  }

  // ------------------------------------------------------------------
  // One iteration of _worker

  /** `next((x for x in task.items if x.item_id == job.item_id), None)`, as an index. */
  function FindItem(items: seq<TaskItem>, itemId: string): (r: Option<nat>)
    ensures r.Some? ==> (r.value < |items| && items[r.value].itemId == itemId
                         && forall k :: 0 <= k < r.value ==> items[k].itemId != itemId)
    ensures r.None? ==> forall k :: 0 <= k < |items| ==> items[k].itemId != itemId
  {
    if items == [] then None
    else if items[0].itemId == itemId then Some(0)
    else
      var r := FindItem(items[1..], itemId);
      if r.None? then None else Some(r.value + 1)
  }

  /** The job is dropped without effect: its task is unknown or canceled. */
  predicate Skipped(tasks: map<string, Task>, job: Job) {
    job.taskId !in tasks || tasks[job.taskId].status == Canceled
  }

  /** The item after `_process_one` returned or raised. */
  function Settle(item: TaskItem, outcome: Outcome): TaskItem {
    match outcome
    case Ok((md, assets)) => item.(status := Done, mdFiles := md, assets := assets)
    case Err(e) => item.(status := Failed, error := Some(e))
  }

  /** The `finally` block. */
  function Finalize(task: Task): Task {
    if task.done + task.failed >= task.total && task.status != Canceled
    then task.(status := if task.failed == 0 then Done else Failed)
    else task
  }

  /** The task after one of its jobs was processed with the given outcome. */
  function Record(task: Task, itemId: string, outcome: Outcome): Task {
    var k := FindItem(task.items, itemId);
    var items := if k.None? then task.items else task.items[k.value := Settle(task.items[k.value], outcome)];
    var running := task.(status := Running, items := items);
    Finalize(if outcome.Ok? then running.(done := task.done + 1) else running.(failed := task.failed + 1))
  }

  /** One iteration of `_worker` that dequeued a job, `outcome` being what
      `_process_one` would make of it. An empty queue is a `Queue.Empty`
      iteration: nothing changes. */
  function Step(s: QueueState, outcome: Outcome): QueueState {
    if s.jobs == [] then s
    else
      var job := s.jobs[0];
      if Skipped(s.tasks, job) then QueueState(s.tasks, s.jobs[1..])
      else QueueState(s.tasks[job.taskId := Record(s.tasks[job.taskId], job.itemId, outcome)], s.jobs[1..])
  }

  /** A job of a missing or canceled task only leaves the queue. */
  lemma StepSkips(s: QueueState, outcome: Outcome)
    requires s.jobs != [] && Skipped(s.tasks, s.jobs[0])
    ensures Step(s, outcome).tasks == s.tasks && Step(s, outcome).jobs == s.jobs[1..]
  {
  }

  /** A processed job adds exactly one to `done` (success) or `failed`
      (failure), whether or not its item is found; `total`, the item list's
      length and every other task stay as they were. */
  lemma StepCounts(s: QueueState, outcome: Outcome)
    requires s.jobs != [] && !Skipped(s.tasks, s.jobs[0])
    ensures var id := s.jobs[0].taskId;
      var t, t' := s.tasks[id], Step(s, outcome).tasks[id];
      Step(s, outcome).jobs == s.jobs[1..]
      && Step(s, outcome).tasks.Keys == s.tasks.Keys
      && t'.total == t.total && |t'.items| == |t.items|
      && (outcome.Ok? ==> t'.done == t.done + 1 && t'.failed == t.failed)
      && (outcome.Err? ==> t'.failed == t.failed + 1 && t'.done == t.done)
      && (forall other :: other in s.tasks && other != id ==> Step(s, outcome).tasks[other] == s.tasks[other])
  {
  }

  /** The first item with the job's id is the one updated: done with the
      returned lists, or failed with the error; every other item is unchanged. */
  lemma StepItem(s: QueueState, outcome: Outcome, k: nat)
    requires s.jobs != [] && !Skipped(s.tasks, s.jobs[0])
    requires var items := s.tasks[s.jobs[0].taskId].items;
      k < |items| && items[k].itemId == s.jobs[0].itemId
      && forall j :: 0 <= j < k ==> items[j].itemId != s.jobs[0].itemId
    ensures var id := s.jobs[0].taskId;
      var items, items' := s.tasks[id].items, Step(s, outcome).tasks[id].items;
      |items'| == |items|
      && (outcome.Ok? ==> items'[k] == items[k].(status := Done, mdFiles := outcome.value.0, assets := outcome.value.1))
      && (outcome.Err? ==> items'[k] == items[k].(status := Failed, error := Some(outcome.error)))
      && (forall j :: 0 <= j < |items| && j != k ==> items'[j] == items[j])
  {
    var items := s.tasks[s.jobs[0].taskId].items;
    var r := FindItem(items, s.jobs[0].itemId);
    assert r == Some(k);
  }

  /** After a processed job the task is done (no failure) or failed once
      every counted item has finished, and running otherwise. */
  lemma StepStatus(s: QueueState, outcome: Outcome)
    requires s.jobs != [] && !Skipped(s.tasks, s.jobs[0])
    ensures var t' := Step(s, outcome).tasks[s.jobs[0].taskId];
      t'.status == (if t'.done + t'.failed >= t'.total then (if t'.failed == 0 then Done else Failed) else Running)
  {
  }

  /** A canceled task stays canceled, with its counters and items, whatever the worker does. */
  lemma CanceledStays(s: QueueState, outcome: Outcome, id: string)
    requires id in s.tasks && s.tasks[id].status == Canceled
    ensures id in Step(s, outcome).tasks && Step(s, outcome).tasks[id] == s.tasks[id]
  {
  }

  /** The `finally` block never overwrites `canceled`. */
  lemma FinalizeKeepsCanceled(task: Task)
    requires task.status == Canceled
    ensures Finalize(task) == task
  {
  }

  // ------------------------------------------------------------------
  // The bookkeeping invariant

  /** The jobs still queued for a task. */
  function Pending(jobs: seq<Job>, taskId: string): nat {
    if jobs == [] then 0
    else (if jobs[0].taskId == taskId then 1 else 0) + Pending(jobs[1..], taskId)
  }

  lemma {:induction false} PendingSnoc(jobs: seq<Job>, job: Job, taskId: string)
    ensures Pending(jobs + [job], taskId) == Pending(jobs, taskId) + (if job.taskId == taskId then 1 else 0)
  {
    if jobs != [] {
      assert (jobs + [job])[1..] == jobs[1..] + [job];
      PendingSnoc(jobs[1..], job, taskId);
    } else {
      assert ([] + [job])[1..] == [];
    }
  }

  function HasItem(items: seq<TaskItem>, itemId: string): bool {
    exists k :: 0 <= k < |items| && items[k].itemId == itemId
  }

  /** What holds of every task between two worker steps: one item per
      counted file, finished plus still-queued jobs never exceed the total,
      and the status agrees with the counters. The `Queued` conjunct relies
      on the whole worker step being atomic: in `_worker` the processing runs
      outside the lock, and an enqueue made meanwhile can leave a task
      `queued` after some of its items have finished. */
  predicate TaskOk(outputRoot: Path, id: string, t: Task, pending: nat) {
    t.taskId == id
    && |t.items| == t.total
    && t.done + t.failed + pending <= t.total
    && (t.status == Queued ==> t.done + t.failed == 0)
    && (t.status == Done ==> t.failed == 0 && t.done > 0)
    && (t.status == Failed ==> t.failed > 0)
    && (forall k :: 0 <= k < |t.items| ==> t.items[k].outputDir == outputRoot + [id])
  }

  /** Every queued job belongs to a known task and names one of its items. */
  predicate JobOk(tasks: map<string, Task>, job: Job) {
    job.taskId in tasks && HasItem(tasks[job.taskId].items, job.itemId)
  }

  predicate Inv(outputRoot: Path, s: QueueState) {
    (forall id :: id in s.tasks ==> TaskOk(outputRoot, id, s.tasks[id], Pending(s.jobs, id)))
    && (forall k :: 0 <= k < |s.jobs| ==> JobOk(s.tasks, s.jobs[k]))
  }

  lemma InvInit(outputRoot: Path)
    ensures Inv(outputRoot, QueueState(map[], []))
  {
  }

  lemma {:induction false} PendingNone(jobs: seq<Job>, taskId: string)
    requires forall k :: 0 <= k < |jobs| ==> jobs[k].taskId != taskId
    ensures Pending(jobs, taskId) == 0
  {
    if jobs != [] {
      PendingNone(jobs[1..], taskId);
    }
  }

  /** A fresh task keeps the invariant. */
  lemma CreateInv(outputRoot: Path, s: QueueState, taskId: string)
    requires Inv(outputRoot, s) && taskId !in s.tasks
    ensures Inv(outputRoot, Create(s, taskId))
  {
    PendingNone(s.jobs, taskId);
    var s' := Create(s, taskId);
    forall k | 0 <= k < |s'.jobs| ensures JobOk(s'.tasks, s'.jobs[k]) {
      assert JobOk(s.tasks, s.jobs[k]);
    }
  }

  lemma EnqueueInv(outputRoot: Path, s: QueueState, taskId: string, itemId: string, localPath: Path,
                   filename: string, relpath: string, size: int, forceAsync: bool, options: OcrOptions)
    requires Inv(outputRoot, s)
    requires Enqueue(s, outputRoot, taskId, itemId, localPath, filename, relpath, size, forceAsync, options).Ok?
    ensures Inv(outputRoot, Enqueue(s, outputRoot, taskId, itemId, localPath, filename, relpath, size, forceAsync, options).value.0)
  {
    var (s', item) := Enqueue(s, outputRoot, taskId, itemId, localPath, filename, relpath, size, forceAsync, options).value;
    var job := Last(s'.jobs);
    assert s'.jobs == s.jobs + [job];
    forall id | id in s'.tasks ensures TaskOk(outputRoot, id, s'.tasks[id], Pending(s'.jobs, id)) {
      PendingSnoc(s.jobs, job, id);
      assert TaskOk(outputRoot, id, s.tasks[id], Pending(s.jobs, id));
      if id == taskId {
        var t' := s'.tasks[id];
        assert forall k :: 0 <= k < |t'.items| - 1 ==> t'.items[k] == s.tasks[id].items[k];
      }
    }
    forall k | 0 <= k < |s'.jobs| ensures JobOk(s'.tasks, s'.jobs[k]) {
      var items' := s'.tasks[s'.jobs[k].taskId].items;
      if k == |s.jobs| {
        assert items'[|items'| - 1] == item;
      } else {
        assert s'.jobs[k] == s.jobs[k] && JobOk(s.tasks, s.jobs[k]);
        var items := s.tasks[s.jobs[k].taskId].items;
        var j :| 0 <= j < |items| && items[j].itemId == s.jobs[k].itemId;
        if s.jobs[k].taskId == taskId {
          assert items'[j] == items[j];
        }
      }
    }
  }

  lemma RecordTaskOk(outputRoot: Path, id: string, t: Task, pending: nat, itemId: string, outcome: Outcome)
    requires TaskOk(outputRoot, id, t, pending + 1)
    ensures TaskOk(outputRoot, id, Record(t, itemId, outcome), pending)
  {
    var k := FindItem(t.items, itemId);
    var items := Record(t, itemId, outcome).items;
    if k.Some? {
      assert forall j :: 0 <= j < |items| ==> items[j].outputDir == t.items[j].outputDir;
    }
  }

  lemma RecordKeepsItems(t: Task, itemId: string, outcome: Outcome, other: string)
    requires HasItem(t.items, other)
    ensures HasItem(Record(t, itemId, outcome).items, other)
  {
    var j :| 0 <= j < |t.items| && t.items[j].itemId == other;
    assert Record(t, itemId, outcome).items[j].itemId == other;
  }

  /** A worker step keeps the invariant, whatever `_process_one` did. */
  lemma StepInv(outputRoot: Path, s: QueueState, outcome: Outcome)
    requires Inv(outputRoot, s)
    ensures Inv(outputRoot, Step(s, outcome))
  {
    if s.jobs != [] {
      var job := s.jobs[0];
      var s' := Step(s, outcome);
      assert JobOk(s.tasks, job);
      forall id | id in s'.tasks ensures TaskOk(outputRoot, id, s'.tasks[id], Pending(s'.jobs, id)) {
        assert TaskOk(outputRoot, id, s.tasks[id], Pending(s.jobs, id));
        if id == job.taskId && !Skipped(s.tasks, job) {
          RecordTaskOk(outputRoot, id, s.tasks[id], Pending(s'.jobs, id), job.itemId, outcome);
        }
      }
      forall k | 0 <= k < |s'.jobs| ensures JobOk(s'.tasks, s'.jobs[k]) {
        var j := s'.jobs[k];
        assert j == s.jobs[k + 1] && JobOk(s.tasks, j);
        if j.taskId == job.taskId && !Skipped(s.tasks, job) {
          RecordKeepsItems(s.tasks[j.taskId], job.itemId, outcome, j.itemId);
        }
      }
    }
  }

  /** Under the invariant no task ever counts more finished items than it has. */
  lemma InvBounds(outputRoot: Path, s: QueueState, id: string)
    requires Inv(outputRoot, s) && id in s.tasks
    ensures s.tasks[id].done + s.tasks[id].failed <= s.tasks[id].total == |s.tasks[id].items|
  {
    assert TaskOk(outputRoot, id, s.tasks[id], Pending(s.jobs, id));
  }

  /** Under the invariant the next job's task is known and its item is found. */
  lemma InvJobFound(outputRoot: Path, s: QueueState)
    requires Inv(outputRoot, s) && s.jobs != []
    ensures s.jobs[0].taskId in s.tasks
    ensures FindItem(s.tasks[s.jobs[0].taskId].items, s.jobs[0].itemId).Some?
  {
    assert JobOk(s.tasks, s.jobs[0]);
    var items := s.tasks[s.jobs[0].taskId].items;
    var j :| 0 <= j < |items| && items[j].itemId == s.jobs[0].itemId;
  }

  // ------------------------------------------------------------------
  // _process_one

  /** Everything `_process_one` touches outside the queue: the files that
      exist and their bytes, the OCR service's configuration and answers,
      and the downloads. */
  datatype World = World(
    files: set<Path>, contents: Path -> seq<bv8>,
    apiUrl: string, jobUrl: string,
    postSync: SyncRequest -> HttpResponse<OcrResult>,
    postJob: JobRequest -> HttpResponse<string>,
    polls: string -> seq<HttpResponse<JobData>>,
    download: string -> HttpResponse<()>,
    decode: string -> Option<OcrResult>,
    fetch: string -> Fetch)

  function TaskDir(outputRoot: Path, taskId: string): Path {
    outputRoot + [taskId]
  }

  /** Where the input is copied: `inputs/` plus the sanitised relative
      path, or plus the sanitised file name when that path has no segment. */
  function InputPath(taskDir: Path, relpath: string, filename: string): Path {
    var parts := SafeParts(relpath);
    taskDir + ["inputs"] + (if parts != [] then parts else [SafePathSegment(filename)])
  }

  /** `use_async`. */
  predicate UseAsync(job: Job) {
    job.forceAsync || GuessFileType(job.filename) == 0
  }

  /** `(job_data.get("resultUrl") or {}).get("jsonUrl")`, None when falsy. */
  function JsonUrl(d: JobData): Option<string> {
    if d.resultUrl.Some? && d.resultUrl.value.jsonUrl.Some? && d.resultUrl.value.jsonUrl.value != ""
    then d.resultUrl.value.jsonUrl
    else None
  }

  function ItemDir(taskDir: Path, itemId: string): Path {
    taskDir + [SafePathSegment(itemId)]
  }

  /** The directory page `idx` of an asynchronous job is materialised into. */
  function PageDir(taskDir: Path, itemId: string, idx: nat): Path {
    ItemDir(taskDir, itemId) + ["page_" + NatToString(idx)]
  }

  /** The md files and assets of the first `n` pages, each page stored by
      `store`, concatenated in page order; the first failure ends the loop. */
  function PagesFold(store: (nat, OcrResult) -> Result<Materialized, StorageError>, pages: seq<OcrResult>, n: nat)
    : Result<(seq<Path>, seq<Path>), StorageError>
    requires n <= |pages|
  {
    if n == 0 then Ok(([], []))
    else
      var prev := PagesFold(store, pages, n - 1);
      if prev.Err? then prev
      else
        var m := store(n - 1, pages[n - 1]);
        if m.Err? then Err(m.error)
        else Ok((prev.value.0 + m.value.mdFiles, prev.value.1 + m.value.assets))
  }

  /** Page `idx` is materialised into its own directory. */
  function PageStore(taskDir: Path, itemId: string, fetch: string -> Fetch): (nat, OcrResult) -> Result<Materialized, StorageError> {
    (idx: nat, page: OcrResult) => Materialize(page, PageDir(taskDir, itemId, idx), fetch)
  }

  function PagesUpTo(pages: seq<OcrResult>, n: nat, taskDir: Path, itemId: string, fetch: string -> Fetch)
    : Result<(seq<Path>, seq<Path>), StorageError>
    requires n <= |pages|
  {
    PagesFold(PageStore(taskDir, itemId, fetch), pages, n)
  }

  function ProcessAsync(taskDir: Path, job: Job, file: seq<bv8>, w: World): Outcome {
    var jobId := SubmitJob(w.jobUrl, file, job.options, w.postJob);
    if jobId.Err? then Err(ClientFailed(jobId.error))
    else
      var data := Poll(w.jobUrl, w.polls(jobId.value));
      if data.Err? then Err(ClientFailed(data.error))
      else if JsonUrl(data.value).None? then Err(MissingJsonUrl)
      else
        var text := DownloadJsonl(w.download(JsonUrl(data.value).value));
        if text.Err? then Err(ClientFailed(text.error))
        else
          var pages := ParseJsonl(text.value, w.decode);
          if pages.Err? then Err(ClientFailed(pages.error))
          else
            var m := PagesUpTo(pages.value, |pages.value|, taskDir, job.itemId, w.fetch);
            if m.Err? then Err(StorageFailed(m.error)) else Ok(m.value)
  }

  function ProcessSync(taskDir: Path, job: Job, file: seq<bv8>, w: World): Outcome {
    var result := SubmitSync(w.apiUrl, file, GuessFileType(job.filename), job.options, w.postSync);
    if result.Err? then Err(ClientFailed(result.error))
    else
      var m := Materialize(result.value, ItemDir(taskDir, job.itemId), w.fetch);
      if m.Err? then Err(StorageFailed(m.error)) else Ok((m.value.mdFiles, m.value.assets))
  }

  /** `_process_one`. */
  function Process(outputRoot: Path, job: Job, w: World): Outcome {
    var taskDir := TaskDir(outputRoot, job.taskId);
    if job.localPath !in w.files then Err(InputMissing(job.localPath))
    else if UseAsync(job) then ProcessAsync(taskDir, job, w.contents(job.localPath), w)
    else ProcessSync(taskDir, job, w.contents(job.localPath), w)
  }

  /** The input copy stays under the task's `inputs` directory, in at least
      one segment, every one of them safe. */
  lemma InputPathInside(taskDir: Path, relpath: string, filename: string)
    ensures var p := InputPath(taskDir, relpath, filename);
      |p| > |taskDir| + 1 && p[..|taskDir| + 1] == taskDir + ["inputs"]
      && forall k :: |taskDir| + 1 <= k < |p| ==> IsSafeSegment(p[k])
  {
    var parts := SafeParts(relpath);
    SafePartsSafe(relpath);
    SafePathSegmentIsSafe(filename);
    var tail := if parts != [] then parts else [SafePathSegment(filename)];
    AppendSafe(taskDir + ["inputs"], tail);
  }

  /** Without the input file nothing is sent anywhere. */
  lemma ProcessInputMissing(outputRoot: Path, job: Job, w: World)
    requires job.localPath !in w.files
    ensures Process(outputRoot, job, w) == Err(InputMissing(job.localPath))
  {
  }

  /** The asynchronous path is taken exactly for forced jobs and PDF names:
      then the synchronous endpoint plays no part in the outcome. */
  lemma AsyncIgnoresSync(outputRoot: Path, job: Job, w: World, apiUrl: string, post: SyncRequest -> HttpResponse<OcrResult>)
    requires job.forceAsync || EndsWith(Lower(job.filename), ".pdf")
    ensures Process(outputRoot, job, w) == Process(outputRoot, job, w.(apiUrl := apiUrl, postSync := post))
  {
  }

  /** An image that is not forced goes through the synchronous endpoint: the job service plays no part. */
  lemma SyncIgnoresJobs(outputRoot: Path, job: Job, w: World, jobUrl: string, post: JobRequest -> HttpResponse<string>,
                        polls: string -> seq<HttpResponse<JobData>>, download: string -> HttpResponse<()>)
    requires !job.forceAsync && !EndsWith(Lower(job.filename), ".pdf")
    ensures Process(outputRoot, job, w) ==
      Process(outputRoot, job, w.(jobUrl := jobUrl, postJob := post, polls := polls, download := download))
  {
  }

  /** A finished job without `resultUrl.jsonUrl` fails, whatever the download would have given. */
  lemma AsyncMissingJsonUrl(taskDir: Path, job: Job, file: seq<bv8>, w: World)
    requires SubmitJob(w.jobUrl, file, job.options, w.postJob).Ok?
    requires var d := Poll(w.jobUrl, w.polls(SubmitJob(w.jobUrl, file, job.options, w.postJob).value));
      d.Ok? && (d.value.resultUrl.None? || d.value.resultUrl.value.jsonUrl.None? || d.value.resultUrl.value.jsonUrl == Some(""))
    ensures ProcessAsync(taskDir, job, file, w) == Err(MissingJsonUrl)
  {
  }

  /** Different pages get different directories. */
  lemma PageDirInjective(taskDir: Path, itemId: string, i: nat, j: nat)
    requires PageDir(taskDir, itemId, i) == PageDir(taskDir, itemId, j)
    ensures i == j
  {
    var n := |taskDir| + 1;
    assert PageDir(taskDir, itemId, i)[n] == "page_" + NatToString(i);
    assert PageDir(taskDir, itemId, j)[n] == "page_" + NatToString(j);
    assert NatToString(i) == ("page_" + NatToString(i))[5..];
    assert NatToString(j) == ("page_" + NatToString(j))[5..];
    NatToStringInjective(i, j);
  }

  /** Accumulation keeps page order: the lists of the first pages are a
      prefix of the lists of more pages. */
  lemma {:induction false} PagesPrefix(store: (nat, OcrResult) -> Result<Materialized, StorageError>,
                                       pages: seq<OcrResult>, m: nat, n: nat)
    requires m <= n <= |pages|
    requires PagesFold(store, pages, n).Ok?
    ensures PagesFold(store, pages, m).Ok?
    ensures PagesFold(store, pages, m).value.0 <= PagesFold(store, pages, n).value.0
    ensures PagesFold(store, pages, m).value.1 <= PagesFold(store, pages, n).value.1
  {
    if m < n {
      PagesPrefix(store, pages, m, n - 1);
    }
  }

  /** A successful loop stored its last page, onto what the earlier pages stored. */
  lemma PagesFoldLast(store: (nat, OcrResult) -> Result<Materialized, StorageError>, pages: seq<OcrResult>, n: nat)
    requires 1 <= n <= |pages| && PagesFold(store, pages, n).Ok?
    ensures PagesFold(store, pages, n - 1).Ok? && store(n - 1, pages[n - 1]).Ok?
    ensures PagesFold(store, pages, n).value.0
      == PagesFold(store, pages, n - 1).value.0 + store(n - 1, pages[n - 1]).value.mdFiles
    ensures PagesFold(store, pages, n).value.1
      == PagesFold(store, pages, n - 1).value.1 + store(n - 1, pages[n - 1]).value.assets
  {
  }

  /** Each md file is a `doc_{i}.md` of the directory of one of the first `n` pages. */
  predicate PageDocs(md: seq<Path>, pages: seq<OcrResult>, n: nat, taskDir: Path, itemId: string)
    requires n <= |pages|
  {
    forall k :: 0 <= k < |md| ==> PageDoc(md[k], pages, n, taskDir, itemId)
  }

  /** `path` is a `doc_{i}.md` of the directory of one of the first `n` pages. */
  predicate PageDoc(path: Path, pages: seq<OcrResult>, n: nat, taskDir: Path, itemId: string)
    requires n <= |pages|
  {
    exists p: nat, i: nat :: p < n && i < |pages[p].layoutParsingResults| && path == PageDir(taskDir, itemId, p) + [DocName(i)]
  }

  /** Every md file of an asynchronous job is a `doc_{i}.md` of one of its page directories. */
  lemma {:induction false} PagesMdFiles(pages: seq<OcrResult>, n: nat, taskDir: Path, itemId: string, fetch: string -> Fetch)
    requires n <= |pages|
    requires PagesUpTo(pages, n, taskDir, itemId, fetch).Ok?
    ensures PageDocs(PagesUpTo(pages, n, taskDir, itemId, fetch).value.0, pages, n, taskDir, itemId)
  {
    if n > 0 {
      PagesMdFiles(pages, n - 1, taskDir, itemId, fetch);
      var store := PageStore(taskDir, itemId, fetch);
      PagesFoldLast(store, pages, n);
      var dir := PageDir(taskDir, itemId, n - 1);
      MaterializeMdFiles(pages[n - 1], dir, fetch);
      PageDocsStep(PagesFold(store, pages, n - 1).value.0, Materialize(pages[n - 1], dir, fetch).value.mdFiles,
                   pages, n, taskDir, itemId);
    }
  }

  lemma PageDocsStep(prev: seq<Path>, last: seq<Path>, pages: seq<OcrResult>, n: nat, taskDir: Path, itemId: string)
    requires 1 <= n <= |pages| && PageDocs(prev, pages, n - 1, taskDir, itemId)
    requires |last| == |pages[n - 1].layoutParsingResults|
    requires forall i :: 0 <= i < |last| ==> last[i] == PageDir(taskDir, itemId, n - 1) + [DocName(i)]
    ensures PageDocs(prev + last, pages, n, taskDir, itemId)
  {
    var md := prev + last;
    forall k | 0 <= k < |md| ensures PageDoc(md[k], pages, n, taskDir, itemId) {
      if k < |prev| {
        assert md[k] == prev[k] && PageDoc(prev[k], pages, n - 1, taskDir, itemId);
        var p: nat, i: nat :| p < n - 1 && i < |pages[p].layoutParsingResults|
          && prev[k] == PageDir(taskDir, itemId, p) + [DocName(i)];
        assert md[k] == PageDir(taskDir, itemId, p) + [DocName(i)];
      } else {
        var i := k - |prev|;
        assert md[k] == last[i] == PageDir(taskDir, itemId, n - 1) + [DocName(i)];
      }
    }
  }

  // ------------------------------------------------------------------
  // TaskQueue

  class TaskQueue {
    const outputRoot: Path
    var tasks: map<string, Task>
    var jobs: seq<Job>

    function State(): QueueState
      reads this
    {
      QueueState(tasks, jobs)
    }

    constructor(outputRoot: Path)
      ensures this.outputRoot == outputRoot && State() == QueueState(map[], [])
    {
      this.outputRoot := outputRoot;
      tasks := map[];
      jobs := [];
    }

    /** `create_task`, the generated id being `taskId`. */
    method CreateTask(taskId: string) returns (task: Task)
      modifies this
      ensures State() == Create(old(State()), taskId) && task == NewTask(taskId)
    {
      task := NewTask(taskId);
      tasks := tasks[taskId := task];
    }

    function GetTask(taskId: string): (r: Option<Task>)
      reads this
      ensures r.Some? <==> taskId in tasks
      ensures r.Some? ==> r.value == tasks[taskId]
    {
      if taskId in tasks then Some(tasks[taskId]) else None
    }

    /** `enqueue_file`, the generated id being `itemId`. */
    method EnqueueFile(taskId: string, itemId: string, localPath: Path, filename: string, relpath: string,
                       size: int, forceAsync: bool, options: OcrOptions)
      returns (r: Result<TaskItem, QueueError>)
      modifies this
      ensures var e := Enqueue(old(State()), outputRoot, taskId, itemId, localPath, filename, relpath, size, forceAsync, options);
        (e.Err? ==> r == Err(e.error) && State() == old(State()))
        && (e.Ok? ==> r == Ok(e.value.1) && State() == e.value.0)
    {
      var item := NewItem(outputRoot, taskId, itemId, filename, relpath, size);
      if taskId !in tasks {
        return Err(UnknownTask(taskId));
      }
      var task := tasks[taskId];
      task := task.(items := task.items + [item]);
      task := task.(total := task.total + 1);
      task := task.(status := if task.done + task.failed == 0 then Queued else task.status);
      tasks := tasks[taskId := task];
      jobs := jobs + [Job(taskId, itemId, localPath, filename, relpath, forceAsync, options)];
      r := Ok(item);
    }

    /** `_process_one` on the given world. */
    method ProcessOne(job: Job, w: World) returns (r: Outcome)
      ensures r == Process(outputRoot, job, w)
    {
      var taskDir := TaskDir(outputRoot, job.taskId);
      if job.localPath !in w.files {
        return Err(InputMissing(job.localPath));
      }
      var file := w.contents(job.localPath);
      var fileType := GuessFileType(job.filename);
      var useAsync := job.forceAsync || fileType == 0;
      if useAsync {
        r := ProcessAsyncSteps(taskDir, job, file, w);
      } else {
        var result := SubmitSync(w.apiUrl, file, fileType, job.options, w.postSync);
        if result.Err? {
          return Err(ClientFailed(result.error));
        }
        var m := MaterializeResultToDir(result.value, ItemDir(taskDir, job.itemId), w.fetch);
        if m.Err? {
          return Err(StorageFailed(m.error));
        }
        r := Ok((m.value.mdFiles, m.value.assets));
      }
    }

    /** The `if use_async` branch of `_process_one`. */
    method ProcessAsyncSteps(taskDir: Path, job: Job, file: seq<bv8>, w: World) returns (r: Outcome)
      ensures r == ProcessAsync(taskDir, job, file, w)
    {
      var jobId := SubmitJob(w.jobUrl, file, job.options, w.postJob);
      if jobId.Err? {
        return Err(ClientFailed(jobId.error));
      }
      var data := PollJob(w.jobUrl, jobId.value, w.polls(jobId.value));
      if data.Err? {
        return Err(ClientFailed(data.error));
      }
      var jsonUrl := JsonUrl(data.value);
      if jsonUrl.None? {
        return Err(MissingJsonUrl);
      }
      var text := DownloadJsonl(w.download(jsonUrl.value));
      if text.Err? {
        return Err(ClientFailed(text.error));
      }
      var pages := ParseJsonlResults(text.value, w.decode);
      if pages.Err? {
        return Err(ClientFailed(pages.error));
      }
      var m := MaterializePages(pages.value, taskDir, job.itemId, w.fetch);
      if m.Err? {
        return Err(StorageFailed(m.error));
      }
      r := Ok(m.value);
    }

    /** The `for page_idx, page_result in enumerate(pages)` loop. */
    method MaterializePages(pages: seq<OcrResult>, taskDir: Path, itemId: string, fetch: string -> Fetch)
      returns (r: Result<(seq<Path>, seq<Path>), StorageError>)
      ensures r == PagesUpTo(pages, |pages|, taskDir, itemId, fetch)
    {
      var mdFiles: seq<Path> := [];
      var assets: seq<Path> := [];
      for pageIdx := 0 to |pages|
        invariant PagesUpTo(pages, pageIdx, taskDir, itemId, fetch) == Ok((mdFiles, assets))
      {
        var outDir := PageDir(taskDir, itemId, pageIdx);
        var m := MaterializeResultToDir(pages[pageIdx], outDir, fetch);
        if m.Err? {
          PagesErrSticky(PageStore(taskDir, itemId, fetch), pages, pageIdx + 1, |pages|);
          return Err(m.error);
        }
        mdFiles := mdFiles + m.value.mdFiles;
        assets := assets + m.value.assets;
      }
      r := Ok((mdFiles, assets));
    }

    /** One iteration of `_worker`; `w` is what `_process_one` meets. */
    method WorkerStep(w: World)
      modifies this
      ensures old(jobs) == [] ==> State() == old(State())
      ensures old(jobs) != [] ==> State() == Step(old(State()), Process(outputRoot, old(jobs)[0], w))
    {
      if jobs == [] {
        return;
      }
      var job := jobs[0];
      jobs := jobs[1..];
      var found := GetTask(job.taskId);
      if found.None? || found.value.status == Canceled {
        return;
      }
      var running, k := MarkRunning(found.value, job.itemId);
      tasks := tasks[job.taskId := running];
      var outcome := ProcessOne(job, w);
      var task := Conclude(running, k, found.value, job.itemId, outcome);
      tasks := tasks[job.taskId := task];
    }
  }

  /** The `with self._lock` block before `_process_one`: the task and its
      item (when found) are marked running. */
  method MarkRunning(task: Task, itemId: string) returns (running: Task, k: Option<nat>)
    ensures k == FindItem(task.items, itemId)
    ensures running == task.(status := Running, items := if k.None? then task.items else task.items[k.value := task.items[k.value].(status := Running)])
  {
    running := task.(status := Running);
    k := FindItem(task.items, itemId);
    if k.Some? {
      running := running.(items := running.items[k.value := running.items[k.value].(status := Running)]);
    }
  }

  /** The `try`/`except`/`finally` bookkeeping after `_process_one`. */
  method Conclude(running: Task, k: Option<nat>, ghost before: Task, itemId: string, outcome: Outcome) returns (task: Task)
    requires k == FindItem(before.items, itemId)
    requires running == before.(status := Running, items := if k.None? then before.items else before.items[k.value := before.items[k.value].(status := Running)])
    ensures task == Record(before, itemId, outcome)
  {
    task := running;
    match outcome {
      case Ok((md, assets)) =>
        task := task.(done := task.done + 1);
        if k.Some? {
          task := task.(items := task.items[k.value := task.items[k.value].(status := Done, mdFiles := md, assets := assets)]);
        }
      case Err(e) =>
        task := task.(failed := task.failed + 1);
        if k.Some? {
          task := task.(items := task.items[k.value := task.items[k.value].(status := Failed, error := Some(e))]);
        }
    }
    if task.done + task.failed >= task.total && task.status != Canceled {
      task := task.(status := if task.failed == 0 then Done else Failed);
    }
  }

  /** A failed page ends the loop: later pages do not matter. */
  lemma {:induction false} PagesErrSticky(store: (nat, OcrResult) -> Result<Materialized, StorageError>,
                                          pages: seq<OcrResult>, i: nat, n: nat)
    requires i <= n <= |pages| && PagesFold(store, pages, i).Err?
    ensures PagesFold(store, pages, n) == PagesFold(store, pages, i)
  {
    if i < n {
      PagesErrSticky(store, pages, i, n - 1);
    }
  }
}
