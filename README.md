# PaddleOCR-VL batch web app: a Dafny model of its core

The application takes uploads of images and PDFs over HTTP, groups them into a
*task*, and queues one *item* per file. A background worker sends each item to a
remote PaddleOCR-VL service. Images normally go to the synchronous endpoint.
PDFs, and any upload that forces it, go to the job service (submit, poll,
download a JSON-lines result). The returned markdown and images are then stored
under the task's output directory.

The model has one module per core source file:

- `Utils` (`app/utils.py`): `safe_path_segment`, `guess_file_type`, `split_relpath`, and the Python string operations they rely on (`split`, `join`, `strip`, `lower`, `replace`). Paths are sequences of segments (`Path = seq<string>`).
- `Storage` (`app/storage.py`): `materialize_result_to_dir`. It is a function `Materialize` on values, and the method `MaterializeResultToDir` keeps the source's loops. Image downloads are a parameter `fetch` from URL to status and bytes. The files the function writes come back as a sequence of writes.
- `OcrClient` (`app/ocr_client.py`): the option payload; the request/response decisions of `submit_sync_base64`, `submit_job`, `poll_job` and `download_jsonl`; and `parse_jsonl_results`. HTTP exchanges are parameters: a function from request to response, or the finite sequence of poll answers received before the deadline.
- `TaskQueue` (`app/task_queue.py`): `TaskItem`, `Task` and `EnqueuedItem` are datatypes. The queue is a class `TaskQueue` whose fields are the task map and the FIFO of jobs. Its methods are proved against the pure functions `Create`, `Enqueue`, `Step` and `Process`. The invariant `Inv`, covering counters, item lists and jobs, is preserved by every operation.
- `Server` (`app/server.py`, the `POST /api/tasks` handler): format and size admission, the relative-path fallback, the `{stem}_{k}{suffix}` rename on a collision, and the enqueueing. The handler is the function `Handle`, on the queue and on a filesystem modelled as a map from path to bytes. `CreateTaskHandler` runs it on the shared `TaskQueue` object.

Generated identifiers are parameters: the task id, the item id of upload `i` (`itemIds(i)`) and the job id the service returns. So are the settings.

Where the specification and the code disagree, the model follows the code:

- **Cancelling.** The specification describes cancelling a task. The code's `cancel_task` endpoint calls `queue.cancel_task`, and `TaskQueue` does not define it (`app/server.py:191`). The model's `CancelEndpoint` returns 404 for an unknown task. For any other task it records that the call fails, and it changes nothing. No code path ever sets a task's status to `canceled`, so the worker's canceled guards are modelled as written but are reachable only from states built by hand.
- **Status after enqueueing.** `enqueue_file` sets a task back to `queued` only while none of its items has finished (`app/task_queue.py:102`). The source applies this to a task that is running, too. In the model an enqueue falls between two whole worker steps. A task is `running` there only after a step has finished one of its items, so the reset never applies to it. The line on the lock under "## Left out" says what this leaves out.

## Model

| member | source | states |
|---|---|---|
| Utils.SafePathSegmentShape | app/utils.py:10-14 | The sanitised segment is never empty and uses only `[A-Za-z0-9._-]`. It neither starts nor ends with a dot, is neither `.` nor `..`, and contains no separator. |
| Utils.SafePathSegmentIsSafe | app/utils.py:10-14 | The sanitised segment can be joined under a directory without leaving it. |
| Utils.SafePathSegmentIdempotent | app/utils.py:10-14 | Sanitising a sanitised segment gives it back unchanged. |
| Utils.SafePathSegmentTrailingSeparator | app/utils.py:11-14 | A path ending in `/` or `\` sanitises to the fallback `"file"`. |
| Utils.SafePathSegmentAfterSeparator | app/utils.py:11 | Only the text after the last `/` or `\` matters. |
| Utils.CollapseRun | app/utils.py:7-13 | Each maximal run of characters outside `[A-Za-z0-9._-]` becomes exactly one `_`, and the text around it is kept. |
| Utils.CollapseRunStart | app/utils.py:7-13 | A leading unsafe run becomes one `_`. |
| Utils.CollapseRunAfterSafe | app/utils.py:7-13 | An unsafe run after a safe character becomes one `_`. |
| Utils.CollapseAlphabet | app/utils.py:7-13 | The substitution's output uses only `[A-Za-z0-9._-]`. |
| Utils.CollapseIdentity | app/utils.py:7-13 | Text already in `[A-Za-z0-9._-]` is left unchanged. |
| Utils.CollapseFirst | app/utils.py:13 | Non-empty input gives non-empty output whose first character is the input's, or `_` when that character is unsafe. |
| Utils.CollapseEnds | app/utils.py:12-13 | Substitution cannot put a dot at either end that the strip removed. |
| Utils.TrimEnds | app/utils.py:12 | After `.strip().strip(".")` no dot is left at either end. |
| Utils.StripEnds | app/utils.py:12 | `strip` leaves no strippable character at either end. |
| Utils.StripNoop | app/utils.py:12 | `strip` leaves text with no strippable character at either end unchanged. |
| Utils.LStripShape | app/utils.py:12 | `lstrip` removes a prefix of strippable characters and stops at the first one that is not. |
| Utils.RStripShape | app/utils.py:12 | `rstrip` removes a suffix of strippable characters and stops at the last one that is not. |
| Utils.GuessFileType | app/utils.py:27-32 | The result is 0 or 1. |
| Utils.GuessFileTypePdf | app/utils.py:27-32 | The result is 0 exactly when the last four characters spell `.pdf` in any letter case. |
| Utils.SplitRelpathParts | app/utils.py:35-39 | Every part is non-empty, is not `.` or `..`, and contains no `/` or `\`. |
| Utils.SplitRelpathJoin | app/utils.py:35-39 | Joining such parts with `/` and splitting again gives the same parts back. |
| Utils.SplitRelpathConcat | app/utils.py:35-39 | A separator splits a relative path into the parts of the text before it followed by the parts of the text after it. |
| Utils.SplitRelpathPieces | app/utils.py:36-38 | Leading slashes do not change the parts. |
| Utils.LStripSlashIrrelevant | app/utils.py:37-38 | Dropping leading slashes removes only parts that the filter drops anyway. |
| Utils.KeepClean | app/utils.py:38 | The kept parts are clean and no more numerous than the input. |
| Utils.KeepCleanSubsequence | app/utils.py:38 | Every kept part comes from the input. |
| Utils.KeepCleanConcat | app/utils.py:38 | Filtering distributes over concatenation. |
| Utils.KeepCleanAll | app/utils.py:38 | Already-clean parts are all kept. |
| Utils.Split | app/utils.py:38 | `str.split` always gives at least one piece. |
| Utils.SplitPiecesFree | app/utils.py:38 | No piece contains the separator. |
| Utils.JoinSplit | app/utils.py:38 | Joining the pieces with the separator rebuilds the string. |
| Utils.SplitJoin | app/utils.py:38 | Splitting a join of separator-free pieces gives the pieces back. |
| Utils.SplitConcat | app/utils.py:38 | A separator splits the string into the pieces before it and the pieces after it. |
| Utils.SplitPlain | app/utils.py:38 | Text without the separator splits into itself alone. |
| Utils.NatToString | app/storage.py:26 | The decimal rendering is non-empty and made of digits. It has one digit exactly when the number is below 10. |
| Utils.NatToStringInjective | app/storage.py:26 | Different numbers render differently. |
| Utils.SafePartsSafe | app/storage.py:33-39 | Every segment of a sanitised image path is safe. |
| Utils.SafePartsEmpty | app/storage.py:33-39 | An image path sanitises to no segment at all exactly when it is made only of separators. |
| Utils.NumberedNameSafe | app/storage.py:49 | A `{name}_{i}{ext}` built from safe text is a safe segment. |
| Utils.AppendSafe | app/task_queue.py:163-166 | Appending safe segments to a directory keeps that directory as a prefix, and every added segment is safe. |
| Storage.MaterializeResultToDir | app/storage.py:17-55 | The loop computes `Materialize`: the md files, the assets and the writes, or the error. |
| Storage.StoreLayout | app/storage.py:25-53 | One layout result adds its markdown file, then its markdown images, then its kept output images. It fails exactly when some image path names the directory itself. |
| Storage.StoreMarkdownImages | app/storage.py:31-44 | Every markdown image is written to its sanitised path with the downloaded bytes and recorded, in order. |
| Storage.StoreOutputImages | app/storage.py:46-53 | The outputs are exactly the output images whose download answered 200, in order. |
| Storage.OutputImagesSnoc | app/storage.py:47-53 | Each output image adds one asset and one write when its download answers 200, and nothing otherwise. |
| Storage.MaterializeEmpty | app/storage.py:24 | A result with no layout results produces nothing. |
| Storage.MaterializeFails | app/storage.py:33-43 | The call fails exactly when some markdown image path is made only of separators. |
| Storage.DirectoryImageIff | app/storage.py:33-43 | Within one layout result, an image names the output directory itself exactly when its path is all separators. |
| Storage.MaterializeMdFiles | app/storage.py:25-29 | There is one md file per layout result, `doc_{i}.md` in index order, and no two are the same. |
| Storage.DocNameInjective | app/storage.py:26 | Different indices give different `doc_{i}.md` names. |
| Storage.MaterializeWritesMarkdown | app/storage.py:26-28 | Each `doc_{i}.md` is written with the result's markdown text, or `""` when there is none. |
| Storage.MaterializeWritesImage | app/storage.py:40-43 | Each markdown image is written with whatever its download returned, whatever the status. |
| Storage.WritesUpToImage | app/storage.py:40-43 | The write of markdown image `j` of result `i` belongs to every later prefix of the writes. |
| Storage.LayoutWritesImage | app/storage.py:28-43 | Within one layout result, the write of markdown image `j` comes right after the markdown file and the earlier images. |
| Storage.WritesUpToPrefix | app/storage.py:25 | The writes of earlier layout results come first, in order. |
| Storage.AssetsUpToPrefix | app/storage.py:25 | The assets of earlier layout results come first, in order. |
| Storage.AssetsStep | app/storage.py:44-53 | One more layout result appends its markdown images and then its kept output images. |
| Storage.MaterializeAssetsOrder | app/storage.py:44-53 | Result `i`'s assets follow those of all earlier results: its markdown images, then its kept output images. |
| Storage.OutputImageNameSafe | app/storage.py:48-49 | `{safe(name)}_{i}.jpg` is a safe segment ending in `.jpg`. |
| Storage.KeptIn | app/storage.py:51 | An output image is kept exactly when its download answered 200. |
| Storage.OutputImageAssetsKept | app/storage.py:46-53 | A path is recorded exactly when it is `{name}_{i}.jpg` for an output image whose download answered 200. |
| Storage.ImageAssetsInside | app/storage.py:33-44 | Markdown image assets lie strictly inside the output directory. |
| Storage.OutputImageAssetsInside | app/storage.py:46-53 | Output image assets lie strictly inside the output directory. |
| Storage.AssetsUnder | app/storage.py:25-53 | All assets of the first `n` results lie strictly inside the output directory. |
| Storage.MaterializeAssetsUnder | app/storage.py:17-55 | No recorded asset escapes the output directory. |
| Storage.HasDirectoryImageStep | app/storage.py:25-44 | One more result fails exactly when the earlier ones did or its own images do. |
| Storage.HasDirectoryImageMonotone | app/storage.py:25-44 | A failure among the first results remains a failure when more results are added. |
| OcrClient.ToPayload | app/ocr_client.py:17-22 | The payload has exactly the three camel-case option keys. |
| OcrClient.PayloadRoundTrip | app/ocr_client.py:17-22 | The options can be read back from their payload. |
| OcrClient.PayloadInjective | app/ocr_client.py:17-22 | Different options give different payloads. |
| OcrClient.Prefix | app/ocr_client.py:59 | `text[:1000]` has at most 1000 characters, is a prefix of the text, and is the whole text when that is short enough. |
| OcrClient.SubmitSync | app/ocr_client.py:39-62 | Without an API URL it raises before any request. Otherwise it succeeds exactly on status 200 with a `result`, returning that `result`. Any other status raises quoting the status and the first 1000 characters of the text. |
| OcrClient.SubmitSyncNoRequest | app/ocr_client.py:42-43 | Without an API URL the server's behaviour does not matter. |
| OcrClient.SubmitJob | app/ocr_client.py:64-87 | Without a job URL it raises before any request. It posts the default model `PaddleOCR-VL-1.5` with the payload and succeeds exactly on status 200 with a job id, returning that id. Any other status raises with the status and the truncated text. |
| OcrClient.SubmitJobNoRequest | app/ocr_client.py:67-68 | Without a job URL the server's behaviour does not matter. |
| OcrClient.PollJob | app/ocr_client.py:89-118 | The loop computes `Poll` over the responses received before the deadline. |
| OcrClient.PollFirstVerdict | app/ocr_client.py:101-117 | The first response that is not an in-progress 200 decides the outcome. |
| OcrClient.PollTimeout | app/ocr_client.py:101-118 | It times out exactly when every response was an in-progress 200. It reports the last data received, or none. |
| OcrClient.PollReturnsDone | app/ocr_client.py:109-112 | The first `done` answer is returned. |
| OcrClient.PollRaisesFailed | app/ocr_client.py:113-116 | The first `failed` answer raises with its `errorMsg`, or with `"unknown error"` when there is none. |
| OcrClient.PollRaisesHttp | app/ocr_client.py:105-108 | A non-200 answer raises at once with the status and the truncated text, whatever follows. |
| OcrClient.DownloadJsonl | app/ocr_client.py:120-123 | It succeeds with the body text exactly when the status is not 4xx or 5xx. |
| OcrClient.ParseJsonlResults | app/ocr_client.py:126-134 | The loop computes `ParseJsonl`. |
| OcrClient.ParseLinesPages | app/ocr_client.py:128-133 | It gives one page per stripped non-blank line, in line order, and fails exactly when some such line does not decode. |
| OcrClient.ParseLinesErrSticky | app/ocr_client.py:132 | A line that fails to decode ends the parse, and later lines do not matter. |
| OcrClient.LinesJoin | app/ocr_client.py:128 | Lines joined with `"\n"` split back into the same lines. |
| OcrClient.ParseJsonlOnePerLine | app/ocr_client.py:126-134 | A document of one decodable object per line gives exactly those results, in order. |
| OcrClient.NonBlankKeeps | app/ocr_client.py:129-131 | Lines that are already stripped and non-empty are all kept. |
| OcrClient.NormalizeBreaksPlain | app/ocr_client.py:128 | Text whose only line boundaries are `"\n"` is left unchanged. |
| TaskQueue.TaskQueue.constructor | app/task_queue.py:51-61 | A new queue has no task and no job. |
| TaskQueue.TaskQueue.CreateTask | app/task_queue.py:68-73 | It registers a fresh task, as `Create` states. |
| TaskQueue.CreateFresh | app/task_queue.py:68-73 | The new task is queued, empty and zeroed. No other task and no job changes. |
| TaskQueue.TaskQueue.GetTask | app/task_queue.py:75-77 | It returns the task exactly when the id is registered. |
| TaskQueue.TaskQueue.EnqueueFile | app/task_queue.py:79-114 | It applies `Enqueue`: an unknown task changes nothing and fails. Otherwise it records the new item and the new job. |
| TaskQueue.EnqueueEffect | app/task_queue.py:79-114 | It fails exactly on an unknown task. Otherwise it appends one queued item and one job with the same ids and adds one to `total`. It resets the status to `queued` only while nothing has finished. Nothing else changes. |
| TaskQueue.FindItem | app/task_queue.py:130 | It gives the index of the first item with the id, or none when no item has it. |
| TaskQueue.TaskQueue.WorkerStep | app/task_queue.py:116-155 | One iteration of the worker does what `Step` states for that job's `_process_one` outcome. An empty queue changes nothing. |
| TaskQueue.MarkRunning | app/task_queue.py:128-132 | The task, and its first matching item when there is one, are marked running. This only sets up `TaskQueue.Conclude`, whose contract equates the whole step with `Record`. |
| TaskQueue.Conclude | app/task_queue.py:134-154 | The success, failure and `finally` bookkeeping together give `Record`. |
| TaskQueue.StepSkips | app/task_queue.py:123-126 | A job of an unknown or canceled task only leaves the queue. |
| TaskQueue.StepCounts | app/task_queue.py:134-147 | A processed job adds exactly one to `done` on success or to `failed` on failure. `total`, the number of items and every other task are unchanged. |
| TaskQueue.StepItem | app/task_queue.py:130-147 | Only the first item with the job's id changes. On success it becomes done with the returned md files and assets. On failure it becomes failed with the error. |
| TaskQueue.StepStatus | app/task_queue.py:128-154 | Afterwards the task is `done` (no failures) or `failed` once every counted item has finished, and `running` otherwise. |
| TaskQueue.CanceledStays | app/task_queue.py:124-152 | A canceled task is never changed by the worker. |
| TaskQueue.FinalizeKeepsCanceled | app/task_queue.py:150-154 | The `finally` block never overwrites `canceled`. |
| TaskQueue.PendingSnoc | app/task_queue.py:103-113 | Appending a job adds one to the pending count of its own task only. |
| TaskQueue.PendingNone | app/task_queue.py:103-113 | A task with no queued job has nothing pending. |
| TaskQueue.InvInit | app/task_queue.py:57-58 | The empty queue satisfies the invariant. |
| TaskQueue.CreateInv | app/task_queue.py:68-73 | Creating a task keeps the invariant. |
| TaskQueue.EnqueueInv | app/task_queue.py:79-114 | Enqueueing keeps the invariant. |
| TaskQueue.RecordTaskOk | app/task_queue.py:128-154 | Processing one pending job keeps the task's own invariant. |
| TaskQueue.RecordKeepsItems | app/task_queue.py:138-147 | Processing a job removes no item. |
| TaskQueue.StepInv | app/task_queue.py:116-155 | A worker step keeps the invariant, whatever `_process_one` did. |
| TaskQueue.InvBounds | app/task_queue.py:101-144 | Under the invariant, `done + failed <= total`, which is the number of items. |
| TaskQueue.InvJobFound | app/task_queue.py:123-132 | Under the invariant, the next job's task exists and its item is found. |
| TaskQueue.TaskQueue.ProcessOne | app/task_queue.py:157-212 | `_process_one` computes `Process`. |
| TaskQueue.TaskQueue.ProcessAsyncSteps | app/task_queue.py:180-201 | The asynchronous branch computes `ProcessAsync`: submit, poll, check `jsonUrl`, download, parse, store every page. |
| TaskQueue.TaskQueue.MaterializePages | app/task_queue.py:195-201 | The page loop computes `PagesUpTo`: each page is stored in its own directory and the lists are concatenated in page order. |
| TaskQueue.InputPathInside | app/task_queue.py:160-166 | The input copy lies under `inputs/` in at least one segment, every one of them safe. |
| TaskQueue.ProcessInputMissing | app/task_queue.py:170-172 | A missing input fails before anything is sent. |
| TaskQueue.AsyncIgnoresSync | app/task_queue.py:176-187 | A forced job or a `.pdf` name takes the job path, and the synchronous endpoint plays no part. |
| TaskQueue.SyncIgnoresJobs | app/task_queue.py:176-210 | Otherwise the job service plays no part. |
| TaskQueue.AsyncMissingJsonUrl | app/task_queue.py:185-187 | A finished job without `resultUrl.jsonUrl` fails, whatever the download would have given. |
| TaskQueue.PageDirInjective | app/task_queue.py:196-198 | Different pages get different directories. |
| TaskQueue.PagesPrefix | app/task_queue.py:195-201 | The lists from the earlier pages are prefixes of the final lists. |
| TaskQueue.PagesFoldLast | app/task_queue.py:199-201 | In a successful loop the earlier pages and the last page stored successfully too. The Markdown files and the assets are each those of the earlier pages followed by the last page's. |
| TaskQueue.PagesErrSticky | app/task_queue.py:199 | A page that fails ends the loop, and later pages do not matter. |
| TaskQueue.PagesMdFiles | app/task_queue.py:195-201 | Every md file of an asynchronous job is a `doc_{i}.md` in one of its page directories. |
| TaskQueue.PageDocsStep | app/task_queue.py:200 | Appending a page's md files keeps every md file in a page directory. |
| Server.CreateTaskHandler | app/server.py:63-167 | The handler on the shared queue does what `Handle` states: response, new queue state, new filesystem. |
| Server.HandleConfigError | app/server.py:63-66 | A configuration error is a 500, and nothing changes. |
| Server.HandleCountMismatch | app/server.py:77-78 | A non-empty relpath list of the wrong length is a 400. No task is created and nothing is written. |
| Server.StatusCode | app/server.py:66-110 | Every rejection is a 400, a 413 or a 500. |
| Server.AdmitAll | app/server.py:87-165 | The upload loop computes `AdmitUpTo` over all files. The queue ends as the admitted files left it. |
| Server.AdmitOne | app/server.py:89-165 | One iteration does what `AdmitFile` states. A rejected file leaves the queue unchanged. |
| Server.AdmitFileCases | app/server.py:91-165 | The checks, in order: the format check (400), then the per-file limit (413), then the running total (413). A file is accepted exactly when it passes all three. It is then written to its placement, enqueued and listed as a queued item with its sanitised name. |
| Server.AdmitFileStep | app/server.py:147-165 | An admitted file adds one queued item and one job for that file. |
| Server.AdmitOrder | app/server.py:89-165 | After the loop the task still exists. Items and jobs are listed one per file in upload order, with the generated ids. |
| Server.StepsInOrder | app/server.py:89 | Any loop whose step appends one item and one job per file lists them in file order. |
| Server.AdmitOrderStep | app/server.py:158-165 | One more admitted file extends the ordered listing. |
| Server.AdmitTotal | app/server.py:104-110 | The upload loop admits its files exactly when each passes the format and per-file checks and their cumulative size stays within `max_total_bytes` (an empty loop always succeeds). `total_bytes` is then the start plus the sum of the sizes. |
| Server.StepsTotal | app/server.py:104-110 | The same statement for any step that checks and counts bytes like one iteration of the loop. `AdmitTotal` instantiates it. |
| Server.HandleAccepts | app/server.py:63-167 | With a valid configuration and relpath list, the task is created exactly when every file has an accepted format and is within `max_file_bytes`, and the files together fit `max_total_bytes` (or there are none). It is then created with one item per file. |
| Server.AdmitRejectedAt | app/server.py:89-110 | A rejection is raised by exactly one file. It happens in the state the earlier files left, and their writes and jobs stay. |
| Server.RunStepsErrSticky | app/server.py:89 | A rejection ends the loop. |
| Server.RunStepsRejectedAt | app/server.py:89 | A rejection comes from one step, raised in the state the earlier steps left. |
| Server.PlaceUpload | app/server.py:112-146 | The path and display statements compute `Placement`. |
| Server.RenameOnCollision | app/server.py:125-146 | The collision block computes `RenamedPlacement`. |
| Server.SafeRelParts | app/server.py:120-122 | There is always at least one stored segment. |
| Server.PlacementPlain | app/server.py:115-123 | Without a collision the file is stored under the sanitised relative parts, or the sanitised name when there are none. It is shown under the cleaned relative path, which splits back into the same parts, or under the original name. |
| Server.PlacementFresh | app/server.py:125-147 | The stored path never overwrites an existing file. |
| Server.PlacementCollision | app/server.py:125-146 | On a collision the file is stored under the renamed path. The display relpath's last part, or the original name, carries the same `_k`. |
| Server.RenamedDestSmallest | app/server.py:126-132 | The renamed path sits next to the taken one as `{stem}_{k}{suffix}`, for the smallest `k >= 1` whose path is free. |
| Server.PlacementInside | app/server.py:119-146 | The stored path lies strictly inside the task's `inputs` directory, and every later segment is safe. |
| Server.RenamedDestInside | app/server.py:130 | Renaming keeps the path inside the directory, with safe segments. |
| Server.RenamedSegmentSafe | app/server.py:130 | `{stem}_{k}{suffix}` of a safe segment is a safe segment. |
| Server.FindFreeIndex | app/server.py:128-146 | The `k` loop stops at the first free candidate. |
| Server.FirstFreeSmallest | app/server.py:128-131 | That `k` is at least 1, its candidate is free, and every smaller candidate is taken. |
| Server.FreeFromSmallest | app/server.py:128-131 | Counting up from `k`, the loop stops at the first free candidate. |
| Server.Pigeonhole | app/server.py:129-146 | If the first `k - 1` candidates are all taken, the filesystem holds at least `k - 1` files, so the loop terminates. |
| Server.CandidateInjective | app/server.py:130 | Different `k` give different candidates. |
| Server.CandidatesCount | app/server.py:130 | There are `k` different candidates below `k`. |
| Server.CandidatesSnoc | app/server.py:130 | Each further `k` adds one new candidate. |
| Server.RFind | app/server.py:126-136 | It gives the last index of the character, or -1 when it is absent. |
| Server.StemSuffix | app/server.py:126-127 | The stem followed by the suffix is the name. |
| Server.RFindAfter | app/server.py:136 | When `t` has no `c`, the last `c` of `s + [c] + t` is the one just before `t`. |
| Server.RenamedWithDot | app/server.py:135-137 | With a dot, `_k` lands just before the last dot and the extension is kept. |
| Server.RenamedNoDot | app/server.py:138-139 | Without a dot, `_k` is appended. |
| Server.CancelEndpoint | app/server.py:186-191 | An unknown task gets 404. Otherwise the missing `cancel_task` method is called, which fails. |

## Left out

- Threads, the poll timeout of the queue's `get` and the `_stop` event. The model's worker takes one job at a time, as one atomic iteration of `_worker`.
- The lock's real granularity. `_worker` takes `self._lock` three separate times and runs `_process_one` outside it (`app/task_queue.py:128-155`). The upload handler awaits each file's read, so an `enqueue_file` for the same task can run while one of its items is being processed (`app/server.py:89-157`). That enqueue resets a running task to `queued` because nothing has finished yet (`app/task_queue.py:102`). If the item then finishes with `done < total`, the `finally` check does not fire and the task stays `queued` with `done >= 1`. The `Queued` conjunct of `TaskQueue.TaskOk` (part of `Inv`) therefore holds only for the model's atomic worker step, not for every state the source can reach.
- Worker concurrency (`concurrency` workers): jobs of one task may finish out of order. The model processes jobs in FIFO order.
- `ensure_dir`, directory creation, `Path.resolve`, and the input copy in `_process_one` (`app/task_queue.py:167-174`). Only the copy's destination path is modelled (`InputPathInside`). The file read for the OCR request is the content of `local_path`, which the copy makes equal.
- `TaskQueue.InputPath`: `TaskQueue.Process` does not use this path, and the model does not write the copy. `_process_one` recomputes the destination from the job's relpath and filename (`app/task_queue.py:160-166`), and that destination need not equal `local_path`. For example, with relpath `/` and filename `d/x.png` the upload is stored at `inputs/x.png` but copied to `inputs/d/x.png`. The copy could therefore create a second file, or overwrite another upload's file, and the model does not capture either.
- TaskQueue.TaskQueue.ProcessOne: the files that `materialize_result_to_dir` writes during a worker step, and the raw `.jsonl` written to `raw/`, are not kept in any filesystem state. The worker records only the returned lists.
- Storage.Materialize: when an image path names the output directory, the markdown files and images already written stay on disk in the source. The model records only the error.
- File-system errors other than that one: permissions, a full disk, an existing directory where a file is to be written, a file where a directory is needed.
- Server.PlacementFresh: `dest_path.exists()` also sees directories. The model's filesystem holds only the uploaded files, so a collision with an existing directory of the same name is not modelled.
- `str.lower` is modelled on ASCII letters only. Non-ASCII case mapping is left out.
- `str.replace`, `str.split` and `str.strip` are exact on code points. `strip` uses the characters `str.isspace` accepts.
- `str.splitlines` is modelled as a cut at every line-boundary character. This differs only in empty lines: the one inside `"\r\n"` and the one after a final boundary. `parse_jsonl_results` drops those anyway.
- JSON: `json.loads` of `relpaths` and of each result line is a parameter (`parse`, `decode`). A `relpaths` value that is valid JSON but not a list (a number, say) makes `len` raise in the source; the model treats any parse result as a list of strings or a failure.
- Base64 encoding, multipart encoding, `json.dumps` of the options, the authorization headers and the token.
- `requests` itself: time-outs, connection errors and redirects. Each exchange is an abstract response. An image download that raises is not modelled; only its status and bytes are.
- OcrClient.PollJob: the clock, `max_wait_s` and `poll_interval_s`. The deadline is the length of the response sequence, so `time.sleep` is not modelled.
- The text of exception messages (`str(e)` in the item's `error`) and `str(Path)` rendering. Errors are datatype values and paths are segment sequences.
- Generated ids (`time.strftime`, `uuid4().hex`) and `created_at`. They are parameters, so id collisions are not modelled.
- `settings.validate()` is a parameter (`Settings.configError`); `app/config.py` is not part of this model.
- The other endpoints: `GET /api/tasks/{id}` (including its `canceled` counter), the item listing, the markdown view and the zip download. Also `_options_from_form`, `sha256_hex` and the static front end.
- `cancel_task` on the queue does not exist in the source, so no cancelling behaviour is modelled beyond `Server.CancelEndpoint`.
- Integer widths: Python integers are unbounded, and so are the model's.
