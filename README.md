# File status state machine of file-parser-api

This project models, in Dafny, how the file-parser-api repository moves an uploaded
file through its states. The TypeScript side uses `uploading | processing | completed | error`,
and the Python side uses `uploading | processing | ready | failed`. The model covers four places:

- **The browser hook** (`hooks/use-file-progress.ts`), as the class
  `FileProgress.FileProgressHook` holding `files` and `isPolling`. It has:
  - the choice of which ids to poll;
  - the merge of a batch status response, which overwrites only `status` and `progress`;
  - the stop-polling rule;
  - the list edits made by upload, delete, reprocess and cancel.
- **The Next.js handlers.** Each one owns its own in-memory store, just as the three route
  modules each declare their own `files` array:
  - `UploadRoute.FilesRoute`: `POST /api/files`, and the tick that copies a job's state into its file record;
  - `ProcessRoute.ProcessRoute`: the reprocess/cancel command and the simulated progress tick;
  - `StatusRoute`: the read-only batch status query.
- **The Python backend**:
  - `Workers.ParseFileTask`: the Celery task's sequence of commits;
  - `ParseUtils`: parser dispatch, the text summary and the MIME fallback;
  - `FilesRouter`: the upload, listing, progress, content gating, delete and download endpoints.
  These work over the `FileTable.Table` of rows.
- **The dashboard aggregates.** `Dashboard` covers the counters, the search/status filter, the
  history list and the action buttons of `app/page.tsx`. `Analytics` covers the success rate,
  total size, file-type histogram, top five types and recent uploads of
  `components/analytics-dashboard.tsx`.

The module `Sync` ties the hook to the status route. After one poll, every active file that
the server knows carries the server's status and progress. A file is untouched when the server
does not know its id, or when no active file shares its id. The merge goes by id, so an inactive
file that shares its id with an active one is rewritten as well.

Supporting modules:
- `Wrappers`: `Option` and `Result`.
- `Seqs`: an order-preserving `Filter` and the subsequence relation.
- `Strings`: the JavaScript `split` and `join` on one character, with their round trip.
- `FileRecords`: the client and server record types, and a first-match `FindIndex`.

Nondeterminism and I/O become parameters:
- `Math.random` ids become fresh-id arguments.
- The random progress increment becomes `0 <= d < 20`, and the random outcome becomes a `bool`.
- The success of every API call, the job snapshot read on each monitor tick, the clock,
  `mimetypes.guess_type`, the CSV/JSON/text readers and the set of files on disk are inputs.

Progress is a `real` on the TypeScript side, because the tick adds `Math.random() * 20`. It is
an `int` on the Python side, matching the integer column of `app/models.py`.

Behaviours of the code worth knowing:
- The job-mirroring tick has no case for a queued job (app/api/files/route.ts:79-94). A queued
  job leaves the record as it is and monitoring goes on (`UploadRoute.Mirror`).
- The route modules do not share a store: each declares its own `const files` array
  (app/api/files/route.ts:6, app/api/files/process/route.ts:5, app/api/files/status/route.ts:5).
  The status and process handlers are therefore modelled over a store passed in, and `Sync`
  states its result for whatever store the status route holds.
- When the simulated run ends in `error`, the progress tick leaves progress at 100
  (app/api/files/process/route.ts:70-75, `ProcessRoute.ProgressStep`).
- The hook's `cancelProcessing` changes the list only after the API call succeeds
  (hooks/use-file-progress.ts:134-137). Nothing is updated optimistically.
- For an unknown id, the Celery task's `except` clause dereferences the `None` record
  (app/workers.py:72-83), so the task fails with an attribute error and leaves the temporary
  upload on disk. `Workers.ParseFileTask` models this as written; see "## Findings".

## Model

| member | source | states |
|---|---|---|
| FileRecords.FindIndex | app/api/files/route.ts:69 | -1 exactly when no record has the id; otherwise the first index whose record has it |
| FileRecords.FindFile | app/api/files/status/route.ts:26 | a record is found exactly when one has the id, and it is the first such record |
| FileProgress.ActiveFiles | hooks/use-file-progress.ts:24 | exactly the `uploading`/`processing` files, as an order-preserving sublist |
| FileProgress.Ids | hooks/use-file-progress.ts:33 | one id per file, position by position |
| FileProgress.ActiveIds | hooks/use-file-progress.ts:24-33 | an id is polled exactly when some file with that id is `uploading` or `processing` |
| FileProgress.PolledIdsFollowListOrder | hooks/use-file-progress.ts:24-33 | the polled ids of `a + b` are those of `a` followed by those of `b`, so list order is kept |
| FileProgress.FindStatus | hooks/use-file-progress.ts:38 | none exactly when no entry has the id; otherwise the first entry with it |
| FileProgress.StillActive | hooks/use-file-progress.ts:51 | holds exactly when some entry of the response is `uploading` or `processing`; `PollTick`'s contract uses it for the stop-polling rule |
| FileProgress.Merge | hooks/use-file-progress.ts:36-48 | same length; every field except status/progress kept; a file with no entry unchanged; a file with entries takes status and progress from the first one |
| FileProgress.Without | hooks/use-file-progress.ts:114 | exactly the files whose id differs, in their original order |
| FileProgress.SetStatus | hooks/use-file-progress.ts:124-137 | same length; files with another id unchanged; files with the id take the given status and progress and keep every other field; `CancelledFileLeavesPollSet` and `ReprocessedFileEntersPollSet` carry its effect on polling |
| FileProgress.Placeholder | hooks/use-file-progress.ts:67-76 | the temporary record carries the temporary id, the file's name and size, `uploading`/0, and the type or `application/octet-stream` when it is empty |
| FileProgress.Resolve | hooks/use-file-progress.ts:92-106 | the list keeps its length; `ResolveKeeps` states that records with another id are unchanged, and `ResolveNext` that the placeholder takes the server id and `processing` on success, or `error` on failure, with progress 0 |
| FileProgress.ResolveAll | hooks/use-file-progress.ts:84-108 | the list after the first k answers, of unchanged length; `UploadResolvesOnlyItsPlaceholder` states what it holds |
| FileProgress.ResolveNext | hooks/use-file-progress.ts:88-107 | with fresh temporary ids, one more answered upload resolves its own placeholder and leaves every other record as it was |
| FileProgress.UploadResolvesOnlyItsPlaceholder | hooks/use-file-progress.ts:84-108 | with fresh temporary ids, after k uploads the old files are untouched, placeholders before k are resolved (server id with processing/0, or error/0) and the rest are untouched |
| FileProgress.CancelledFileLeavesPollSet | hooks/use-file-progress.ts:137 | after a cancel, the file's id is no longer polled |
| FileProgress.ReprocessedFileEntersPollSet | hooks/use-file-progress.ts:125 | after a reprocess, the file's id is polled again |
| FileProgress.FileProgressHook.constructor | hooks/use-file-progress.ts:17-18 | the hook starts with no files and polling off |
| FileProgress.FileProgressHook.RunEffect | hooks/use-file-progress.ts:21-33 | no poll while polling is off or the list is empty; polling is switched off when no file is active; otherwise the active ids are polled |
| FileProgress.FileProgressHook.PollTick | hooks/use-file-progress.ts:34-57 | a failed request changes nothing; a response is merged, and polling stops when no entry is active, an empty response included |
| FileProgress.FileProgressHook.UploadFiles | hooks/use-file-progress.ts:63-109 | placeholders are appended after the existing files and polling is on; each upload in turn resolves its own placeholder, and with fresh ids the whole list is as the lemma above describes |
| FileProgress.FileProgressHook.DeleteFile | hooks/use-file-progress.ts:111-119 | only a successful call removes the files with that id; a failed one leaves the list as it was |
| FileProgress.FileProgressHook.ReprocessFile | hooks/use-file-progress.ts:121-132 | on success the file becomes processing/0 and polling turns on; on failure nothing changes |
| FileProgress.FileProgressHook.CancelProcessing | hooks/use-file-progress.ts:134-142 | on success the file becomes error/0 and polling is left alone; on failure nothing changes |
| UploadRoute.NewRecord | app/api/files/route.ts:34-43 | a new record is processing/0 with the upload's name, size and content, and its type defaults to `application/octet-stream` |
| UploadRoute.Mirror | app/api/files/route.ts:79-94 | running job: processing with the job's progress; done: completed/100; failed: error/0; queued: record unchanged; identity fields kept |
| UploadRoute.MonitorStep | app/api/files/route.ts:67-95 | only the record with the file's id is written; a missing job or file writes nothing and stops; monitoring continues exactly while the job is not finished; well-formed records stay well-formed |
| UploadRoute.Session | app/api/files/route.ts:67-98 | the monitored record over a run of job snapshots: at most the tick budget and at most one tick per snapshot, at least one tick when both allow it, and only status/progress ever change |
| UploadRoute.Watch | app/api/files/route.ts:66-99 | a monitoring session over the store takes at most the tick budget; only the monitored record is written, and only its status/progress |
| UploadRoute.WatchIsRepeatedTicks | app/api/files/route.ts:66-99 | a session is its first `MonitorStep` followed, exactly when that tick keeps watching, by a session over the store it left with one tick less of budget |
| UploadRoute.MonitorIsBounded | app/api/files/route.ts:95-98 | with a 500 ms interval cleared after five minutes, monitoring takes at most 600 ticks |
| UploadRoute.SessionStopsAtTerminal | app/api/files/route.ts:84-93 | a tick that reads a finished or missing job is the session's last |
| UploadRoute.WatchStopsAtTerminal | app/api/files/route.ts:84-93 | a tick that reads a finished or missing job is the last one of the session over the store |
| UploadRoute.FilesRoute.constructor | app/api/files/route.ts:6-16 | the store holds the given records |
| UploadRoute.FilesRoute.Post | app/api/files/route.ts:22-64 | no file: 400 and store unchanged; unreadable file: 500 and store unchanged; otherwise the new record is appended at the end, and then carries its job id, or the request fails with the record left in place when queueing fails |
| UploadRoute.FilesRoute.MonitorTick | app/api/files/route.ts:67-95 | the in-place tick updates the store and the keep-watching flag exactly as `MonitorStep` does |
| ProcessRoute.Advance | app/api/files/process/route.ts:68 | the new progress is `p + d` while that stays below 100 and exactly 100 otherwise, so it never decreases and never exceeds 100 |
| ProcessRoute.ProgressStep | app/api/files/process/route.ts:61-76 | no write when the file is missing or not processing; otherwise only that file changes, and only in status/progress; a running tick adds exactly `d`, and the tick stops exactly when `p + d` reaches 100, setting progress to 100 and the drawn completed/error outcome |
| ProcessRoute.ProcessRoute.constructor | app/api/files/process/route.ts:5-14 | the store holds the given records, all with progress in [0, 100] |
| ProcessRoute.ProcessRoute.Post | app/api/files/process/route.ts:16-54 | missing id: 400; unknown id: 404, both before the operation is read; reprocess: processing/0 whatever the prior status; cancel: error/0 only for an active file; any other operation: 400 with the file unmodified |
| ProcessRoute.ProcessRoute.ProgressTick | app/api/files/process/route.ts:61-76 | the in-place tick updates the store exactly as `ProgressStep` does and keeps all progress in [0, 100] |
| ProcessRoute.CancelHaltsProgress | app/api/files/process/route.ts:62-66 | once a file is cancelled to error, the tick writes nothing and stops |
| ProcessRoute.Run | app/api/files/process/route.ts:57-77 | over any run of ticks, progress stays in [0, 100], the file's progress never decreases while it was processing, and other records are untouched; once the interval has stopped the file is not processing, and a file that was processing stopped at 100 |
| StatusRoute.ParseIds | app/api/files/status/route.ts:18-22 | no ids parameter gives no ids; otherwise comma-free pieces that join back with commas to the parameter, so `ids=""` is one empty id |
| StatusRoute.ParseIdsIsUnique | app/api/files/status/route.ts:18 | any comma-free pieces that join back to the parameter are exactly the parsed ids |
| StatusRoute.Lookup | app/api/files/status/route.ts:24-35 | at most one entry per requested id; each entry is the id/status/progress of the first stored file with a requested id; every requested id that is stored appears |
| StatusRoute.Get | app/api/files/status/route.ts:16-38 | 400 exactly when the parameter is absent; otherwise the lookup of the parsed ids; the store is only read |
| StatusRoute.LookupFollowsRequestOrder | app/api/files/status/route.ts:24-35 | the answer for `a + b` is the answer for `a` followed by the answer for `b` |
| StatusRoute.LookupOne | app/api/files/status/route.ts:24-35 | an unknown id is dropped, and a stored id requested twice gives two entries |
| Strings.Split | app/api/files/status/route.ts:18 | there is at least one piece, and no piece contains the separator |
| Strings.JoinSplit | app/api/files/status/route.ts:18 | joining the pieces of a split gives back the string |
| Strings.SplitJoin | app/api/files/status/route.ts:18 | splitting a join of separator-free pieces gives back the pieces |
| Strings.SplitCount | app/utils.py:42 | the number of pieces is the number of separators plus one |
| Strings.SplitHead | components/analytics-dashboard.tsx:35 | the first piece is the longest separator-free prefix |
| ParseUtils.GetFileType | app/utils.py:7-10 | the guessed MIME type, or `application/octet-stream` when there is none |
| ParseUtils.SelectParser | app/utils.py:49-58 | CSV, then JSON, then text, each exactly when the earlier ones do not apply; otherwise "Unsupported file type: " and the type |
| ParseUtils.TextTypesAreParsed | app/utils.py:51-56 | every `text/` type has a parser, and `text/csv` goes to the CSV parser |
| ParseUtils.SummarizeText | app/utils.py:41-45 | characters is the length; lines is the newline count plus one; the preview is the content, or its first 1000 characters and "..." |
| ParseUtils.ParseFileByType | app/utils.py:12-58 | the selected reader's result, with each reader's failure prefixed by its own message, and unsupported types rejected |
| FileTable.FindRow | app/routes/files.py:82 | -1 exactly when no row has the id; otherwise the first row with it |
| FileTable.Table.constructor | app/models.py:15-28 | the table holds the given rows |
| Workers.CommitSchedule | app/workers.py:34-62 | seven commits: processing at 20k for k = 0..5 (0, 20, 40, 60, 80, 100), strictly increasing and within [0, 100], then the final commit |
| Workers.HandleFailure | app/workers.py:72-83 | as written: with a record, the original error propagates, the row is committed failed with the message and the temporary file is removed; with a `None` record, an attribute error leaves the task, nothing is committed and the disk is unchanged |
| Workers.MissingRecordLeaksTempFile | app/workers.py:72-83 | for every missing-record error, disk and path, the as-written handler keeps a present temporary file on disk and does not raise the original error |
| Workers.HandleFailureCorrected | app/workers.py:28-83 | as intended: the original error always propagates, the temporary file is always removed, and a row is committed failed exactly when there is one |
| Workers.CorrectionOnlyForMissingRecord | app/workers.py:72-83 | the as-written and intended handlers agree exactly when there is a record, or when the two messages coincide and there is no file to remove |
| Workers.ParseFileTask | app/workers.py:23-85 | as written: unknown id: no commit, an attribute error, and the temporary file left on disk; success: ready/100 with content and no error message; failure: failed/0 with the message; for a known id only that row changes and the temporary file is removed |
| FilesRouter.StoragePath | app/routes/files.py:50 | the path lies under `uploads/`, starts with the row id and `_`, and ends with the stored file name |
| FilesRouter.NewRow | app/routes/files.py:37-43 | a new row is uploading/0 with `filename == original_filename` |
| FilesRouter.UploadFile | app/routes/files.py:20-57 | an empty file name gives 400 and stores nothing; otherwise one row is appended with the byte length of the content, the file is saved under its storage path and a task is queued |
| FilesRouter.MatchingRows | app/routes/files.py:68-71 | exactly the rows matching the optional status filter, in order |
| FilesRouter.ListFiles | app/routes/files.py:59-76 | 422 exactly when skip < 0 or limit is outside [1, 1000]; otherwise `total` counts all matching rows and `files` is the window `[skip, skip + limit)` of them |
| FilesRouter.TotalIgnoresPaging | app/routes/files.py:73 | `total` is the same whatever skip and limit are |
| FilesRouter.GetFileProgress | app/routes/files.py:78-91 | 404 exactly for an unknown id; otherwise the row's status, progress and error message as stored |
| FilesRouter.GetFileContent | app/routes/files.py:93-123 | 404 for an unknown id; processing gives 202, failed 422, uploading 400; only a ready row returns its content |
| FilesRouter.DeleteFile | app/routes/files.py:125-142 | 404 for an unknown id; otherwise exactly the matched row is removed, the others keep their order, and its upload leaves the disk |
| FilesRouter.DownloadFile | app/routes/files.py:144-161 | 404 for an unknown id, and 404 exactly when a known row's upload is missing; a known row whose upload is on disk succeeds, with the stored path under the original name and type |
| Dashboard.StatusesPartition | app/page.tsx:120-125 | active, completed and failed files together are all the files |
| Dashboard.ComputeStats | app/page.tsx:120-125 | `total == processing + completed + failed`, each counting its own statuses |
| Dashboard.FilteredFiles | app/page.tsx:127-131 | a file is shown exactly when its lowercased name contains the lowercased query and the filter is "all" or its status; order is kept |
| Dashboard.NoFilterShowsEverything | app/page.tsx:128-129 | with an empty query and filter "all", every file is shown |
| Dashboard.History | app/page.tsx:209 | exactly the completed and failed files, in order |
| Dashboard.ActionsMatchPolling | app/page.tsx:331-342 | reprocess only for error files, cancel only for active files; the two never overlap; cancel is offered exactly for files the hook polls |
| Analytics.Percent | components/analytics-dashboard.tsx:29 | a share of a positive whole is in [0, 100] and equals 100 times part over whole |
| Analytics.SuccessRate | components/analytics-dashboard.tsx:29 | 0 with no files, otherwise 100 times completed over total, always in [0, 100] |
| Analytics.TotalSize | components/analytics-dashboard.tsx:30 | non-negative when every size is |
| Analytics.TotalSizeAdds | components/analytics-dashboard.tsx:30 | the total of two lists is the sum of their totals |
| Analytics.TypeKey | components/analytics-dashboard.tsx:35 | the part of the type before the first "/", or "unknown" when that part is empty |
| Analytics.Bump | components/analytics-dashboard.tsx:36 | the dictionary grows by at most one entry; `BumpCounts`, `BumpAddsOne` and `BumpKeepsKeysDistinct` carry its meaning |
| Analytics.BumpAddsOne | components/analytics-dashboard.tsx:36 | counting one more file adds one to the grand total |
| Analytics.BumpCounts | components/analytics-dashboard.tsx:36 | counting one more file adds one under its own key and nothing under any other |
| Analytics.BumpKeepsKeysDistinct | components/analytics-dashboard.tsx:36 | a key is never recorded twice |
| Analytics.Histogram | components/analytics-dashboard.tsx:33-40 | at most one entry per file and at least one when there are files; `HistogramCounts`, `HistogramTotal` and `HistogramKeysDistinct` carry its meaning |
| Analytics.HistogramTotal | components/analytics-dashboard.tsx:33-40 | the histogram's counts add up to the number of files |
| Analytics.HistogramKeysDistinct | components/analytics-dashboard.tsx:33-40 | no type is recorded twice |
| Analytics.HistogramCounts | components/analytics-dashboard.tsx:33-40 | each key's count is the number of files of that type |
| Analytics.HistogramCountsStep | components/analytics-dashboard.tsx:36 | counting one more file at the end keeps every key's count equal to its number of files |
| Analytics.CountFileTypes | components/analytics-dashboard.tsx:33-40 | the in-place reduce builds the histogram, with distinct keys and counts adding up to the number of files |
| Analytics.InsertByCount | components/analytics-dashboard.tsx:166 | inserting into a list sorted by decreasing count keeps it sorted and adds just that entry, as a multiset |
| Analytics.TakeSorted | components/analytics-dashboard.tsx:165-167 | a prefix of a sorted permutation of the histogram is sorted, drawn from it, and outranked by nothing it leaves out |
| Analytics.SortByCount | components/analytics-dashboard.tsx:166 | the entries by non-increasing count, a permutation of the input |
| Analytics.TopTypes | components/analytics-dashboard.tsx:165-167 | at most five entries, by non-increasing count, taken from the histogram, and no entry left out outranks one shown |
| Analytics.TopTypesCountFiles | components/analytics-dashboard.tsx:165-167 | each type shown carries the number of files of that type |
| Analytics.RecentFiles | components/analytics-dashboard.tsx:43-45 | exactly the files uploaded in the last 24 hours, in order |
| Analytics.ShownRecentFiles | components/analytics-dashboard.tsx:193 | the first recent files, at most five |
| Sync.PollRoundTrip | hooks/use-file-progress.ts:33-48 | one poll keeps the list's length; `PollReflectsServer` states what it does to each file |
| Sync.PollUpdatesKnownFile | hooks/use-file-progress.ts:33-48 | an active file the store knows takes the stored status and progress after one poll |
| Sync.PollReflectsServer | hooks/use-file-progress.ts:33-48 | after polling a store, an active file that the store knows takes the status and progress of the first stored file with its id; a file unknown to the store, or whose id no active file has, is unchanged |

## Left out

- The job queue engine (`@/lib/file-processor`) is not part of this model. A job appears only as
  the `(status, progress)` snapshot that each monitor tick reads, and the queueing call only as
  its result (a job id or a failure).
- `app/api/jobs/route.ts`, `components/job-queue-monitor.tsx`, `components/dashboard-sidebar.tsx`,
  `components/progress-indicator.tsx` and `app/main.py` are rendering or setup around that engine.
  None of them is part of this model.
- Timers, React effects and concurrency. Each interval tick, effect run and awaited call is one
  step over the state. Interleavings between ticks, `clearInterval` and React's batching of
  `setFiles` updates are not modelled.
- Randomness. The 85/15 split between completed and error is an arbitrary `bool`, so its
  probability is not modelled. Random ids are taken as inputs, and their freshness is a
  hypothesis (`FileProgress.FreshTempIds`).
- `formatFileSize`, the percentage badges and the other floating-point display code are not modelled.
- Floating point. Progress and the success rate are exact reals, so rounding of JavaScript numbers is not modelled.
- The CSV and JSON parsers (pandas `read_csv`, `json.load`) and file reading are not modelled.
  Each reader is an input result: for CSV the row count and columns, for JSON the type name,
  for text the content string.
- `mimetypes.guess_type` is an input. Only its fallback to `application/octet-stream` is modelled.
- SQLAlchemy sessions, Celery's `delay` and `update_state` metadata, and the HTTP framing are
  not modelled. A commit is a snapshot of `(status, progress)`, and a response is a datatype.
  The `data` records of the CSV result are not modelled.
- `toLowerCase` is a function parameter of the dashboard filter. Unicode case mapping is not modelled.
- Analytics.SortByCount: the proofs do not cover that JavaScript's sort is stable, although the insertion keeps equal counts in their original order.
- Analytics.Histogram: keys are kept in insertion order. JavaScript lists integer-like object keys first, and that reordering is not modelled.
- `created_at` and `updated_at` are plain integers supplied by the caller. The `updated_at` refresh is not modelled.
- The upload endpoint's disk write and the task's file removal are modelled on a set of paths. The bytes written are not.
- FileProgress.FileProgressHook.DeleteFile: a failed call returns `false` instead of rethrowing, and logging is not modelled. The same holds for ReprocessFile and CancelProcessing.
- FilesRouter.ListFiles: the query has no `order_by`, so the database guarantees no row order, and the count and the page need not see the same one; the model uses table order in its place. The query defaults `skip=0` and `limit=100` are not modelled: both are inputs.

## Findings

| source | as written | input that shows it | evidently intended | confidence | as-written member | corrected member |
|---|---|---|---|---|---|---|
| app/workers.py:72-83 | for an unknown id, `file_record` is bound to `None`, so `'file_record' in locals()` holds and the except block dereferences `None`; the new AttributeError skips the temporary-file removal | `parse_file_task("u1", "uploads/u1_a.txt", "text/plain")` with no row `u1` and the file present on disk | report "File record not found" and remove the temporary file, as on every other failure path | not executed | Workers.MissingRecordLeaksTempFile | Workers.HandleFailureCorrected |

`Workers.ParseFileTask` keeps the handler as written, so its contract shows the leak for every
unknown id. `Workers.HandleFailureCorrected` is the intended handler.
`Workers.CorrectionOnlyForMissingRecord` shows that swapping one for the other changes only the
missing-record path, so every known-id outcome of the task is the same under either handler.
