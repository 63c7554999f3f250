# YouTube download service: the task lifecycle of `POST /download`

This project models the core of a small HTTP service that accepts a request
to fetch a video, tracks it as a task in the `download_tasks` table of an
external record store (Supabase), and answers the caller. The core is the
handler `create_download`. When a store handle exists, it marks the task
`processing`. It then runs the retrieval, which in the service is a mock: a
fixed delay and an artifact URL built from the task id. After that it marks
the task `completed` with progress 100 and the artifact URL, and returns a
success envelope. Any exception in that sequence sends it to a failure
branch. That branch marks the task `failed` with the exception's message
and raises an HTTP 500. Every store write is wrapped so that its own failure
cannot change the caller's result. The store handle is process-wide and may
be missing. In that case every write is skipped, and `GET /health` and
`GET /` report `supabase_connected = false`.

Two modules, one per component:

- `TaskStore` (`taskstore.dfy`) is the store client. A table maps task ids
  to rows, and a row maps columns to values. `UpdateRows` is one partial
  update filtered by `id`. `Replay` folds a log of writes over a table; each
  write records whether it reached the store. The class `Store` holds the
  table and updates it in place with `Update`. Its invariant `Valid` says
  that the table is always the replay of the log of writes sent through the
  handle.
- `DownloadService` (`download.dfy`) is the request model with its
  defaults, and the two status endpoints. It holds the specification of one
  call: `Attempts` gives the writes sent, in order, and `Respond` gives the
  caller's result. It also holds the imperative handler `CreateDownload`,
  which follows the source's control flow and is proved against those two
  functions, and the lemmas that state the lifecycle's properties.

Everything outside the handler's control is an input (`Env`). That covers
where an exception is raised inside the outer `try` and with which message,
which store writes raise, and the clock readings. An exception can come from
the logging before the first write, from the retrieval, or from the logging
and envelope after the completed write. The store handle is a nullable
`Store?`.

## Model

| member | source | states |
|---|---|---|
| `TaskStore.UpdateRows` | main.py:78-81 | An update filtered by `.eq('id', id)` changes only the row with that id. That row takes the patch's columns and keeps its other columns. No row is added or removed, and an unknown id changes nothing. |
| `TaskStore.Store.Update` | main.py:95-100 | One store write. It logs the call, and a write that raises leaves the table as it was; one that reaches the store applies `UpdateRows`. The table stays the replay of the log. |
| `TaskStore.Store.constructor` | main.py:29-32 | A handle over a table, with an empty log. |
| `TaskStore.Step` | main.py:78-81 | One logged write: a write that raised changes nothing, and one that landed changes only the row it names. No row is added or removed. |
| `TaskStore.Replay` | main.py:76-127 | The table after a log of writes, in order, has the same task ids as before. |
| `TaskStore.LandedWithin` | main.py:78-125 | Writes that set only certain columns leave a combined effect over those columns only. |
| `TaskStore.ReplayAppend` | main.py:76-127 | Replaying two logs in turn equals replaying their concatenation. This keeps the store invariant across calls. |
| `TaskStore.ReplayScoped` | main.py:121-125 | Writes that all name one id leave every other row unchanged and add or remove no row. With no row of that id, they change nothing. |
| `TaskStore.ReplayRow` | main.py:93-100 | Writes that all name one id leave that row as the old row overwritten by the landed writes' columns. The last write of a column wins. |
| `TaskStore.LandedSnoc` | main.py:119-125 | A write appended to a log lays its columns over those of the earlier writes. |
| `DownloadService.ParseRequest` | main.py:34-40 | The task id and video URL are kept. The optional fields default to quality `1080p`, format `mp4`, type `video` and no subtitles, and a field that is given is kept. |
| `DownloadService.DefaultsAreImplicit` | main.py:37-40 | Leaving the optional fields out is the same request as sending their defaults. |
| `DownloadService.HealthCheck` | main.py:42-51 | `/health` is always ok, version 1.0.0, with the caller's timestamp. `supabase_connected` holds exactly when the store handle exists. |
| `DownloadService.Root` | main.py:53-65 | `/` reports `running` and its two endpoints. `supabase_connected` holds exactly when the store handle exists. |
| `DownloadService.ConnectedMeansWrites` | main.py:49-93 | Both endpoints agree on `supabase_connected`, and it holds exactly when a download call sends store writes. |
| `DownloadService.MockFileUrl` | main.py:90 | The artifact URL is the fixed prefix, then the task id, then `.mp4`. |
| `DownloadService.MockFileUrlInjective` | main.py:90 | Two task ids never share an artifact URL. |
| `DownloadService.Attempts` | main.py:76-125 | The writes of one call, in order. With a handle at least one write is sent and without one none is. Every write is filtered on the call's own task id and sets only the six columns the handler writes. |
| `DownloadService.Respond` | main.py:106-129 | The corrected handler's answer. It is the success envelope exactly when nothing raised: `success`, status `completed`, the caller's task id and the artifact URL. Otherwise it is HTTP 500 with detail `下载失败: ` followed by the exception's message. |
| `DownloadService.RespondAsWritten` | main.py:115-129 | The handler as written. It escapes with an unhandled error exactly when a handle exists, something raised and the failed write raised too. In every other case it answers as `Respond` does. |
| `DownloadService.FinalRow` | main.py:76-127 | The task's row after a call. No column of the old row is cleared, and every column the handler never writes keeps its old value. |
| `DownloadService.OnlyTheTaskRowChanges` | main.py:76-127 | After a call every other task's row is unchanged, and no row is added or removed. With no row for the task, the table is unchanged. |
| `DownloadService.TransitionColumns` | main.py:78-125 | Each write sets a status. `processing` writes only status and `updated_at`; `completed` writes only status, `progress`, `file_url` and `completed_at`; `failed` writes only status, `error_message` and `updated_at`. |
| `DownloadService.LifecycleOrder` | main.py:76-125 | The statuses written follow the lifecycle strictly: `processing`, then `completed`, then `failed`. No status is written twice or revisited. |
| `DownloadService.TransitionsAttempted` | main.py:76-125 | Without a handle nothing is written. With one, `processing` is attempted unless the logging before it raised, `completed` exactly when the retrieval returned, and `failed` exactly when something raised. In particular `completed` is never attempted when the retrieval raises. |
| `DownloadService.TerminalWrites` | main.py:93-125 | With a handle a terminal write is always attempted. Both terminal writes are attempted exactly when an exception follows the completed write. |
| `DownloadService.FinalRowIsStored` | main.py:76-127 | After a call the store holds the task's row as the old row overwritten by the landed writes. |
| `DownloadService.SuccessRow` | main.py:76-102 | On the success path the row is the old row, overwritten by the processing write if it landed and then by the completed write. |
| `DownloadService.CompletionIsStored` | main.py:93-100 | When the retrieval returns and the completed write lands, the row reads `completed`, progress 100, the artifact URL and the completion time. This holds whether or not the processing write landed. |
| `DownloadService.CompletionKeepsOtherColumns` | main.py:78-100 | On the success path the row gains only the columns the two writes name, and all other columns keep their values. |
| `DownloadService.CompletionLeavesUpdatedAt` | main.py:78-100 | The completed write does not set `updated_at`. After a successful call it holds the processing time when that write landed, and otherwise the row's old value or nothing. |
| `DownloadService.SuccessAgreesWithStore` | main.py:98-113 | On the success path the caller gets `success`, status `completed` and its own task id. The envelope's `file_url` is the one the store holds. |
| `DownloadService.OnlyTaskIdMatters` | main.py:90-113 | The writes and the response `Respond`, which `CreateDownload` ensures, depend on the task id, never on the video URL, quality, format, type or subtitle flag. |
| `DownloadService.FailureRow` | main.py:119-125 | After an exception with a landed failed write, the row is the old row overwritten by the earlier landed writes and then by the failed write. |
| `DownloadService.FailureIsStoredAndReported` | main.py:115-129 | After an exception the last write sets `failed`, the message and `updated_at`. Once it lands the row reads so. The corrected handler's answer `Respond`, which `CreateDownload` ensures, is a 500 with detail `下载失败: ` + message, never the success envelope. |
| `DownloadService.EmptyErrorMessageStored` | main.py:115-129 | `error_message` is the exception's text verbatim. An exception with an empty message stores the empty text, and the detail is the bare `下载失败: `. |
| `DownloadService.StoreNeverDecidesTheResponse` | main.py:76-129 | Store write failures never change the corrected answer `Respond`, which `CreateDownload` ensures, and without a handle no write is sent. For the handler as written (`RespondAsWritten`), failures of the processing and completed writes never change the answer, and without a handle it answers as `Respond`. |
| `DownloadService.FreshRowEndsConsistent` | main.py:93-125 | Take a row with no artifact URL and no error message, whose terminal write lands, with no exception after the completed write. It ends with exactly the one of the two that its status calls for. |
| `DownloadService.StaleErrorMessageSurvives` | main.py:95-100 | A successful call on a reused task id leaves an earlier `error_message` in the completed row. |
| `DownloadService.FailureAfterCompletionKeepsFileUrl` | main.py:93-125 | An exception after the completed write leaves a `failed` row that still holds the artifact URL and progress 100. |
| `DownloadService.AsWrittenLosesDetail` | main.py:119-129 | The handler as written answers as intended except in one case: an exception while a handle exists and the failed write also raises. There the caller gets an unhandled error with no message. |
| `DownloadService.UnsupportedCodecWithStoreDown` | main.py:115-129 | Take the retrieval raising `unsupported codec` with the store down. The handler as written escapes with an unhandled error. The intended answer is a 500 with detail `下载失败: unsupported codec`. |
| `DownloadService.CreateDownload` | main.py:67-129 | The handler sends exactly the writes of `Attempts`, in order, through the handle if one exists. The table ends as their replay, and the response is `Respond`. It follows the source's try/except structure. |

## Left out

- FastAPI routing, CORS and the HTTP envelope beyond the fields listed above are framework plumbing. A request whose required fields are missing or ill-typed is rejected by the framework before the handler runs, and that is not modelled.
- Supabase client construction and its query builder are a foreign network library. The store is a map with fallible partial updates, and the handle is a `Store?` that is null when construction failed.
- The `time.sleep` and the retrieval are opaque. They either return or raise with a message given as input.
- `datetime.now().isoformat()` readings are opaque timestamps given as input.
- `print` output and the uvicorn startup with host and port from the environment are I/O. A raise from the logging inside the outer `try` (main.py:71-73 and 104) is kept, as a fault stage.
- The logging in the handlers at main.py:83, 102, 116 and 127 is taken never to raise. A raise at line 83 or 102 would reach the outer handler. A raise at line 116 would skip the failed write at lines 119-125 and escape as an unhandled error. The model always ends a failing call with the failed write attempt and an HTTP 500.
- Concurrent requests that share a task id are not modelled, because the model is sequential. Each call is modelled alone against the table it finds.
- `TaskStore.Store.Update`: a write that raises leaves the table unchanged. A write that reaches the store and raises afterwards, on the way back, is not modelled.

Four properties one would expect of the task lifecycle do not hold in the
code, and the model follows the code:

- A call does not always attempt exactly one terminal store write. It
  attempts both the completed and the failed write when an exception is
  raised after the completed write (`TerminalWrites`).
- `file_url` and `error_message` are not always exclusive, with `status`
  deciding which one is set, because the code never clears either column.
  This holds only for a row that starts with neither column and sees no
  exception after the completed write (`FreshRowEndsConsistent`).
  `StaleErrorMessageSurvives` and `FailureAfterCompletionKeepsFileUrl` show
  the other cases.
- The completed write does not refresh `updated_at`. A completed row keeps
  the processing time, or an older value when the processing write failed
  (`CompletionLeavesUpdatedAt`).
- A failed row does not always carry a non-empty error message. The stored
  message is the exception's text verbatim and may be empty
  (`EmptyErrorMessageStored`).

## Findings

| source | as written | input that shows it | evidently intended | confidence | as-written member | corrected member |
|---|---|---|---|---|---|---|
| main.py:126-129 | The inner `except Exception as e` rebinds `e`. Python deletes that name when the clause ends, so `str(e)` at line 129 raises `UnboundLocalError`. The caller gets the framework's bare 500 without the message. | A store handle exists, the retrieval raises `unsupported codec`, and the failed-status write raises too. | The failed write's error is swallowed, and the caller gets HTTP 500 with detail `下载失败: unsupported codec`. | high; not executed | `DownloadService.AsWrittenLosesDetail` | `DownloadService.CreateDownload` |

`DownloadService.RespondAsWritten` is the response as written, and
`DownloadService.UnsupportedCodecWithStoreDown` is the concrete case. The
corrected response is `DownloadService.Respond`, which `CreateDownload`
promises.
