/** The download service: the `POST /download` handler that drives one task
    through its lifecycle (processing, then completed or failed), writing
    each transition to the task store, and the two status endpoints that
    report whether the store handle exists. The retrieval itself is a mock
    in the service (a fixed delay and a URL built from the task id); here it
    either succeeds or raises, as an input. */
module DownloadService {
  import opened TaskStore

  datatype Option<T> = None | Some(value: T)

  // The status values written to `download_tasks`.
  const Processing := "processing"
  const Completed := "completed"
  const Failed := "failed"

  const ArtifactPrefix := "https://storage.googleapis.com/youtube-downloads/"
  const ArtifactSuffix := ".mp4"
  const SuccessMessage := "下载任务创建成功"
  const FailurePrefix := "下载失败: "

  /** The body of `POST /download`. */
  datatype DownloadRequest = DownloadRequest(
    taskId: string,
    videoUrl: string,
    quality: string,
    format: string,
    downloadType: string,
    includeSubtitles: bool)

  /** Request validation: the two required fields as given, every optional
      field that the body leaves out takes its declared default. */
  function ParseRequest(taskId: string, videoUrl: string, quality: Option<string>,
                        format: Option<string>, downloadType: Option<string>,
                        includeSubtitles: Option<bool>): (r: DownloadRequest)
    ensures r.taskId == taskId && r.videoUrl == videoUrl
    ensures quality.None? ==> r.quality == "1080p"
    ensures quality.Some? ==> r.quality == quality.value
    ensures format.None? ==> r.format == "mp4"
    ensures format.Some? ==> r.format == format.value
    ensures downloadType.None? ==> r.downloadType == "video"
    ensures downloadType.Some? ==> r.downloadType == downloadType.value
    ensures includeSubtitles.None? ==> !r.includeSubtitles
    ensures includeSubtitles.Some? ==> r.includeSubtitles == includeSubtitles.value
  {
    DownloadRequest(
      taskId, videoUrl,
      match quality case Some(q) => q case None => "1080p",
      match format case Some(f) => f case None => "mp4",
      match downloadType case Some(d) => d case None => "video",
      match includeSubtitles case Some(b) => b case None => false)
  }

  /** Leaving an optional field out and sending its default are the same request. */
  lemma DefaultsAreImplicit(taskId: string, videoUrl: string)
    ensures ParseRequest(taskId, videoUrl, None, None, None, None)
         == ParseRequest(taskId, videoUrl, Some("1080p"), Some("mp4"), Some("video"), Some(false))
  {
  }

  /** The answer of `GET /health`. */
  datatype HealthReport = HealthReport(status: string, service: string, version: string,
                                       supabaseConnected: bool, timestamp: Timestamp)

  /** The answer of `GET /`. */
  datatype ServiceInfo = ServiceInfo(service: string, version: string, status: string,
                                     supabaseConnected: bool, endpoints: map<string, string>)

  /** `GET /health`: always ok; reports whether the store handle exists,
      not whether the store is reachable. */
  function HealthCheck(store: Store?, now: Timestamp): (r: HealthReport)
    ensures r.status == "ok" && r.version == "1.0.0" && r.timestamp == now
    ensures r.supabaseConnected <==> store != null
  {
    HealthReport("ok", "YouTube下载服务", "1.0.0", store != null, now)
  }

  /** `GET /`: the service descriptor with its two endpoints. */
  function Root(store: Store?): (r: ServiceInfo)
    ensures r.status == "running" && r.version == "1.0.0"
    ensures r.endpoints.Keys == {"/health", "/download"}
    ensures r.supabaseConnected <==> store != null
  {
    ServiceInfo("YouTube视频下载服务", "1.0.0", "running", store != null,
                map["/health" := "GET - 健康检查", "/download" := "POST - 创建下载任务"])
  }

  /** The points inside the handler's outer `try` where an exception can be
      raised: the request logging before any write, the retrieval, and the
      completion logging and envelope after the completed write. */
  datatype Stage = Announce | Retrieve | Finish

  datatype Fault = Runs | Raises(stage: Stage, message: string) {
    predicate RaisedAt(s: Stage) { Raises? && stage == s }
  }

  /** Which of the three store writes raise. */
  datatype StoreFaults = StoreFaults(processing: bool, completed: bool, failed: bool)

  /** The readings of the wall clock at the four places the handler takes one. */
  datatype Clock = Clock(processingAt: Timestamp, completedAt: Timestamp,
                         failedAt: Timestamp, respondedAt: Timestamp)

  /** Everything outside the handler's control in one call. */
  datatype Env = Env(fault: Fault, storeFaults: StoreFaults, clock: Clock)

  /** What the caller receives: the success envelope, an `HTTPException`
      with its status code and detail, or an exception that escaped the
      handler, which the web framework answers with a bare 500. */
  datatype Response =
    | Created(success: bool, message: string, taskId: string, status: string,
              fileUrl: string, timestamp: Timestamp)
    | HttpError(statusCode: int, detail: string)
    | Unhandled

  /** The artifact location of the mocked retrieval. It is built from the
      task id alone and holds it between a fixed prefix and suffix. */
  function MockFileUrl(taskId: string): (url: string)
    ensures |url| == |ArtifactPrefix| + |taskId| + |ArtifactSuffix|
    ensures url[..|ArtifactPrefix|] == ArtifactPrefix
    ensures url[|ArtifactPrefix|..|ArtifactPrefix| + |taskId|] == taskId
    ensures url[|ArtifactPrefix| + |taskId|..] == ArtifactSuffix
  {
    ArtifactPrefix + taskId + ArtifactSuffix
  }

  /** Two tasks never share an artifact location. */
  lemma MockFileUrlInjective(a: string, b: string)
    requires MockFileUrl(a) == MockFileUrl(b)
    ensures a == b
  {
  }

  /** The columns the handler ever writes. */
  const Written: set<Column> := {Status, Progress, FileUrl, ErrorMessage, UpdatedAt, CompletedAt}

  function ProcessingFields(at: Timestamp): Patch
  {
    map[Status := Text(Processing), UpdatedAt := Text(at)]
  }

  function CompletedFields(fileUrl: string, at: Timestamp): Patch
  {
    map[Status := Text(Completed), Progress := Int(100),
        FileUrl := Text(fileUrl), CompletedAt := Text(at)]
  }

  function FailedFields(message: string, at: Timestamp): Patch
  {
    map[Status := Text(Failed), ErrorMessage := Text(message),
        UpdatedAt := Text(at)]
  }

  /** The store writes one call attempts, in order, when the store handle
      exists (`connected`); with no handle every write is skipped. */
  function Attempts(req: DownloadRequest, env: Env, connected: bool): (ws: seq<Write>)
    ensures ws != [] <==> connected
    ensures forall i :: 0 <= i < |ws| ==> ws[i].id == req.taskId
    ensures forall i :: 0 <= i < |ws| ==> ws[i].fields.Keys <= Written
  {
    if !connected then []
    else
      var id := req.taskId;
      var processing := Write(id, ProcessingFields(env.clock.processingAt), !env.storeFaults.processing);
      var completed := Write(id, CompletedFields(MockFileUrl(id), env.clock.completedAt), !env.storeFaults.completed);
      match env.fault
      case Runs => [processing, completed]
      case Raises(stage, m) =>
        var failed := Write(id, FailedFields(m, env.clock.failedAt), !env.storeFaults.failed);
        match stage
        case Announce => [failed]
        case Retrieve => [processing, failed]
        case Finish => [processing, completed, failed]
  }

  /** The caller's result with the failure branch as evidently intended:
      whatever happened to the store, an exception becomes a 500 whose detail
      carries its message. */
  function Respond(req: DownloadRequest, env: Env): (r: Response)
    ensures r.Created? <==> env.fault.Runs?
    ensures r.Created? ==> r.success && r.status == Completed && r.taskId == req.taskId
                           && r.fileUrl == MockFileUrl(req.taskId)
    ensures env.fault.Raises? ==> r == HttpError(500, FailurePrefix + env.fault.message)
  {
    match env.fault
    case Runs =>
      Created(true, SuccessMessage, req.taskId, Completed, MockFileUrl(req.taskId), env.clock.respondedAt)
    case Raises(_, m) => HttpError(500, FailurePrefix + m)
  }

  /** The caller's result as the handler is written. The inner
      `except Exception as e` around the failed write rebinds `e`, and
      Python deletes that name when the clause ends, so when the failed
      write raises, building the detail from `e` raises again and the
      exception escapes the handler. */
  function RespondAsWritten(req: DownloadRequest, env: Env, connected: bool): (r: Response)
    ensures r.Unhandled? <==> connected && env.fault.Raises? && env.storeFaults.failed
    ensures !r.Unhandled? ==> r == Respond(req, env)
  {
    match env.fault
    case Runs => Respond(req, env)
    case Raises(_, m) =>
      if connected && env.storeFaults.failed then Unhandled else HttpError(500, FailurePrefix + m)
  }

  /** True when the write sets the task's status to `status`. */
  predicate Sets(w: Write, status: string)
  {
    Status in w.fields && w.fields[Status] == Text(status)
  }

  /** The transition to `status` is among the writes `ws`. */
  predicate Attempted(ws: seq<Write>, status: string)
  {
    exists i :: 0 <= i < |ws| && Sets(ws[i], status)
  }

  /** A status's place in the lifecycle; -1 for a write that sets none. */
  function Rank(w: Write): int
  {
    if Sets(w, Processing) then 0
    else if Sets(w, Completed) then 1
    else if Sets(w, Failed) then 2
    else -1
  }

  /** A call leaves every other task's row as it was, adds and removes no
      row, and changes nothing when no row has the task's id. */
  lemma OnlyTheTaskRowChanges(rows: Table, req: DownloadRequest, env: Env, connected: bool)
    ensures Replay(rows, Attempts(req, env, connected)).Keys == rows.Keys
    ensures forall k :: k in rows && k != req.taskId ==>
              Replay(rows, Attempts(req, env, connected))[k] == rows[k]
    ensures req.taskId !in rows ==> Replay(rows, Attempts(req, env, connected)) == rows
  {
    ReplayScoped(rows, Attempts(req, env, connected), req.taskId);
  }

  /** Each transition writes exactly its own columns: processing the status
      and `updated_at`; completed the status, `progress`, `file_url` and
      `completed_at`; failed the status, `error_message` and `updated_at`. */
  lemma TransitionColumns(req: DownloadRequest, env: Env, connected: bool)
    ensures forall i :: 0 <= i < |Attempts(req, env, connected)| ==>
              var w := Attempts(req, env, connected)[i];
              && (Sets(w, Processing) ==> w.fields.Keys == {Status, UpdatedAt})
              && (Sets(w, Completed) ==> w.fields.Keys == {Status, Progress, FileUrl, CompletedAt})
              && (Sets(w, Failed) ==> w.fields.Keys == {Status, ErrorMessage, UpdatedAt})
              && Rank(w) >= 0
  {
  }

  /** The writes of one call follow the lifecycle strictly: processing
      before any terminal write, completed before failed, and no status
      written twice or revisited. */
  lemma LifecycleOrder(req: DownloadRequest, env: Env, connected: bool)
    ensures forall i, j :: 0 <= i < j < |Attempts(req, env, connected)| ==>
              Rank(Attempts(req, env, connected)[i]) < Rank(Attempts(req, env, connected)[j])
  {
  }

  /** Which transitions a call attempts: none without a store handle; with
      one, processing unless the request logging raised, completed exactly
      when the retrieval returned, and failed exactly when something raised. */
  lemma TransitionsAttempted(req: DownloadRequest, env: Env, connected: bool)
    ensures !connected ==> Attempts(req, env, connected) == []
    ensures Attempted(Attempts(req, env, connected), Processing) <==>
              connected && !env.fault.RaisedAt(Announce)
    ensures Attempted(Attempts(req, env, connected), Completed) <==>
              connected && (env.fault.Runs? || env.fault.RaisedAt(Finish))
    ensures Attempted(Attempts(req, env, connected), Failed) <==>
              connected && env.fault.Raises?
  {
    var ws := Attempts(req, env, connected);
    if connected {
      match env.fault
      case Runs =>
        assert Sets(ws[0], Processing) && Sets(ws[1], Completed);
      case Raises(stage, m) =>
        match stage
        case Announce =>
          assert Sets(ws[0], Failed);
        case Retrieve =>
          assert Sets(ws[0], Processing) && Sets(ws[1], Failed);
        case Finish =>
          assert Sets(ws[0], Processing) && Sets(ws[1], Completed) && Sets(ws[2], Failed);
    }
  }

  /** With a store handle a call always attempts a terminal write, and
      exactly one unless an exception is raised after the completed write,
      in which case completed is followed by failed. */
  lemma TerminalWrites(req: DownloadRequest, env: Env)
    ensures Attempted(Attempts(req, env, true), Completed) || Attempted(Attempts(req, env, true), Failed)
    ensures (Attempted(Attempts(req, env, true), Completed) && Attempted(Attempts(req, env, true), Failed))
              <==> env.fault.RaisedAt(Finish)
  {
    TransitionsAttempted(req, env, true);
  }

  /** The task's row after one call with a store handle: the row it had,
      overwritten by the columns of the writes that landed, in order. */
  function FinalRow(rows: Table, req: DownloadRequest, env: Env): (row: Record)
    requires req.taskId in rows
    ensures rows[req.taskId].Keys <= row.Keys
    ensures forall c :: c in row && c !in Written ==> c in rows[req.taskId] && row[c] == rows[req.taskId][c]
  {
    LandedWithin(Attempts(req, env, true), Written);
    rows[req.taskId] + Landed(Attempts(req, env, true))
  }

  /** `FinalRow` is what the store holds for the task after the call. */
  lemma FinalRowIsStored(rows: Table, req: DownloadRequest, env: Env)
    requires req.taskId in rows
    ensures req.taskId in Replay(rows, Attempts(req, env, true))
    ensures Replay(rows, Attempts(req, env, true))[req.taskId] == FinalRow(rows, req, env)
  {
    ReplayRow(rows, Attempts(req, env, true), req.taskId);
  }

  /** The row's column `c` holds `v`. */
  predicate Holds(row: Record, c: Column, v: Value)
  {
    c in row && row[c] == v
  }

  /** The task's row after a successful call with a store handle, as the
      row it had overwritten by the landed processing write and the
      completed write. */
  lemma SuccessRow(rows: Table, req: DownloadRequest, env: Env)
    requires env.fault == Runs && !env.storeFaults.completed && req.taskId in rows
    ensures FinalRow(rows, req, env) ==
              rows[req.taskId]
              + (if env.storeFaults.processing then map[] else ProcessingFields(env.clock.processingAt))
              + CompletedFields(MockFileUrl(req.taskId), env.clock.completedAt)
  {
    var ws := Attempts(req, env, true);
    LandedTwo(ws[0], ws[1]);
  }

  /** The success path with a store handle: once the completed write lands,
      the task's row reads completed, progress 100, the artifact location and
      the completion time, whatever became of the processing write. */
  lemma CompletionIsStored(rows: Table, req: DownloadRequest, env: Env)
    requires env.fault == Runs && !env.storeFaults.completed && req.taskId in rows
    ensures var row := FinalRow(rows, req, env);
      && Holds(row, Status, Text(Completed))
      && Holds(row, Progress, Int(100))
      && Holds(row, FileUrl, Text(MockFileUrl(req.taskId)))
      && Holds(row, CompletedAt, Text(env.clock.completedAt))
  {
    SuccessRow(rows, req, env);
  }

  /** On the success path the row gains only the columns the two writes
      name, and every other column keeps its value. */
  lemma CompletionKeepsOtherColumns(rows: Table, req: DownloadRequest, env: Env)
    requires env.fault == Runs && !env.storeFaults.completed && req.taskId in rows
    ensures var row := FinalRow(rows, req, env);
      && (env.storeFaults.processing ==>
            row.Keys == rows[req.taskId].Keys + {Status, Progress, FileUrl, CompletedAt})
      && (!env.storeFaults.processing ==>
            row.Keys == rows[req.taskId].Keys + {Status, Progress, FileUrl, CompletedAt, UpdatedAt})
      && (forall c :: c in rows[req.taskId] && c !in {Status, Progress, FileUrl, CompletedAt, UpdatedAt} ==>
            row[c] == rows[req.taskId][c])
  {
    SuccessRow(rows, req, env);
  }

  /** The completed write does not refresh `updated_at`: after a successful
      call it holds the processing time if that write landed, and otherwise
      whatever the row held before. */
  lemma CompletionLeavesUpdatedAt(rows: Table, req: DownloadRequest, env: Env)
    requires env.fault == Runs && !env.storeFaults.completed && req.taskId in rows
    ensures UpdatedAt !in CompletedFields(MockFileUrl(req.taskId), env.clock.completedAt)
    ensures var row := FinalRow(rows, req, env);
      && (!env.storeFaults.processing ==> Holds(row, UpdatedAt, Text(env.clock.processingAt)))
      && (env.storeFaults.processing && UpdatedAt in rows[req.taskId] ==>
            Holds(row, UpdatedAt, rows[req.taskId][UpdatedAt]))
      && (env.storeFaults.processing && UpdatedAt !in rows[req.taskId] ==> UpdatedAt !in row)
  {
    SuccessRow(rows, req, env);
  }

  /** On the success path the caller gets the success envelope for its own
      task, and its artifact location is the one the store holds. */
  lemma SuccessAgreesWithStore(rows: Table, req: DownloadRequest, env: Env)
    requires env.fault == Runs && !env.storeFaults.completed && req.taskId in rows
    ensures Respond(req, env).Created?
    ensures Respond(req, env).success && Respond(req, env).status == Completed
    ensures Respond(req, env).taskId == req.taskId
    ensures Holds(FinalRow(rows, req, env), FileUrl, Text(Respond(req, env).fileUrl))
  {
    CompletionIsStored(rows, req, env);
  }

  /** The result depends on the task id and not on the video URL, quality,
      format, media kind or subtitle flag. */
  lemma OnlyTaskIdMatters(req: DownloadRequest, other: DownloadRequest, env: Env, connected: bool)
    requires req.taskId == other.taskId
    ensures Respond(req, env) == Respond(other, env)
    ensures Attempts(req, env, connected) == Attempts(other, env, connected)
  {
  }

  /** The task's row after a call that raised, with a store handle whose
      failed write lands: the row it had, overwritten by whatever earlier
      writes landed and then by the failed write. */
  lemma FailureRow(rows: Table, req: DownloadRequest, env: Env)
    requires env.fault.Raises? && !env.storeFaults.failed && req.taskId in rows
    ensures var ws := Attempts(req, env, true);
      && |ws| > 0
      && FinalRow(rows, req, env) ==
           rows[req.taskId] + Landed(ws[..|ws| - 1]) + FailedFields(env.fault.message, env.clock.failedAt)
  {
    var ws := Attempts(req, env, true);
    var n := |ws| - 1;
    assert ws == ws[..n] + [ws[n]];
    LandedSnoc(ws[..n], ws[n]);
    MergeAssoc(rows[req.taskId], Landed(ws[..n]), Effect(ws[n]));
  }

  /** The failure branch: with a store handle the last write attempted sets
      failed with the exception's message, and once it lands the row reads
      so; the caller gets a 500 carrying the message and never the success
      envelope. */
  lemma FailureIsStoredAndReported(rows: Table, req: DownloadRequest, env: Env)
    requires env.fault.Raises?
    ensures Respond(req, env) == HttpError(500, FailurePrefix + env.fault.message)
    ensures var ws := Attempts(req, env, true);
      && |ws| > 0
      && ws[|ws| - 1].fields == FailedFields(env.fault.message, env.clock.failedAt)
      && ws[|ws| - 1].lands == !env.storeFaults.failed
    ensures !env.storeFaults.failed && req.taskId in rows ==>
      var row := FinalRow(rows, req, env);
      && Holds(row, Status, Text(Failed))
      && Holds(row, ErrorMessage, Text(env.fault.message))
      && Holds(row, UpdatedAt, Text(env.clock.failedAt))
  {
    if !env.storeFaults.failed && req.taskId in rows {
      FailureRow(rows, req, env);
    }
  }

  /** `error_message` is the exception's text verbatim, so an exception
      raised without a message stores the empty text and the detail is the
      bare prefix. */
  lemma EmptyErrorMessageStored(rows: Table, req: DownloadRequest, env: Env)
    requires env.fault.Raises? && env.fault.message == ""
    requires !env.storeFaults.failed && req.taskId in rows
    ensures Holds(FinalRow(rows, req, env), ErrorMessage, Text(""))
    ensures Respond(req, env) == HttpError(500, FailurePrefix)
  {
    FailureIsStoredAndReported(rows, req, env);
  }

  /** The handle's absence and store failures never change what the caller
      receives: only the retrieval outcome does. */
  lemma StoreNeverDecidesTheResponse(req: DownloadRequest, env: Env, faults: StoreFaults)
    ensures Respond(req, env) == Respond(req, env.(storeFaults := faults))
    ensures Attempts(req, env, false) == []
    ensures RespondAsWritten(req, env, false) == Respond(req, env)
    ensures faults.failed == env.storeFaults.failed ==>
              RespondAsWritten(req, env, true) == RespondAsWritten(req, env.(storeFaults := faults), true)
  {
  }

  /** A row that carries no artifact location and no error message ends
      with exactly the one that its terminal status calls for, provided the
      terminal write lands and nothing raises after the completed write. */
  lemma FreshRowEndsConsistent(rows: Table, req: DownloadRequest, env: Env)
    requires req.taskId in rows
    requires FileUrl !in rows[req.taskId] && ErrorMessage !in rows[req.taskId]
    requires !env.fault.RaisedAt(Finish)
    requires env.fault.Runs? ==> !env.storeFaults.completed
    requires env.fault.Raises? ==> !env.storeFaults.failed
    ensures var row := FinalRow(rows, req, env);
      && (Holds(row, Status, Text(Completed)) <==> FileUrl in row)
      && (Holds(row, Status, Text(Failed)) <==> ErrorMessage in row)
      && (FileUrl in row <==> ErrorMessage !in row)
  {
    if env.fault.Runs? {
      SuccessRow(rows, req, env);
    } else {
      FailureRow(rows, req, env);
      var ws := Attempts(req, env, true);
      if env.fault.stage == Retrieve {
        assert ws[..1] == [ws[0]];
        LandedOne(ws[0]);
      } else {
        assert ws[..0] == [];
      }
    }
  }

  /** A reused task id keeps the error message of an earlier failure after
      a successful run: no write clears it. */
  lemma StaleErrorMessageSurvives(rows: Table, req: DownloadRequest, env: Env)
    requires req.taskId in rows && ErrorMessage in rows[req.taskId]
    requires env.fault == Runs && !env.storeFaults.completed
    ensures var row := FinalRow(rows, req, env);
      && Holds(row, Status, Text(Completed))
      && Holds(row, FileUrl, Text(MockFileUrl(req.taskId)))
      && Holds(row, ErrorMessage, rows[req.taskId][ErrorMessage])
  {
    SuccessRow(rows, req, env);
  }

  /** An exception after the completed write leaves a failed row that still
      carries the artifact location and progress 100. */
  lemma FailureAfterCompletionKeepsFileUrl(rows: Table, req: DownloadRequest, env: Env)
    requires req.taskId in rows
    requires env.fault.RaisedAt(Finish)
    requires !env.storeFaults.completed && !env.storeFaults.failed
    ensures var row := FinalRow(rows, req, env);
      && Holds(row, Status, Text(Failed))
      && Holds(row, ErrorMessage, Text(env.fault.message))
      && Holds(row, FileUrl, Text(MockFileUrl(req.taskId)))
      && Holds(row, Progress, Int(100))
  {
    FailureRow(rows, req, env);
    var ws := Attempts(req, env, true);
    assert ws[..2] == [ws[0], ws[1]];
    LandedTwo(ws[0], ws[1]);
  }

  /** The handler as written answers as intended except in one case: an
      exception with a store handle whose failed write also raises, where the
      caller gets a bare 500 without the message. */
  lemma AsWrittenLosesDetail(req: DownloadRequest, env: Env, connected: bool)
    ensures RespondAsWritten(req, env, connected) == Respond(req, env) <==>
              !(connected && env.fault.Raises? && env.storeFaults.failed)
    ensures connected && env.fault.Raises? && env.storeFaults.failed ==>
              RespondAsWritten(req, env, connected) == Unhandled
  {
  }

  /** The store-down scenario: retrieval raises "unsupported codec" and the
      failed write raises too. */
  lemma UnsupportedCodecWithStoreDown(clock: Clock)
    ensures var req := ParseRequest("abc123", "https://example.com/v", Some("720p"), Some("mp4"), None, None);
      var env := Env(Raises(Retrieve, "unsupported codec"), StoreFaults(true, true, true), clock);
      && RespondAsWritten(req, env, true) == Unhandled
      && Respond(req, env) == HttpError(500, "下载失败: unsupported codec")
  {
  }

  /** The handler `create_download`. The store handle may be absent. */
  method CreateDownload(store: Store?, req: DownloadRequest, env: Env) returns (resp: Response)
    requires store != null ==> store.Valid()
    modifies store
    ensures resp == Respond(req, env)
    ensures store != null ==> store.Valid()
    ensures store != null ==> store.log == old(store.log) + Attempts(req, env, true)
    ensures store != null ==> store.rows == Replay(old(store.rows), Attempts(req, env, true))
  {
    var id := req.taskId;
    var caught: string;
    // The outer `try`.
    if env.fault.Raises? && env.fault.stage == Announce {
      caught := env.fault.message;
    } else {
      if store != null {
        var landed := store.Update(id, ProcessingFields(env.clock.processingAt), env.storeFaults.processing);
      }
      if env.fault.Raises? && env.fault.stage == Retrieve {
        caught := env.fault.message;
      } else {
        var fileUrl := MockFileUrl(id);
        if store != null {
          var landed := store.Update(id, CompletedFields(fileUrl, env.clock.completedAt), env.storeFaults.completed);
        }
        if env.fault.Raises? {
          caught := env.fault.message;
        } else {
          resp := Created(true, SuccessMessage, id, Completed, fileUrl, env.clock.respondedAt);
          if store != null {
            ReplayAppend(store.initial, old(store.log), Attempts(req, env, true));
          }
          return;
        }
      }
    }
    // The outer `except`.
    if store != null {
      var landed := store.Update(id, FailedFields(caught, env.clock.failedAt), env.storeFaults.failed);
      ReplayAppend(store.initial, old(store.log), Attempts(req, env, true));
    }
    resp := HttpError(500, FailurePrefix + caught);
  }

  /** Both status endpoints report a connected store exactly when a download
      call sends writes to it. */
  lemma ConnectedMeansWrites(store: Store?, now: Timestamp, req: DownloadRequest, env: Env)
    ensures Root(store).supabaseConnected == HealthCheck(store, now).supabaseConnected
    ensures HealthCheck(store, now).supabaseConnected <==> Attempts(req, env, store != null) != []
  {
  }

  /** A caller's view: a request with only its required fields, against a
      store that holds the task's row and answers every write. */
  method CompletedScenario(rows: Table, taskId: string, videoUrl: string, clock: Clock)
    requires taskId in rows
  {
    var req := ParseRequest(taskId, videoUrl, None, None, None, None);
    var env := Env(Runs, StoreFaults(false, false, false), clock);
    var store := new Store(rows);
    var resp := CreateDownload(store, req, env);
    SuccessAgreesWithStore(rows, req, env);
    FinalRowIsStored(rows, req, env);
    assert resp.Created? && resp.taskId == taskId;
    assert Holds(store.rows[taskId], FileUrl, Text(resp.fileUrl));
  }
}
