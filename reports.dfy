/**
 * The report endpoints (backend/api/reports.py): creation with best-effort
 * upload and classification, the background ledger task, lookup and
 * verification.  Storage, classifier and ledger are parameters.
 */
module Reports {
  import opened Wrappers
  import opened Models
  import opened Tables
  import Infer
  import Text

  /** An `HTTPException`; `detail` is None where it is the text of a caught exception. */
  datatype HttpError = HttpError(status: int, detail: Option<string>)

  /** A call that `BackgroundTasks.add_task` queues, with the dict it is given. */
  datatype Task = LogToBlockchain(report: Report) | NotifyAuthorities(report: Report)

  /** FastAPI's background-task list: tasks run after the response, in order. */
  class BackgroundTasks {
    var tasks: seq<Task>

    constructor ()
      ensures tasks == []
    {
      tasks := [];
    }

    method AddTask(t: Task)
      modifies this
      ensures tasks == old(tasks) + [t]
    {
      tasks := tasks + [t];
    }
  }

  /**
   * The storage helpers: `upload_file(bytes, name, bucket)` succeeds or not, and
   * `get_public_url(name, bucket)`; a bucket of None is the helpers' default.
   */
  datatype Storage = Storage(
    upload: (seq<bv8>, string, Option<string>) -> bool,
    publicUrl: (string, Option<string>) -> string)

  /** What the insert into `reports` does: the database assigns id and creation time. */
  datatype InsertOutcome = Inserted(id: string, createdAt: string) | NoData | InsertRaised

  /** The multipart form of POST /reports. */
  datatype ReportForm = ReportForm(
    userId: string,
    latitude: real,
    longitude: real,
    description: string,
    severity: int,
    fileName: string,
    fileBytes: seq<bv8>)

  /** `ai_result` after the classification step. */
  datatype AiResult = AiResult(aiClass: Option<string>, confidence: real)

  /** Confidence from which the authorities are notified. */
  const NotifyThreshold: real := 0.90

  /** `f"{user_id}_{file.filename}"` */
  function PhotoName(form: ReportForm): string {
    form.userId + "_" + form.fileName
  }

  /** `photo_url`: the public URL when the upload succeeded. */
  function UploadedPhoto(storage: Storage, form: ReportForm): (photo: Option<string>)
    ensures photo.Some? <==> storage.upload(form.fileBytes, PhotoName(form), None)
  {
    if storage.upload(form.fileBytes, PhotoName(form), None) then Some(storage.publicUrl(PhotoName(form), None)) else None
  }

  /** Python truthiness of `photo_url`. */
  predicate Truthy(photo: Option<string>) {
    photo.Some? && photo.value != ""
  }

  /** The classification step; None stands for `predict_image` raising. */
  function AiResultOf(prediction: Option<Infer.Prediction>): (ai: AiResult)
    ensures prediction.None? ==> ai.aiClass.None? && ai.confidence == 0.0
    ensures prediction.Some? ==>
      ai.aiClass == Some(prediction.value.className) && ai.confidence == prediction.value.confidence
  {
    match prediction
    case None => AiResult(None, 0.0)
    case Some(p) => AiResult(Some(p.className), p.confidence)
  }

  /** The row the database holds after the insert: the payload plus id and creation time. */
  function StoredRow(form: ReportForm, ai: AiResult, id: string, createdAt: string): Report {
    Report(form.userId, form.latitude, form.longitude, form.description, form.severity, id, createdAt,
           photoUrl := None, aiClass := ai.aiClass, aiConfidence := Some(ai.confidence), status := "pending")
  }

  /** The tasks one successful creation queues for the returned report. */
  function Scheduled(report: Report, confidence: real): (ts: seq<Task>)
    ensures 1 <= |ts| <= 2 && ts[0] == LogToBlockchain(report)
    ensures |ts| == 2 <==> confidence >= NotifyThreshold
    ensures |ts| == 2 ==> ts[1] == NotifyAuthorities(report)
  {
    [LogToBlockchain(report)] + if confidence >= NotifyThreshold then [NotifyAuthorities(report)] else []
  }

  /** The insert returns a row, under an id not used before. */
  predicate InsertSucceeds(insert: InsertOutcome, reports: map<string, Report>) {
    insert.Inserted? && insert.id !in reports
  }

  /**
   * `create_report`.  A failure after the insert answers 500 but leaves the
   * inserted row in place; tasks are queued only on success.
   */
  method CreateReport(
    db: Database, background: BackgroundTasks, form: ReportForm,
    storage: Storage, classify: seq<bv8> -> Option<Infer.Prediction>,
    insert: InsertOutcome, photoInsertOk: bool)
    returns (res: Result<Report, HttpError>)
    requires db.Valid()
    modifies db, background
    ensures db.Valid()
    ensures var ai := AiResultOf(classify(form.fileBytes));
      if InsertSucceeds(insert, old(db.reports)) then
        && db.reports == old(db.reports)[insert.id := StoredRow(form, ai, insert.id, insert.createdAt)]
        && db.reportIds == old(db.reportIds) + [insert.id]
      else
        db.reports == old(db.reports) && db.reportIds == old(db.reportIds)
    ensures var photo := UploadedPhoto(storage, form);
      db.photos == if InsertSucceeds(insert, old(db.reports)) && Truthy(photo) && photoInsertOk
                   then old(db.photos) + [PhotoRow(insert.id, photo.value)] else old(db.photos)
    ensures db.blockchainLogs == old(db.blockchainLogs) && db.cleanupActions == old(db.cleanupActions)
    ensures var photo := UploadedPhoto(storage, form);
      res.Ok? <==> InsertSucceeds(insert, old(db.reports)) && (Truthy(photo) ==> photoInsertOk)
    ensures res.Ok? ==>
      var ai := AiResultOf(classify(form.fileBytes));
      var photo := UploadedPhoto(storage, form);
      var row := StoredRow(form, ai, insert.id, insert.createdAt);
      && res.value == (if Truthy(photo) then row.(photoUrl := photo) else row)
      && background.tasks == old(background.tasks) + Scheduled(res.value, ai.confidence)
    ensures res.Err? ==> res.error.status == 500 && background.tasks == old(background.tasks)
  {
    var photo := UploadedPhoto(storage, form);
    var ai := AiResultOf(classify(form.fileBytes));
    if !InsertSucceeds(insert, db.reports) {
      // an empty insert raises an HTTPException that the outer handler re-wraps as the text of the exception
      return Err(HttpError(500, None));
    }
    var row := StoredRow(form, ai, insert.id, insert.createdAt);
    db.InsertReport(row);
    var response := row;
    if Truthy(photo) {
      if !photoInsertOk {
        return Err(HttpError(500, None));
      }
      db.photos := db.photos + [PhotoRow(insert.id, photo.value)];
      response := row.(photoUrl := photo);
    }
    background.AddTask(LogToBlockchain(response));
    if ai.confidence >= NotifyThreshold {
      background.AddTask(NotifyAuthorities(response));
    }
    return Ok(response);
  }

  /** What hashing the report and writing the hash to the ledger gives. */
  datatype LedgerOutcome = LedgerRaised | TxReturned(tx: Option<string>)

  /** `tx_hash and tx_hash.startswith("0x")` */
  predicate IsTxHash(tx: Option<string>) {
    tx.Some? && tx.value != "" && Text.StartsWith(tx.value, "0x")
  }

  /** The `blockchain_logs` rows one run of the ledger task adds. */
  function LedgerRows(report: Report, outcome: LedgerOutcome, insertOk: bool): (rows: seq<LedgerLog>)
    ensures |rows| <= 1
    ensures |rows| == 1 <==> outcome.TxReturned? && IsTxHash(outcome.tx) && insertOk
    ensures |rows| == 1 ==> rows[0] == LedgerLog(report.id, outcome.tx.value) && Text.StartsWith(rows[0].txHash, "0x")
  {
    if outcome.TxReturned? && IsTxHash(outcome.tx) && insertOk then [LedgerLog(report.id, outcome.tx.value)] else []
  }

  /** `log_report_to_blockchain`: every failure is swallowed. */
  method LogReportToBlockchain(db: Database, report: Report, anchor: Report -> LedgerOutcome, insertOk: bool)
    modifies db
    ensures db.blockchainLogs == old(db.blockchainLogs) + LedgerRows(report, anchor(report), insertOk)
    ensures db.reports == old(db.reports) && db.reportIds == old(db.reportIds)
    ensures db.photos == old(db.photos) && db.cleanupActions == old(db.cleanupActions)
  {
    var outcome := anchor(report);
    if outcome.TxReturned? && IsTxHash(outcome.tx) && insertOk {
      db.blockchainLogs := db.blockchainLogs + [LedgerLog(report.id, outcome.tx.value)];
    }
  }

  /** `get_reports`: every stored row once, in storage order. */
  function GetReports(reports: map<string, Report>, reportIds: seq<string>): (rows: seq<Report>)
    requires KeyedById(reports) && ListsKeys(reports, reportIds)
    ensures forall k | k in reports :: reports[k] in rows
    ensures forall r | r in rows :: r.id in reports && reports[r.id] == r
    ensures forall i, j | 0 <= i < j < |rows| :: rows[i].id != rows[j].id
  {
    var rows := RowsOf(reports, reportIds);
    assert forall k | k in reports :: reports[k] in rows by {
      forall k | k in reports ensures reports[k] in rows {
        var i :| 0 <= i < |reportIds| && reportIds[i] == k;
        assert rows[i] == reports[k];
      }
    }
    rows
  }

  /** `get_report`: the row with that id, or 404. */
  function GetReport(reports: map<string, Report>, id: string): (r: Result<Report, HttpError>)
    requires KeyedById(reports)
    ensures r.Ok? ==> r.value.id == id && r.value in reports.Values
    ensures r.Err? <==> forall k | k in reports :: reports[k].id != id
    ensures r.Err? ==> r.error == HttpError(404, Some("Report not found"))
  {
    if id in reports then Ok(reports[id]) else Err(HttpError(404, Some("Report not found")))
  }

  /** The table after `update({"status": "verified"}).eq("id", id)`. */
  function MarkVerified(reports: map<string, Report>, id: string): (r: map<string, Report>)
    ensures r.Keys == reports.Keys
    ensures forall k | k in reports && k != id :: r[k] == reports[k]
    ensures id in reports ==> r[id].status == "verified"
  {
    if id in reports then reports[id := reports[id].(status := "verified")] else reports
  }

  /** Verification changes the status and no other field of the row. */
  lemma MarkVerifiedKeepsFields(reports: map<string, Report>, id: string)
    requires KeyedById(reports) && id in reports
    ensures KeyedById(MarkVerified(reports, id))
    ensures var row, was := MarkVerified(reports, id)[id], reports[id];
      CreateFields(row) == CreateFields(was) && row.id == was.id && row.createdAt == was.createdAt
      && row.aiClass == was.aiClass && row.aiConfidence == was.aiConfidence && row.blockchainTx == was.blockchainTx
  {
  }

  /** Verifying twice is verifying once. */
  lemma MarkVerifiedIdempotent(reports: map<string, Report>, id: string)
    ensures MarkVerified(MarkVerified(reports, id), id) == MarkVerified(reports, id)
  {
  }

  /** `verify_report`: the updated rows are returned (none for an unknown id). */
  method VerifyReport(db: Database, id: string) returns (updated: seq<Report>)
    requires db.Valid()
    modifies db
    ensures db.Valid()
    ensures db.reports == MarkVerified(old(db.reports), id) && db.reportIds == old(db.reportIds)
    ensures updated == if id in old(db.reports) then [db.reports[id]] else []
    ensures db.photos == old(db.photos) && db.blockchainLogs == old(db.blockchainLogs)
    ensures db.cleanupActions == old(db.cleanupActions)
  {
    if id in db.reports {
      MarkVerifiedKeepsFields(db.reports, id);
    }
    db.reports := MarkVerified(db.reports, id);
    updated := if id in db.reports then [db.reports[id]] else [];
  }

  /** A report's confidence exactly at the threshold notifies; anything below does not. */
  lemma NotifyThresholdIsInclusive(report: Report, c: real)
    ensures |Scheduled(report, NotifyThreshold)| == 2
    ensures c < NotifyThreshold ==> |Scheduled(report, c)| == 1
  {
  }

  /** A failed classification stores ai_class None and ai_confidence 0.0, and never notifies. */
  lemma FailedClassificationDefaults(form: ReportForm, id: string, createdAt: string)
    ensures var row := StoredRow(form, AiResultOf(None), id, createdAt);
      row.aiClass.None? && row.aiConfidence == Some(0.0) && row.status == "pending"
    ensures Scheduled(StoredRow(form, AiResultOf(None), id, createdAt), AiResultOf(None).confidence)
         == [LogToBlockchain(StoredRow(form, AiResultOf(None), id, createdAt))]
  {
  }

  /**
   * The inserted row is "pending", copies the submitted fields unchanged and
   * never carries the photo URL (the column is not written).
   */
  lemma StoredRowCopiesForm(form: ReportForm, ai: AiResult, id: string, createdAt: string)
    ensures var row := StoredRow(form, ai, id, createdAt);
      && row.status == "pending" && row.photoUrl.None?
      && row.userId == form.userId && row.latitude == form.latitude && row.longitude == form.longitude
      && row.description == form.description && row.severity == form.severity
      && row.aiClass == ai.aiClass && row.aiConfidence == Some(ai.confidence)
  {
  }

  /** In demo mode every created report also notifies the authorities. */
  lemma DemoModeAlwaysNotifies(
    form: ReportForm, demoMode: bool, envValue: Option<string>, mlAvailable: bool,
    predictor: seq<bv8> -> Infer.PredictorOutcome, draw: Infer.DemoDraw, report: Report)
    requires Infer.IsDraw(draw) && Infer.DemoModeOn(demoMode, envValue)
    ensures var p := Infer.PredictImage(form.fileBytes, demoMode, envValue, mlAvailable, predictor, draw);
      Scheduled(report, AiResultOf(Some(p)).confidence)
        == [LogToBlockchain(report), NotifyAuthorities(report)]
  {
    var p := Infer.PredictImage(form.fileBytes, demoMode, envValue, mlAvailable, predictor, draw);
    assert p.confidence >= Infer.DemoLow;
  }
}
