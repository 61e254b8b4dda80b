/**
 * The cleanup endpoints (backend/api/cleanup.py): starting a cleanup action
 * on a report and completing it with photographic evidence.
 */
module Cleanup {
  import opened Wrappers
  import opened Tables
  import opened Reports

  const EvidenceBucket: string := "evidence"

  /** `f"evidence_{report_id}_{file.filename}"` */
  function EvidenceName(reportId: string, fileName: string): string {
    "evidence_" + reportId + "_" + fileName
  }

  /** `update(...).eq("report_id", reportId)` applied to `cleanup_actions`, row by row. */
  function CompleteActions(actions: seq<CleanupAction>, reportId: string, url: string): (r: seq<CleanupAction>)
    ensures |r| == |actions|
    ensures forall i | 0 <= i < |actions| && actions[i].reportId != reportId :: r[i] == actions[i]
    ensures forall i | 0 <= i < |actions| && actions[i].reportId == reportId ::
      r[i].status == "completed" && r[i].evidenceUrls == Some([url])
  {
    seq(|actions|, i requires 0 <= i < |actions| =>
      if actions[i].reportId == reportId then actions[i].(status := "completed", evidenceUrls := Some([url]))
      else actions[i])
  }

  /** The rows of `actions` that belong to `reportId`, in order (what the update returns). */
  function RowsFor(actions: seq<CleanupAction>, reportId: string): (r: seq<CleanupAction>)
    ensures forall a | a in r :: a in actions && a.reportId == reportId
    ensures forall a | a in actions && a.reportId == reportId :: a in r
  {
    if actions == [] then [] else
      var last := actions[|actions| - 1];
      RowsFor(actions[..|actions| - 1], reportId) + (if last.reportId == reportId then [last] else [])
  }

  /** Completing a row keeps its id, report and actor. */
  lemma CompleteKeepsIdentity(actions: seq<CleanupAction>, reportId: string, url: string, i: nat)
    requires i < |actions|
    ensures var r := CompleteActions(actions, reportId, url)[i];
      r.id == actions[i].id && r.reportId == actions[i].reportId && r.actorId == actions[i].actorId
  {
  }

  /**
   * Earlier evidence is discarded: completing with `url2` after `url1` leaves
   * exactly what completing with `url2` alone leaves.
   */
  lemma CompleteOverwritesEvidence(actions: seq<CleanupAction>, reportId: string, url1: string, url2: string)
    ensures CompleteActions(CompleteActions(actions, reportId, url1), reportId, url2)
         == CompleteActions(actions, reportId, url2)
  {
  }

  /** `start_cleanup`: one row with status "in_progress"; None for `newId` is an insert that raised. */
  method StartCleanup(db: Database, reportId: string, actorId: string, newId: Option<string>)
    returns (res: Result<seq<CleanupAction>, HttpError>)
    modifies db
    ensures newId.None? ==> res.Err? && res.error.status == 500 && db.cleanupActions == old(db.cleanupActions)
    ensures newId.Some? ==>
      var row := CleanupAction(newId.value, reportId, actorId, "in_progress", None);
      res == Ok([row]) && db.cleanupActions == old(db.cleanupActions) + [row]
    ensures db.reports == old(db.reports) && db.reportIds == old(db.reportIds)
    ensures db.photos == old(db.photos) && db.blockchainLogs == old(db.blockchainLogs)
  {
    if newId.None? {
      return Err(HttpError(500, None));
    }
    var row := CleanupAction(newId.value, reportId, actorId, "in_progress", None);
    db.cleanupActions := db.cleanupActions + [row];
    return Ok([row]);
  }

  /** `upload_evidence`: a failed upload answers 500 and changes nothing. */
  method UploadEvidence(db: Database, reportId: string, fileName: string, fileBytes: seq<bv8>, storage: Storage)
    returns (res: Result<seq<CleanupAction>, HttpError>)
    modifies db
    ensures var name := EvidenceName(reportId, fileName);
      if !storage.upload(fileBytes, name, Some(EvidenceBucket)) then
        res == Err(HttpError(500, Some("Upload failed"))) && db.cleanupActions == old(db.cleanupActions)
      else
        var url := storage.publicUrl(name, Some(EvidenceBucket));
        && db.cleanupActions == CompleteActions(old(db.cleanupActions), reportId, url)
        && res == Ok(RowsFor(db.cleanupActions, reportId))
    ensures db.reports == old(db.reports) && db.reportIds == old(db.reportIds)
    ensures db.photos == old(db.photos) && db.blockchainLogs == old(db.blockchainLogs)
  {
    var name := EvidenceName(reportId, fileName);
    if !storage.upload(fileBytes, name, Some(EvidenceBucket)) {
      return Err(HttpError(500, Some("Upload failed")));
    }
    var url := storage.publicUrl(name, Some(EvidenceBucket));
    db.cleanupActions := CompleteActions(db.cleanupActions, reportId, url);
    return Ok(RowsFor(db.cleanupActions, reportId));
  }

  /** Every row `upload_evidence` returns is completed and carries only the new URL. */
  lemma {:induction false} ReturnedRowsCompleted(actions: seq<CleanupAction>, reportId: string, url: string)
    ensures forall a | a in RowsFor(CompleteActions(actions, reportId, url), reportId) ::
      a.status == "completed" && a.evidenceUrls == Some([url])
  {
    var done := CompleteActions(actions, reportId, url);
    forall a | a in RowsFor(done, reportId)
      ensures a.status == "completed" && a.evidenceUrls == Some([url])
    {
      var i :| 0 <= i < |done| && done[i] == a;
      assert actions[i].reportId == reportId;
    }
  }
}
