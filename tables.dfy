/**
 * The Supabase tables that the report and cleanup handlers read and write,
 * held in one object whose fields the handlers update in place.
 */
module Tables {
  import opened Wrappers
  import opened Models

  /** A row of `photos`: the public URL of a report's uploaded image. */
  datatype PhotoRow = PhotoRow(reportId: string, url: string)

  /** A row of `blockchain_logs`: the ledger transaction that anchored a report. */
  datatype LedgerLog = LedgerLog(reportId: string, txHash: string)

  /** A row of `cleanup_actions`; `evidence_urls` is absent until evidence arrives. */
  datatype CleanupAction = CleanupAction(
    id: string,
    reportId: string,
    actorId: string,
    status: string,
    evidenceUrls: Option<seq<string>>)

  /** Every report is stored under its own id. */
  predicate KeyedById(reports: map<string, Report>) {
    forall k | k in reports :: reports[k].id == k
  }

  /** `order` lists every key of `reports` exactly once. */
  predicate ListsKeys(reports: map<string, Report>, order: seq<string>) {
    && (forall i | 0 <= i < |order| :: order[i] in reports)
    && (forall k | k in reports :: k in order)
    && (forall i, j | 0 <= i < j < |order| :: order[i] != order[j])
  }

  /** The rows named by `ids`, in that order. */
  function RowsOf(reports: map<string, Report>, ids: seq<string>): (rows: seq<Report>)
    requires forall i | 0 <= i < |ids| :: ids[i] in reports
    ensures |rows| == |ids|
    ensures forall i | 0 <= i < |ids| :: rows[i] == reports[ids[i]]
  {
    if ids == [] then [] else RowsOf(reports, ids[..|ids| - 1]) + [reports[ids[|ids| - 1]]]
  }

  class Database {
    /** `reports`, keyed by the row id the database assigns */
    var reports: map<string, Report>
    /** the ids of `reports` in the order the rows were inserted */
    var reportIds: seq<string>
    /** `photos`, in insertion order */
    var photos: seq<PhotoRow>
    /** `blockchain_logs`, in insertion order */
    var blockchainLogs: seq<LedgerLog>
    /** `cleanup_actions`, in insertion order */
    var cleanupActions: seq<CleanupAction>

    ghost predicate Valid()
      reads this
    {
      KeyedById(reports) && ListsKeys(reports, reportIds)
    }

    constructor ()
      ensures Valid()
      ensures reports == map[] && reportIds == [] && photos == [] && blockchainLogs == [] && cleanupActions == []
    {
      reports := map[];
      reportIds := [];
      photos := [];
      blockchainLogs := [];
      cleanupActions := [];
    }

    /** An insert into `reports` under a fresh id. */
    method InsertReport(row: Report)
      requires Valid() && row.id !in reports
      modifies this
      ensures Valid()
      ensures reports == old(reports)[row.id := row] && reportIds == old(reportIds) + [row.id]
      ensures photos == old(photos) && blockchainLogs == old(blockchainLogs) && cleanupActions == old(cleanupActions)
    {
      ListsKeysSnoc(reports, reportIds, row);
      reports := reports[row.id := row];
      reportIds := reportIds + [row.id];
    }
  }

  /** Appending a fresh key keeps the order listing every key once. */
  lemma ListsKeysSnoc(reports: map<string, Report>, order: seq<string>, row: Report)
    requires ListsKeys(reports, order) && row.id !in reports
    ensures ListsKeys(reports[row.id := row], order + [row.id])
  {
    var o := order + [row.id];
    forall i, j | 0 <= i < j < |o| ensures o[i] != o[j] {
      if j == |order| {
        assert o[i] == order[i] && order[i] in reports;
      }
    }
  }
}
