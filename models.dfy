/**
 * The request and response records of the backend (backend/db/models.py),
 * with the defaults their optional fields take when a value leaves them out.
 */
module Models {
  import opened Wrappers

  /** A registered user; the role defaults to "citizen". */
  datatype User = User(id: string, email: string, name: string, role: string := "citizen")

  /** The fields a citizen submits for a new report. */
  datatype ReportCreate = ReportCreate(
    userId: string,
    latitude: real,
    longitude: real,
    description: string,
    severity: int,
    photoUrl: Option<string> := None)

  /**
   * A stored report: every field of ReportCreate, then the identifier, the
   * classifier's verdict, the lifecycle status, the creation time and the
   * ledger transaction.  Fields that may be left out come last.
   */
  datatype Report = Report(
    userId: string,
    latitude: real,
    longitude: real,
    description: string,
    severity: int,
    id: string,
    createdAt: string,
    photoUrl: Option<string> := None,
    aiClass: Option<string> := None,
    aiConfidence: Option<real> := None,
    status: string := "pending",
    blockchainTx: Option<string> := None)

  /** A cleanup action that an actor starts on a report; notes are optional. */
  datatype CleanupCreate = CleanupCreate(reportId: string, actorId: string, notes: Option<string> := None)

  /** Evidence of a finished cleanup. */
  datatype EvidenceUpload = EvidenceUpload(reportId: string, imageUrl: string)

  /** The ReportCreate part of a Report (Report subclasses ReportCreate). */
  function CreateFields(r: Report): ReportCreate {
    ReportCreate(r.userId, r.latitude, r.longitude, r.description, r.severity, r.photoUrl)
  }

  /** `Report(**create, id=id, created_at=createdAt)`: every other field takes its default. */
  function ReportFrom(c: ReportCreate, id: string, createdAt: string): Report {
    Report(c.userId, c.latitude, c.longitude, c.description, c.severity, id, createdAt, photoUrl := c.photoUrl)
  }

  /**
   * A Report built from a ReportCreate keeps every submitted field, and its
   * optional fields default to None while the status defaults to "pending".
   */
  lemma ReportDefaults(c: ReportCreate, id: string, createdAt: string)
    ensures CreateFields(ReportFrom(c, id, createdAt)) == c
    ensures var r := ReportFrom(c, id, createdAt);
      r.id == id && r.createdAt == createdAt && r.status == "pending"
      && r.aiClass.None? && r.aiConfidence.None? && r.blockchainTx.None?
  {
  }

  /** Without an explicit photo the optional photo reference is None. */
  lemma ReportCreateDefaults(userId: string, lat: real, lng: real, description: string, severity: int)
    ensures ReportCreate(userId, lat, lng, description, severity).photoUrl.None?
  {
  }

  /** The role of a user defaults to "citizen"; cleanup notes default to None. */
  lemma UserAndCleanupDefaults(id: string, email: string, name: string, reportId: string, actorId: string)
    ensures User(id, email, name).role == "citizen"
    ensures CleanupCreate(reportId, actorId).notes.None?
  {
  }
}
