/** The dashboard page's hotspot labelling (frontend/src/pages/Dashboard.tsx). */
module DashboardPage {
  import Dashboard

  datatype RiskLabel = Low | Medium | High | Critical

  /** `getStatusFromSeverity(severity)` */
  function StatusFromSeverity(severity: real): (l: RiskLabel)
    ensures l == Critical <==> severity >= 80.0
    ensures l == High <==> 60.0 <= severity < 80.0
    ensures l == Medium <==> 40.0 <= severity < 60.0
    ensures l == Low <==> severity < 40.0
  {
    if severity >= 80.0 then Critical
    else if severity >= 60.0 then High
    else if severity >= 40.0 then Medium
    else Low
  }

  function Rank(l: RiskLabel): nat {
    match l
    case Low => 0
    case Medium => 1
    case High => 2
    case Critical => 3
  }

  /** A higher severity never gets a milder label. */
  lemma StatusMonotone(a: real, b: real)
    requires a <= b
    ensures Rank(StatusFromSeverity(a)) <= Rank(StatusFromSeverity(b))
  {
  }

  /** Negative severities are Low, like every value below 40. */
  lemma NegativeIsLow(s: real)
    requires s < 0.0
    ensures StatusFromSeverity(s) == Low
  {
  }

  /** The first hotspot of a non-empty heatmap always reads Critical. */
  lemma HeatmapTopIsCritical(rows: seq<Dashboard.Row>)
    requires rows != []
    ensures var out := Dashboard.SortDesc(Dashboard.HeatPoints(rows));
      |out| >= 1 && StatusFromSeverity(out[0].severity as real) == Critical
  {
    Dashboard.HeatmapMeaning(rows);
  }
}
