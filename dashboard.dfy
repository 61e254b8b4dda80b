/**
 * The dashboard aggregation handlers (backend/api/dashboard.py).  Each one
 * receives the rows its Supabase query returned, or None when the query
 * raised, and folds over them.
 */
module Dashboard {
  import opened Wrappers
  import Text
  import opened Counting
  import opened Reports

  /** A row of `reports` as the dashboard queries see it; `location` and the coordinates may be absent. */
  datatype Row = Row(
    userId: string,
    createdAt: string,
    description: string,
    status: string,
    location: Option<string>,
    latitude: Option<real>,
    longitude: Option<real>)

  // ---------------------------------------------------------------- stats

  datatype Stats = Stats(totalReports: nat, activeUsers: nat, resolvedReports: nat, avgResponseTime: string)

  const FallbackStats: Stats := Stats(0, 0, 0, "N/A")

  /** `.eq("status", "resolved")`: an exact, case-sensitive match. */
  function ResolvedExactly(r: Row): int {
    if r.status == "resolved" then 0 else -1
  }

  /** `set([r["user_id"] for r in data])` */
  function UserIds(rows: seq<Row>): set<string> {
    set i | 0 <= i < |rows| :: rows[i].userId
  }

  /** `get_dashboard_stats`; the three counts are read from one snapshot of the table. */
  function GetDashboardStats(result: Option<seq<Row>>): (s: Stats)
    ensures result.None? ==> s == FallbackStats
    ensures result.Some? ==> s.avgResponseTime == "2.5 days"
  {
    match result
    case None => FallbackStats
    case Some(rows) => Stats(|rows|, |UserIds(rows)|, CountIn(rows, ResolvedExactly, 0), "2.5 days")
  }

  lemma {:induction false} UserIdsBound(rows: seq<Row>)
    ensures |UserIds(rows)| <= |rows|
    ensures |rows| > 0 ==> |UserIds(rows)| >= 1
  {
    if rows != [] {
      var init := rows[..|rows| - 1];
      UserIdsBound(init);
      assert UserIds(rows) == UserIds(init) + {rows[|rows| - 1].userId} by {
        forall u | u in UserIds(rows) ensures u in UserIds(init) + {rows[|rows| - 1].userId} {
          var i :| 0 <= i < |rows| && rows[i].userId == u;
          if i < |rows| - 1 { assert init[i] == rows[i]; }
        }
        forall u | u in UserIds(init) ensures u in UserIds(rows) {
          var i :| 0 <= i < |init| && init[i].userId == u;
          assert rows[i] == init[i];
        }
      }
    }
  }

  lemma {:induction false} CountInBound<T>(s: seq<T>, bucket: T -> int, k: int)
    ensures CountIn(s, bucket, k) <= |s|
  {
    if s != [] { CountInBound(s[..|s| - 1], bucket, k); }
  }

  /**
   * Resolved reports and active users never exceed the total, and a
   * non-empty table has at least one active user.
   */
  lemma StatsBounds(result: Option<seq<Row>>)
    ensures var s := GetDashboardStats(result);
      s.resolvedReports <= s.totalReports && s.activeUsers <= s.totalReports
      && (s.totalReports > 0 ==> s.activeUsers >= 1)
    ensures result.Some? ==> GetDashboardStats(result).totalReports == |result.value|
  {
    if result.Some? {
      UserIdsBound(result.value);
      CountInBound(result.value, ResolvedExactly, 0);
    }
  }

  /** A status that differs from "resolved" only in case is not counted as resolved. */
  lemma ResolvedIsCaseSensitive(r: Row)
    requires r.status == "Resolved"
    ensures GetDashboardStats(Some([r])).resolvedReports == 0
  {
    assert r.status[0] == 'R';
    assert ResolvedExactly(r) == -1;
    assert [r][..0] == [];
    assert CountIn([r], ResolvedExactly, 0) == CountIn([r][..0], ResolvedExactly, 0);
  }

  // ------------------------------------------------------------- timeline

  datatype TimelineEntry = TimelineEntry(date: string, count: nat)

  /** `created_at.split("T")[0]` */
  function DatePart(createdAt: string): string {
    Text.Before(createdAt, 'T')
  }

  /** A Python dict from date string to count, in insertion order. */
  datatype DateCount = DateCount(date: string, count: nat)

  /** `date_counts.get(date, 0)` */
  function Lookup(d: seq<DateCount>, date: string): nat {
    if d == [] then 0 else if d[0].date == date then d[0].count else Lookup(d[1..], date)
  }

  /** `date_counts[date] = date_counts.get(date, 0) + 1` */
  function Increment(d: seq<DateCount>, date: string): (r: seq<DateCount>)
    ensures Lookup(r, date) == Lookup(d, date) + 1
    ensures forall other | other != date :: Lookup(r, other) == Lookup(d, other)
  {
    if d == [] then [DateCount(date, 1)]
    else if d[0].date == date then [DateCount(date, d[0].count + 1)] + d[1..]
    else [d[0]] + Increment(d[1..], date)
  }

  /** How many rows were created on `date`. */
  function CountOn(rows: seq<Row>, date: string): nat {
    if rows == [] then 0 else CountOn(rows[..|rows| - 1], date) + (if DatePart(rows[|rows| - 1].createdAt) == date then 1 else 0)
  }

  /**
   * `get_reports_timeline(days)`: one entry per day, oldest first;
   * `dateOf(k)` is the date string of the day k days before today.
   */
  method GetReportsTimeline(result: Option<seq<Row>>, days: int, dateOf: nat -> string)
    returns (timeline: seq<TimelineEntry>)
    ensures result.None? ==> timeline == []
    ensures result.Some? ==> |timeline| == (if days > 0 then days else 0)
    ensures result.Some? ==> forall i | 0 <= i < |timeline| ::
      timeline[i].date == dateOf(days - 1 - i) && timeline[i].count == CountOn(result.value, timeline[i].date)
  {
    if result.None? {
      return [];
    }
    var rows := result.value;
    var dateCounts: seq<DateCount> := [];
    var j := 0;
    while j < |rows|
      invariant 0 <= j <= |rows|
      invariant forall date :: Lookup(dateCounts, date) == CountOn(rows[..j], date)
    {
      assert rows[..j + 1][..j] == rows[..j];
      dateCounts := Increment(dateCounts, DatePart(rows[j].createdAt));
      j := j + 1;
    }
    assert rows[..|rows|] == rows;
    timeline := [];
    var i := 0;
    while i < days
      invariant 0 <= i <= (if days > 0 then days else 0) && |timeline| == i
      invariant forall k | 0 <= k < i ::
        timeline[k].date == dateOf(days - 1 - k) && timeline[k].count == CountOn(rows, timeline[k].date)
    {
      var date := dateOf(days - i - 1);
      timeline := timeline + [TimelineEntry(date, Lookup(dateCounts, date))];
      i := i + 1;
    }
  }

  /** Every row falls on at most one date: two distinct dates together count no more rows than there are. */
  lemma {:induction false} CountOnDays(rows: seq<Row>, date: string, other: string)
    requires date != other
    ensures CountOn(rows, date) + CountOn(rows, other) <= |rows|
  {
    if rows != [] {
      CountOnDays(rows[..|rows| - 1], date, other);
    }
  }

  // -------------------------------------------------------------- by type

  /** The keys of `type_counts`, in dict order. */
  const PollutionTypes: seq<string> :=
    ["Plastic Pollution", "Oil Spill", "Sewage Overflow", "Industrial Discharge",
     "Chemical Contamination", "Agricultural Runoff", "Other"]

  const OtherIndex: nat := 6

  datatype NameValue = NameValue(name: string, value: nat)

  /** The first index at or after `from` whose name occurs in `desc`, or `|names|`. */
  function FirstMatchFrom(desc: string, names: seq<string>, from: nat): (k: nat)
    requires from <= |names|
    ensures from <= k <= |names|
    ensures k < |names| ==> Text.Contains(desc, names[k])
    ensures forall j | from <= j < k :: !Text.Contains(desc, names[j])
    decreases |names| - from
  {
    if from == |names| then |names|
    else if Text.Contains(desc, names[from]) then from
    else FirstMatchFrom(desc, names, from + 1)
  }

  /** The loop over names with `break` at the first one that occurs in `desc`. */
  method FirstContained(desc: string, names: seq<string>) returns (k: nat, found: bool)
    ensures found <==> exists i | 0 <= i < |names| :: Text.Contains(desc, names[i])
    ensures found ==> k < |names| && k == FirstMatchFrom(desc, names, 0)
  {
    k := 0;
    found := false;
    while k < |names|
      invariant k <= |names|
      invariant forall j | 0 <= j < k :: !Text.Contains(desc, names[j])
    {
      if Text.Contains(desc, names[k]) {
        found := true;
        break;
      }
      k := k + 1;
    }
  }

  /**
   * The category a description is counted in: the first key in dict order
   * that occurs in it, and "Other" when none does.
   */
  function TypeIndex(desc: string): (k: nat)
    ensures k < |PollutionTypes|
    ensures k < OtherIndex ==> Text.Contains(desc, PollutionTypes[k])
    ensures forall j | 0 <= j < k :: !Text.Contains(desc, PollutionTypes[j])
    ensures k == OtherIndex <==> forall j | 0 <= j < OtherIndex :: !Text.Contains(desc, PollutionTypes[j])
  {
    var k := FirstMatchFrom(desc, PollutionTypes, 0);
    if k == |PollutionTypes| then OtherIndex else k
  }

  function TypeBucket(r: Row): int {
    TypeIndex(r.description)
  }

  /** `[{"name": k, "value": v} for k, v in type_counts.items() if v > 0]` */
  function NonZero(names: seq<string>, counts: seq<nat>): (out: seq<NameValue>)
    requires |names| == |counts|
    ensures |out| <= |names|
    ensures forall e | e in out :: e.value > 0 && e.name in names
  {
    if names == [] then []
    else
      var n := |names| - 1;
      NonZero(names[..n], counts[..n]) + (if counts[n] > 0 then [NameValue(names[n], counts[n])] else [])
  }

  /** The positions of the positive counters, in key order. */
  function PositiveAt(counts: seq<nat>): (idx: seq<nat>)
    ensures forall i | 0 <= i < |idx| :: idx[i] < |counts| && counts[idx[i]] > 0
    ensures forall i, j | 0 <= i < j < |idx| :: idx[i] < idx[j]
    ensures forall k | 0 <= k < |counts| && counts[k] > 0 :: k in idx
  {
    if counts == [] then []
    else
      var n := |counts| - 1;
      var front := PositiveAt(counts[..n]);
      assert forall k | 0 <= k < n :: counts[..n][k] == counts[k];
      front + (if counts[n] > 0 then [n] else [])
  }

  /**
   * The chart keeps exactly the positive categories, each with its own name
   * and count, in key order.
   */
  lemma {:induction false} NonZeroMeaning(names: seq<string>, counts: seq<nat>)
    requires |names| == |counts|
    ensures var out, idx := NonZero(names, counts), PositiveAt(counts);
      && |out| == |idx|
      && forall i | 0 <= i < |out| :: idx[i] < |names| && out[i] == NameValue(names[idx[i]], counts[idx[i]])
  {
    if names != [] {
      var n := |names| - 1;
      NonZeroMeaning(names[..n], counts[..n]);
      var front := NonZero(names[..n], counts[..n]);
      var fi := PositiveAt(counts[..n]);
      var out := NonZero(names, counts);
      var idx := PositiveAt(counts);
      assert out == front + (if counts[n] > 0 then [NameValue(names[n], counts[n])] else []);
      assert idx == fi + (if counts[n] > 0 then [n] else []);
      forall i | 0 <= i < |out|
        ensures idx[i] < |names| && out[i] == NameValue(names[idx[i]], counts[idx[i]])
      {
        if i < |front| {
          assert out[i] == front[i] && idx[i] == fi[i];
          assert names[..n][fi[i]] == names[fi[i]] && counts[..n][fi[i]] == counts[fi[i]];
        }
      }
    }
  }

  function SumValues(out: seq<NameValue>): nat {
    if out == [] then 0 else SumValues(out[..|out| - 1]) + out[|out| - 1].value
  }

  lemma {:induction false} NonZeroSum(names: seq<string>, counts: seq<nat>)
    requires |names| == |counts|
    ensures SumValues(NonZero(names, counts)) == Sum(counts)
  {
    if names != [] {
      var n := |names| - 1;
      NonZeroSum(names[..n], counts[..n]);
      var init := NonZero(names[..n], counts[..n]);
      if counts[n] > 0 {
        assert (init + [NameValue(names[n], counts[n])])[..|init|] == init;
      } else {
        assert init + [] == init;
      }
    }
  }

  /** `get_reports_by_type` */
  method GetReportsByType(result: Option<seq<Row>>) returns (out: seq<NameValue>)
    ensures result.None? ==> out == []
    ensures result.Some? ==> out == NonZero(PollutionTypes, Tally(result.value, TypeBucket, |PollutionTypes|))
    ensures result.Some? ==> SumValues(out) == |result.value|
  {
    if result.None? {
      return [];
    }
    var rows := result.value;
    var counts := TypeCounts(rows);
    out := NonZero(PollutionTypes, counts);
    TallyCoversAll(rows, TypeBucket, |PollutionTypes|);
    NonZeroSum(PollutionTypes, counts);
  }

  /** The counting loop of `get_reports_by_type`. */
  method TypeCounts(rows: seq<Row>) returns (counts: seq<nat>)
    ensures counts == Tally(rows, TypeBucket, |PollutionTypes|)
  {
    counts := seq(|PollutionTypes|, _ => 0);
    var i := 0;
    while i < |rows|
      invariant 0 <= i <= |rows|
      invariant counts == Tally(rows[..i], TypeBucket, |PollutionTypes|)
    {
      var k := RowType(rows[i]);
      TallyStep(rows, i, TypeBucket, |PollutionTypes|, counts, k);
      counts := counts[k := counts[k] + 1];
      i := i + 1;
    }
    assert rows[..|rows|] == rows;
  }

  /** The body of the by-type loop for one row: the first key its description contains, else "Other". */
  method RowType(r: Row) returns (k: nat)
    ensures k == TypeBucket(r) && k < |PollutionTypes|
  {
    var found;
    k, found := FirstContained(r.description, PollutionTypes);
    if !found {
      k := OtherIndex;
    }
  }

  /** Each report is counted in exactly one category, that of its first matching key. */
  lemma ByTypeCountsOnce(rows: seq<Row>, k: nat)
    requires k < |PollutionTypes|
    ensures Tally(rows, TypeBucket, |PollutionTypes|)[k] == CountIn(rows, TypeBucket, k)
    ensures Sum(Tally(rows, TypeBucket, |PollutionTypes|)) == |rows|
  {
    TallyAt(rows, TypeBucket, |PollutionTypes|, k);
    TallyCoversAll(rows, TypeBucket, |PollutionTypes|);
  }

  /** Matching follows dict order: a description naming two types counts under the earlier key. */
  lemma TypePrecedence(desc: string, a: nat, b: nat)
    requires a < b < OtherIndex
    requires Text.Contains(desc, PollutionTypes[a]) && Text.Contains(desc, PollutionTypes[b])
    ensures TypeIndex(desc) <= a && TypeIndex(desc) != b
  {
  }

  // ------------------------------------------------------------ by status

  /** The keys of `status_counts`. */
  const StatusKeys: seq<string> := ["pending", "investigating", "resolved"]

  /** The dict key a status is counted under, or -1 when it has none. */
  function StatusBucket(r: Row): int {
    var s := Text.Lower(r.status);
    if s == StatusKeys[0] then 0 else if s == StatusKeys[1] then 1 else if s == StatusKeys[2] then 2 else -1
  }

  datatype StatusCount = StatusCount(status: string, count: nat)

  const StatusLabels: seq<string> := ["Pending", "Investigating", "Resolved"]

  /** `get_reports_by_status`: always the three buckets, in this order. */
  method GetReportsByStatus(result: Option<seq<Row>>) returns (out: seq<StatusCount>)
    ensures result.None? ==> out == []
    ensures result.Some? ==> |out| == 3 && forall k | 0 <= k < 3 ::
      out[k].status == StatusLabels[k] && out[k].count == CountIn(result.value, StatusBucket, k)
    ensures result.Some? ==> out[0].count + out[1].count + out[2].count
                             + CountOutside(result.value, StatusBucket, 3) == |result.value|
  {
    if result.None? {
      return [];
    }
    var rows := result.value;
    var counts: seq<nat> := [0, 0, 0];
    var i := 0;
    while i < |rows|
      invariant 0 <= i <= |rows|
      invariant counts == Tally(rows[..i], StatusBucket, 3)
    {
      var k := RowStatus(rows[i]);
      TallyStep(rows, i, StatusBucket, 3, counts, k);
      if 0 <= k {
        counts := counts[k := counts[k] + 1];
      }
      i := i + 1;
    }
    assert rows[..|rows|] == rows;
    out := [StatusCount("Pending", counts[0]), StatusCount("Investigating", counts[1]),
            StatusCount("Resolved", counts[2])];
    TallyAt(rows, StatusBucket, 3, 0);
    TallyAt(rows, StatusBucket, 3, 1);
    TallyAt(rows, StatusBucket, 3, 2);
    TallySum(rows, StatusBucket, 3);
    SumOfThree(counts);
  }

  /** The bucket of one row, as the handler's `if`/`elif` chain picks it. */
  method RowStatus(r: Row) returns (k: int)
    ensures k == StatusBucket(r) && -1 <= k < 3
  {
    var status := Text.Lower(r.status);
    k := -1;
    if status == StatusKeys[0] {
      k := 0;
    } else if status == StatusKeys[1] {
      k := 1;
    } else if status == StatusKeys[2] {
      k := 2;
    }
  }

  /** A "verified" report is in none of the three buckets, so the counts can fall short of the row count. */
  lemma VerifiedNotCounted(r: Row)
    requires r.status == "verified"
    ensures StatusBucket(r) == -1
    ensures CountOutside([r], StatusBucket, 3) == 1
  {
    assert Text.Lower(r.status)[0] == 'v';
    assert [r][..0] == [];
  }

  /** Statuses differing only in case share a bucket. */
  lemma StatusIgnoresCase(r: Row, s: Row)
    requires Text.Lower(r.status) == Text.Lower(s.status)
    ensures StatusBucket(r) == StatusBucket(s)
  {
  }

  // ------------------------------------------------- severity distribution

  const CriticalTypes: seq<string> := ["Oil Spill", "Chemical Contamination", "Industrial Discharge"]
  const HighTypes: seq<string> := ["Sewage Overflow", "Plastic Pollution"]
  const MediumTypes: seq<string> := ["Agricultural Runoff"]

  predicate AnyIn(desc: string, names: seq<string>) {
    exists i | 0 <= i < |names| :: Text.Contains(desc, names[i])
  }

  /** Level indices: 0 Critical, 1 High, 2 Medium, 3 Low. */
  const SeverityNames: seq<string> := ["Critical", "High", "Medium", "Low"]
  const SeverityFills: seq<string> := ["#ef4444", "#f59e0b", "#eab308", "#10b981"]

  /**
   * The level a report is counted under: by the most severe type group its
   * description names, and otherwise Medium for a pending report and Low for any other.
   */
  function SeverityLevel(desc: string, status: string): (level: nat)
    ensures level < 4
    ensures level == 0 <==> AnyIn(desc, CriticalTypes)
    ensures level == 1 <==> !AnyIn(desc, CriticalTypes) && AnyIn(desc, HighTypes)
    ensures level == 3 <==>
      !AnyIn(desc, CriticalTypes) && !AnyIn(desc, HighTypes) && !AnyIn(desc, MediumTypes)
      && Text.Lower(status) != "pending"
  {
    if AnyIn(desc, CriticalTypes) then 0
    else if AnyIn(desc, HighTypes) then 1
    else if AnyIn(desc, MediumTypes) then 2
    else if Text.Lower(status) == "pending" then 2
    else 3
  }

  function SeverityBucket(r: Row): int {
    SeverityLevel(r.description, r.status)
  }

  datatype SeverityEntry = SeverityEntry(name: string, value: nat, fill: string)

  /** `get_severity_distribution`: four fixed entries whose values add up to the row count. */
  method GetSeverityDistribution(result: Option<seq<Row>>) returns (out: seq<SeverityEntry>)
    ensures result.None? ==> out == []
    ensures result.Some? ==> |out| == 4 && forall k | 0 <= k < 4 ::
      out[k] == SeverityEntry(SeverityNames[k], CountIn(result.value, SeverityBucket, k), SeverityFills[k])
    ensures result.Some? ==> out[0].value + out[1].value + out[2].value + out[3].value == |result.value|
  {
    if result.None? {
      return [];
    }
    var rows := result.value;
    var counts: seq<nat> := [0, 0, 0, 0];
    var i := 0;
    while i < |rows|
      invariant 0 <= i <= |rows|
      invariant counts == Tally(rows[..i], SeverityBucket, 4)
    {
      var severity := RowSeverity(rows[i]);
      TallyStep(rows, i, SeverityBucket, 4, counts, severity);
      counts := counts[severity := counts[severity] + 1];
      i := i + 1;
    }
    assert rows[..|rows|] == rows;
    out := [];
    var k := 0;
    while k < 4
      invariant 0 <= k <= 4 && |out| == k
      invariant forall j | 0 <= j < k :: out[j] == SeverityEntry(SeverityNames[j], counts[j], SeverityFills[j])
    {
      out := out + [SeverityEntry(SeverityNames[k], counts[k], SeverityFills[k])];
      k := k + 1;
    }
    forall j | 0 <= j < 4 ensures counts[j] == CountIn(rows, SeverityBucket, j) {
      TallyAt(rows, SeverityBucket, 4, j);
    }
    TallyCoversAll(rows, SeverityBucket, 4);
    SumOfFour(counts);
  }

  /** The body of the severity loop for one row: the type groups by precedence, then the pending default. */
  method RowSeverity(r: Row) returns (severity: nat)
    ensures severity == SeverityBucket(r) && severity < 4
  {
    var desc := r.description;
    var status := Text.Lower(r.status);
    severity := 3;
    var _, critical := FirstContained(desc, CriticalTypes);
    if critical {
      severity := 0;
    }
    if severity == 3 {
      var _, high := FirstContained(desc, HighTypes);
      if high {
        severity := 1;
      }
    }
    if severity == 3 {
      var _, medium := FirstContained(desc, MediumTypes);
      if medium {
        severity := 2;
      }
    }
    if status == "pending" && severity == 3 {
      severity := 2;
    }
  }

  /**
   * The severity levels agree with the type counted by `get_reports_by_type`:
   * a report counted as Oil Spill, Industrial Discharge or Chemical
   * Contamination is Critical, and one counted as Other is Medium when
   * pending and Low otherwise.
   */
  lemma SeverityAgreesWithType(desc: string, status: string)
    ensures TypeIndex(desc) in {1, 3, 4} ==> SeverityLevel(desc, status) == 0
    ensures TypeIndex(desc) == OtherIndex ==>
      SeverityLevel(desc, status) == (if Text.Lower(status) == "pending" then 2 else 3)
  {
    var k := TypeIndex(desc);
    if k == 1 { assert Text.Contains(desc, CriticalTypes[0]); }
    if k == 3 { assert Text.Contains(desc, CriticalTypes[2]); }
    if k == 4 { assert Text.Contains(desc, CriticalTypes[1]); }
    if k == OtherIndex {
      assert !AnyIn(desc, CriticalTypes) by {
        assert !Text.Contains(desc, PollutionTypes[1]) && !Text.Contains(desc, PollutionTypes[3]);
        assert !Text.Contains(desc, PollutionTypes[4]);
      }
      assert !AnyIn(desc, HighTypes) by {
        assert !Text.Contains(desc, PollutionTypes[0]) && !Text.Contains(desc, PollutionTypes[2]);
      }
      assert !AnyIn(desc, MediumTypes) by {
        assert !Text.Contains(desc, PollutionTypes[5]);
      }
    }
  }

  // ------------------------------------------- grouping by a key, in first-seen order

  /**
   * An entry of a Python dict built while scanning rows: its key, the row
   * that created it, how many rows it has seen and how many of them were resolved.
   */
  datatype Group = Group(key: string, first: Row, reports: nat, resolved: nat)

  /** `report["status"].lower() == "resolved"` */
  predicate IsResolved(r: Row) {
    Text.Lower(r.status) == "resolved"
  }

  /** The position of `key` among the groups, or `|gs|` (`key not in d`). */
  function FindKey(gs: seq<Group>, key: string): (i: nat)
    ensures i <= |gs|
    ensures i < |gs| ==> gs[i].key == key
    ensures forall j | 0 <= j < i :: gs[j].key != key
  {
    if gs == [] then 0 else if gs[0].key == key then 0 else 1 + FindKey(gs[1..], key)
  }

  /** One step of the scan: count `r` under `key`, creating the entry on first sight. */
  function AddRow(gs: seq<Group>, key: string, r: Row): seq<Group> {
    var i := FindKey(gs, key);
    var hit := if IsResolved(r) then 1 else 0;
    if i < |gs| then gs[i := gs[i].(reports := gs[i].reports + 1, resolved := gs[i].resolved + hit)]
    else gs + [Group(key, r, 1, hit)]
  }

  /** The dict after scanning all rows, `keys[i]` being the key of `rows[i]`. */
  function GroupBy(rows: seq<Row>, keys: seq<string>): seq<Group>
    requires |rows| == |keys|
  {
    if rows == [] then []
    else AddRow(GroupBy(rows[..|rows| - 1], keys[..|keys| - 1]), keys[|keys| - 1], rows[|rows| - 1])
  }

  /** How many of `keys` equal `key`. */
  function Occurrences(keys: seq<string>, key: string): nat {
    if keys == [] then 0 else Occurrences(keys[..|keys| - 1], key) + (if keys[|keys| - 1] == key then 1 else 0)
  }

  /** How many rows under `key` are resolved. */
  function ResolvedUnder(rows: seq<Row>, keys: seq<string>, key: string): nat
    requires |rows| == |keys|
  {
    if rows == [] then 0 else
      var n := |rows| - 1;
      ResolvedUnder(rows[..n], keys[..n], key) + (if keys[n] == key && IsResolved(rows[n]) then 1 else 0)
  }

  function TotalReports(gs: seq<Group>): nat {
    if gs == [] then 0 else TotalReports(gs[..|gs| - 1]) + gs[|gs| - 1].reports
  }

  lemma {:induction false} TotalReportsUpdate(gs: seq<Group>, i: nat, g: Group)
    requires i < |gs|
    ensures TotalReports(gs[i := g]) + gs[i].reports == TotalReports(gs) + g.reports
  {
    var n := |gs| - 1;
    if i < n {
      TotalReportsUpdate(gs[..n], i, g);
      assert gs[i := g][..n] == gs[..n][i := g];
    } else {
      assert gs[i := g][..n] == gs[..n];
    }
  }

  /** The entry keys are distinct: each key has one entry. */
  predicate DistinctKeys(gs: seq<Group>) {
    forall i, j | 0 <= i < j < |gs| :: gs[i].key != gs[j].key
  }

  lemma AddRowShape(gs: seq<Group>, key: string, r: Row)
    ensures var hs := AddRow(gs, key, r);
      && FindKey(gs, key) == |gs| ==> |hs| == |gs| + 1 && hs[..|gs|] == gs && hs[|gs|].key == key && hs[|gs|].first == r
    ensures var hs := AddRow(gs, key, r);
      FindKey(gs, key) < |gs| ==> |hs| == |gs| && forall i | 0 <= i < |gs| :: hs[i].key == gs[i].key && hs[i].first == gs[i].first
  {
  }

  lemma {:induction false} GroupByDistinct(rows: seq<Row>, keys: seq<string>)
    requires |rows| == |keys|
    ensures DistinctKeys(GroupBy(rows, keys))
  {
    if rows != [] {
      var n := |rows| - 1;
      GroupByDistinct(rows[..n], keys[..n]);
      AddRowShape(GroupBy(rows[..n], keys[..n]), keys[n], rows[n]);
    }
  }

  /** Every row's key has an entry. */
  lemma {:induction false} GroupByCovers(rows: seq<Row>, keys: seq<string>)
    requires |rows| == |keys|
    ensures forall j | 0 <= j < |keys| :: FindKey(GroupBy(rows, keys), keys[j]) < |GroupBy(rows, keys)|
  {
    if rows != [] {
      var n := |rows| - 1;
      var ks := keys[..n];
      GroupByCovers(rows[..n], ks);
      var gs := GroupBy(rows[..n], ks);
      var hs := GroupBy(rows, keys);
      AddRowShape(gs, keys[n], rows[n]);
      forall j | 0 <= j < |keys| ensures FindKey(hs, keys[j]) < |hs| {
        if j < n {
          assert ks[j] == keys[j];
          assert hs[FindKey(gs, ks[j])].key == keys[j];
        } else if FindKey(gs, keys[n]) < |gs| {
          assert hs[FindKey(gs, keys[n])].key == keys[n];
        } else {
          assert hs[|gs|].key == keys[n];
        }
      }
    }
  }

  /** The entry counts add up to the number of rows. */
  lemma {:induction false} GroupByTotal(rows: seq<Row>, keys: seq<string>)
    requires |rows| == |keys|
    ensures TotalReports(GroupBy(rows, keys)) == |rows|
  {
    if rows != [] {
      var n := |rows| - 1;
      GroupByTotal(rows[..n], keys[..n]);
      var gs := GroupBy(rows[..n], keys[..n]);
      var hs := AddRow(gs, keys[n], rows[n]);
      assert GroupBy(rows, keys) == hs;
      var i := FindKey(gs, keys[n]);
      if i < |gs| {
        var hit := if IsResolved(rows[n]) then 1 else 0;
        var g := gs[i].(reports := gs[i].reports + 1, resolved := gs[i].resolved + hit);
        assert hs == gs[i := g];
        TotalReportsUpdate(gs, i, g);
      } else {
        assert hs[..|hs| - 1] == gs;
        assert TotalReports(hs) == TotalReports(gs) + 1;
      }
    }
  }

  /**
   * Entry i counts exactly the rows under its key, at least one, and how
   * many of them are resolved, never more than it counts.
   */
  lemma {:induction false} GroupByCountAt(rows: seq<Row>, keys: seq<string>, i: nat)
    requires |rows| == |keys|
    requires i < |GroupBy(rows, keys)|
    ensures var g := GroupBy(rows, keys)[i];
      && g.reports == Occurrences(keys, g.key) && g.reports >= 1
      && g.resolved == ResolvedUnder(rows, keys, g.key) && g.resolved <= g.reports
  {
    var n := |rows| - 1;
    var rs, ks := rows[..n], keys[..n];
    var gs := GroupBy(rs, ks);
    var hs := AddRow(gs, keys[n], rows[n]);
    assert GroupBy(rows, keys) == hs;
    var k := FindKey(gs, keys[n]);
    if i < |gs| {
      GroupByCountAt(rs, ks, i);
      GroupByDistinct(rs, ks);
      assert hs[i].key == gs[i].key;
      if i != k {
        assert gs[i].key != keys[n];
        assert hs[i] == gs[i];
      }
    } else {
      NoOccurrence(rs, ks, keys[n]);
      assert hs[i] == Group(keys[n], rows[n], 1, if IsResolved(rows[n]) then 1 else 0);
    }
  }

  /** A key without an entry does not occur among the keys. */
  lemma NoOccurrence(rows: seq<Row>, keys: seq<string>, key: string)
    requires |rows| == |keys|
    requires FindKey(GroupBy(rows, keys), key) == |GroupBy(rows, keys)|
    ensures Occurrences(keys, key) == 0 && ResolvedUnder(rows, keys, key) == 0
    ensures forall j | 0 <= j < |keys| :: keys[j] != key
  {
    GroupByCovers(rows, keys);
    var gs := GroupBy(rows, keys);
    forall j | 0 <= j < |keys| ensures keys[j] != key {
      assert FindKey(gs, keys[j]) < |gs|;
    }
    Absent(rows, keys, key);
  }

  lemma {:induction false} Absent(rows: seq<Row>, keys: seq<string>, key: string)
    requires |rows| == |keys|
    requires forall j | 0 <= j < |keys| :: keys[j] != key
    ensures Occurrences(keys, key) == 0 && ResolvedUnder(rows, keys, key) == 0
  {
    if rows != [] {
      var n := |rows| - 1;
      Absent(rows[..n], keys[..n], key);
    }
  }

  /** The index of the first row under `key`. */
  function FirstIndex(keys: seq<string>, key: string): (j: nat)
    ensures j <= |keys|
    ensures j < |keys| ==> keys[j] == key
    ensures forall i | 0 <= i < j :: keys[i] != key
  {
    if keys == [] then 0 else if keys[0] == key then 0 else 1 + FirstIndex(keys[1..], key)
  }

  lemma {:induction false} FirstIndexPrefix(keys: seq<string>, key: string)
    requires keys != []
    ensures FirstIndex(keys[..|keys| - 1], key) < |keys| - 1 ==>
      FirstIndex(keys, key) == FirstIndex(keys[..|keys| - 1], key)
    ensures FirstIndex(keys[..|keys| - 1], key) == |keys| - 1 ==>
      FirstIndex(keys, key) == (if keys[|keys| - 1] == key then |keys| - 1 else |keys|)
  {
    var g := FirstIndex(keys[..|keys| - 1], key);
    assert forall i | 0 <= i < |keys| - 1 :: keys[..|keys| - 1][i] == keys[i];
    if g < |keys| - 1 {
      assert keys[g] == key;
    }
  }

  /** Each entry keeps the row that first produced its key. */
  lemma {:induction false} GroupByFirst(rows: seq<Row>, keys: seq<string>, i: nat)
    requires |rows| == |keys|
    requires i < |GroupBy(rows, keys)|
    ensures var g := GroupBy(rows, keys)[i];
      FirstIndex(keys, g.key) < |rows| && g.first == rows[FirstIndex(keys, g.key)]
  {
    var n := |rows| - 1;
    var rs, ks := rows[..n], keys[..n];
    var gs := GroupBy(rs, ks);
    var hs := GroupBy(rows, keys);
    AddRowShape(gs, keys[n], rows[n]);
    if i < |gs| {
      GroupByFirst(rs, ks, i);
      FirstIndexPrefix(keys, gs[i].key);
      assert rows[FirstIndex(ks, gs[i].key)] == rs[FirstIndex(ks, gs[i].key)];
    } else {
      NoOccurrence(rs, ks, keys[n]);
      assert FirstIndex(ks, keys[n]) == n;
      FirstIndexPrefix(keys, keys[n]);
    }
  }

  // -------------------------------------------------------------- heatmap

  /**
   * `report.get("location", "Unknown")`, where `None` stands for a row
   * without a `location` key. A key holding JSON null is not represented:
   * the source groups such a row under `None`, not under "Unknown".
   */
  function LocationOf(r: Row): string {
    r.location.GetOr("Unknown")
  }

  /** `lat if lat else 0`: an absent or zero coordinate becomes 0. */
  function Coordinate(x: Option<real>): real {
    if x.Some? && x.value != 0.0 then x.value else 0.0
  }

  function Locations(rows: seq<Row>): (keys: seq<string>)
    ensures |keys| == |rows| && forall i | 0 <= i < |rows| :: keys[i] == LocationOf(rows[i])
  {
    seq(|rows|, i requires 0 <= i < |rows| => LocationOf(rows[i]))
  }

  datatype HeatPoint = HeatPoint(location: string, lat: real, lng: real, reports: nat, severity: int)

  /** `max(...)` over the group counts, or 1 without groups. */
  function MaxReports(gs: seq<Group>): (m: nat)
    ensures m >= 1 || (gs != [] && forall i | 0 <= i < |gs| :: gs[i].reports == 0)
    ensures forall i | 0 <= i < |gs| :: gs[i].reports <= m
    ensures gs != [] ==> exists i | 0 <= i < |gs| :: gs[i].reports == m
    ensures gs == [] ==> m == 1
  {
    if gs == [] then 1
    else if |gs| == 1 then gs[0].reports
    else
      var m := MaxReports(gs[1..]);
      if gs[0].reports >= m then gs[0].reports else m
  }

  /** `min(100, int((count / max) * 100))`, in exact arithmetic. */
  function SeverityOf(count: nat, max: nat): (s: int)
    requires max >= 1
    ensures 0 <= s <= 100
    ensures s == 100 <==> count >= max
  {
    var p := count * 100 / max;
    if p < 100 then p else 100
  }

  function PointOf(g: Group, max: nat): HeatPoint
    requires max >= 1
  {
    HeatPoint(g.key, Coordinate(g.first.latitude), Coordinate(g.first.longitude), g.reports, SeverityOf(g.reports, max))
  }

  /** `heatmap_data` before sorting, one point per location in first-seen order. */
  function HeatPoints(rows: seq<Row>): (pts: seq<HeatPoint>)
  {
    var gs := GroupBy(rows, Locations(rows));
    var m := MaxReports(gs);
    if m == 0 then [] // cannot happen: every group has counted a row
    else seq(|gs|, i requires 0 <= i < |gs| => PointOf(gs[i], m))
  }

  /** Insert before the first point whose severity is not greater: ties keep their order. */
  function InsertDesc(x: HeatPoint, s: seq<HeatPoint>): seq<HeatPoint> {
    if s == [] then [x]
    else if s[0].severity <= x.severity then [x] + s
    else [s[0]] + InsertDesc(x, s[1..])
  }

  /** `list.sort(key=severity, reverse=True)`: a stable sort, highest severity first. */
  function SortDesc(s: seq<HeatPoint>): seq<HeatPoint> {
    if s == [] then [] else InsertDesc(s[0], SortDesc(s[1..]))
  }

  predicate SortedDesc(s: seq<HeatPoint>) {
    forall i, j | 0 <= i < j < |s| :: s[i].severity >= s[j].severity
  }

  /** The points of a given severity, in order. */
  function WithSeverity(s: seq<HeatPoint>, v: int): seq<HeatPoint> {
    if s == [] then [] else (if s[0].severity == v then [s[0]] else []) + WithSeverity(s[1..], v)
  }

  lemma {:induction false} InsertDescPerm(x: HeatPoint, s: seq<HeatPoint>)
    ensures multiset(InsertDesc(x, s)) == multiset(s) + multiset{x}
  {
    if s != [] && s[0].severity > x.severity {
      InsertDescPerm(x, s[1..]);
      assert s == [s[0]] + s[1..];
    }
  }

  lemma {:induction false} InsertDescSorted(x: HeatPoint, s: seq<HeatPoint>)
    requires SortedDesc(s)
    ensures SortedDesc(InsertDesc(x, s))
  {
    if s != [] && s[0].severity > x.severity {
      InsertDescSorted(x, s[1..]);
      var r := InsertDesc(x, s[1..]);
      forall i | 0 <= i < |s[1..]| ensures s[1..][i].severity <= s[0].severity {
        assert s[1..][i] == s[i + 1];
      }
      InsertDescBelow(x, s[1..], s[0].severity);
      ConsSorted(s[0], r);
    }
  }

  /** Inserting a point no higher than a bound into points no higher than it keeps them all below it. */
  lemma InsertDescBelow(x: HeatPoint, s: seq<HeatPoint>, top: int)
    requires x.severity <= top && forall i | 0 <= i < |s| :: s[i].severity <= top
    ensures forall i | 0 <= i < |InsertDesc(x, s)| :: InsertDesc(x, s)[i].severity <= top
  {
    var r := InsertDesc(x, s);
    InsertDescPerm(x, s);
    forall i | 0 <= i < |r| ensures r[i].severity <= top {
      assert r[i] in multiset(r);
      if r[i] != x {
        assert r[i] in multiset(s);
        var j :| 0 <= j < |s| && s[j] == r[i];
      }
    }
  }

  lemma ConsSorted(a: HeatPoint, r: seq<HeatPoint>)
    requires SortedDesc(r) && forall i | 0 <= i < |r| :: r[i].severity <= a.severity
    ensures SortedDesc([a] + r)
  {
    var t := [a] + r;
    forall i, j | 0 <= i < j < |t| ensures t[i].severity >= t[j].severity {
      if i > 0 { assert t[i] == r[i - 1] && t[j] == r[j - 1]; }
      else { assert t[j] == r[j - 1]; }
    }
  }

  lemma {:induction false} InsertDescStable(x: HeatPoint, s: seq<HeatPoint>, v: int)
    ensures WithSeverity(InsertDesc(x, s), v) == (if x.severity == v then [x] else []) + WithSeverity(s, v)
  {
    if s == [] {
      WithSeverityCons(x, [], v);
      assert [x] + [] == [x];
    } else if s[0].severity <= x.severity {
      WithSeverityCons(x, s, v);
    } else {
      InsertDescStable(x, s[1..], v);
      var r := InsertDesc(x, s[1..]);
      WithSeverityCons(s[0], r, v);
      WithSeverityCons(s[0], s[1..], v);
      assert [s[0]] + s[1..] == s;
      var a := if s[0].severity == v then [s[0]] else [];
      var b := if x.severity == v then [x] else [];
      assert a == [] || b == [];
      assert a + (b + WithSeverity(s[1..], v)) == b + (a + WithSeverity(s[1..], v));
    }
  }

  lemma WithSeverityCons(a: HeatPoint, r: seq<HeatPoint>, v: int)
    ensures WithSeverity([a] + r, v) == (if a.severity == v then [a] else []) + WithSeverity(r, v)
  {
    assert ([a] + r)[1..] == r;
  }

  /**
   * The heatmap order is exactly Python's stable reverse sort: severities
   * never increase, nothing is added or lost, and points of equal severity
   * keep the order they had.
   */
  lemma {:induction false} SortDescMeaning(s: seq<HeatPoint>)
    ensures SortedDesc(SortDesc(s))
    ensures multiset(SortDesc(s)) == multiset(s)
    ensures forall v :: WithSeverity(SortDesc(s), v) == WithSeverity(s, v)
  {
    if s != [] {
      SortDescMeaning(s[1..]);
      InsertDescSorted(s[0], SortDesc(s[1..]));
      InsertDescPerm(s[0], SortDesc(s[1..]));
      assert s == [s[0]] + s[1..];
      forall v ensures WithSeverity(SortDesc(s), v) == WithSeverity(s, v) {
        InsertDescStable(s[0], SortDesc(s[1..]), v);
      }
    }
  }

  /** The first loop of `get_geographic_heatmap`: `location_data`. */
  method GroupByLocation(rows: seq<Row>) returns (groups: seq<Group>)
    ensures groups == GroupBy(rows, Locations(rows))
  {
    groups := [];
    var i := 0;
    while i < |rows|
      invariant 0 <= i <= |rows|
      invariant groups == GroupBy(rows[..i], Locations(rows[..i]))
    {
      assert rows[..i + 1][..i] == rows[..i];
      assert Locations(rows[..i + 1])[..i] == Locations(rows[..i]);
      groups := AddRow(groups, LocationOf(rows[i]), rows[i]);
      i := i + 1;
    }
    assert rows[..|rows|] == rows;
  }

  /** The loop that turns each group into its heatmap point. */
  method PointsOf(groups: seq<Group>, maxReports: nat) returns (heat: seq<HeatPoint>)
    requires maxReports >= 1
    ensures |heat| == |groups| && forall t | 0 <= t < |groups| :: heat[t] == PointOf(groups[t], maxReports)
  {
    heat := [];
    var j := 0;
    while j < |groups|
      invariant 0 <= j <= |groups| && |heat| == j
      invariant forall t | 0 <= t < j :: heat[t] == PointOf(groups[t], maxReports)
    {
      heat := heat + [PointOf(groups[j], maxReports)];
      j := j + 1;
    }
  }

  /** `get_geographic_heatmap` */
  method GetGeographicHeatmap(result: Option<seq<Row>>) returns (out: seq<HeatPoint>)
    ensures result.None? ==> out == []
    ensures result.Some? ==> out == SortDesc(HeatPoints(result.value))
  {
    if result.None? {
      return [];
    }
    var rows := result.value;
    var groups := GroupByLocation(rows);
    HeatPointsAt(rows);
    var maxReports := MaxReports(groups);
    var heat := PointsOf(groups, maxReports);
    assert heat == HeatPoints(rows);
    out := SortDesc(heat);
  }

  /**
   * The heatmap has one point per distinct location, counts add up to the
   * row count, every severity lies in [0, 100], the output never rises in
   * severity, and a non-empty heatmap starts with severity 100.
   */
  lemma HeatmapMeaning(rows: seq<Row>)
    ensures var out := SortDesc(HeatPoints(rows));
      && SortedDesc(out)
      && (forall p | p in out :: 0 <= p.severity <= 100 && p.reports >= 1)
      && (rows != [] ==> |out| >= 1 && out[0].severity == 100)
      && (rows == [] ==> out == [])
  {
    var pts := HeatPoints(rows);
    SortDescMeaning(pts);
    HeatPointsBounded(rows);
    var out := SortDesc(pts);
    forall p | p in out ensures 0 <= p.severity <= 100 && p.reports >= 1 {
      assert p in multiset(pts);
    }
    if rows != [] {
      HeatmapTop(rows);
    }
  }

  /** Every unsorted point has a severity in [0, 100] and at least one report. */
  lemma HeatPointsBounded(rows: seq<Row>)
    ensures forall p | p in HeatPoints(rows) :: 0 <= p.severity <= 100 && p.reports >= 1
  {
    var gs := GroupBy(rows, Locations(rows));
    var pts := HeatPoints(rows);
    HeatPointsAt(rows);
    GroupsCounted(rows);
    forall p | p in pts ensures 0 <= p.severity <= 100 && p.reports >= 1 {
      var i :| 0 <= i < |pts| && pts[i] == p;
      assert p == PointOf(gs[i], MaxReports(gs));
    }
  }

  /** The unsorted points are the groups' points, scaled by the largest group. */
  lemma HeatPointsAt(rows: seq<Row>)
    ensures var gs := GroupBy(rows, Locations(rows));
      var m := MaxReports(gs);
      m >= 1 && |HeatPoints(rows)| == |gs|
      && forall i | 0 <= i < |gs| :: HeatPoints(rows)[i] == PointOf(gs[i], m)
  {
    var keys := Locations(rows);
    var gs := GroupBy(rows, keys);
    if gs != [] {
      GroupByCountAt(rows, keys, 0);
    }
  }

  /** Every group has counted at least the row that opened it. */
  lemma GroupsCounted(rows: seq<Row>)
    ensures var gs := GroupBy(rows, Locations(rows)); forall i | 0 <= i < |gs| :: gs[i].reports >= 1
  {
    var keys := Locations(rows);
    var gs := GroupBy(rows, keys);
    forall i | 0 <= i < |gs| ensures gs[i].reports >= 1 {
      GroupByCountAt(rows, keys, i);
    }
  }

  /** Some location holds the most reports, so the sorted heatmap starts at 100. */
  lemma HeatmapTop(rows: seq<Row>)
    requires rows != []
    ensures var out := SortDesc(HeatPoints(rows)); |out| >= 1 && out[0].severity == 100
  {
    var keys := Locations(rows);
    var gs := GroupBy(rows, keys);
    GroupByCovers(rows, keys);
    assert FindKey(gs, keys[0]) < |gs|;
    HeatPointsAt(rows);
    var pts := HeatPoints(rows);
    var m := MaxReports(gs);
    var top :| 0 <= top < |gs| && gs[top].reports == m;
    assert pts[top] == PointOf(gs[top], m);
    TopOfSorted(pts, top);
  }

  /** A point of severity 100 puts severity 100 first once sorted. */
  lemma TopOfSorted(pts: seq<HeatPoint>, top: nat)
    requires top < |pts| && pts[top].severity == 100
    requires forall p | p in pts :: p.severity <= 100
    ensures |SortDesc(pts)| >= 1 && SortDesc(pts)[0].severity == 100
  {
    var out := SortDesc(pts);
    SortDescMeaning(pts);
    assert pts[top] in multiset(out);
    var t :| 0 <= t < |out| && out[t] == pts[top];
    assert out[0] in multiset(pts);
    if t > 0 { assert out[0].severity >= out[t].severity; }
  }

  /** Counts per location: every point reports how many rows carry its location. */
  lemma HeatmapCounts(rows: seq<Row>, i: nat)
    requires i < |HeatPoints(rows)|
    ensures HeatPoints(rows)[i].reports == Occurrences(Locations(rows), HeatPoints(rows)[i].location)
    ensures var j := FirstIndex(Locations(rows), HeatPoints(rows)[i].location);
      && j < |rows|
      && HeatPoints(rows)[i].lat == Coordinate(rows[j].latitude)
      && HeatPoints(rows)[i].lng == Coordinate(rows[j].longitude)
  {
    var gs := GroupBy(rows, Locations(rows));
    GroupByCountAt(rows, Locations(rows), 0);
    GroupByCountAt(rows, Locations(rows), i);
    GroupByFirst(rows, Locations(rows), i);
  }

  // --------------------------------------------------------------- trend

  datatype MonthTrend = MonthTrend(month: string, reports: nat, resolved: nat)

  /**
   * The month keys of all rows, or None as soon as one timestamp does not
   * parse; `monthOf` stands for `fromisoformat(...).strftime("%b")`.
   */
  function MonthKeys(rows: seq<Row>, monthOf: string -> Option<string>): (keys: Option<seq<string>>)
    ensures keys.Some? ==> |keys.value| == |rows|
    ensures keys.None? <==> exists i | 0 <= i < |rows| :: monthOf(rows[i].createdAt).None?
  {
    if rows == [] then Some([])
    else
      var init := MonthKeys(rows[..|rows| - 1], monthOf);
      var m := monthOf(rows[|rows| - 1].createdAt);
      assert forall i | 0 <= i < |rows| - 1 :: rows[..|rows| - 1][i] == rows[i];
      if init.None? || m.None? then None else Some(init.value + [m.value])
  }

  function TrendOf(g: Group): MonthTrend {
    MonthTrend(g.key, g.reports, g.resolved)
  }

  /** `get_trend_comparison`, counts only; any unparsable timestamp yields []. */
  method GetTrendComparison(result: Option<seq<Row>>, monthOf: string -> Option<string>)
    returns (out: seq<MonthTrend>)
    ensures result.None? ==> out == []
    ensures result.Some? && MonthKeys(result.value, monthOf).None? ==> out == []
    ensures result.Some? && MonthKeys(result.value, monthOf).Some? ==>
      var gs := GroupBy(result.value, MonthKeys(result.value, monthOf).value);
      |out| == |gs| && forall i | 0 <= i < |gs| :: out[i] == TrendOf(gs[i])
  {
    if result.None? {
      return [];
    }
    var grouped := MonthGroups(result.value, monthOf);
    if grouped.None? {
      return [];
    }
    var groups := grouped.value;
    out := [];
    var j := 0;
    while j < |groups|
      invariant 0 <= j <= |groups| && |out| == j
      invariant forall t | 0 <= t < j :: out[t] == TrendOf(groups[t])
    {
      out := out + [TrendOf(groups[j])];
      j := j + 1;
    }
  }

  /** A row with a parsable timestamp adds its month to the keys and its count to that month's group. */
  lemma MonthStep(rows: seq<Row>, i: nat, monthOf: string -> Option<string>, keys: seq<string>, groups: seq<Group>)
    requires i < |rows| && monthOf(rows[i].createdAt).Some?
    requires MonthKeys(rows[..i], monthOf) == Some(keys) && groups == GroupBy(rows[..i], keys)
    ensures var m := monthOf(rows[i].createdAt).value;
      && MonthKeys(rows[..i + 1], monthOf) == Some(keys + [m])
      && AddRow(groups, m, rows[i]) == GroupBy(rows[..i + 1], keys + [m])
  {
    var m := monthOf(rows[i].createdAt).value;
    assert rows[..i + 1][..i] == rows[..i];
    assert (keys + [m])[..i] == keys;
  }

  /** The grouping loop of `get_trend_comparison`, ending early on an unparsable timestamp. */
  method MonthGroups(rows: seq<Row>, monthOf: string -> Option<string>) returns (grouped: Option<seq<Group>>)
    ensures MonthKeys(rows, monthOf).None? <==> grouped.None?
    ensures grouped.Some? ==> grouped.value == GroupBy(rows, MonthKeys(rows, monthOf).value)
  {
    var groups: seq<Group> := [];
    var keys: seq<string> := [];
    var i := 0;
    while i < |rows|
      invariant 0 <= i <= |rows|
      invariant MonthKeys(rows[..i], monthOf) == Some(keys)
      invariant groups == GroupBy(rows[..i], keys)
    {
      var month := monthOf(rows[i].createdAt);
      if month.None? {
        assert MonthKeys(rows, monthOf).None?;
        return None;
      }
      MonthStep(rows, i, monthOf, keys, groups);
      groups := AddRow(groups, month.value, rows[i]);
      keys := keys + [month.value];
      i := i + 1;
    }
    assert rows[..|rows|] == rows;
    return Some(groups);
  }

  /** One entry per month, resolved never above reports, and the reports add up to the row count. */
  lemma TrendMeaning(rows: seq<Row>, monthOf: string -> Option<string>)
    requires MonthKeys(rows, monthOf).Some?
    ensures var keys := MonthKeys(rows, monthOf).value;
      var gs := GroupBy(rows, keys);
      && (forall i, j | 0 <= i < j < |gs| :: gs[i].key != gs[j].key)
      && (forall i | 0 <= i < |gs| :: TrendOf(gs[i]).resolved <= TrendOf(gs[i]).reports
                                   && TrendOf(gs[i]).reports == Occurrences(keys, gs[i].key))
      && TotalReports(gs) == |rows|
  {
    var keys := MonthKeys(rows, monthOf).value;
    GroupByDistinct(rows, keys);
    GroupByTotal(rows, keys);
    var gs := GroupBy(rows, keys);
    forall i | 0 <= i < |gs| ensures gs[i].resolved <= gs[i].reports && gs[i].reports == Occurrences(keys, gs[i].key) {
      GroupByCountAt(rows, keys, i);
    }
  }

  // ------------------------------------------------- water-quality history

  datatype Reading = Reading(recordedAt: string, ph: real, turbidity: real, oxygen: real, salinity: real, temperature: real)

  datatype ChartPoint = ChartPoint(time: string, ph: real, oxygen: real, turbidity: real, temperature: real, salinity: real)

  /** `timestamp.split("T")[1][:5] if "T" in timestamp else timestamp[:5]` */
  function TimeOf(timestamp: string): (t: string)
    ensures |t| <= 5
  {
    if 'T' in timestamp then Text.Take(Text.Split(timestamp, 'T')[1], 5) else Text.Take(timestamp, 5)
  }

  function ChartOf(r: Reading): ChartPoint {
    ChartPoint(TimeOf(r.recordedAt), r.ph, r.oxygen, r.turbidity, r.temperature, r.salinity)
  }

  /** An ISO timestamp `date + "T" + hh:mm + rest` is charted at hh:mm. */
  lemma TimeOfIso(date: string, hhmm: string, rest: string)
    requires 'T' !in date && 'T' !in hhmm && |hhmm| == 5
    ensures TimeOf(date + "T" + hhmm + rest) == hhmm
  {
    var ts := date + "T" + hhmm + rest;
    assert ts == date + ['T'] + (hhmm + rest);
    Text.SplitAfterFree(date, hhmm + rest, 'T');
    assert ts[|date|] == 'T';
    Text.BeforeKeepsPrefix(hhmm, rest, 'T');
    var second := Text.Split(ts, 'T')[1];
    assert second == Text.Before(hhmm + rest, 'T');
    assert second[..5] == hhmm;
  }

  /**
   * `get_water_quality_history`: the readings arrive newest first and are
   * charted oldest first.
   */
  method GetWaterQualityHistory(result: Option<seq<Reading>>) returns (res: Result<seq<ChartPoint>, HttpError>)
    ensures result.None? ==> res.Err? && res.error.status == 500
    ensures result.Some? ==> res.Ok? && |res.value| == |result.value|
    ensures result.Some? ==> forall i | 0 <= i < |result.value| ::
      res.value[i] == ChartOf(result.value[|result.value| - 1 - i])
  {
    if result.None? {
      return Err(HttpError(500, None));
    }
    var data := result.value;
    var chart: seq<ChartPoint> := [];
    var i := 0;
    while i < |data|
      invariant 0 <= i <= |data| && |chart| == i
      invariant forall k | 0 <= k < i :: chart[k] == ChartOf(data[|data| - 1 - k])
    {
      chart := chart + [ChartOf(data[|data| - 1 - i])];
      i := i + 1;
    }
    return Ok(chart);
  }

  // ------------------------------------------------------- success stories

  datatype StoryRow = StoryRow(
    id: string, title: string, location: string, timeframe: string, description: string,
    imageUrl: string, status: string, waterQualityImproved: string, speciesRecovered: string,
    livesImpacted: string, pollutionReduced: string, challenges: string, solutions: string,
    results: string, stakeholders: string)

  datatype Impact = Impact(waterQualityImproved: string, speciesRecovered: string, livesImpacted: string, pollutionReduced: string)

  datatype StoryCard = StoryCard(
    id: string, title: string, location: string, timeframe: string, description: string,
    image: string, status: string, impact: Impact, challenges: string, solutions: string,
    results: string, stakeholders: string)

  /** The frontend shape of a story: `image_url` becomes `image`, the four impact columns nest. */
  function CardOf(s: StoryRow): StoryCard {
    StoryCard(s.id, s.title, s.location, s.timeframe, s.description, s.imageUrl, s.status,
              Impact(s.waterQualityImproved, s.speciesRecovered, s.livesImpacted, s.pollutionReduced),
              s.challenges, s.solutions, s.results, s.stakeholders)
  }

  /** The card loses nothing: the stored row can be read back from it. */
  function RowOf(c: StoryCard): StoryRow {
    StoryRow(c.id, c.title, c.location, c.timeframe, c.description, c.image, c.status,
             c.impact.waterQualityImproved, c.impact.speciesRecovered, c.impact.livesImpacted,
             c.impact.pollutionReduced, c.challenges, c.solutions, c.results, c.stakeholders)
  }

  lemma CardRoundTrip(s: StoryRow)
    ensures RowOf(CardOf(s)) == s
  {
  }

  /** `get_success_stories`: one card per row, in the query's order. */
  method GetSuccessStories(result: Option<seq<StoryRow>>) returns (res: Result<seq<StoryCard>, HttpError>)
    ensures result.None? ==> res.Err? && res.error.status == 500
    ensures result.Some? ==> res.Ok? && |res.value| == |result.value|
    ensures result.Some? ==> forall i | 0 <= i < |result.value| :: RowOf(res.value[i]) == result.value[i]
  {
    if result.None? {
      return Err(HttpError(500, None));
    }
    var stories: seq<StoryCard> := [];
    var i := 0;
    while i < |result.value|
      invariant 0 <= i <= |result.value| && |stories| == i
      invariant forall k | 0 <= k < i :: stories[k] == CardOf(result.value[k])
    {
      stories := stories + [CardOf(result.value[i])];
      i := i + 1;
    }
    return Ok(stories);
  }
}
