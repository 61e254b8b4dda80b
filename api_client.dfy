/**
 * The dashboard's data client (frontend/src/services/api.ts): the demo
 * fallback applied to every response, the fetchers' error handling and the
 * generated fallback series.
 */
module ApiClient {
  import opened Wrappers
  import Text
  import Dashboard

  /** A decoded JSON response body, plus JavaScript's `undefined`; object members keep their order. */
  datatype Json =
    | JNull
    | JUndefined
    | JBool(b: bool)
    | JNum(n: real)
    | JStr(s: string)
    | JArr(items: seq<Json>)
    | JObj(members: seq<(string, Json)>)

  /** JavaScript falsiness (NaN is not modelled). */
  predicate Falsy(j: Json) {
    j.JNull? || j.JUndefined? || j == JBool(false) || j == JNum(0.0) || j == JStr("")
  }

  /** `key in obj` */
  predicate HasKey(members: seq<(string, Json)>, key: string) {
    exists i | 0 <= i < |members| :: members[i].0 == key
  }

  /** `obj[key]` for a key the object has: the first member of that name. */
  function Get(members: seq<(string, Json)>, key: string): Json
    requires HasKey(members, key)
  {
    if members[0].0 == key then members[0].1 else Get(members[1..], key)
  }

  /** `Object.keys(data).length === 0`: an empty array or an empty object. */
  predicate NoOwnKeys(j: Json) {
    j == JArr([]) || j == JObj([])
  }

  /** `withDemoFallback(data, demo)`, test by test. */
  function WithDemoFallback(data: Json, demo: Json): (r: Json)
    ensures r == data || r == demo
  {
    if data.JArr? && |data.items| == 0 then demo
    else if Falsy(data) then demo
    else if (data.JArr? || data.JObj?) && NoOwnKeys(data) then demo
    else if data.JObj? && HasKey(data.members, "total_reports") && Get(data.members, "total_reports") == JNum(0.0) then demo
    else data
  }

  /**
   * The cases in which the demo value replaces the response: nothing useful
   * (empty, falsy, no keys) or a stats object whose total is zero.
   */
  predicate NeedsDemo(data: Json) {
    || Falsy(data)
    || data == JArr([])
    || data == JObj([])
    || (data.JObj? && HasKey(data.members, "total_reports") && Get(data.members, "total_reports") == JNum(0.0))
  }

  /** The fallback replaces exactly the responses `NeedsDemo` describes and passes every other unchanged. */
  lemma FallbackMeaning(data: Json, demo: Json)
    ensures NeedsDemo(data) ==> WithDemoFallback(data, demo) == demo
    ensures !NeedsDemo(data) ==> WithDemoFallback(data, demo) == data
  {
  }

  /** A value that does not itself need the demo is a fixpoint: applying the fallback twice is applying it once. */
  lemma FallbackIdempotent(data: Json, demo: Json)
    requires !NeedsDemo(demo)
    ensures WithDemoFallback(WithDemoFallback(data, demo), demo) == WithDemoFallback(data, demo)
  {
    FallbackMeaning(data, demo);
    FallbackMeaning(demo, demo);
    FallbackMeaning(WithDemoFallback(data, demo), demo);
  }

  /** Non-empty arrays, non-zero numbers and non-empty strings are shown as they are. */
  lemma FallbackKeepsContent(items: seq<Json>, n: real, s: string, demo: Json)
    requires items != [] && n != 0.0 && s != ""
    ensures WithDemoFallback(JArr(items), demo) == JArr(items)
    ensures WithDemoFallback(JNum(n), demo) == JNum(n)
    ensures WithDemoFallback(JStr(s), demo) == JStr(s)
  {
  }

  /** The response of one GET: its body, or a thrown error (network, non-2xx status). */
  datatype Response = Body(data: Json) | Failed

  /** Every fetcher but `fetchMarineImpact`: the fallback on a body, the demo on an error. */
  function FetchWithDemo(response: Response, demo: Json): (r: Json)
    ensures response.Failed? ==> r == demo
    ensures response.Body? ==> r == WithDemoFallback(response.data, demo)
  {
    match response
    case Failed => demo
    case Body(data) => WithDemoFallback(data, demo)
  }

  /** `fetchMarineImpact`: the body as it is, or [] on an error. */
  function FetchMarineImpact(response: Response): (r: Json)
    ensures response.Failed? ==> r == JArr([])
    ensures response.Body? ==> r == response.data
  {
    match response
    case Failed => JArr([])
    case Body(data) => data
  }

  /** A fetcher with a demo value that itself needs no fallback never shows an empty or falsy value. */
  lemma FetchNeverEmpty(response: Response, demo: Json)
    requires !NeedsDemo(demo)
    ensures !NeedsDemo(FetchWithDemo(response, demo))
  {
    if response.Body? {
      FallbackMeaning(response.data, demo);
    }
  }

  /** Unlike the other fetchers, the marine-impact fetcher can hand an empty list to the page. */
  lemma MarineImpactCanBeEmpty()
    ensures FetchMarineImpact(Failed) == JArr([]) && NeedsDemo(FetchMarineImpact(Failed))
  {
  }

  /** `DEMO_DASHBOARD_STATS` */
  const DemoDashboardStats: Json := JObj([
    ("total_reports", JNum(125.0)), ("active_users", JNum(45.0)),
    ("resolved_reports", JNum(82.0)), ("avg_response_time", JStr("2.5 days"))])

  /** The stats body the backend sends. */
  function StatsJson(s: Dashboard.Stats): Json {
    JObj([("total_reports", JNum(s.totalReports as real)), ("active_users", JNum(s.activeUsers as real)),
          ("resolved_reports", JNum(s.resolvedReports as real)), ("avg_response_time", JStr(s.avgResponseTime))])
  }

  /**
   * The stats card shows the demo figures when the backend reports no
   * reports (an empty table, or a failed query) and the backend's figures otherwise.
   */
  lemma StatsFallback(result: Option<seq<Dashboard.Row>>)
    ensures var s := Dashboard.GetDashboardStats(result);
      var shown := FetchWithDemo(Body(StatsJson(s)), DemoDashboardStats);
      && ((result.None? || result.value == []) ==> shown == DemoDashboardStats)
      && (result.Some? && result.value != [] ==> shown == StatsJson(s))
  {
    var s := Dashboard.GetDashboardStats(result);
    Dashboard.StatsBounds(result);
    var j := StatsJson(s);
    assert HasKey(j.members, "total_reports") by { assert j.members[0].0 == "total_reports"; }
    assert Get(j.members, "total_reports") == JNum(s.totalReports as real);
  }

  /** The demo stats need no fallback themselves. */
  lemma DemoStatsShown()
    ensures !NeedsDemo(DemoDashboardStats)
  {
    assert DemoDashboardStats.members[0].0 == "total_reports";
    assert Get(DemoDashboardStats.members, "total_reports") == JNum(125.0);
  }

  // ---------------------------------------------------------- generated series

  /** `Array.from({ length: n })` turns a negative length into 0. */
  function ArrayLength(n: int): nat {
    if n > 0 then n else 0
  }

  /** The five `Math.random()` values one history point draws. */
  datatype HistoryDraw = HistoryDraw(ph: real, oxygen: real, turbidity: real, temperature: real, salinity: real)

  predicate IsUnit(x: real) {
    0.0 <= x < 1.0
  }

  predicate IsHistoryDraw(d: HistoryDraw) {
    IsUnit(d.ph) && IsUnit(d.oxygen) && IsUnit(d.turbidity) && IsUnit(d.temperature) && IsUnit(d.salinity)
  }

  function HourLabel(i: nat): string {
    Text.NatToDecimal(10 + i) + ":00"
  }

  /** Point i of `generateHistory()`. */
  function HistoryPoint(i: nat, d: HistoryDraw): (p: Dashboard.ChartPoint)
    requires IsHistoryDraw(d)
    ensures p.time == HourLabel(i)
    ensures 7.0 <= p.ph < 8.0 && 6.0 <= p.oxygen < 8.0 && 1.0 <= p.turbidity < 3.0
    ensures 25.0 <= p.temperature < 27.0 && 34.0 <= p.salinity < 35.0
  {
    Dashboard.ChartPoint(HourLabel(i), 7.0 + d.ph, 6.0 + d.oxygen * 2.0, 1.0 + d.turbidity * 2.0,
                         25.0 + d.temperature * 2.0, 34.0 + d.salinity)
  }

  /** `generateHistory()`: `limit` points labelled 10:00, 11:00, ... with readings in fixed bands. */
  function GenerateHistory(limit: int, draws: seq<HistoryDraw>): (h: seq<Dashboard.ChartPoint>)
    requires |draws| >= ArrayLength(limit)
    requires forall i | 0 <= i < |draws| :: IsHistoryDraw(draws[i])
    ensures |h| == ArrayLength(limit)
    ensures forall i | 0 <= i < |h| :: h[i] == HistoryPoint(i, draws[i])
  {
    seq(ArrayLength(limit), i requires 0 <= i < ArrayLength(limit) => HistoryPoint(i, draws[i]))
  }

  /** Distinct points carry distinct hour labels. */
  lemma HistoryLabelsDistinct(i: nat, j: nat)
    requires i != j
    ensures HourLabel(i) != HourLabel(j)
  {
    if HourLabel(i) == HourLabel(j) {
      var a, b := Text.NatToDecimal(10 + i), Text.NatToDecimal(10 + j);
      assert a + ":00" == b + ":00";
      assert |a| == |b|;
      assert a == (a + ":00")[..|a|] && b == (b + ":00")[..|b|];
      Text.DecimalInjective(10 + i, 10 + j);
    }
  }

  /** `Math.floor(Math.random() * 15) + 2` */
  function DemoCount(r: real): (c: int)
    requires IsUnit(r)
    ensures 2 <= c <= 16
  {
    (r * 15.0).Floor + 2
  }

  /**
   * `generateTimeline()`: `days` entries, oldest first; `isoOf(k)` is
   * `toISOString()` of the moment k days before now.
   */
  function GenerateTimeline(days: int, isoOf: nat -> string, draws: seq<real>): (t: seq<Dashboard.TimelineEntry>)
    requires |draws| >= ArrayLength(days)
    requires forall i | 0 <= i < |draws| :: IsUnit(draws[i])
    ensures |t| == ArrayLength(days)
    ensures forall i | 0 <= i < |t| ::
      t[i].date == Text.Before(isoOf(days - 1 - i), 'T') && 2 <= t[i].count <= 16
  {
    seq(ArrayLength(days), i requires 0 <= i < ArrayLength(days) =>
      Dashboard.TimelineEntry(Text.Before(isoOf(days - 1 - i), 'T'), DemoCount(draws[i]) as nat))
  }

  /**
   * The generated timeline covers the same days, in the same order, as the
   * backend's, when both read the same clock. The backend reads the server's
   * `datetime.now()` and the demo the browser's `Date.now()`; both are the one
   * parameter `isoOf` here, so clocks that disagree are not modelled.
   */
  method TimelinesAgree(rows: seq<Dashboard.Row>, days: int, isoOf: nat -> string, draws: seq<real>)
    returns (backend: seq<Dashboard.TimelineEntry>, demo: seq<Dashboard.TimelineEntry>)
    requires |draws| >= ArrayLength(days)
    requires forall i | 0 <= i < |draws| :: IsUnit(draws[i])
    ensures |backend| == |demo| == ArrayLength(days)
    ensures forall i | 0 <= i < |demo| :: backend[i].date == demo[i].date
  {
    backend := Dashboard.GetReportsTimeline(Some(rows), days, (k: nat) => Text.Before(isoOf(k), 'T'));
    demo := GenerateTimeline(days, isoOf, draws);
  }
}
