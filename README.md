# Aqua-Guardian, modelled in Dafny

Aqua-Guardian lets citizens report water pollution with a photo. The backend
stores each report in Supabase tables, classifies the photo with an image
model, anchors the report on a ledger, and alerts the authorities when the
classifier is confident. A dashboard aggregates the reports. A React
front-end submits reports, shows the dashboard, runs a mock sign-in session
and offers water bodies for adoption. Offline scripts prepare the training
data: they organise and flatten image folders, cut Sentinel-2 scenes into
patches, and set up the database.

This project models the sequential logic underneath that glue and proves
what it promises. One Dafny module stands for each source file:

- **Report ingestion and lifecycle.**
  - `Models`: the records and their defaults.
  - `Tables`: the Supabase tables as one object whose maps and sequences the handlers update.
  - `Reports`: `create_report`, the ledger task, `get_report(s)` and `verify_report`.
  - `Infer`: the classifier wrapper with its demo and fallback paths.
  - `Cleanup`: starting a clean-up and uploading evidence.
- **Dashboard aggregation.**
  - `Dashboard`: every counting handler, as a specification function over the query rows. The counting loops are methods proved against those functions.
  - `Counting`: the fixed-bucket tallies the handlers share.
- **Client-side logic.**
  - `ApiClient`: the demo fallback and the demo generators.
  - `DashboardPage`: the severity-to-label thresholds.
  - `ReportPage`: the submit guards and payload construction.
  - `FileUploader`: the upload size check.
  - `AuthContext`: the mock session.
  - `NftAdoption` and `ProfilePage`: the counters and multipliers.
  - `Toasts`: the notifications these pages raise.
- **Offline data preparation.**
  - `FileSystem`: a disk as a map of file paths plus a set of folders, with the operations the scripts call.
  - `OrganizeDataset`: category copying with de-duplicated names.
  - `FlattenDataset`: class-folder flattening.
  - `Satellite`: the crop window and the patch grid.
  - `InitDb`: database URL discovery, connection retries and bucket creation.
- **Shared helpers.**
  - `Wrappers`: `Option` and `Result`.
  - `Text`: the Python and JavaScript string operations used, with their own round-trip lemmas.

The outside world is passed in as function-typed parameters: storage, the
classifier, the ledger, DNS, the database connection, directory listings and
the I/O failures that the code catches or tests for. Failures of table calls
that the handlers do not catch are not modelled (see "Left out"). Random draws (`Math.random`, `random.choice`,
`random.uniform`) are parameters whose ranges are the library's, stated as
preconditions. The database fallback URL that the set-up script carries is a
parameter, `fallbackUrl`, and is never written into the model.

Where the tests and the code disagree, the model follows the code:

- The tests post a report without a file, but `create_report` makes the file mandatory.
- One test expects `ai_class` to be None when the model is unavailable, but the classifier wrapper returns "unknown".

## Model

| member | source | states |
|---|---|---|
| Models.ReportDefaults | backend/db/models.py:11-25 | a Report built from a ReportCreate keeps every submitted field, takes the given id and creation time, has ai_class, ai_confidence and blockchain_tx None and status "pending" |
| Models.ReportCreateDefaults | backend/db/models.py:17 | photo_url defaults to None |
| Models.UserAndCleanupDefaults | backend/db/models.py:5-31 | a user's role defaults to "citizen" and cleanup notes default to None |
| Reports.BackgroundTasks.AddTask | backend/api/reports.py:70 | a task is queued after the ones already queued |
| Reports.UploadedPhoto | backend/api/reports.py:34-36 | a photo URL exists iff the upload of `{user_id}_{filename}` succeeded |
| Reports.AiResultOf | backend/api/reports.py:30-41 | a raising classifier leaves class None and confidence 0.0; otherwise class and confidence are passed through |
| Reports.Scheduled | backend/api/reports.py:69-74 | the ledger task comes first and exactly once; a notification task follows iff confidence >= 0.90 |
| Reports.CreateReport | backend/api/reports.py:13-79 | the row is inserted as "pending" under a fresh id; a photos row exists only after a successful upload; success iff the insert returned a row and the photo insert did not raise; on success the response carries the photo URL and the tasks of Scheduled are queued; on failure 500, no task, and an inserted row stays |
| Tables.Database.InsertReport | backend/api/reports.py:58-61 | the row is stored under its own fresh id and its id appended to the insertion order; rows stay keyed by id with every id listed once; no other table changes |
| Reports.LedgerRows | backend/api/reports.py:86-92 | at most one log row, present iff the ledger returned a non-empty hash starting with "0x" and the insert worked |
| Reports.LogReportToBlockchain | backend/api/reports.py:81-92 | appends exactly LedgerRows, touches no other table, never fails |
| Reports.GetReports | backend/api/reports.py:94-98 | every stored row appears, each once, and nothing else |
| Reports.GetReport | backend/api/reports.py:100-106 | the row with that id, or 404 "Report not found" iff no row has it |
| Reports.MarkVerified | backend/api/reports.py:111 | same ids, other rows unchanged, the named row becomes "verified" |
| Reports.MarkVerifiedKeepsFields | backend/api/reports.py:111 | verification changes no field but the status, and rows stay keyed by id |
| Reports.MarkVerifiedIdempotent | backend/api/reports.py:108-112 | verifying twice equals verifying once |
| Reports.VerifyReport | backend/api/reports.py:108-112 | the reports table becomes MarkVerified of the old one, other tables unchanged; the updated row is returned, none for an unknown id |
| Reports.NotifyThresholdIsInclusive | backend/api/reports.py:73-74 | confidence exactly 0.90 notifies, anything below does not |
| Reports.FailedClassificationDefaults | backend/api/reports.py:30-54 | after a raising classifier the row has ai_class None, ai_confidence 0.0, status "pending", and only the ledger task is queued |
| Reports.StoredRowCopiesForm | backend/api/reports.py:44-54 | the inserted row is "pending", copies user, coordinates, description and severity unchanged and has no photo URL |
| Reports.DemoModeAlwaysNotifies | backend/api/reports.py:73-74 | in demo mode every created report queues a notification |
| Infer.FromPredictor | backend/ml/infer.py:41-53 | a raising predictor or a reported error gives "unknown"/0.0; a clean answer passes class and confidence through |
| Infer.PredictImage | backend/ml/infer.py:16-53 | demo mode gives one of plastic/sewage/oil_spill with confidence in [0.91, 0.99]; otherwise an unloaded model gives "unknown"/0.0 and a loaded one gives FromPredictor of its answer |
| Infer.DemoModeIgnoresModel | backend/ml/infer.py:28-39 | with demo mode on, neither the load status nor the predictor affects the result |
| Infer.DemoSwitchIgnoresCase | backend/ml/infer.py:28 | ML_DEMO_MODE "TRUE" and "True" turn demo mode on; absent or "yes" do not |
| Infer.SuccessPassesThrough | backend/ml/infer.py:43-50 | with no error (None or empty) the answer's class and confidence are returned and nothing else |
| Cleanup.CompleteActions | backend/api/cleanup.py:34-37 | every row of the report becomes "completed" with evidence exactly [url]; every other row is unchanged |
| Cleanup.RowsFor | backend/api/cleanup.py:34-39 | the update returns exactly the rows of that report |
| Cleanup.CompleteKeepsIdentity | backend/api/cleanup.py:34-37 | completing keeps a row's id, report and actor |
| Cleanup.CompleteOverwritesEvidence | backend/api/cleanup.py:36 | a second completion discards the first one's evidence |
| Cleanup.StartCleanup | backend/api/cleanup.py:7-14 | exactly one row with that report, actor and "in_progress" is appended and returned; other tables unchanged |
| Cleanup.UploadEvidence | backend/api/cleanup.py:16-39 | the file is stored as evidence_{report}_{name} in "evidence"; an upload failure answers 500 "Upload failed" and changes nothing; otherwise the actions become CompleteActions and the report's rows are returned |
| Cleanup.ReturnedRowsCompleted | backend/api/cleanup.py:34-39 | every returned row is completed and carries only the new URL |
| Counting.Bump | backend/api/dashboard.py:286-287 | one counter grows by one when the key is in the table; a key outside it changes nothing |
| Counting.TallyAt | backend/api/dashboard.py:278-287 | after the loop, counter k counts exactly the rows whose bucket is k |
| Counting.TallySum | backend/api/dashboard.py:278-287 | the counters plus the rows that fall outside the table account for every row once |
| Counting.TallyCoversAll | backend/api/dashboard.py:253-262 | when every row has a bucket the counters sum to the row count |
| Dashboard.GetDashboardStats | backend/api/dashboard.py:162-197 | a failing query gives 0, 0, 0 and "N/A"; otherwise total is the row count, active users the distinct user ids, resolved the rows with status exactly "resolved", and the time "2.5 days" |
| Dashboard.UserIdsBound | backend/api/dashboard.py:177-178 | distinct users never exceed the rows, and a non-empty table has at least one |
| Dashboard.StatsBounds | backend/api/dashboard.py:168-188 | resolved and active users never exceed the total, which is the row count |
| Dashboard.ResolvedIsCaseSensitive | backend/api/dashboard.py:173 | a "Resolved" status is not counted as resolved |
| Dashboard.Increment | backend/api/dashboard.py:217 | the count of that date grows by one and every other date's count is unchanged |
| Dashboard.GetReportsTimeline | backend/api/dashboard.py:199-232 | a failing query gives []; otherwise exactly `days` entries, oldest first, each counting the rows whose created_at before "T" is that date, 0 when none |
| Dashboard.CountOnDays | backend/api/dashboard.py:214-217 | a row is counted on at most one date |
| Dashboard.FirstMatchFrom | backend/api/dashboard.py:256-260 | the first name from the start position that occurs in the description, or the end when none does |
| Dashboard.FirstContained | backend/api/dashboard.py:256-260 | the loop with `break` finds a name iff one occurs, and then the first one |
| Dashboard.TypeIndex | backend/api/dashboard.py:243-262 | the counted category is the first key in dict order that occurs in the description, and "Other" iff none does |
| Dashboard.NonZero | backend/api/dashboard.py:265 | every output entry has a positive count and a listed name, and there are no more entries than keys |
| Dashboard.PositiveAt | backend/api/dashboard.py:265 | the positions of exactly the positive counters, strictly increasing |
| Dashboard.NonZeroMeaning | backend/api/dashboard.py:265 | entry i is the name and count of the i-th positive counter, so exactly the positive categories appear, each with its own count, in key order |
| Dashboard.NonZeroSum | backend/api/dashboard.py:265 | dropping zero categories keeps the total |
| Dashboard.GetReportsByType | backend/api/dashboard.py:234-268 | a failing query gives []; otherwise the non-zero tallies by TypeIndex, summing to the row count |
| Dashboard.TypeCounts | backend/api/dashboard.py:253-262 | the loop leaves the per-type tally of the rows, one counter per key |
| Dashboard.RowType | backend/api/dashboard.py:254-262 | one row is counted under the first key its description contains, else under "Other" |
| Dashboard.ByTypeCountsOnce | backend/api/dashboard.py:253-262 | each category counts exactly its rows and every row is counted once |
| Dashboard.TypePrecedence | backend/api/dashboard.py:256-260 | a description naming two types is counted under the earlier key only |
| Dashboard.GetReportsByStatus | backend/api/dashboard.py:270-297 | a failing query gives []; otherwise Pending, Investigating, Resolved in that order, each counting the rows whose lower-cased status is that key; with the uncounted rows they make up the row count |
| Dashboard.RowStatus | backend/api/dashboard.py:285-287 | the counter a row's lower-cased status names, or none |
| Dashboard.VerifiedNotCounted | backend/api/dashboard.py:284-287 | a "verified" report is in no bucket, so the counts fall short of the rows |
| Dashboard.StatusIgnoresCase | backend/api/dashboard.py:285 | statuses equal up to case land in the same bucket |
| Dashboard.SeverityLevel | backend/api/dashboard.py:366-395 | Critical iff a critical type occurs; High iff no critical but a high type occurs; Low iff no listed type occurs and the status is not pending; Medium otherwise |
| Dashboard.GetSeverityDistribution | backend/api/dashboard.py:349-408 | a failing query gives []; otherwise Critical, High, Medium, Low with their colours, each counting its rows, summing to the row count |
| Dashboard.RowSeverity | backend/api/dashboard.py:371-397 | the severity bucket of one row: critical, high, medium by the first list that matches, a pending low report raised to medium |
| Dashboard.SeverityAgreesWithType | backend/api/dashboard.py:243-251 | a report counted as Oil Spill, Industrial Discharge or Chemical Contamination is Critical; one counted as Other is Medium when pending and Low otherwise |
| Dashboard.FindKey | backend/api/dashboard.py:315 | the position of the key's entry, with no earlier entry for it, or the end when absent |
| Dashboard.TotalReportsUpdate | backend/api/dashboard.py:324 | replacing one entry changes the total by the difference of their counts |
| Dashboard.AddRowShape | backend/api/dashboard.py:315-324 | a row adds one entry for an unseen key and otherwise keeps the number of entries |
| Dashboard.GroupByDistinct | backend/api/dashboard.py:309-324 | each key has one entry |
| Dashboard.GroupByCovers | backend/api/dashboard.py:309-324 | every row's key has an entry |
| Dashboard.GroupByTotal | backend/api/dashboard.py:309-324 | the entry counts add up to the row count |
| Dashboard.GroupByCountAt | backend/api/dashboard.py:309-324 | each entry counts exactly the rows under its key, at least one, and its resolved count the resolved ones among them |
| Dashboard.NoOccurrence | backend/api/dashboard.py:315 | a key without an entry occurs in no row |
| Dashboard.Absent | backend/api/dashboard.py:315 | a key no row has counts no rows |
| Dashboard.FirstIndex | backend/api/dashboard.py:315-322 | the first row under the key |
| Dashboard.FirstIndexPrefix | backend/api/dashboard.py:315-322 | adding a row keeps an earlier first occurrence and otherwise makes the new row the first |
| Dashboard.GroupByFirst | backend/api/dashboard.py:315-322 | each entry keeps the row that first produced its key, from which lat and lng come |
| Dashboard.Locations | backend/api/dashboard.py:311 | the key of each row is its location, "Unknown" when absent |
| Dashboard.MaxReports | backend/api/dashboard.py:327 | the largest group count, reached by some group, or 1 without groups |
| Dashboard.SeverityOf | backend/api/dashboard.py:332 | severity lies in [0, 100] and is 100 iff the count reaches the maximum |
| Dashboard.InsertDescPerm | backend/api/dashboard.py:342 | inserting adds exactly that point |
| Dashboard.InsertDescSorted | backend/api/dashboard.py:342 | inserting keeps the order non-increasing |
| Dashboard.InsertDescStable | backend/api/dashboard.py:342 | inserting puts the point after nothing of its own severity |
| Dashboard.SortDescMeaning | backend/api/dashboard.py:342 | the sort is non-increasing, a permutation, and stable among equal severities |
| Dashboard.GroupByLocation | backend/api/dashboard.py:309-324 | the loop builds GroupBy of the rows' locations |
| Dashboard.GetGeographicHeatmap | backend/api/dashboard.py:299-347 | a failing query gives []; otherwise the sorted points of HeatPoints |
| Dashboard.PointsOf | backend/api/dashboard.py:329-340 | one point per group, in group order, each with the group's count and its severity against the maximum |
| Dashboard.HeatmapMeaning | backend/api/dashboard.py:309-344 | every point has a severity in [0, 100] and at least one report, the order is non-increasing, no rows give [] and a non-empty heatmap starts at severity 100 |
| Dashboard.HeatmapCounts | backend/api/dashboard.py:311-324 | each point counts the rows of its location and takes lat and lng (0 when falsy) from the first of them |
| Dashboard.MonthKeys | backend/api/dashboard.py:426-430 | a key for every row, and None iff some timestamp does not parse |
| Dashboard.GetTrendComparison | backend/api/dashboard.py:410-455 | a failing query or an unparsable timestamp gives []; otherwise the month groups in first-seen order with their report and resolved counts |
| Dashboard.MonthGroups | backend/api/dashboard.py:426-442 | an unparsable timestamp ends the loop with nothing; otherwise the rows grouped by month in first-seen order |
| Dashboard.TrendMeaning | backend/api/dashboard.py:425-445 | one entry per month, resolved never above reports, reports adding up to the row count |
| Dashboard.TimeOf | backend/api/dashboard.py:92 | the displayed time has at most five characters |
| Dashboard.TimeOfIso | backend/api/dashboard.py:92 | `date T hh:mm ...` is charted at hh:mm |
| Dashboard.GetWaterQualityHistory | backend/api/dashboard.py:73-109 | a failing query answers 500; otherwise one point per reading, oldest first |
| Dashboard.CardRoundTrip | backend/api/dashboard.py:136-154 | the story card loses no column of the row |
| Dashboard.GetSuccessStories | backend/api/dashboard.py:124-160 | a failing query answers 500; otherwise one card per row, in query order, each reading back to its row |
| ApiClient.WithDemoFallback | frontend/src/services/api.ts:104-111 | the result is either the data or the demo value |
| ApiClient.FallbackMeaning | frontend/src/services/api.ts:104-111 | the demo replaces exactly the empty array, every falsy value (null, undefined, false, 0, ""), the empty object and an object whose total_reports is 0; every other value passes unchanged |
| ApiClient.FallbackIdempotent | frontend/src/services/api.ts:104-111 | with a demo that needs no fallback, applying the fallback twice is applying it once |
| ApiClient.FallbackKeepsContent | frontend/src/services/api.ts:105-110 | non-empty arrays, non-zero numbers and non-empty strings are returned as they are |
| ApiClient.FetchWithDemo | frontend/src/services/api.ts:113-238 | a fetcher gives the demo on an error and the fallback of the body otherwise |
| ApiClient.FetchMarineImpact | frontend/src/services/api.ts:123-130 | the marine-impact fetcher gives the body unchanged, or [] on an error |
| ApiClient.FetchNeverEmpty | frontend/src/services/api.ts:113-238 | a fetcher with a demo value never shows an empty or falsy value |
| ApiClient.MarineImpactCanBeEmpty | frontend/src/services/api.ts:127-129 | the marine-impact fetcher can show an empty list |
| ApiClient.StatsFallback | frontend/src/services/api.ts:159-166 | the stats card shows the demo figures when the backend has no reports or its query failed, and the backend's figures otherwise |
| ApiClient.DemoStatsShown | frontend/src/services/api.ts:39-44 | the demo stats need no fallback themselves |
| ApiClient.HistoryPoint | frontend/src/services/api.ts:142-149 | point i is labelled `{10+i}:00` and its readings lie in their fixed bands |
| ApiClient.GenerateHistory | frontend/src/services/api.ts:141-149 | exactly `limit` points (none for a negative limit), point i from draw i |
| ApiClient.HistoryLabelsDistinct | frontend/src/services/api.ts:143 | distinct points carry distinct hour labels |
| ApiClient.DemoCount | frontend/src/services/api.ts:174 | a generated count lies in 2..16 |
| ApiClient.GenerateTimeline | frontend/src/services/api.ts:168-176 | exactly `days` entries, oldest first, dated by the ISO date before "T", counts in 2..16 |
| ApiClient.TimelinesAgree | frontend/src/services/api.ts:168-183 | the generated timeline has the same length and the same dates, in the same order, as the backend's |
| DashboardPage.StatusFromSeverity | frontend/src/pages/Dashboard.tsx:77-82 | Critical iff severity >= 80, High iff 60 <= s < 80, Medium iff 40 <= s < 60, Low iff s < 40 |
| DashboardPage.StatusMonotone | frontend/src/pages/Dashboard.tsx:77-82 | a higher severity never gets a milder label |
| DashboardPage.NegativeIsLow | frontend/src/pages/Dashboard.tsx:81 | negative severities are Low |
| DashboardPage.HeatmapTopIsCritical | backend/api/dashboard.py:327-342 | the first hotspot of a non-empty heatmap reads Critical on the page |
| FileUploader.SizeError | frontend/src/components/FileUploader.tsx:28 | the message reads "File must be smaller than {maxSizeMB}MB" |
| FileUploader.Uploader.constructor | frontend/src/components/FileUploader.tsx:11-18 | a new uploader has no preview, no error and has handed nothing to the parent |
| FileUploader.Uploader.HandleFileChange | frontend/src/components/FileUploader.tsx:20-34 | no files clears the preview and hands null to the parent; only the first file counts; a file above maxSizeMB MiB sets the error and changes neither preview nor parent; a file at or below it clears the error, previews its name and is handed to the parent; the preview keeps naming the parent's last selection |
| FileUploader.DefaultLimitIsInclusive | frontend/src/components/FileUploader.tsx:14 | with the default 10 MB a file of exactly 10485760 bytes is accepted and one byte more is not |
| ReportPage.Guard | frontend/src/pages/Report.tsx:126-151 | "Missing Information" iff location, type or description is empty; else "Missing Evidence" iff no file; else "Authentication Required" iff no user; no guard fires iff all are present |
| ReportPage.SeverityCode | frontend/src/pages/Report.tsx:168-180 | Low 1, Medium 5, High 8, Critical 10, any other label 5 |
| ReportPage.SeverityCodeOrdered | frontend/src/pages/Report.tsx:168-173 | codes lie in 1..10 and a graver label never gets a smaller code |
| ReportPage.ParseCoordinates | frontend/src/pages/Report.tsx:157-165 | anything but (0, 0) needs a non-empty text with exactly one ","; an empty text or another number of parts gives (0, 0); with two parts, the two parsed numbers when both trimmed halves parse and (0, 0) when either does not |
| ReportPage.GeolocationTextParses | frontend/src/pages/Report.tsx:103-105 | the `${lat}, ${lng}` text the locate button writes is read back as the same two numbers |
| ReportPage.ComposeDescription | frontend/src/pages/Report.tsx:179 | the description starts with the type and ends with the user's text |
| ReportPage.PayloadOf | frontend/src/pages/Report.tsx:155-184 | the payload carries the user id, the parsed coordinates, the composed description, the severity code and the file |
| ReportPage.ResultToast | frontend/src/pages/Report.tsx:186-222 | "Report Verified by AI" iff ai_class and ai_confidence are both truthy; "Submission Failed" iff the call threw; the generic success toast otherwise |
| ReportPage.ZeroConfidenceIsGeneric | frontend/src/pages/Report.tsx:192 | confidence 0 gives the generic toast |
| ReportPage.ComposedTypeIsCounted | frontend/src/pages/Report.tsx:179 | a description composed from a listed type is counted by the dashboard in that type or an earlier key, never under "Other" |
| ReportPage.Page.constructor | frontend/src/pages/Report.tsx:207-213 | the page starts with the empty form (severity "Medium"), no file and no toast |
| ReportPage.Page.HandleSubmit | frontend/src/pages/Report.tsx:123-226 | a guard shows its toast and makes no call, changing nothing else; otherwise exactly one payload is sent, the result toast shown, the form and file reset only when the call succeeded, and isSubmitting is false afterwards |
| ReportPage.WithStatus | frontend/src/pages/Report.tsx:228 | the filtered list is never longer than the list |
| ReportPage.WithStatusMeaning | frontend/src/pages/Report.tsx:228 | the filtered list holds exactly the reports with that status |
| ReportPage.WithStatusAppend | frontend/src/pages/Report.tsx:228 | filtering keeps the original order |
| ReportPage.FilterReports | frontend/src/pages/Report.tsx:228 | "All" returns every report, any other filter WithStatus |
| AuthContext.FloorScaled | frontend/src/contexts/AuthContext.tsx:53-55 | `Math.floor(r * n)` of a draw in [0, 1) lies in 0..n-1 |
| AuthContext.Restored | frontend/src/contexts/AuthContext.tsx:36-42 | a user is restored iff one is saved under 'aqua-guardian-user' |
| AuthContext.ReloadKeepsSession | frontend/src/contexts/AuthContext.tsx:36-42 | after a login or signup a reload shows the same user; after a logout it shows none |
| AuthContext.Provider.constructor | frontend/src/contexts/AuthContext.tsx:33-42 | mounting restores the saved user, if any |
| AuthContext.Provider.Login | frontend/src/contexts/AuthContext.tsx:44-62 | true iff email and password are non-empty; then the user is LoginUser and is saved under the key; otherwise nothing changes |
| AuthContext.Provider.Signup | frontend/src/contexts/AuthContext.tsx:64-82 | true iff email, password and name are non-empty; then the user has the fixed id, the given name and all counters 0, and is saved under the key; otherwise nothing changes |
| AuthContext.Provider.Logout | frontend/src/contexts/AuthContext.tsx:84-87 | the user becomes null, the key is removed, and isAuthenticated is false |
| AuthContext.LoginUser | frontend/src/contexts/AuthContext.tsx:47-56 | the fixed id whatever the email; the name is the text before the first "@"; counters bounded by 9, 4 and 2 |
| AuthContext.LoginNameIsLocalPart | frontend/src/contexts/AuthContext.tsx:51 | logging in as local@domain gives the name local |
| NftAdoption.AdoptToast | frontend/src/pages/NFTAdoption.tsx:114-128 | signed out: the destructive "Authentication Required" toast and nothing else; signed in: the success toast, never destructive |
| NftAdoption.HealthColor | frontend/src/pages/NFTAdoption.tsx:130-135 | each of the four colours is chosen exactly on its band: >= 80, [60, 80), [40, 60), < 40 |
| NftAdoption.ProtectionColor | frontend/src/pages/NFTAdoption.tsx:137-144 | Elite, Premium and Basic get their colours; any other level gets the muted colour |
| NftAdoption.TotalAdoptions | frontend/src/pages/NFTAdoption.tsx:146 | at most the number of water bodies, and 0 exactly when none is adopted |
| NftAdoption.Available | frontend/src/pages/NFTAdoption.tsx:147-165 | available plus adopted is the number of listed water bodies |
| NftAdoption.AvailableCountsUnadopted | frontend/src/pages/NFTAdoption.tsx:146-147 | available is listed minus adopted, and every body is adopted exactly when the adopted count equals the list length |
| NftAdoption.CatalogueCounts | frontend/src/pages/NFTAdoption.tsx:38-112 | the fixed catalogue shows 1 adopted and 3 available |
| NftAdoption.CatalogueHealthColors | frontend/src/pages/NFTAdoption.tsx:47-102 | scores 78, 85, 45 and 62 pick ocean-primary, success, warning and ocean-primary |
| ProfilePage.ImpactOf | frontend/src/pages/Profile.tsx:28-33 | reports as filed; 150 lives per report, 5000 litres per clean-up, 200 marine lives per adoption |
| ProfilePage.AchievementsOf | frontend/src/pages/Profile.tsx:16-20 | three achievements with the user's counts and targets 20, 10 and 5 |
| ProfilePage.View | frontend/src/pages/Profile.tsx:12-14 | the login prompt exactly when no user is signed in; otherwise the user's details, impact and achievements |
| ProfilePage.Remaining | frontend/src/pages/Profile.tsx:143-146 | below target: the difference followed by " more to reach target"; the "Target achieved" text exactly when the count has reached the target |
| ProfilePage.RemainingReachesTarget | frontend/src/pages/Profile.tsx:143-144 | the number printed, read back as decimal and added to the count, gives the target |
| ProfilePage.LoginTargetsOpen | frontend/src/pages/Profile.tsx:16-20 | no achievement of a freshly logged-in user has reached its target |
| ProfilePage.SignupStartsAtZero | frontend/src/pages/Profile.tsx:16-33 | a user with all counters 0 sees the whole target remaining on every achievement and an all-zero impact |
| Satellite.FirstMatch | backend/ml/satellite_processing.py:23-27 | the position of the first listed name ending in `_{band}_{resolution[1:]}.jp2`, or None exactly when no name matches |
| Satellite.BandPath | backend/ml/satellite_processing.py:18-27 | a listed name that matches the band pattern, or FileNotFoundError exactly when none matches |
| Satellite.ExampleBandName | backend/ml/satellite_processing.py:21-23 | the example file name matches B02 at R10m and not at R20m |
| Satellite.SliceIndex | backend/ml/satellite_processing.py:81-86 | a slice bound is clamped into [0, n], and a negative bound counts from the end of the axis |
| Satellite.PySlice | backend/ml/satellite_processing.py:81-86 | a slice always lies within the axis: 0 <= lo <= hi <= n |
| Satellite.CentreSpan | backend/ml/satellite_processing.py:77-82 | the centred span lies within the axis |
| Satellite.CentreSpanFits | backend/ml/satellite_processing.py:77-82 | a crop no larger than the axis spans exactly [n/2 - size/2, n/2 + size/2), of length 2 * (size / 2) |
| Satellite.OversizedCropWraps | backend/ml/satellite_processing.py:81 | a 256 crop of a 100-row band keeps rows 22 to 100: the negative start counts from the end |
| Satellite.SameShapeSameWindow | backend/ml/satellite_processing.py:77-86 | bands with B02's shape get the same centred window when the crop fits |
| Satellite.Processor.constructor | backend/ml/satellite_processing.py:10-16 | no bands and no profile |
| Satellite.Processor.CropImage | backend/ml/satellite_processing.py:57-88 | ValueError before the bands are read, KeyError without B02, otherwise a window for every band and no other, centred on B02's shape and bounded by the band's own |
| Satellite.Processor.PreparePatches | backend/ml/satellite_processing.py:140-162 | KeyError without B02, ValueError for stride 0, otherwise the run over the valid origins of the grid `range(0, h - patch, stride)` by `range(0, w - patch, stride)`, row by row, that saves each composite or stops with the first one's error |
| Satellite.Patches | backend/ml/satellite_processing.py:148-160 | the two loops give exactly the run over the kept grid cells in visiting order, returning as soon as a composite fails |
| Satellite.ScanRow | backend/ml/satellite_processing.py:150-160 | one row of the inner loop extends the run by exactly the kept cells of that row, or ends it with the first failure |
| Satellite.VisitOrigin | backend/ml/satellite_processing.py:152-160 | a valid window's composite is saved under the next index or its error ends the run; an invalid window is skipped |
| Satellite.OriginStep | backend/ml/satellite_processing.py:150-160 | after a successful prefix, one more origin adds its patch, raises its composite's error, or is skipped when invalid |
| Satellite.CompositeMissingKey | backend/ml/satellite_processing.py:134-137 | lacking a band, the composite raises KeyError for the first band of the order B02, B03, B04, B08, B11, B12 that is not loaded |
| Satellite.CompositeShapeError | backend/ml/satellite_processing.py:135-137 | with all six bands loaded, the composite fails exactly when some band's slice differs in shape from B02's, and then with numpy's shape ValueError |
| Satellite.SavedMeaning | backend/ml/satellite_processing.py:148-160 | the run succeeds exactly when every kept origin's composite succeeds and then saves them all numbered in order; otherwise it raises the error of the first failing origin |
| Satellite.SavedSnoc | backend/ml/satellite_processing.py:156-160 | one more valid origin extends a successful run by its patch or its error |
| Satellite.SavedErrSticks | backend/ml/satellite_processing.py:158 | once a prefix of the run has failed, the whole run fails with that error |
| Satellite.RowErrSticks | backend/ml/satellite_processing.py:150-160 | a failure within a row is the result of the whole row |
| Satellite.CellsErrSticks | backend/ml/satellite_processing.py:149-160 | a failure within the earlier rows is the result of the whole grid |
| Satellite.KeptPrefix | backend/ml/satellite_processing.py:156 | the kept origins of a prefix of the visit are a prefix of the kept origins |
| Satellite.RowPrefix | backend/ml/satellite_processing.py:150 | the origins of a prefix of the columns are a prefix of the row |
| Satellite.CellsPrefix | backend/ml/satellite_processing.py:149-150 | the cells of a prefix of the rows are a prefix of the grid |
| Satellite.FullBandsSave | backend/ml/satellite_processing.py:129-137 | with all six bands loaded at B02's shape every valid origin is saved, numbered in order |
| Satellite.MissingBandRaises | backend/ml/satellite_processing.py:146-158 | a 300 by 300 B02 alone, with 256 patches and a valid origin, raises KeyError('B03') |
| Satellite.Row | backend/ml/satellite_processing.py:150 | one origin per column, all on row y, in column order |
| Satellite.Number | backend/ml/satellite_processing.py:148-160 | the i-th saved patch carries index i and the i-th kept origin |
| Satellite.RangeStep | backend/ml/satellite_processing.py:149-150 | a non-empty range starts at its first value and continues one stride further |
| Satellite.KeptSnoc | backend/ml/satellite_processing.py:156-160 | visiting one more cell appends it exactly when it passes the test |
| Satellite.RowSnoc | backend/ml/satellite_processing.py:150 | one more column adds one more origin at the end of the row |
| Satellite.CellsSnoc | backend/ml/satellite_processing.py:149-150 | one more row appends that row's origins after the earlier rows |
| Satellite.RangeMeaning | backend/ml/satellite_processing.py:149-150 | the i-th origin of a range is from + i * stride, and it is below the bound |
| Satellite.CellsMeaning | backend/ml/satellite_processing.py:149-150 | every visited cell takes its row from the row origins and its column from the column origins |
| Satellite.KeptMeaning | backend/ml/satellite_processing.py:156 | the kept cells are exactly the visited cells that pass the test |
| Satellite.RangeBelow | backend/ml/satellite_processing.py:149-150 | every origin of a range lies in [from, bound) |
| Satellite.PatchesInside | backend/ml/satellite_processing.py:146-160 | every saved patch is numbered by position, passes the test, sits on the grid and lies wholly inside the band |
| Satellite.PatchNamesDistinct | backend/ml/satellite_processing.py:159 | patches with different indices get different file names, so none overwrites another |
| InitDb.FirstWhere | scripts/init_db.py:24-32 | the first line satisfying the test, or None exactly when no line does |
| InitDb.ScanEnvLines | scripts/init_db.py:24-32 | the value after the first "=" of the first stripped line holding both "DATABASE_URL" and "="; a line with the name but no "=" does not stop the scan |
| InitDb.FirstWhereAt | scripts/init_db.py:24-32 | the scan stops at the first line that satisfies the test |
| InitDb.DatabaseUrl | scripts/init_db.py:15-38 | the load_dotenv value when non-empty; else the scanned value when the file exists, can be read and yields a non-empty value; otherwise the fallback, in each of those cases |
| InitDb.AssignmentLineYieldsValue | scripts/init_db.py:26-30 | the line `DATABASE_URL=v` qualifies and yields v, even when v contains "=" |
| InitDb.WithSwap | scripts/init_db.py:51-55 | the URL, followed by its copy with ":6543" replaced by ":5432" exactly when it contains ":6543" |
| InitDb.Candidates | scripts/init_db.py:49-75 | the URL first and at most four candidates; only the direct ones when there is no host name or the lookup fails; otherwise the direct ones followed by the same built on the resolved address |
| InitDb.Mask | scripts/init_db.py:79-83 | a URL without "@" is logged unchanged; otherwise "..." followed by the text between the first and second "@" |
| InitDb.AfterFirstSplit | scripts/init_db.py:82-83 | splitting on "@" gives at least two parts, and the second is the text between the first and second "@" |
| InitDb.MaskHidesCredentials | scripts/init_db.py:79-83 | for credentials@host the log shows "..." and the host, never the credentials |
| InitDb.RunSchemaMigration | scripts/init_db.py:42-105 | an empty URL fails without trying; otherwise success iff some candidate applies the schema; the tries follow candidate order, each one logged masked; every try before the last failed; a failure has tried them all |
| InitDb.TryInOrder | scripts/init_db.py:77-105 | success iff some candidate applies the schema; the candidates are tried in order, stopping at the first success, and each try is logged under its masked URL |
| InitDb.BucketStore.constructor | scripts/init_db.py:107-121 | the store holds the given buckets |
| InitDb.BucketStore.CreateStorageBucket | scripts/init_db.py:107-121 | "photos" is added only when it is absent and neither call raises; an error leaves the buckets unchanged; without errors "photos" exists afterwards |
| OrganizeDataset.TargetCategory | scripts/organize_dataset.py:13-35 | a category exactly for the four mapped folder names, and always one of the four targets |
| OrganizeDataset.Candidate | scripts/organize_dataset.py:53-58 | try 0 is the name itself; try k is stem, "_", k and suffix of the original name |
| OrganizeDataset.CandidateInjective | scripts/organize_dataset.py:52-59 | different tries give different names, so the loop never retries one |
| OrganizeDataset.TriedSize | scripts/organize_dataset.py:52-59 | the first k tries are k different names |
| OrganizeDataset.TakenBound | scripts/organize_dataset.py:55 | the loop can fail to find a free name at most once per existing entry, so it ends |
| OrganizeDataset.SubsetSize | scripts/organize_dataset.py:55 | a subset has no more elements than its superset (the counting step behind the bound) |
| OrganizeDataset.FreeFrom | scripts/organize_dataset.py:55-59 | the first try from k onward that is free: it is not taken, and every earlier try is |
| OrganizeDataset.FreeName | scripts/organize_dataset.py:52-59 | the target is never an existing entry; it is the name itself when free, and otherwise the first free try |
| OrganizeDataset.FreeNameIsSmallest | scripts/organize_dataset.py:55-59 | the chosen try is no later than any free try |
| OrganizeDataset.FreeNameAt | scripts/organize_dataset.py:55-59 | when tries 0 to k-1 are taken and try k is free, try k is chosen |
| OrganizeDataset.APngParts | scripts/organize_dataset.py:56-57 | the stem of a.png is a and its suffix is .png |
| OrganizeDataset.SecondDuplicate | scripts/organize_dataset.py:54-59 | with a.png and a_1.png taken, a.png becomes a_2.png: the counter is not stacked |
| OrganizeDataset.Prepared | scripts/organize_dataset.py:20-27 | no file changes, no directory is removed, and the target root and the four category folders exist |
| OrganizeDataset.FindTarget | scripts/organize_dataset.py:52-59 | the `while exists` loop ends at the first name free in the category folder |
| OrganizeDataset.Organize | scripts/organize_dataset.py:5-66 | the volume ends as the run's specification: folders prepared, then each mapped source folder walked and copied in listing order |
| OrganizeDataset.CopyFolder | scripts/organize_dataset.py:44-66 | the volume ends as the walk's files copied in order, skipping ignored names; a failed copy changes nothing |
| OrganizeDataset.CopyAllKeeps | scripts/organize_dataset.py:44-66 | copying never overwrites or removes a file or folder, and every new file lies directly in the category folder |
| OrganizeDataset.ItemsKeep | scripts/organize_dataset.py:30-66 | processing the source entries keeps every earlier file and folder and adds files only directly in category folders |
| OrganizeDataset.OrganizedMeaning | scripts/organize_dataset.py:5-66 | after a run the four category folders exist, nothing that existed is overwritten or removed, new files lie directly in category folders, and every walked file of a mapped folder that is not ignored and whose copy does not fail is in its category folder under its free name, with its contents |
| OrganizeDataset.CopyStepLands | scripts/organize_dataset.py:46-63 | a walked file that is not ignored and whose copy does not fail is written to its free name with the source's contents |
| OrganizeDataset.LandsKept | scripts/organize_dataset.py:52-63 | a landed file stays landed under later copies, which never overwrite an existing file |
| OrganizeDataset.FolderLandsKept | scripts/organize_dataset.py:44-63 | every file of a folder's walk that landed stays landed under later copies |
| OrganizeDataset.CopyAllLands | scripts/organize_dataset.py:44-66 | every walked file of a folder that is not ignored and whose copy does not fail is in the category folder at the end of the walk |
| OrganizeDataset.ItemsLand | scripts/organize_dataset.py:30-66 | every mapped source folder's files land in its category folder and are still there after the whole listing |
| OrganizeDataset.UnmappedSkipped | scripts/organize_dataset.py:35-38 | a listing of unmapped folders copies nothing |
| OrganizeDataset.SkippedCopiesChangeNothing | scripts/organize_dataset.py:49-66 | when every file is ignored or fails to copy, the disk is unchanged and the walk goes on |
| FileSystem.NamesIn | scripts/organize_dataset.py:55 | a name is listed exactly when an entry of that name exists directly in the folder |
| FileSystem.MakeDir | scripts/organize_dataset.py:20-27 | files unchanged; the folder is added to the directories |
| FileSystem.Copy | scripts/organize_dataset.py:61-66 | a copy that succeeds writes the source's contents at the target and changes nothing else; a missing source or an error changes nothing |
| FileSystem.Move | backend/ml/organize_dataset.py:28-32 | succeeds iff the source is a file, no error occurs and, when the target is a folder, the name is free there; the file then leaves the source and lands at the target (or inside the target folder), replacing a file there; a failure changes nothing |
| FileSystem.Unlink | backend/ml/organize_dataset.py:35-38 | succeeds iff the path is a file and no error occurs, removing only that file; a failure changes nothing |
| FileSystem.RemoveTree | backend/ml/organize_dataset.py:39-44 | exactly the files and folders at or below the path are gone; every other entry is kept with its contents |
| FileSystem.Volume.constructor | backend/ml/organize_dataset.py:13 | the volume holds the given disk |
| FileSystem.Volume.MkDir | scripts/organize_dataset.py:22-27 | the disk becomes MakeDir of the old disk |
| FileSystem.Volume.Copy2 | scripts/organize_dataset.py:63 | the disk becomes Copy of the old disk |
| FileSystem.Volume.MoveFile | backend/ml/organize_dataset.py:29 | the disk and the outcome are Move of the old disk |
| FileSystem.Volume.UnlinkFile | backend/ml/organize_dataset.py:36 | the disk and the outcome are Unlink of the old disk |
| FileSystem.Volume.RmTree | backend/ml/organize_dataset.py:40-44 | the disk becomes RemoveTree of the old disk |
| FlattenDataset.FileStep | backend/ml/organize_dataset.py:24-38 | a name without a dot changes nothing; an image is moved to `{class}_{counter:04d}{suffix}` at the class root, the counter rising iff that move succeeds and nothing changing when it does not; any other match is unlinked unless its unlink fails, with the counter kept; no folder is created or removed |
| FlattenDataset.Files | backend/ml/organize_dataset.py:24-38 | the counter never goes down over a sub-folder's matches, and the folders are unchanged |
| FlattenDataset.StraysRemoved | backend/ml/organize_dataset.py:45-51 | folders unchanged; files are only removed, never changed; a file that is not a stray is kept; a stray is kept exactly when its unlink fails |
| FlattenDataset.FlattenSub | backend/ml/organize_dataset.py:24-38 | the loop leaves the disk and counter that the specification gives for the matched files in order |
| FlattenDataset.FlattenFile | backend/ml/organize_dataset.py:24-38 | an image is moved to the next generated name at the class root and the counter rises iff the move worked; any other match is unlinked |
| FlattenDataset.RemoveStrays | backend/ml/organize_dataset.py:45-51 | the loop leaves the disk with the strays removed, as StraysRemoved states |
| FlattenDataset.UnlinkOne | backend/ml/organize_dataset.py:46-51 | unlinking one more stray adds it to the removed set |
| FlattenDataset.CleanClassFolder | backend/ml/organize_dataset.py:18-51 | the disk ends as the sub-folder pass over the listing followed by the stray pass |
| FlattenDataset.CleanEntry | backend/ml/organize_dataset.py:22-44 | a listed entry that is a folder has its matches processed and is then removed with all it still holds; other entries change nothing |
| FlattenDataset.CleanDataset | backend/ml/organize_dataset.py:53-61 | a missing root changes nothing; otherwise each listed class folder that is a folder is cleaned in listing order |
| FlattenDataset.CleanClass | backend/ml/organize_dataset.py:57-60 | a listed class entry is cleaned iff it is a folder |
| FlattenDataset.DigitsThenNonDigit | backend/ml/organize_dataset.py:27 | digits followed by a non-digit split at the same place |
| FlattenDataset.ImageExtension | backend/ml/organize_dataset.py:25-27 | an image's lower-cased suffix is non-empty and starts with a dot |
| FlattenDataset.ImageNameInjective | backend/ml/organize_dataset.py:27-30 | equal generated names mean equal counters, so two moves of one cleaning never reuse a name |
| FlattenDataset.NameParts | backend/ml/organize_dataset.py:27 | after the class prefix the generated name is the counter followed by the extension |
| FlattenDataset.FileStepKeepsFlat | backend/ml/organize_dataset.py:27-38 | a step never puts anything back into a sub-folder that is already flat |
| FlattenDataset.FilesKeepFlat | backend/ml/organize_dataset.py:24-38 | a sub-folder's pass keeps every other flat sub-folder flat |
| FlattenDataset.SubsFlatten | backend/ml/organize_dataset.py:22-44 | no folder is created, the only child folders removed are listed ones, and every listed folder is gone with all it held |
| FlattenDataset.CleanedMeaning | backend/ml/organize_dataset.py:18-51 | no folder is created, every listed sub-folder is gone with everything below it, and every remaining file directly in the class folder is an image or one whose unlink failed |
| FlattenDataset.CleanedKeepsImages | backend/ml/organize_dataset.py:18-51 | every image a sub-folder pass moved is, after the cleaning, in the class folder under the name generated from its counter, with its contents, and no two of them share a path |
| FlattenDataset.GeneratedNameIsImage | backend/ml/organize_dataset.py:25-27 | a generated name ends in the image's lower-cased extension, so it is an image and the stray pass spares it |
| FlattenDataset.IntactSnoc | backend/ml/organize_dataset.py:27-29 | a newly moved image under the current counter extends the placed images, which then use counters below the next one |
| FlattenDataset.StepFrame | backend/ml/organize_dataset.py:24-38 | a step never moves, unlinks or overwrites an image already placed at the class root |
| FlattenDataset.StepKeepsPlaced | backend/ml/organize_dataset.py:24-38 | after a step every placed image, and the one it moved, is at its generated name with its contents |
| FlattenDataset.FilesKeepPlaced | backend/ml/organize_dataset.py:24-38 | a sub-folder's matches keep every placed image and add the ones they moved |
| FlattenDataset.SubKeepsPlaced | backend/ml/organize_dataset.py:22-44 | one listed entry, including the removal of the sub-folder, keeps every placed image and adds the ones it moved |
| FlattenDataset.SubsKeepPlaced | backend/ml/organize_dataset.py:21-44 | the sub-folder pass leaves every image it moved at its generated name with its contents |
| FlattenDataset.RootFileWithGeneratedNameIsReplaced | backend/ml/organize_dataset.py:27-30 | a root file already carrying the generated name is replaced by the moved image, and the counter advances |
| Text.Split | scripts/init_db.py:82 | at least one part, no part holds the separator, and two or more parts exactly when the separator occurs |
| Text.JoinSplit | frontend/src/contexts/AuthContext.tsx:51 | joining the parts of a split on the same separator gives back the input |
| Text.StripIdempotent | scripts/init_db.py:26 | stripping twice is stripping once |
| Text.LowerIdempotent | backend/ml/organize_dataset.py:25 | lower-casing twice is lower-casing once |
| Text.DecimalRoundTrip | frontend/src/pages/Profile.tsx:144 | the printed decimal reads back as the number |
| Text.ZeroPaddedValue | backend/ml/organize_dataset.py:27 | a zero-padded counter reads back as the counter |
| Text.ZeroPaddedInjective | backend/ml/organize_dataset.py:27 | different counters give different padded texts |
| Text.SuffixOfExtension | backend/ml/organize_dataset.py:25-27 | after a non-empty stem, an extension with a single leading dot is the name's suffix |
| Text.StemSuffix | scripts/organize_dataset.py:56-57 | stem followed by suffix is the name, and a non-empty suffix starts with a dot |
| Tables.RowsOf | backend/api/reports.py:95-98 | one row per listed id, in that order: the row stored under it |
| Tables.Database.constructor | backend/api/reports.py:58 | all five tables start empty, and each report is stored under its own id |

## Left out

- Printing, logging and console output are not modelled. The log lines that matter, the masked URLs of `run_schema_migration`, are returned as a sequence.
- Real concurrency is not modelled. FastAPI's `BackgroundTasks` is a queue that tasks are appended to.
- Network calls are function-typed parameters whose bodies are not modelled: Supabase, web3, DNS, psycopg2, object storage and the image classifier.
- ML training, evaluation and the classifier's internals are not modelled, and neither is TensorFlow.
- Floating point is modelled as `real`:
  - the heatmap's `int(count / max * 100)` is taken as the exact floor of `100 * count / max`, which a float can miss by one;
  - `toFixed` formatting and NaN are left out;
  - `parseFloat` is the parameter `parseFloat`, so the model does not fix how partial numbers parse.
- `Text.Lower` and `Text.Strip` cover ASCII letters and ASCII whitespace only. Unicode case folding and Unicode spaces are not modelled.
- `Text.IsSpace` also leaves out the separators U+001C to U+001F, which Python's `str.strip` removes.
- ApiClient.Get: reads the first member of a repeated key, where `JSON.parse` keeps the last; repeated keys are not modelled.
- Uncaught failures of table calls are not modelled: the update of `upload_evidence` after a stored upload (backend/api/cleanup.py:34-37), the selects of `get_reports` and `get_report` (backend/api/reports.py:97, 103) and the update of `verify_report` (backend/api/reports.py:111). Each would answer 500 from the framework; the evidence file would stay stored.
- The clock is left out: `datetime.now`, `strftime`, ISO dates and `Date.now` are given as parameters, namely the date keys, the timeline day list and the ISO-time function.
- Dashboard.LocationOf: a `location` key holding null is not modelled; such a row would be grouped under Python's `None`, while the model knows only rows with a location text and rows without the key, which get "Unknown".
- The dashboard's random fallback values and `get_marine_impact` are left out, because they are constants or random.
- `get_water_quality` and the sensor-reading insert are not modelled: they only pass rows through from the database.
- The trend handler's `avgResponseTime` rounding is left out; only its counting is modelled.
- The three-query snapshot behind the stats handler is taken as one row list, not three separate queries.
- The text of the HTTP error details is modelled only where the code fixes it ("Report not found" and the upload failure); other exception messages are abstract.
- `notify_authorities` is scheduled, but its body is not modelled.
- The toasts' description texts are not modelled; only their titles and variants are.
- React render scheduling, JSX and component styling are not modelled, and neither is state set after an unmount.
- A severity key that names an `Object.prototype` member (for example "toString") is treated like any unknown key.
- FileUploader records every value meant for `onFileSelect` as if the callback were present. A parent that omits it receives nothing, and the model does not tell that case apart.
- FileUploader takes `maxSizeMB` as a whole number of megabytes; fractional limits are not modelled.
- Water-body prices, sizes, features and impact figures in the NFT catalogue are not modelled; they are display-only.
- Raster reading, resampling, reflectance, the spectral indices, the RGB image and the composite's pixels are not modelled (`read_bands`, `calculate_indices`, `generate_rgb`). A band is its shape only, and `create_composite` is modelled by the exception it raises.
- Writing the patch files (`os.makedirs`, `np.save`) is not modelled: a saved patch is its index and origin.
- The test `np.mean(patch) > 0` is the `valid` parameter.
- Slices with negative or non-unit steps are not modelled, because the processor never uses them.
- OrganizeDataset directory listings:
  - The order of `iterdir` and `os.walk` is given by the `names` and `walk` parameters.
  - `mkdir(parents=True)` is modelled as creating the one folder, which also covers a target root whose parents exist.
  - A category target that already exists as a file, and a missing source folder, are not modelled.
- FlattenDataset has these gaps:
  - `shutil.rmtree(..., ignore_errors=True)` is modelled as always succeeding.
  - The lazy `rglob` is modelled as a listing taken before the sub-folder's pass starts, given by the `rglob` parameter.
  - `shutil.move` of a directory whose name contains a dot is not modelled: moves act on files only.
  - `shutil.move` across devices is not modelled.
- FlattenDataset.CleanedMeaning assumes that the `iterdir` listing yields direct children of the class folder, as a real listing does.
- FlattenDataset.CleanedKeepsImages also assumes that `rglob(sub)` yields only paths below `sub`, as a real glob does.
- InitDb.DatabaseUrl: `str.splitlines` is taken as the given `lines`, and `load_dotenv` as the `dotenv` value.
- `InitDb.Candidates`: urlparse's host name is the parameter `hostnameOf`.
- InitDb.RunSchemaMigration: connecting, reading `schema.sql` and executing it together form the `applies` parameter.
- The hook `frontend/src/hooks/use-toast` is not part of this model. Only the titles and the destructive flag of the toasts are kept.
- The Supabase client module, the auth and AI helper routers, the blockchain client, the downloaders, the seed script and the project clean-up script are outside the modelled core.
