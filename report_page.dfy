/**
 * The report page's submission handler and list filter
 * (frontend/src/pages/Report.tsx).
 */
module ReportPage {
  import opened Wrappers
  import Text
  import Dashboard
  import opened FileUploader
  import opened Toasts

  /** The form's fields; `severity` holds the selected label. */
  datatype FormData = FormData(
    location: string,
    pollutionType: string,
    severity: string,
    description: string,
    coordinates: string)

  /** The form as it starts and as it is reset after a successful submit. */
  const EmptyForm: FormData := FormData("", "", "Medium", "", "")

  const MissingInformation: Toast := Toast("Missing Information", true)
  const MissingEvidence: Toast := Toast("Missing Evidence", true)
  const VerifiedByAi: Toast := Toast("Report Verified by AI", false)
  const SubmittedSuccessfully: Toast := Toast("Report Submitted Successfully!", false)
  const SubmissionFailed: Toast := Toast("Submission Failed", true)

  /** The multipart payload posted to the backend. */
  datatype Submission = Submission(
    userId: string,
    latitude: real,
    longitude: real,
    description: string,
    severity: int,
    file: File)

  /** What `submitReport` produced: a thrown error, or the created report's AI fields. */
  datatype SubmitOutcome =
    | SubmitThrew
    | Created(aiClass: Option<string>, aiConfidence: Option<real>)

  /**
   * The first guard that stops the submit, if any: missing fields, then the
   * missing photo, then the missing user.
   */
  function Guard(form: FormData, file: Option<File>, user: Option<string>): (t: Option<Toast>)
    ensures t == Some(MissingInformation) <==>
      form.location == "" || form.pollutionType == "" || form.description == ""
    ensures t == Some(MissingEvidence) <==>
      form.location != "" && form.pollutionType != "" && form.description != "" && file.None?
    ensures t == Some(AuthenticationRequired) <==>
      form.location != "" && form.pollutionType != "" && form.description != ""
      && file.Some? && user.None?
    ensures t.None? <==>
      form.location != "" && form.pollutionType != "" && form.description != ""
      && file.Some? && user.Some?
  {
    if form.location == "" || form.pollutionType == "" || form.description == "" then
      Some(MissingInformation)
    else if file.None? then Some(MissingEvidence)
    else if user.None? then Some(AuthenticationRequired)
    else None
  }

  /** `severityMap[severity] || 5` */
  function SeverityCode(severity: string): (n: int)
    ensures severity == "Low" ==> n == 1
    ensures severity == "Medium" ==> n == 5
    ensures severity == "High" ==> n == 8
    ensures severity == "Critical" ==> n == 10
    ensures severity !in {"Low", "Medium", "High", "Critical"} ==> n == 5
  {
    match severity
    case "Low" => 1
    case "Medium" => 5
    case "High" => 8
    case "Critical" => 10
    case _ => 5
  }

  /** Every code lies in the backend's 1..10 scale, and a graver label never gets a smaller code. */
  lemma SeverityCodeOrdered(a: string, b: string)
    requires a in {"Low", "Medium", "High", "Critical"} && b in {"Low", "Medium", "High", "Critical"}
    requires LabelRank(a) <= LabelRank(b)
    ensures 1 <= SeverityCode(a) <= SeverityCode(b) <= 10
  {
  }

  function LabelRank(severity: string): nat {
    if severity == "Low" then 0
    else if severity == "Medium" then 1
    else if severity == "High" then 2
    else 3
  }

  /**
   * The coordinates sent: the two numbers when the text has exactly one ","
   * and both trimmed halves parse; (0, 0) otherwise. `parseFloat` returns
   * None where JavaScript's would give NaN.
   */
  function ParseCoordinates(text: string, parseFloat: string -> Option<real>): (r: (real, real))
    ensures r != (0.0, 0.0) ==> text != "" && |Text.Split(text, ',')| == 2
    ensures text == "" || |Text.Split(text, ',')| != 2 ==> r == (0.0, 0.0)
    ensures text != "" && |Text.Split(text, ',')| == 2 ==>
      var p := Text.Split(text, ',');
      var lat, lng := parseFloat(Text.Strip(p[0])), parseFloat(Text.Strip(p[1]));
      && (lat.Some? && lng.Some? ==> r == (lat.value, lng.value))
      && (lat.None? || lng.None? ==> r == (0.0, 0.0))
  {
    if text == "" then (0.0, 0.0)
    else
      var parts := Text.Split(text, ',');
      if |parts| == 2 then
        var lat := parseFloat(Text.Strip(parts[0]));
        var lng := parseFloat(Text.Strip(parts[1]));
        if lat.Some? && lng.Some? then (lat.value, lng.value) else (0.0, 0.0)
      else (0.0, 0.0)
  }

  /**
   * The text the locate button writes (`${lat}, ${lng}`) is read back as the
   * same two numbers.
   */
  lemma GeolocationTextParses(lat: string, lng: string, x: real, y: real, parseFloat: string -> Option<real>)
    requires ',' !in lat && ',' !in lng
    requires parseFloat(Text.Strip(lat)) == Some(x) && parseFloat(Text.Strip(lng)) == Some(y)
    ensures ParseCoordinates(lat + ", " + lng, parseFloat) == (x, y)
  {
    GeolocationTextSplits(lat, lng);
    LeadingSpaceStripped(lng);
  }

  /** `${lat}, ${lng}` splits on "," into the latitude and the space-led longitude. */
  lemma GeolocationTextSplits(lat: string, lng: string)
    requires ',' !in lat && ',' !in lng
    ensures Text.Split(lat + ", " + lng, ',') == [lat, " " + lng]
  {
    assert lat + ", " + lng == lat + [','] + (" " + lng);
    Text.SplitAfterFree(lat, " " + lng, ',');
    assert ',' !in " " + lng;
  }

  lemma LeadingSpaceStripped(s: string)
    ensures Text.Strip(" " + s) == Text.Strip(s)
  {
    assert (" " + s)[1..] == s;
    assert Text.TrimStart(" " + s) == Text.TrimStart(s);
  }

  /** `${type} at ${location}: ${description}` */
  function ComposeDescription(form: FormData): (d: string)
    ensures Text.StartsWith(d, form.pollutionType)
    ensures Text.EndsWith(d, form.description)
  {
    form.pollutionType + " at " + form.location + ": " + form.description
  }

  /** The payload for a submit that passed the guards. */
  function PayloadOf(form: FormData, file: File, userId: string, parseFloat: string -> Option<real>): (s: Submission)
    ensures s.userId == userId && s.file == file
    ensures (s.latitude, s.longitude) == ParseCoordinates(form.coordinates, parseFloat)
    ensures s.description == ComposeDescription(form)
    ensures s.severity == SeverityCode(form.severity)
  {
    var c := ParseCoordinates(form.coordinates, parseFloat);
    Submission(userId, c.0, c.1, ComposeDescription(form), SeverityCode(form.severity), file)
  }

  /** The toast after the API call. */
  function ResultToast(o: SubmitOutcome): (t: Toast)
    ensures t == VerifiedByAi <==>
      o.Created? && o.aiClass.Some? && o.aiClass.value != ""
      && o.aiConfidence.Some? && o.aiConfidence.value != 0.0
    ensures t == SubmissionFailed <==> o.SubmitThrew?
    ensures t == SubmittedSuccessfully <==> o.Created? && t != VerifiedByAi
  {
    match o
    case SubmitThrew => SubmissionFailed
    case Created(c, p) =>
      if c.Some? && c.value != "" && p.Some? && p.value != 0.0 then VerifiedByAi
      else SubmittedSuccessfully
  }

  /** A report classified with confidence 0 gets the generic toast, not the AI one. */
  lemma ZeroConfidenceIsGeneric(aiClass: string)
    ensures ResultToast(Created(Some(aiClass), Some(0.0))) == SubmittedSuccessfully
  {
  }

  /**
   * A report typed through this form is counted by the dashboard in its
   * selected category or an earlier one, and never under "Other".
   */
  lemma ComposedTypeIsCounted(form: FormData, k: nat)
    requires k < Dashboard.OtherIndex && form.pollutionType == Dashboard.PollutionTypes[k]
    ensures Dashboard.TypeIndex(ComposeDescription(form)) <= k
  {
    var d := ComposeDescription(form);
    var name := Dashboard.PollutionTypes[k];
    assert d[0..|name|] == name;
    Text.ContainsAt(d, name, 0);
  }

  /** The page's state that a submit reads and writes. */
  class Page {
    var form: FormData
    var selectedFile: Option<File>
    var isSubmitting: bool
    var toasts: seq<Toast>
    /** Every payload handed to `submitReport`, in order. */
    var sent: seq<Submission>

    constructor ()
      ensures form == EmptyForm && selectedFile == None && !isSubmitting
      ensures toasts == [] && sent == []
    {
      form := EmptyForm;
      selectedFile := None;
      isSubmitting := false;
      toasts := [];
      sent := [];
    }

    /** `handleSubmit`; `submit` stands for the awaited `submitReport` call. */
    method HandleSubmit(user: Option<string>, submit: Submission -> SubmitOutcome,
                        parseFloat: string -> Option<real>)
      modifies this
      ensures var g := Guard(old(form), old(selectedFile), user);
        g.Some? ==>
          toasts == old(toasts) + [g.value] && sent == old(sent) && form == old(form)
          && selectedFile == old(selectedFile) && isSubmitting == old(isSubmitting)
      ensures Guard(old(form), old(selectedFile), user).None? ==>
        var p := PayloadOf(old(form), old(selectedFile).value, user.value, parseFloat);
        var o := submit(p);
        sent == old(sent) + [p] && toasts == old(toasts) + [ResultToast(o)] && !isSubmitting
        && form == (if o.Created? then EmptyForm else old(form))
        && selectedFile == (if o.Created? then None else old(selectedFile))
    {
      var g := Guard(form, selectedFile, user);
      if g.Some? {
        toasts := toasts + [g.value];
        return;
      }
      isSubmitting := true;
      var p := PayloadOf(form, selectedFile.value, user.value, parseFloat);
      sent := sent + [p];
      var o := submit(p);
      toasts := toasts + [ResultToast(o)];
      if o.Created? {
        form := EmptyForm;
        selectedFile := None;
      }
      isSubmitting := false;
    }
  }

  /** A row of the page's report list. */
  datatype ListedReport = ListedReport(
    id: string,
    location: string,
    pollutionType: string,
    severity: string,
    description: string,
    reportedBy: string,
    date: string,
    status: string)

  /** The reports whose status is exactly `status`, in list order. */
  function WithStatus(reports: seq<ListedReport>, status: string): (r: seq<ListedReport>)
    ensures |r| <= |reports|
  {
    if reports == [] then []
    else
      var rest := WithStatus(reports[1..], status);
      if reports[0].status == status then [reports[0]] + rest else rest
  }

  /** The filtered list holds exactly the reports with that status. */
  lemma {:induction false} WithStatusMeaning(reports: seq<ListedReport>, status: string)
    ensures forall x | x in WithStatus(reports, status) :: x.status == status && x in reports
    ensures forall x | x in reports && x.status == status :: x in WithStatus(reports, status)
  {
    if reports != [] {
      WithStatusMeaning(reports[1..], status);
      assert reports == [reports[0]] + reports[1..];
    }
  }

  /** Filtering a concatenation filters each part, so the original order is kept. */
  lemma {:induction false} WithStatusAppend(a: seq<ListedReport>, b: seq<ListedReport>, status: string)
    ensures WithStatus(a + b, status) == WithStatus(a, status) + WithStatus(b, status)
  {
    if a != [] {
      assert (a + b)[1..] == a[1..] + b;
      WithStatusAppend(a[1..], b, status);
    } else {
      assert a + b == b;
    }
  }

  /** `filteredReports` */
  function FilterReports(reports: seq<ListedReport>, filter: string): (r: seq<ListedReport>)
    ensures filter == "All" ==> r == reports
    ensures filter != "All" ==> r == WithStatus(reports, filter)
  {
    if filter == "All" then reports else WithStatus(reports, filter)
  }
}
