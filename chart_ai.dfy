/** The `ChartAI` page controller: file admission, the single stored-image
    slot, the upload widget's states, the results panel written by
    `displayResults`, the "Get Detailed Analysis" button and the three auth
    buttons. The file reader, the two remote analysis calls and the auth
    backend are not performed: how they settled is passed in as a
    `Settled` or a flag. */
module ChartApp {
  import opened Wrappers
  import opened Text
  import opened Render

  /** The upload limit, 10 MiB. */
  const MaxUploadBytes: nat := 10 * 1024 * 1024
  const ImagePrefix := "image/"

  const NotImageAlert := "Please upload an image file"
  const TooLargeAlert := "File size must be less than 10MB"
  const AnalysisFailedMessage := "Analysis failed. Please try again."
  const NoImageAlert := "Please upload a chart first to get a detailed analysis."
  const ReportFailedAlert := "Failed to generate detailed report. Please try again."
  const GeneratingLabel := " Generating Report..."

  /** What `handleFileUpload` looks at in a `File`: its declared media type and its size in bytes. */
  datatype UploadFile = UploadFile(mediaType: string, size: nat)

  /** The verdict of the two admission checks; a rejection carries the alert shown. */
  datatype Admission = Admitted | Rejected(alert: string)

  /** The upload area's content: the idle prompt, the spinner, or the failure panel with its retry button. */
  datatype WidgetState = Idle | Loading | Error(message: string)

  /** The type check comes first, then the size check; exactly 10 MiB is still admitted. */
  function Admit(f: UploadFile): (r: Admission)
    ensures r == Admitted <==> |f.mediaType| >= 6 && f.mediaType[..6] == "image/" && f.size <= 10485760
    ensures r == Rejected(NotImageAlert) <==> !(|f.mediaType| >= 6 && f.mediaType[..6] == "image/")
    ensures r == Rejected(TooLargeAlert) <==>
              |f.mediaType| >= 6 && f.mediaType[..6] == "image/" && f.size > 10485760
  {
    if !StartsWith(f.mediaType, ImagePrefix) then Rejected(NotImageAlert)
    else if f.size > MaxUploadBytes then Rejected(TooLargeAlert)
    else Admitted
  }

  class ChartAI {
    /** `lastImageDataUrl`: the data URL of the last upload that was read, if any. */
    var lastImage: Option<string>
    var widget: WidgetState

    /** The results panel: what it reads, and whether it is displayed. */
    var panel: View
    var resultsShown: bool
    /** The rows currently in the details grid element. */
    var grid: seq<DetailItem>

    // The detailed-report button and panel.
    var reportButtonText: string
    var reportButtonDisabled: bool
    var reportShown: bool
    var reportText: string

    // The auth buttons.
    var signInShown: bool
    var getStartedShown: bool
    var logoutShown: bool

    /** Between two handlers the report button is enabled, and the auth buttons
        agree: sign-in and get-started together, logout exactly when they are hidden. */
    ghost predicate Valid()
      reads this
    {
      !reportButtonDisabled && getStartedShown == signInShown && logoutShown == !signInShown
    }

    /** The page at load: nothing stored, the idle prompt, the auth buttons set
        from the session snapshot the backend reports first. */
    constructor (session: bool, reportButtonLabel: string)
      ensures Valid()
      ensures lastImage == None && widget == Idle && !resultsShown && !reportShown
      ensures reportButtonText == reportButtonLabel
      ensures logoutShown == session
    {
      lastImage := None;
      widget := Idle;
      resultsShown := false;
      panel := View("", "", "", "", "", []);
      grid := [];
      reportButtonText := reportButtonLabel;
      reportButtonDisabled := false;
      reportShown := false;
      reportText := "";
      signInShown := !session;
      getStartedShown := !session;
      logoutShown := session;
    }

    /** `handleFileUpload` up to the analysis request. A rejected file changes
        nothing and starts no request. An admitted one shows the spinner; once
        the reader settles, its data URL fills the slot and is the image sent
        for the quick analysis, or, if reading failed, the failure panel is
        shown, nothing is sent and the slot keeps its old content. */
    method AcceptFile(f: UploadFile, read: Settled<string>) returns (admission: Admission, analyzed: Option<string>)
      requires Valid()
      modifies this`lastImage, this`widget
      ensures Valid()
      ensures admission == Admit(f)
      ensures analyzed == (if admission == Admitted && read.Ok? then Some(read.value) else None)
      ensures admission.Rejected? ==> lastImage == old(lastImage) && widget == old(widget)
      ensures admission == Admitted && read.Ok? ==> lastImage == Some(read.value) && widget == Loading
      ensures admission == Admitted && read.Failed? ==>
                lastImage == old(lastImage) && widget == Error(AnalysisFailedMessage)
    {
      admission := Admit(f);
      analyzed := None;
      if admission.Rejected? {
        return;
      }
      widget := Loading;
      match read {
        case Ok(url) =>
          lastImage := Some(url);
          analyzed := lastImage;
        case Failed =>
          widget := Error(AnalysisFailedMessage);
      }
    }

    /** The quick analysis returned `a`: `displayResults` fills the panel and
        shows it, then the upload area goes back to its idle prompt. The grid is
        cleared before rows are appended, so whatever an earlier render left in
        it is gone: it holds exactly the rows of `a`. */
    method AnalysisSucceeded(a: Analysis)
      requires Valid()
      modifies this`panel, this`grid, this`resultsShown, this`widget
      ensures Valid()
      ensures panel == Project(a) && grid == DetailRows(a)
      ensures resultsShown && widget == Idle
    {
      var cls := ClassOf(a.signal).Token();
      grid := [];
      grid := AppendDetailRows(grid, a);
      panel := View(BadgeText(a.strength, a.signal),
                    "signal-badge " + cls,
                    "signal-card " + cls,
                    ConfidenceText(a.confidence),
                    ReasonText(a.reasoning),
                    grid);
      resultsShown := true;
      widget := Idle;
    }

    /** The quick analysis (or the file read) failed: the failure panel, slot untouched. */
    method AnalysisFailed()
      requires Valid()
      modifies this`widget
      ensures Valid()
      ensures widget == Error(AnalysisFailedMessage)
    {
      widget := Error(AnalysisFailedMessage);
    }

    /** "Try Again", a button only the failure panel has: back to the idle prompt, slot untouched. */
    method Retry()
      requires Valid() && widget.Error?
      modifies this`widget
      ensures Valid()
      ensures widget == Idle
    {
      widget := Idle;
    }

    /** The "Get Detailed Analysis" handler. With no stored image it alerts and
        sends nothing; otherwise it sends the stored image, shows the report or
        alerts on failure. The slot is only read, and on every path the button
        ends enabled with its original text. */
    method RequestDetailedReport(report: Settled<string>) returns (sent: Option<string>, alert: Option<string>)
      requires Valid()
      modifies this`reportButtonText, this`reportButtonDisabled, this`reportShown, this`reportText
      ensures Valid()
      ensures reportButtonText == old(reportButtonText)
      ensures sent == (if Truthy(lastImage) then lastImage else None)
      ensures sent.Some? && report.Ok? ==> reportShown && reportText == report.value && alert == None
      ensures sent.Some? && report.Failed? ==>
                reportShown == old(reportShown) && reportText == old(reportText) && alert == Some(ReportFailedAlert)
      ensures sent.None? ==>
                reportShown == old(reportShown) && reportText == old(reportText) && alert == Some(NoImageAlert)
    {
      var originalText := reportButtonText;
      if Truthy(lastImage) {
        reportButtonText := GeneratingLabel;
        reportButtonDisabled := true;
        sent := lastImage;
        match report {
          case Ok(text) =>
            reportText := text;
            reportShown := true;
            alert := None;
          case Failed =>
            alert := Some(ReportFailedAlert);
        }
        reportButtonText := originalText;
        reportButtonDisabled := false;
      } else {
        sent := None;
        alert := Some(NoImageAlert);
        reportButtonText := originalText;
        reportButtonDisabled := false;
      }
    }

    /** "Close Report": hides the report panel and empties it. */
    method CloseReport()
      requires Valid()
      modifies this`reportShown, this`reportText
      ensures Valid()
      ensures !reportShown && reportText == ""
    {
      reportShown := false;
      reportText := "";
    }

    /** `updateAuthUI`: a session hides sign-in and get-started and shows logout; no session, the reverse. */
    method UpdateAuthUI(session: bool)
      requires Valid()
      modifies this`signInShown, this`getStartedShown, this`logoutShown
      ensures Valid()
      ensures signInShown == !session && getStartedShown == !session && logoutShown == session
    {
      signInShown := !session;
      getStartedShown := !session;
      logoutShown := session;
    }
  }

  /** The appending part of `displayResults`: after the rows already in `grid`,
      the rows of `a` are appended one at a time in the fixed order. */
  method AppendDetailRows(grid: seq<DetailItem>, a: Analysis) returns (rows: seq<DetailItem>)
    ensures rows == grid + DetailRows(a)
  {
    rows := AppendPatternsRow(grid, a.patterns);
    rows := AppendIndicatorRows(rows, IndicatorEntries(a));
    assert rows == grid + (PatternRows(a.patterns) + IndicatorRows(IndicatorEntries(a)));
    rows := AppendOptionalRow(rows, SymbolLabel, a.symbol);
    assert rows == grid + (LeadingRows(a) + OptionalRow(SymbolLabel, a.symbol));
    rows := AppendOptionalRow(rows, TimeframeLabel, a.timeframe);
    assert rows == grid + (LeadingRows(a) + OptionalRow(SymbolLabel, a.symbol)
                           + OptionalRow(TimeframeLabel, a.timeframe));
    rows := AppendOptionalRow(rows, RiskLabel, a.riskAssessment);
  }

  /** The patterns row, appended only for a non-empty list, joined by ", ". */
  method AppendPatternsRow(grid: seq<DetailItem>, patterns: Option<seq<string>>)
    returns (rows: seq<DetailItem>)
    ensures rows == grid + PatternRows(patterns)
  {
    rows := grid;
    if patterns.Some? && |patterns.value| > 0 {
      rows := rows + [DetailItem(PatternsLabel, Join(patterns.value, ", "))];
    }
  }

  /** `if (value) addDetailItem(grid, caption, value)`: one row appended when the value is truthy. */
  method AppendOptionalRow(grid: seq<DetailItem>, caption: string, value: Option<string>)
    returns (rows: seq<DetailItem>)
    ensures rows == grid + OptionalRow(caption, value)
  {
    rows := grid;
    if Truthy(value) {
      rows := rows + [DetailItem(caption, value.value)];
    }
  }

  /** The `forEach` over the indicator entries: one row appended per entry
      with a non-empty value, in the entries' order. */
  method AppendIndicatorRows(grid: seq<DetailItem>, entries: seq<(string, string)>)
    returns (rows: seq<DetailItem>)
    ensures rows == grid + IndicatorRows(entries)
  {
    rows := grid;
    var i := 0;
    while i < |entries|
      invariant 0 <= i <= |entries|
      invariant rows == grid + IndicatorRows(entries[..i])
    {
      var entry := entries[i];
      if entry.1 != "" {
        rows := rows + [DetailItem(IndicatorLabel(entry.0), entry.1)];
      }
      IndicatorRowsSnoc(entries[..i], entry);
      assert entries[..i + 1] == entries[..i] + [entry];
      i := i + 1;
    }
    assert entries[..|entries|] == entries;
  }

  // ---------------------------------------------------------------------------
  // Whole-page scenarios
  // ---------------------------------------------------------------------------

  /** Upload of an admitted file, quick analysis, then "Get Detailed Analysis":
      the detailed request carries the same image the quick analysis was sent,
      that upload's data URL, and the widget is idle again. */
  method UploadThenDetailedReport(f: UploadFile, url: string, a: Analysis, report: Settled<string>)
    returns (analyzed: Option<string>, sent: Option<string>, widget: WidgetState)
    requires Admit(f) == Admitted && url != ""
    ensures analyzed == Some(url) && sent == analyzed && widget == Idle
  {
    var page := new ChartAI(false, "Get Detailed Analysis");
    var admission;
    admission, analyzed := page.AcceptFile(f, Ok(url));
    page.AnalysisSucceeded(a);
    var alert;
    sent, alert := page.RequestDetailedReport(report);
    widget := page.widget;
  }

  /** A failed analysis, a retry and then a rejected file leave the stored
      image alone: the rejected file starts no analysis, and the report still
      goes out with the first upload's image. */
  method FailureRetryAndRejection(f: UploadFile, g: UploadFile, url: string, other: string, report: Settled<string>)
    returns (rejected: Admission, analyzed: Option<string>, sent: Option<string>, widget: WidgetState)
    requires Admit(f) == Admitted && Admit(g) != Admitted && url != ""
    ensures rejected == Admit(g) && analyzed == None && sent == Some(url) && widget == Idle
  {
    var page := new ChartAI(true, "Get Detailed Analysis");
    var admission, first := page.AcceptFile(f, Ok(url));
    page.AnalysisFailed();
    page.Retry();
    rejected, analyzed := page.AcceptFile(g, Ok(other));
    var alert;
    sent, alert := page.RequestDetailedReport(report);
    widget := page.widget;
  }

  /** Rendering the same reply twice shows the same panel and the same grid:
      the second render starts from a grid that already holds the first
      render's rows, and the clear keeps them from accumulating. */
  method RenderTwice(a: Analysis) returns (first: seq<DetailItem>, second: seq<DetailItem>, panel: View)
    ensures first == second == DetailRows(a)
    ensures panel == Project(a)
  {
    var page := new ChartAI(false, "Get Detailed Analysis");
    page.AnalysisSucceeded(a);
    first := page.grid;
    page.AnalysisSucceeded(a);
    second := page.grid;
    panel := page.panel;
  }
}
