/**
 * The per-candidate report dialog: it asks the report service for a written report,
 * keeps the outcome in its state, and offers the report as a PDF or single-cell CSV
 * download or upload. The service call, the PDF rendering and the Base64 encoders are
 * parameters.
 */
module ReportDialog {
  import opened Wrappers
  import opened Strings
  import Csv
  import UploadRoute

  // ------------------------------------------------------------ file names

  /** `replace(/[^a-z0-9]/gi, '_')`: every character but an ASCII letter or digit
      becomes `_`. */
  function SanitizeName(name: string): (r: string)
    ensures |r| == |name|
    ensures forall i :: 0 <= i < |r| ==> r[i] == (if IsAsciiAlnum(name[i]) then name[i] else '_')
  {
    if name == [] then "" else [if IsAsciiAlnum(name[0]) then name[0] else '_'] + SanitizeName(name[1..])
  }

  /** The download and upload name: the sanitised candidate name + `_report.<ext>`. */
  function ReportFileName(candidateName: string, ext: string): (r: string)
    ensures |r| == |candidateName| + 8 + |ext|
    ensures r[|candidateName|..] == "_report." + ext
  {
    SanitizeName(candidateName) + "_report." + ext
  }

  /** A report file name has only characters the upload endpoint keeps, so the endpoint
      stores the file under exactly this name. */
  lemma ReportFileNameIsSafe(candidateName: string, ext: string)
    requires forall i :: 0 <= i < |ext| ==> IsAsciiAlnum(ext[i])
    ensures var n := ReportFileName(candidateName, ext);
      forall i :: 0 <= i < |n| ==> UploadRoute.IsSafeChar(n[i])
    ensures UploadRoute.SafeName(ReportFileName(candidateName, ext)) == ReportFileName(candidateName, ext)
  {
    var s := SanitizeName(candidateName);
    var n := s + "_report." + ext;
    forall i | 0 <= i < |n| ensures UploadRoute.IsSafeChar(n[i]) {
      if i < |s| {
        assert n[i] == s[i];
      } else if i < |s| + 8 {
        assert n[i] == "_report."[i - |s|];
      } else {
        assert n[i] == ext[i - |s| - 8];
      }
    }
    UploadRoute.SafeNameFixesSafeNames(n);
  }

  /** Unlike the endpoint's sanitiser, this one also replaces `.` and `-`. */
  lemma StricterThanEndpoint(name: string, i: nat)
    requires i < |name| && (name[i] == '.' || name[i] == '-')
    ensures SanitizeName(name)[i] == '_'
    ensures UploadRoute.SafeName(name)[i] == name[i]
  {
  }

  // ------------------------------------------------------------ the CSV text

  /** The single-column CSV: a `report` header line, then the report with every `"`
      doubled and wrapped in three quotes on each side. */
  function ReportCsv(report: string): string
  {
    "report\n\"\"\"" + Csv.Escape(report) + "\"\"\""
  }

  /** Read back as CSV, the text is one header cell `report` and one data cell that is
      the report wrapped in a pair of literal quotes: the tripled quotes open and close
      the cell and add one `"` on each side of the content. */
  lemma ReportCsvReadsBack(report: string)
    ensures Csv.Parse(ReportCsv(report)) == Some([["report"], ["\"" + report + "\""]])
  {
    var cell := "\"" + report + "\"";
    assert Csv.Escape("\"" + report) == "\"\"" + Csv.Escape(report) by {
      Csv.EscapeAppend("\"", report);
    }
    assert Csv.Escape(cell) == "\"\"" + Csv.Escape(report) + "\"\"" by {
      Csv.EscapeAppend("\"" + report, "\"");
    }
    var rows := [[cell]];
    assert Csv.QuoteAll(rows[0]) == [Csv.Quote(cell)];
    assert Csv.QuotedLines(rows) == [Csv.Quote(cell)];
    assert Join(["report"], ",") == "report";
    assert Join(["report", Csv.Quote(cell)], "\n") == ReportCsv(report);
    assert forall i :: 0 <= i < |"report"| ==> IsAsciiLower("report"[i]);
    Csv.HeaderAndRowsRoundTrip(["report"], rows);
    assert [["report"]] + rows == [["report"], [cell]];
  }

  // ------------------------------------------------------------ the dialog

  /** What the report service returns: success with a report, or an error message and
      optional details. */
  datatype GenerationResult = GenerationResult(
    success: bool, report: Option<string>, error: Option<string>, details: Option<string>)

  /** The message shown on failure: the service's error, or a default when it is empty. */
  function FailureMessage(result: GenerationResult): (msg: string)
    ensures msg != ""
    ensures Truthy(result.error) ==> msg == result.error.value
  {
    if Truthy(result.error) then result.error.value else "An unknown error occurred."
  }

  datatype UploadFormat = Pdf | Csv

  class ReportDialog {
    const candidateName: string
    var isOpen: bool
    var isLoading: bool
    var report: Option<string>
    var error: Option<string>
    var errorDetails: Option<string>

    /** The report and the error are never both present. */
    predicate Valid()
      reads this
    {
      !(report.Some? && error.Some?)
    }

    constructor (candidateName: string)
      ensures this.candidateName == candidateName
      ensures !isOpen && !isLoading && report == None && error == None && errorDetails == None
      ensures Valid()
    {
      this.candidateName := candidateName;
      isOpen := false;
      isLoading := false;
      report := None;
      error := None;
      errorDetails := None;
    }

    /** The synchronous start of a generation: the dialog shows its loader with neither a
        report nor an error while the service call is pending. */
    method BeginGenerateReport()
      modifies this
      ensures Valid() && isLoading && report == None && error == None
      ensures errorDetails == old(errorDetails) && isOpen == old(isOpen)
    {
      isLoading := true;
      error := None;
      report := None;
    }

    /** The end of a generation, once the service has answered with `result`: success
        stores the report, failure the message and the details; loading ends. Fields the
        outcome does not set keep their values. */
    method CompleteGenerateReport(result: GenerationResult)
      modifies this
      ensures !isLoading && isOpen == old(isOpen)
      ensures result.success && result.report.Some? ==>
        report == result.report && error == old(error) && errorDetails == old(errorDetails)
      ensures !(result.success && result.report.Some?) ==>
        report == old(report) && error == Some(FailureMessage(result)) && errorDetails == result.details
      ensures old(report) == None && old(error) == None ==> Valid()
    {
      if result.success && result.report.Some? {
        report := result.report;
      } else {
        error := Some(FailureMessage(result));
        errorDetails := result.details;
      }
      isLoading := false;
    }

    /** The whole handler: begin, await the service's `result`, complete. Report and error
        are never both set afterwards. */
    method HandleGenerateReport(result: GenerationResult)
      modifies this
      ensures Valid() && !isLoading
      ensures result.success && result.report.Some? ==>
        report == result.report && error == None && errorDetails == old(errorDetails)
      ensures !(result.success && result.report.Some?) ==>
        report == None && error == Some(FailureMessage(result)) && errorDetails == result.details
      ensures isOpen == old(isOpen)
    {
      BeginGenerateReport();
      CompleteGenerateReport(result);
    }

    /** Opening keeps the state; closing drops the report, the error and the loading
        flag, but keeps the error details. */
    method HandleOpenChange(open: bool)
      modifies this
      ensures isOpen == open && errorDetails == old(errorDetails)
      ensures !open ==> report == None && error == None && !isLoading
      ensures open ==> report == old(report) && error == old(error) && isLoading == old(isLoading)
      ensures old(Valid()) ==> Valid()
    {
      isOpen := open;
      if !open {
        report := None;
        error := None;
        isLoading := false;
      }
    }

    /** The PDF download's file name, or nothing without a (non-empty) report. */
    method DownloadPdf() returns (fileName: Option<string>)
      ensures fileName.Some? <==> Truthy(report)
      ensures fileName.Some? ==> fileName.value == ReportFileName(candidateName, "pdf")
    {
      if report.None? || report.value == "" {
        return None;
      }
      fileName := Some(ReportFileName(candidateName, "pdf"));
    }

    /** The CSV download's file name and text, or nothing without a (non-empty) report. */
    method DownloadCsv() returns (file: Option<(string, string)>)
      ensures file.Some? <==> Truthy(report)
      ensures file.Some? ==> file.value == (ReportFileName(candidateName, "csv"), ReportCsv(report.value))
    {
      if report.None? || report.value == "" {
        return None;
      }
      var csvContent := "report\n\"\"\"" + Csv.Escape(report.value) + "\"\"\"";
      file := Some((ReportFileName(candidateName, "csv"), csvContent));
    }

    /** The upload request for the chosen format, or nothing without a (non-empty)
        report. `pdfBase64` is the rendered PDF in Base64, `base64` the CSV encoder. */
    method UploadReport(format: UploadFormat, pdfBase64: string -> string, base64: string -> string)
      returns (req: Option<UploadRoute.Request>)
      ensures req.Some? <==> Truthy(report)
      ensures req.Some? && format == Pdf ==> req.value == UploadRoute.Body(
        Some(ReportFileName(candidateName, "pdf")),
        Some(UploadRoute.DataUri("application/pdf", pdfBase64(report.value))))
      ensures req.Some? && format == Csv ==> req.value == UploadRoute.Body(
        Some(ReportFileName(candidateName, "csv")),
        Some(UploadRoute.DataUri("text/csv", base64(ReportCsv(report.value)))))
    {
      if report.None? || report.value == "" {
        return None;
      }
      var dataUrl: string;
      var filename: string;
      if format == Pdf {
        var b64 := pdfBase64(report.value);
        dataUrl := UploadRoute.DataUri("application/pdf", b64);
        filename := ReportFileName(candidateName, "pdf");
      } else {
        var csvContent := ReportCsv(report.value);
        var b64 := base64(csvContent);
        dataUrl := UploadRoute.DataUri("text/csv", b64);
        filename := ReportFileName(candidateName, "csv");
      }
      req := Some(UploadRoute.Body(Some(filename), Some(dataUrl)));
    }
  }

  /** An uploaded CSV report within the size limit is stored under its download name,
      whatever the candidate's name. */
  lemma CsvUploadStoredUnderDownloadName(candidateName: string, report: string,
                                         base64: string -> string,
                                         decode: string -> seq<UploadRoute.Byte>)
    requires UploadRoute.IsBase64Text(base64(ReportCsv(report)))
    requires |decode(base64(ReportCsv(report)))| <= UploadRoute.MaxUploadBytes
    ensures UploadRoute.Respond(UploadRoute.Body(Some(ReportFileName(candidateName, "csv")),
              Some(UploadRoute.DataUri("text/csv", base64(ReportCsv(report))))), decode)
            == UploadRoute.Saved("/reports/" + ReportFileName(candidateName, "csv"))
  {
    var name := ReportFileName(candidateName, "csv");
    assert forall i :: 0 <= i < |"csv"| ==> IsAsciiAlnum("csv"[i]);
    ReportFileNameIsSafe(candidateName, "csv");
    assert name[|name| - 1] == 'v';
    assert !UploadRoute.NamesDirectory(name);
    UploadRoute.AcceptsClientUpload(name, "text/csv", base64(ReportCsv(report)), decode);
  }
}
