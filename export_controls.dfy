/**
 * The export panel: it draws one to three sample reports, exports them as a PDF, as JSON
 * or as CSV, remembers the last export's file name and data URL, and posts that pair to
 * the upload endpoint. The panel's React state becomes the fields of `ExportPanel`.
 */
module ExportControls {
  import opened Wrappers
  import opened Strings
  import Csv
  import opened ReportGenerator
  import UploadRoute

  /** The `i`-th generated sample with its position appended to the candidate name. */
  function Numbered(r: ExamReport, i: nat): ExamReport
  {
    r.(candidateName := r.candidateName + " " + NatToString(i + 1))
  }

  /** `1 + Math.floor(Math.random() * 3)` for a draw `rnd` in [0, 1). */
  function ReportCount(rnd: real): (n: int)
    requires 0.0 <= rnd < 1.0
    ensures 1 <= n <= 3
    ensures n == 1 <==> rnd < 1.0 / 3.0
    ensures n == 3 <==> rnd >= 2.0 / 3.0
  {
    1 + (rnd * 3.0).Floor
  }

  /** Draws the reports to export: `sample(i)` stands for the `i`-th call of the sample
      generator (whose clock and random draws differ from call to call). */
  method GetReports(rnd: real, sample: nat -> ExamReport) returns (reports: seq<ExamReport>)
    requires 0.0 <= rnd < 1.0
    ensures |reports| == ReportCount(rnd)
    ensures 1 <= |reports| <= 3
    ensures forall i :: 0 <= i < |reports| ==> reports[i] == Numbered(sample(i), i)
  {
    var count := ReportCount(rnd);
    reports := [];
    var i := 0;
    while i < count
      invariant 0 <= i <= count
      invariant |reports| == i
      invariant forall k :: 0 <= k < i ==> reports[k] == Numbered(sample(k), k)
    {
      var r := sample(i);
      r := r.(candidateName := r.candidateName + " " + NatToString(i + 1));
      reports := reports + [r];
      i := i + 1;
    }
  }

  /** The name every export is saved under: `export_<milliseconds><extension>`. */
  function ExportFileName(now: nat, extension: string): (name: string)
    ensures StartsWith(name, "export_")
  {
    "export_" + NatToString(now) + extension
  }

  // ------------------------------------------------------------------ CSV export

  const Headers: seq<string> := ["Report ID", "Exam ID", "Exam Title", "Candidate", "Email",
    "Score", "Max Score", "Status", "Start Time", "End Time", "Time Spent", "Suspicious Count"]

  /** The twelve cells of one report, each rendered as `String(cell)` would. */
  function CsvRow(r: ExamReport): (cells: seq<string>)
    ensures |cells| == |Headers|
  {
    [r.id, r.examId, r.examTitle, r.candidateName, r.candidateEmail, IntToString(r.score),
     IntToString(r.maxScore), StatusName(r.status), r.startTime, r.endTime,
     IntToString(r.timeSpent), NatToString(|r.suspiciousActivities|)]
  }

  function CsvRows(reports: seq<ExamReport>): (rows: seq<seq<string>>)
    ensures |rows| == |reports|
    ensures forall i :: 0 <= i < |rows| ==> rows[i] == CsvRow(reports[i])
  {
    seq(|reports|, i requires 0 <= i < |reports| => CsvRow(reports[i]))
  }

  /** The exported text: the bare header line, then one line of quoted cells per report,
      separated (not terminated) by newlines. */
  function CsvText(reports: seq<ExamReport>): string
  {
    Join([Join(Headers, ",")] + Csv.QuotedLines(CsvRows(reports)), "\n")
  }

  /** No header needs quoting. */
  lemma HeadersArePlain()
    ensures forall i :: 0 <= i < |Headers| ==> Csv.IsPlain(Headers[i])
  {
    forall i | 0 <= i < |Headers| ensures Csv.IsPlain(Headers[i]) {
      var h := Headers[i];
      assert forall k :: 0 <= k < |h| ==> IsAsciiLetter(h[k]) || h[k] == ' ';
    }
  }

  /** The exported CSV reads back as the header followed by every report's cells, in the
      order the reports were drawn: quoting loses nothing, whatever the cells contain. */
  lemma CsvRoundTrip(reports: seq<ExamReport>)
    ensures Csv.Parse(CsvText(reports)) == Some([Headers] + CsvRows(reports))
  {
    HeadersArePlain();
    Csv.HeaderAndRowsRoundTrip(Headers, CsvRows(reports));
  }

  /** The last column of a row reads back as the number of suspicious activities. */
  lemma SuspiciousCountColumn(r: ExamReport)
    ensures Headers[11] == "Suspicious Count"
    ensures AllDigits(CsvRow(r)[11]) && DigitsValue(CsvRow(r)[11]) == |r.suspiciousActivities|
  {
    NatToStringRoundTrip(|r.suspiciousActivities|);
  }

  /** The text ends with the closing quote of the last report's last cell: no trailing
      newline after the last row. */
  lemma CsvHasNoTrailingNewline(reports: seq<ExamReport>)
    requires |reports| >= 1
    ensures var t := CsvText(reports); |t| >= 1 && t[|t| - 1] == '"'
  {
    var header := Join(Headers, ",");
    Csv.EndsWithClosingQuote(header, CsvRows(reports));
  }

  // --------------------------------------------------------------------- the panel

  /** The pair posted to the upload endpoint: the last export's name and data URL. */
  function UploadRequest(name: Option<string>, dataUrl: Option<string>): (req: Option<UploadRoute.Request>)
    ensures req.Some? <==> Truthy(name) && Truthy(dataUrl)
    ensures req.Some? ==> req.value.Body? && req.value.name == name && req.value.dataUri == dataUrl
  {
    if !Truthy(dataUrl) || !Truthy(name) then None else Some(UploadRoute.Body(name, dataUrl))
  }

  /** The toast shown after an upload attempt; `None` is a failed request. */
  function UploadToast(resp: Option<UploadRoute.Response>): (toast: (string, string))
    ensures toast.0 == "Upload succeeded" <==> resp.Some? && resp.value.Saved?
    ensures resp.Some? && resp.value.Saved? ==> toast.1 == resp.value.path
    ensures resp.Some? && resp.value.Rejected? && resp.value.message != "" ==> toast.1 == resp.value.message
    ensures resp.None? ==> toast == ("Upload failed", "Network error")
  {
    match resp
    case None => ("Upload failed", "Network error")
    case Some(Saved(path)) => ("Upload succeeded", path)
    case Some(Rejected(_, message)) =>
      ("Upload failed", if message != "" then message else "Server rejected upload")
  }

  class ExportPanel {
    var isProcessing: bool
    var lastExportName: Option<string>
    var lastExportDataUrl: Option<string>

    constructor ()
      ensures !isProcessing && lastExportName == None && lastExportDataUrl == None
    {
      isProcessing := false;
      lastExportName := None;
      lastExportDataUrl := None;
    }

    /** Exports a PDF: only the file name is remembered; the data URL stays that of the
        previous export. */
    method ExportPdf(rnd: real, sample: nat -> ExamReport, now: nat)
      returns (reports: seq<ExamReport>, fileName: string)
      requires 0.0 <= rnd < 1.0
      modifies this
      ensures 1 <= |reports| <= 3 && forall i :: 0 <= i < |reports| ==> reports[i] == Numbered(sample(i), i)
      ensures fileName == ExportFileName(now, ".pdf")
      ensures lastExportName == Some(fileName) && lastExportDataUrl == old(lastExportDataUrl)
      ensures !isProcessing
    {
      isProcessing := true;
      reports := GetReports(rnd, sample);
      fileName := ExportFileName(now, ".pdf");
      lastExportName := Some(fileName);
      isProcessing := false;
    }

    /** Exports JSON and remembers its name and `application/json` data URL. */
    method ExportJson(rnd: real, sample: nat -> ExamReport, now: nat,
                      stringify: seq<ExamReport> -> string, base64: string -> string)
      returns (reports: seq<ExamReport>, fileName: string)
      requires 0.0 <= rnd < 1.0
      modifies this
      ensures 1 <= |reports| <= 3 && forall i :: 0 <= i < |reports| ==> reports[i] == Numbered(sample(i), i)
      ensures fileName == ExportFileName(now, ".json")
      ensures lastExportName == Some(fileName)
      ensures lastExportDataUrl == Some(UploadRoute.DataUri("application/json", base64(stringify(reports))))
      ensures !isProcessing
    {
      isProcessing := true;
      reports := GetReports(rnd, sample);
      var json := stringify(reports);
      fileName := ExportFileName(now, ".json");
      lastExportDataUrl := Some(UploadRoute.DataUri("application/json", base64(json)));
      lastExportName := Some(fileName);
      isProcessing := false;
    }

    /** Exports CSV and remembers its name and `text/csv` data URL. */
    method ExportCsv(rnd: real, sample: nat -> ExamReport, now: nat, base64: string -> string)
      returns (reports: seq<ExamReport>, csv: string, fileName: string)
      requires 0.0 <= rnd < 1.0
      modifies this
      ensures 1 <= |reports| <= 3 && forall i :: 0 <= i < |reports| ==> reports[i] == Numbered(sample(i), i)
      ensures csv == CsvText(reports)
      ensures fileName == ExportFileName(now, ".csv")
      ensures lastExportName == Some(fileName)
      ensures lastExportDataUrl == Some(UploadRoute.DataUri("text/csv", base64(csv)))
      ensures !isProcessing
    {
      isProcessing := true;
      reports := GetReports(rnd, sample);
      var headerLine := Join(Headers, ",");
      var lines := Csv.QuotedLines(CsvRows(reports));
      csv := Join([headerLine] + lines, "\n");
      fileName := ExportFileName(now, ".csv");
      lastExportDataUrl := Some(UploadRoute.DataUri("text/csv", base64(csv)));
      lastExportName := Some(fileName);
      isProcessing := false;
    }

    /** Builds the upload request from the remembered pair, or nothing when either is
        missing or empty. */
    method UploadLast() returns (req: Option<UploadRoute.Request>)
      modifies this
      ensures req == UploadRequest(lastExportName, lastExportDataUrl)
      ensures lastExportName == old(lastExportName) && lastExportDataUrl == old(lastExportDataUrl)
      ensures isProcessing == (if req.Some? then false else old(isProcessing))
    {
      if lastExportDataUrl.None? || lastExportDataUrl.value == "" || lastExportName.None? || lastExportName.value == "" {
        return None;
      }
      isProcessing := true;
      req := Some(UploadRoute.Body(lastExportName, lastExportDataUrl));
      isProcessing := false;
    }

    /** Forgets the last export. */
    method Clear()
      modifies this
      ensures lastExportName == None && lastExportDataUrl == None
      ensures isProcessing == old(isProcessing)
    {
      lastExportName := None;
      lastExportDataUrl := None;
    }
  }

  /** A CSV export followed by a PDF export uploads the PDF's name with the CSV's data. */
  method UploadAfterCsvThenPdf(rnd1: real, rnd2: real, sample: nat -> ExamReport,
                               now1: nat, now2: nat, base64: string -> string)
    returns (csvReports: seq<ExamReport>, req: Option<UploadRoute.Request>)
    requires 0.0 <= rnd1 < 1.0 && 0.0 <= rnd2 < 1.0
    ensures req == Some(UploadRoute.Body(Some(ExportFileName(now2, ".pdf")),
                                         Some(UploadRoute.DataUri("text/csv", base64(CsvText(csvReports))))))
  {
    var panel := new ExportPanel();
    var csv, csvName;
    csvReports, csv, csvName := panel.ExportCsv(rnd1, sample, now1, base64);
    var pdfReports, pdfName := panel.ExportPdf(rnd2, sample, now2);
    req := panel.UploadLast();
  }

  /** Every export name passes the endpoint's sanitiser unchanged, so an accepted upload of
      a CSV export is stored under the name it was downloaded as. */
  lemma CsvExportStoredUnderItsName(now: nat, csv: string, base64: string -> string,
                                    decode: string -> seq<UploadRoute.Byte>)
    requires UploadRoute.IsBase64Text(base64(csv)) && |decode(base64(csv))| <= UploadRoute.MaxUploadBytes
    ensures UploadRoute.Respond(UploadRoute.Body(Some(ExportFileName(now, ".csv")),
                                                 Some(UploadRoute.DataUri("text/csv", base64(csv)))), decode)
            == UploadRoute.Saved("/reports/" + ExportFileName(now, ".csv"))
  {
    var name := ExportFileName(now, ".csv");
    var digits := NatToString(now);
    assert name == "export_" + digits + ".csv";
    forall i | 0 <= i < |name| ensures UploadRoute.IsSafeChar(name[i]) {
      if i < 7 {
        assert name[i] == "export_"[i];
      } else if i < 7 + |digits| {
        assert name[i] == digits[i - 7];
      } else {
        assert name[i] == ".csv"[i - 7 - |digits|];
      }
    }
    assert name[0] == 'e';
    UploadRoute.AcceptsClientUpload(name, "text/csv", base64(csv), decode);
  }
}
