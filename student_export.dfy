/**
 * The per-student PDF export: for the selected candidate it looks up the candidate, the
 * recorded alerts and the exam, turns them into a report record, and saves the rendered
 * report under the sanitised candidate name. The clock, the score draw and the rendering
 * are parameters or left out.
 */
module StudentExport {
  import opened Wrappers
  import opened Strings
  import Data
  import ReportGenerator
  import ReportDialog

  /** The stand-in used when the candidate's exam is not in the table. */
  function FallbackExam(examId: string): Data.Exam
  {
    Data.Exam(examId, "Unknown Exam", "", Some(""))
  }

  /** The candidate's exam, or the stand-in; either way it carries the asked-for id. */
  function ExamOrFallback(examId: string): (e: Data.Exam)
    ensures e.id == examId
    ensures Data.GetExamById(examId).Some? ==> e in Data.Exams
    ensures Data.GetExamById(examId).None? ==> e.title == "Unknown Exam" && e.date == "" && e.description == Some("")
  {
    match Data.GetExamById(examId)
    case Some(exam) => exam
    case None => FallbackExam(examId)
  }

  /** Every candidate in the table has a real exam: the stand-in is never used. */
  lemma FallbackNeverNeeded(c: Data.Candidate)
    requires c in Data.Candidates
    ensures ExamOrFallback(c.examId) in Data.Exams
    ensures ExamOrFallback(c.examId) != FallbackExam(c.examId)
  {
    Data.EveryCandidateHasAnExam(c);
    var e := ExamOrFallback(c.examId);
    assert e.description != Some("") by {
      var i :| 0 <= i < |Data.Exams| && Data.Exams[i] == e;
    }
  }

  /** One alert as a proctoring event, its type passed through unchanged. */
  function AlertToEvent(a: Data.Alert): ReportGenerator.ProctoringEvent
  {
    ReportGenerator.ProctoringEvent(Data.AlertKindName(a.kind), a.timestamp, Some(0.8), None, Some(a.description))
  }

  /** One event per alert, in alert order. */
  function Events(alerts: seq<Data.Alert>): (events: seq<ReportGenerator.ProctoringEvent>)
    ensures |events| == |alerts|
    ensures forall i :: 0 <= i < |alerts| ==>
      events[i].kind == Data.AlertKindName(alerts[i].kind) && events[i].timestamp == alerts[i].timestamp &&
      events[i].confidence == Some(0.8) && events[i].details == Some(alerts[i].description)
  {
    seq(|alerts|, i requires 0 <= i < |alerts| => AlertToEvent(alerts[i]))
  }

  /** An alert type is not among the report's event labels, so it is shown as it is. */
  lemma AlertKindsAreTheirOwnLabels(k: Data.AlertKind)
    ensures ReportGenerator.EventTypeLabel(Data.AlertKindName(k)) == Data.AlertKindName(k)
  {
    var name := Data.AlertKindName(k);
    assert name !in ReportGenerator.EventLabels;
    ReportGenerator.UnlabelledKindIsItsOwnLabel(name);
  }

  /** `alerts.map(a => a.screenshotDataUri).filter(Boolean)`: the present, non-empty
      screenshot URIs, in alert order. */
  function Screenshots(alerts: seq<Data.Alert>): (uris: seq<string>)
    ensures |uris| <= |alerts|
    ensures forall u :: u in uris <==> u != "" && exists i :: 0 <= i < |alerts| && alerts[i].screenshotDataUri == Some(u)
  {
    if alerts == [] then []
    else
      var rest := Screenshots(alerts[1..]);
      assert forall i :: 1 <= i < |alerts| ==> alerts[i] == alerts[1..][i - 1];
      if Truthy(alerts[0].screenshotDataUri) then [alerts[0].screenshotDataUri.value] + rest else rest
  }

  /** Screenshots of consecutive alert lists are concatenated: the order is kept. */
  lemma {:induction false} ScreenshotsAppend(xs: seq<Data.Alert>, ys: seq<Data.Alert>)
    ensures Screenshots(xs + ys) == Screenshots(xs) + Screenshots(ys)
  {
    if xs == [] {
      assert xs + ys == ys;
    } else {
      assert (xs + ys)[1..] == xs[1..] + ys;
      ScreenshotsAppend(xs[1..], ys);
    }
  }

  /** The report record assembled for a candidate. The source reads the clock three
      times: `now` is the `Date.now()` of the id in milliseconds, `startIso` and `endIso`
      the two `new Date()` readings as ISO strings. `rnd` is the score draw in [0, 1). */
  function BuildReport(c: Data.Candidate, alerts: seq<Data.Alert>, exam: Data.Exam,
                       now: nat, startIso: string, endIso: string, rnd: real): (r: ReportGenerator.ExamReport)
    requires 0.0 <= rnd < 1.0
    ensures StartsWith(r.id, "RPT-" + c.id + "-")
    ensures r.examId == exam.id && r.examTitle == exam.title
    ensures r.candidateName == c.name && r.candidateEmail == c.email
    ensures 0 <= r.score < r.maxScore == 100
    ensures ReportGenerator.ResultText(r) == "PASSED" <==> r.score >= 60
    ensures r.suspiciousActivities == Events(alerts) && r.screenshots == Screenshots(alerts)
    ensures r.answers == []
  {
    ReportGenerator.ExamReport(
      "RPT-" + c.id + "-" + NatToString(now), exam.id, exam.title, c.name, c.email,
      startIso, endIso, (rnd * 100.0).Floor, 100, 60, ReportGenerator.Completed,
      Events(alerts), true, Screenshots(alerts), Some("N/A"),
      Some(ReportGenerator.DeviceInfo("Unknown", "Unknown", "Unknown", "Unknown")),
      120, 90, [])
  }

  datatype ExportOutcome = NothingSelected | Failed(message: string) | Exported(report: ReportGenerator.ExamReport, fileName: string)

  class StudentExportPanel {
    var selected: Option<string>
    var isProcessing: bool

    /** The first candidate of the table starts selected. */
    constructor ()
      ensures selected == Some("c1") && !isProcessing
    {
      selected := Some(Data.Candidates[0].id);
      isProcessing := false;
    }

    method Select(id: string)
      modifies this
      ensures selected == Some(id) && isProcessing == old(isProcessing)
    {
      selected := Some(id);
    }

    /** Exports the selected candidate's report, or reports why it could not. */
    method HandleExportPdf(now: nat, startIso: string, endIso: string, rnd: real) returns (outcome: ExportOutcome)
      requires 0.0 <= rnd < 1.0
      modifies this
      ensures selected == old(selected)
      ensures !Truthy(selected) ==> outcome == NothingSelected && isProcessing == old(isProcessing)
      ensures Truthy(selected) ==> !isProcessing
      ensures Truthy(selected) && Data.GetCandidateById(selected.value).None? ==>
        outcome == Failed("Candidate not found")
      ensures Truthy(selected) && Data.GetCandidateById(selected.value).Some? ==>
        var c := Data.GetCandidateById(selected.value).value;
        outcome == Exported(
          BuildReport(c, Data.GetAlertsByCandidateId(selected.value), ExamOrFallback(c.examId), now, startIso, endIso, rnd),
          ReportDialog.ReportFileName(c.name, "pdf"))
    {
      if selected.None? || selected.value == "" {
        return NothingSelected;
      }
      isProcessing := true;
      var candidate := Data.GetCandidateById(selected.value);
      if candidate.None? {
        outcome := Failed("Candidate not found");
      } else {
        var c := candidate.value;
        var alerts := Data.GetAlertsByCandidateId(selected.value);
        var exam := ExamOrFallback(c.examId);
        var report := BuildReport(c, alerts, exam, now, startIso, endIso, rnd);
        outcome := Exported(report, ReportDialog.ReportFileName(c.name, "pdf"));
      }
      isProcessing := false;
    }
  }

  /** For a candidate in the table, the exported report carries the candidate's own
      record, the real exam, and one event per stored alert, each labelled by its type. */
  lemma ExportedReportDescribesCandidate(c: Data.Candidate, now: nat, startIso: string, endIso: string, rnd: real, i: nat)
    requires c in Data.Candidates && 0.0 <= rnd < 1.0
    requires i < |Data.GetAlertsByCandidateId(c.id)|
    ensures var r := BuildReport(c, Data.GetAlertsByCandidateId(c.id), ExamOrFallback(c.examId), now, startIso, endIso, rnd);
      Data.GetExamById(r.examId) == Some(ExamOrFallback(c.examId)) &&
      ReportGenerator.EventTypeLabel(r.suspiciousActivities[i].kind) == r.suspiciousActivities[i].kind
  {
    FallbackNeverNeeded(c);
    Data.ExamLookupIsExact(c.examId, ExamOrFallback(c.examId));
    AlertKindsAreTheirOwnLabels(Data.GetAlertsByCandidateId(c.id)[i].kind);
  }
}
