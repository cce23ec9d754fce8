/**
 * The report record and the pure helpers the PDF report builder applies to it: event
 * labels, the status title, the pass/fail rule, the answer counts and rows, and the
 * vertical cursor threaded through the header and information sections. The drawing
 * itself (fonts, colours, tables, page breaks, footers) is not part of this model.
 */
module ReportGenerator {
  import opened Wrappers
  import opened Strings

  datatype ProctoringEvent = ProctoringEvent(
    kind: string, timestamp: string, confidence: Option<real>,
    screenshot: Option<string>, details: Option<string>)

  datatype DeviceInfo = DeviceInfo(browser: string, os: string, screenResolution: string, userAgent: string)

  datatype Answer = Answer(
    question: string, correctAnswer: string, candidateAnswer: string, isCorrect: bool, points: int)

  datatype ReportStatus = Completed | InProgress | Flagged | CheatingSuspected | Passed | Failed

  datatype ExamReport = ExamReport(
    id: string, examId: string, examTitle: string, candidateName: string, candidateEmail: string,
    startTime: string, endTime: string, score: int, maxScore: int, passingScore: int,
    status: ReportStatus, suspiciousActivities: seq<ProctoringEvent>, videoRecorded: bool,
    screenshots: seq<string>, ipAddress: Option<string>, deviceInfo: Option<DeviceInfo>,
    examDuration: int, timeSpent: int, answers: seq<Answer>)

  /** The string value of a status, as stored in the report. */
  function StatusName(s: ReportStatus): string
  {
    match s
    case Completed => "completed"
    case InProgress => "in_progress"
    case Flagged => "flagged"
    case CheatingSuspected => "cheating_suspected"
    case Passed => "passed"
    case Failed => "failed"
  }

  // ------------------------------------------------------------ event labels

  /** The fixed labels of the six proctoring event types. */
  const EventLabels: map<string, string> := map[
    "face_not_visible" := "Face Not Visible",
    "multiple_faces" := "Multiple Faces Detected",
    "tab_switch" := "Tab Switch Detected",
    "mobile_phone" := "Mobile Phone Detected",
    "voice_detected" := "Voice Detected",
    "unknown_person" := "Unknown Person Detected"]

  /** `replace(/_/g, ' ')`. */
  function UnderscoresToSpaces(s: string): (r: string)
    ensures |r| == |s|
    ensures forall i :: 0 <= i < |s| ==> r[i] == (if s[i] == '_' then ' ' else s[i])
  {
    if s == [] then "" else [if s[0] == '_' then ' ' else s[0]] + UnderscoresToSpaces(s[1..])
  }

  /** The label of an event type: its fixed label when it has one, otherwise the type
      itself with its underscores read as spaces. */
  function EventTypeLabel(kind: string): (caption: string)
    ensures kind in EventLabels ==> caption == EventLabels[kind]
    ensures kind !in EventLabels ==>
      |caption| == |kind| && '_' !in caption &&
      forall i :: 0 <= i < |kind| ==> caption[i] == (if kind[i] == '_' then ' ' else kind[i])
  {
    if kind in EventLabels then EventLabels[kind] else UnderscoresToSpaces(kind)
  }

  lemma KnownEventLabels()
    ensures EventTypeLabel("face_not_visible") == "Face Not Visible"
    ensures EventTypeLabel("multiple_faces") == "Multiple Faces Detected"
    ensures EventTypeLabel("tab_switch") == "Tab Switch Detected"
    ensures EventTypeLabel("mobile_phone") == "Mobile Phone Detected"
    ensures EventTypeLabel("voice_detected") == "Voice Detected"
    ensures EventTypeLabel("unknown_person") == "Unknown Person Detected"
  {
  }

  /** A type without a fixed label and without underscores is its own label. */
  lemma UnlabelledKindIsItsOwnLabel(kind: string)
    requires kind !in EventLabels && '_' !in kind
    ensures EventTypeLabel(kind) == kind
  {
  }

  // ------------------------------------------------------------ status title

  /** `String.prototype.split` on one separator character. */
  function SplitOn(s: string, sep: char): (parts: seq<string>)
    ensures |parts| >= 1
    ensures forall k :: 0 <= k < |parts| ==> sep !in parts[k]
  {
    if s == [] then [""]
    else
      var rest := SplitOn(s[1..], sep);
      if s[0] == sep then [""] + rest else [[s[0]] + rest[0]] + rest[1..]
  }

  /** The first character upper-cased, the rest kept. */
  function Capitalize(w: string): (r: string)
  {
    if w == "" then "" else [ToUpperAscii(w[0])] + w[1..]
  }

  function CapitalizeAll(parts: seq<string>): (r: seq<string>)
    ensures |r| == |parts|
  {
    seq(|parts|, k requires 0 <= k < |parts| => Capitalize(parts[k]))
  }

  /** The status line of the report: split on `_`, capitalise each part, join with spaces. */
  function StatusTitle(status: string): string
  {
    Join(CapitalizeAll(SplitOn(status, '_')), " ")
  }

  /** Reference definition of the status title, character by character: an underscore
      becomes a space, a character that starts a part is upper-cased, the rest is kept. */
  function TitleCase(s: string): (r: string)
    ensures |r| == |s|
  {
    seq(|s|, i requires 0 <= i < |s| =>
      if s[i] == '_' then ' '
      else if i == 0 || s[i - 1] == '_' then ToUpperAscii(s[i])
      else s[i])
  }

  lemma {:induction false} SplitJoinRoundTrip(s: string, sep: char)
    ensures Join(SplitOn(s, sep), [sep]) == s
  {
    if s != [] {
      var rest := SplitOn(s[1..], sep);
      SplitJoinRoundTrip(s[1..], sep);
      if s[0] == sep {
        assert ([""] + rest)[1..] == rest;
      } else {
        var parts := [[s[0]] + rest[0]] + rest[1..];
        if |rest| > 1 {
          assert parts[1..] == rest[1..];
          assert Join(rest, [sep]) == rest[0] + [sep] + Join(rest[1..], [sep]);
        }
        assert Join(parts, [sep]) == [s[0]] + Join(rest, [sep]);
      }
    }
  }

  lemma TitleCaseOfPart(p: string)
    requires '_' !in p
    ensures TitleCase(p) == Capitalize(p)
  {
  }

  lemma TitleCaseAcrossSeparator(p: string, t: string)
    requires '_' !in p
    ensures TitleCase(p + "_" + t) == Capitalize(p) + " " + TitleCase(t)
  {
    var s := p + "_" + t;
    var lhs := TitleCase(s);
    var rhs := Capitalize(p) + " " + TitleCase(t);
    assert |lhs| == |rhs|;
    forall i | 0 <= i < |s| ensures lhs[i] == rhs[i] {
      if i < |p| {
        assert s[i] == p[i];
        if i > 0 { assert s[i - 1] == p[i - 1]; }
      } else if i > |p| {
        var j := i - |p| - 1;
        assert s[i] == t[j];
        if j > 0 { assert s[i - 1] == t[j - 1]; }
      }
    }
  }

  lemma {:induction false} CapitalizedPartsAreTitleCase(parts: seq<string>)
    requires |parts| >= 1 && forall k :: 0 <= k < |parts| ==> '_' !in parts[k]
    ensures Join(CapitalizeAll(parts), " ") == TitleCase(Join(parts, "_"))
  {
    if |parts| == 1 {
      TitleCaseOfPart(parts[0]);
    } else {
      assert CapitalizeAll(parts)[1..] == CapitalizeAll(parts[1..]);
      CapitalizedPartsAreTitleCase(parts[1..]);
      TitleCaseAcrossSeparator(parts[0], Join(parts[1..], "_"));
    }
  }

  /** The status title agrees with the character-by-character reference definition. */
  lemma StatusTitleIsTitleCase(status: string)
    ensures StatusTitle(status) == TitleCase(status)
  {
    SplitJoinRoundTrip(status, '_');
    CapitalizedPartsAreTitleCase(SplitOn(status, '_'));
  }

  /** The title keeps the length, has no underscore, and has its spaces exactly where the
      status had underscores (when the status has no spaces of its own), so it has as many
      space-separated parts as the status has underscore-separated parts. */
  lemma StatusTitleShape(status: string)
    ensures |StatusTitle(status)| == |status|
    ensures '_' !in StatusTitle(status)
    ensures ' ' !in status ==>
      forall i :: 0 <= i < |status| ==> (StatusTitle(status)[i] == ' ' <==> status[i] == '_')
  {
    StatusTitleIsTitleCase(status);
  }

  /** The title shown for each status value. */
  function StatusCaption(s: ReportStatus): string
  {
    match s
    case Completed => "Completed"
    case InProgress => "In Progress"
    case Flagged => "Flagged"
    case CheatingSuspected => "Cheating Suspected"
    case Passed => "Passed"
    case Failed => "Failed"
  }

  lemma OnePartTitle(name: string, title: string)
    requires '_' !in name && title == Capitalize(name)
    ensures TitleCase(name) == title
  {
    TitleCaseOfPart(name);
  }

  lemma TwoPartTitle(name: string, first: string, second: string, title: string)
    requires '_' !in first && '_' !in second && name == first + "_" + second
    requires title == Capitalize(first) + " " + Capitalize(second)
    ensures TitleCase(name) == title
  {
    TitleCaseAcrossSeparator(first, second);
    TitleCaseOfPart(second);
  }

  lemma OnePartCaptions(status: ReportStatus, name: string)
    requires status != InProgress && status != CheatingSuspected && name == StatusName(status)
    ensures TitleCase(name) == StatusCaption(status)
  {
    OnePartTitle(name, StatusCaption(status));
  }

  lemma CaptionIsTitleCase(status: ReportStatus, name: string)
    requires name == StatusName(status)
    ensures TitleCase(name) == StatusCaption(status)
  {
    if status == InProgress {
      TwoPartTitle(name, "in", "progress", "In Progress");
    } else if status == CheatingSuspected {
      TwoPartTitle(name, "cheating", "suspected", "Cheating Suspected");
    } else {
      OnePartCaptions(status, name);
    }
  }

  /** Every status value of the report is shown as its fixed caption
      (for example `cheating_suspected` as `Cheating Suspected`). */
  lemma StatusTitleOfEachStatus(status: ReportStatus, name: string)
    requires name == StatusName(status)
    ensures StatusTitle(name) == StatusCaption(status)
  {
    StatusTitleIsTitleCase(name);
    CaptionIsTitleCase(status, name);
  }

  // ------------------------------------------------------------ summary and answers

  /** The "Result" row of the summary table: a score equal to the passing score passes. */
  function ResultText(report: ExamReport): (r: string)
    ensures r == "PASSED" || r == "FAILED"
    ensures r == "PASSED" <==> report.score >= report.passingScore
  {
    var passed := report.score >= report.passingScore;
    if passed then "PASSED" else "FAILED"
  }

  /** `answers.filter(a => a.isCorrect)`. */
  function CorrectAnswers(answers: seq<Answer>): (r: seq<Answer>)
    ensures |r| <= |answers|
    ensures forall k :: 0 <= k < |r| ==> r[k].isCorrect
  {
    if answers == [] then []
    else (if answers[0].isCorrect then [answers[0]] else []) + CorrectAnswers(answers[1..])
  }

  /** The answers that are not correct, in order: the reference for the incorrect count. */
  function WrongAnswers(answers: seq<Answer>): (r: seq<Answer>)
    ensures forall k :: 0 <= k < |r| ==> !r[k].isCorrect
  {
    if answers == [] then []
    else (if answers[0].isCorrect then [] else [answers[0]]) + WrongAnswers(answers[1..])
  }

  /** `answers.filter(a => a.isCorrect).length`: at most the number of answers. */
  function CorrectCount(answers: seq<Answer>): (n: nat)
    ensures n <= |answers|
  {
    |CorrectAnswers(answers)|
  }

  /** The incorrect count as the report computes it: all answers minus the correct ones. */
  function IncorrectCount(answers: seq<Answer>): (n: int)
    ensures 0 <= n <= |answers|
  {
    |answers| - CorrectCount(answers)
  }

  /** The correct and the wrong answers partition the answers, so the two counts add up to
      the number of answers and the incorrect count is the number of wrong answers. */
  lemma {:induction false} AnswersPartition(answers: seq<Answer>)
    ensures multiset(CorrectAnswers(answers)) + multiset(WrongAnswers(answers)) == multiset(answers)
    ensures CorrectCount(answers) + |WrongAnswers(answers)| == |answers|
    ensures IncorrectCount(answers) == |WrongAnswers(answers)| >= 0
  {
    if answers != [] {
      AnswersPartition(answers[1..]);
      assert answers == [answers[0]] + answers[1..];
    }
  }

  const QuestionWidth := 50
  const Ellipsis := "..."

  /** A question longer than 50 characters is cut to its first 47 and `...`. */
  function TruncateQuestion(q: string): (r: string)
    ensures |r| <= QuestionWidth
    ensures |q| <= QuestionWidth ==> r == q
    ensures |q| > QuestionWidth ==>
      |r| == QuestionWidth && r[..QuestionWidth - 3] == q[..QuestionWidth - 3] && r[QuestionWidth - 3..] == Ellipsis
  {
    if |q| > 50 then q[..47] + "..." else q
  }

  lemma TruncateQuestionIdempotent(q: string)
    ensures TruncateQuestion(TruncateQuestion(q)) == TruncateQuestion(q)
  {
  }

  /** The row of the answers table for the answer at position `index`. */
  function AnswerRow(index: nat, a: Answer): seq<string>
  {
    ["Q" + NatToString(index + 1), TruncateQuestion(a.question),
     if a.isCorrect then "\U{2713}" else "\U{2717}", IntToString(a.points) + " pts"]
  }

  /** The answers table: row `i` is the row of answer `i`, so the table has one row per
      answer, in order. */
  function AnswerRows(answers: seq<Answer>): (rows: seq<seq<string>>)
    ensures |rows| == |answers|
    ensures forall i :: 0 <= i < |answers| ==> rows[i] == AnswerRow(i, answers[i])
  {
    seq(|answers|, i requires 0 <= i < |answers| => AnswerRow(i, answers[i]))
  }

  /** Rows are numbered `Q1..Qn` in input order: the label of a row reads back as its
      position plus one, so no two rows share a label. */
  lemma AnswerRowNumbering(answers: seq<Answer>, i: nat, j: nat)
    requires i < |answers| && j < |answers|
    ensures var rows := AnswerRows(answers);
      |rows[i]| == 4 && rows[i][0][0] == 'Q' && AllDigits(rows[i][0][1..]) &&
      DigitsValue(rows[i][0][1..]) == i + 1 &&
      (i != j ==> rows[i][0] != rows[j][0])
  {
    var rows := AnswerRows(answers);
    assert rows[i][0][1..] == NatToString(i + 1);
    NatToStringRoundTrip(i + 1);
    if i != j && rows[i][0] == rows[j][0] {
      assert rows[j][0][1..] == NatToString(j + 1);
      NatToStringInjective(i + 1, j + 1);
    }
  }

  /** One row of the suspicious-activities table; dates and percentages are formatted by
      the given functions. A missing or zero confidence reads `N/A`; missing or empty
      details read `No additional details`. */
  function ActivityRow(e: ProctoringEvent, formatDate: string -> string, percent: real -> string): (row: seq<string>)
    ensures |row| == 4 && row[0] == EventTypeLabel(e.kind) && row[1] == formatDate(e.timestamp)
    ensures (e.confidence.None? || e.confidence.value == 0.0) ==> row[2] == "N/A"
    ensures (e.confidence.Some? && e.confidence.value != 0.0) ==> row[2] == percent(e.confidence.value)
    ensures row[3] == (if Truthy(e.details) then e.details.value else "No additional details")
  {
    [EventTypeLabel(e.kind), formatDate(e.timestamp),
     if e.confidence.Some? && e.confidence.value != 0.0 then percent(e.confidence.value) else "N/A",
     if e.details.Some? && e.details.value != "" then e.details.value else "No additional details"]
  }

  // ------------------------------------------------------------ layout cursor

  /** The cursor below the main header: the rule is drawn 10 below the title, the next
      element starts 5 below the rule. */
  function AfterHeader(y: int): int { y + 10 + 5 }

  function AfterSectionHeader(y: int): int { y + 8 }

  function AfterKeyValue(y: int): int { y + 7 }

  /** Where the summary table starts: the cursor threaded from 20 through the main header,
      the exam and candidate sections, the device section when the report has device
      information, and the gap before the summary header. */
  method SummaryTableTop(report: ExamReport) returns (y: int)
    ensures y == if report.deviceInfo.Some? then 171 else 137
  {
    y := 20;
    y := AfterHeader(y);
    y := AfterSectionHeader(y);
    y := AfterKeyValue(y);   // Title
    y := AfterKeyValue(y);   // Exam ID
    y := AfterKeyValue(y);   // Status
    y := y + 5;
    y := AfterSectionHeader(y);
    y := AfterKeyValue(y);   // Name
    y := AfterKeyValue(y);   // Email
    y := AfterKeyValue(y);   // Start Time
    y := AfterKeyValue(y);   // End Time
    y := AfterKeyValue(y);   // Duration
    y := AfterKeyValue(y);   // IP Address
    if report.deviceInfo.Some? {
      y := y + 5;
      y := AfterSectionHeader(y);
      y := AfterKeyValue(y); // Browser
      y := AfterKeyValue(y); // Operating System
      y := AfterKeyValue(y); // Screen Resolution
    }
    y := y + 10;
    y := AfterSectionHeader(y);
  }

  // ------------------------------------------------------------ sample report

  /** The sample answer for question `i` (0-based); `draw` gives the two random decisions:
      whether the candidate answer is the right value, and whether it is marked correct. */
  function SampleAnswer(i: nat, draw: (bool, bool)): Answer
  {
    Answer(
      "What is the output of the following code? " + "const x = " + NatToString(i + 1) + "; console.log(x * 2);",
      NatToString((i + 1) * 2),
      NatToString(if draw.0 then (i + 1) * 2 else (i + 1) * 3),
      draw.1,
      1)
  }

  /** The demonstration report. The source reads the clock twice: `start` is the start
      time (`new Date()`), `idClock` the later `Date.now()` used in the id, both in
      milliseconds. `isoAt` renders an instant as ISO text and `draw` supplies the random
      decisions per question. */
  function SampleReport(start: nat, idClock: nat, isoAt: nat -> string, draw: nat -> (bool, bool)): (r: ExamReport)
    ensures |r.suspiciousActivities| == 3 && |r.answers| == 20
    ensures ResultText(r) == "PASSED"
    ensures r.candidateName == "John Doe"
  {
    var minute := 60 * 1000;
    ExamReport(
      "RPT-" + NatToString(idClock), "EXAM-123", "Advanced JavaScript Certification",
      "John Doe", "john.doe@example.com", isoAt(start), isoAt(start + 90 * minute),
      78, 100, 70, Completed,
      [ProctoringEvent("face_not_visible", isoAt(start + 15 * minute), Some(0.92), None, Some("Face not visible for 12 seconds")),
       ProctoringEvent("tab_switch", isoAt(start + 42 * minute), Some(0.95), None, Some("Switched to another tab for 8 seconds")),
       ProctoringEvent("multiple_faces", isoAt(start + 65 * minute), Some(0.87), None, Some("Multiple faces detected (2)"))],
      true, ["screenshot1.jpg", "screenshot2.jpg"], Some("192.168.1.100"),
      Some(DeviceInfo("Chrome 98", "Windows 10", "1920x1080",
        "Mozilla/5.0 (Windows NT 10.0; Win64; x64) AppleWebKit/537.36 (KHTML, like Gecko) Chrome/98.0.4758.102 Safari/537.36")),
      120, 87,
      seq(20, i requires 0 <= i < 20 => SampleAnswer(i, draw(i))))
  }

  /** In the sample, whether an answer is marked correct is drawn independently of the
      answer itself: a wrong value can be marked correct. */
  lemma SampleMarkIgnoresAnswer(i: nat, draw: (bool, bool))
    requires !draw.0 && draw.1
    ensures SampleAnswer(i, draw).isCorrect
    ensures SampleAnswer(i, draw).candidateAnswer != SampleAnswer(i, draw).correctAnswer
  {
    if NatToString((i + 1) * 3) == NatToString((i + 1) * 2) {
      NatToStringInjective((i + 1) * 3, (i + 1) * 2);
    }
  }
}
