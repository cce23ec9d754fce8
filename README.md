# AI Proctor Sentinel — a verified model of its report and export core

AI Proctor Sentinel is a web dashboard for proctoring online exams. It watches candidates
through the webcam, records alerts, writes exam reports, exports them as PDF, JSON or
CSV, and uploads exported files to a small server endpoint that stores them under
`/reports/`. This project models the parts of it that carry logic, one Dafny module
per source file:

- `UploadRoute` (`upload_route.dfy`): the upload endpoint. It checks the fields, matches
  the data URI, sanitises the file name, applies the 20 MiB limit, and writes into a
  file store. The store is a class holding a map and a "directory exists" flag.
- `ExportControls` (`export_controls.dfy`): the export panel. It draws one to three sample
  reports in a loop, builds the CSV text, and keeps the last export's name and data URL.
  It uploads that pair as a class.
- `ReportGenerator` (`report_generator.dfy`): the report record and the pure helpers of
  the PDF report builder. These cover event labels, the status title, the pass rule,
  answer counts and rows, activity rows, and the vertical cursor threaded through the
  header. It also holds the sample report generator.
- `Data` (`data.dfy`): the fixture tables of candidates, alerts and exams, and the four
  lookups over them.
- `Middleware` (`middleware.dfy`): the route guard and its path matcher.
- `ReportDialog` (`report_dialog.dfy`): the per-candidate report dialog. It covers the file
  names, the single-cell CSV, and the generation, close, download and upload handlers
  on the dialog state.
- `StudentExport` (`student_export.dfy`): assembling a report from a candidate's fixture
  data, and the export handler.
- `WebcamFeed` (`webcam_feed.dfy`): the camera permission request, the simulated
  detection cycle driven by timer ticks, and the badge configuration table.
- Shared: `Wrappers` (Option), `Strings` (character classes, decimal rendering, `join`,
  prefix test) and `Csv` (quote doubling, plus an independent reader of quoted CSV that
  the round-trip lemmas are stated against).

Inputs the program takes from the outside world are parameters of the model: the clock,
`Math.random()` draws, the ISO/locale date formatter, Base64 encoding and decoding, JSON
serialisation, the report service's answer, the session token, and the browser media
API's outcome. A JavaScript string is a sequence of UTF-16 code units; a Dafny `char`
stands for one code unit. Numbers are unbounded integers.

## Model

| member | source | states |
|---|---|---|
| UploadRoute.MatchDataUri | src/app/api/reports/upload/route.ts:15-18 | `^data:(.+);base64,(.+)$` matches iff the text has no line terminator and some `;base64,` splits it into a non-empty media type and payload; the media type is the greedy (last) split |
| UploadRoute.MatchDataUriExact | src/app/api/reports/upload/route.ts:15-20 | a URI built from a media type and a payload with no `;` yields exactly that payload |
| UploadRoute.MatchDataUriIsGreedy | src/app/api/reports/upload/route.ts:15 | with two `;base64,` markers the media type swallows the first one |
| UploadRoute.SafeName | src/app/api/reports/upload/route.ts:30 | same length; each character outside `[A-Za-z0-9._-]` becomes `_`, the others are kept |
| UploadRoute.SafeNameProperties | src/app/api/reports/upload/route.ts:30-31 | the result has only safe characters, no `/` or `\`, sanitising is idempotent, and `.` and `..` survive unchanged |
| UploadRoute.SafeNameFixesSafeNames | src/app/api/reports/upload/route.ts:30 | a name of safe characters is its own safe name |
| UploadRoute.Validate | src/app/api/reports/upload/route.ts:7-31 | a request passes only with both fields present and non-empty and a matching URI; it yields the sanitised name and the URI's payload |
| UploadRoute.Respond | src/app/api/reports/upload/route.ts:7-45 | a saved file passed validation, lies under `/reports/` with the safe name and is within the size limit; every rejection is 400, 413 or 500 |
| UploadRoute.MissingFieldsFirst | src/app/api/reports/upload/route.ts:10-12 | a missing or empty field gives 400 "Missing name or dataUri", whatever else the request holds |
| UploadRoute.InvalidUriBeforeSize | src/app/api/reports/upload/route.ts:15-18 | with both fields present, the response is 400 "Invalid data URI" exactly when the URI does not match |
| UploadRoute.SizeLimit | src/app/api/reports/upload/route.ts:34-36 | a valid request is refused with 413 "File too large" exactly when the decoded payload exceeds 20 MiB; exactly 20 MiB is accepted |
| UploadRoute.SavedPathIsSanitised | src/app/api/reports/upload/route.ts:30-40 | a saved file's path is `/reports/` plus the sanitised name, which has no `/` and the original's length |
| UploadRoute.ReportStore.Post | src/app/api/reports/upload/route.ts:5-45 | the response is `Respond`; the store gains exactly the decoded payload under the safe name when saved and is unchanged otherwise; the directory exists afterwards once validation passed, even if the size check then fails |
| UploadRoute.AcceptsClientUpload | src/app/api/reports/upload/route.ts:10-40 | Base64 text under a media type and a name of safe characters (not `.` or `..`) within the limit is saved under that name |
| ExportControls.ReportCount | src/components/export-controls.tsx:18 | `1 + floor(rnd*3)` lies in 1..3; it is 1 iff rnd < 1/3 and 3 iff rnd >= 2/3 |
| ExportControls.GetReports | src/components/export-controls.tsx:16-27 | the loop yields `ReportCount(rnd)` reports; the i-th is the i-th sample with ` i+1` appended to the candidate name |
| ExportControls.ExportFileName | src/components/export-controls.tsx:50 | every export name starts with `export_` |
| ExportControls.CsvRow | src/components/export-controls.tsx:93 | one cell per header |
| ExportControls.CsvText | src/components/export-controls.tsx:94 | the header line and one quoted line per report, joined by newlines; what it reads back as is `CsvRoundTrip` |
| ExportControls.HeadersArePlain | src/components/export-controls.tsx:92 | no header contains a comma, newline or quote, so the bare header line is valid CSV |
| ExportControls.CsvRoundTrip | src/components/export-controls.tsx:91-94 | reading the exported text back gives the header row followed by every report's row, in order, whatever the cells contain |
| ExportControls.SuspiciousCountColumn | src/components/export-controls.tsx:92-93 | the `Suspicious Count` column holds digits that read back as the number of suspicious activities |
| ExportControls.CsvHasNoTrailingNewline | src/components/export-controls.tsx:94 | the text ends with the closing quote of the last row: no trailing newline |
| ExportControls.UploadRequest | src/components/export-controls.tsx:114-123 | a request is sent iff both the remembered name and data URL are non-empty, and it carries exactly those two |
| ExportControls.UploadToast | src/components/export-controls.tsx:125-134 | "Upload succeeded" exactly for a saved file, showing its path; the server's error message otherwise; "Network error" when the request failed |
| ExportControls.ExportPanel.ExportPdf | src/components/export-controls.tsx:29-61 | remembers the `.pdf` name but keeps the previous data URL; processing ends |
| ExportControls.ExportPanel.ExportJson | src/components/export-controls.tsx:63-85 | remembers the `.json` name and the `application/json` data URL of the serialised reports; processing ends |
| ExportControls.ExportPanel.ExportCsv | src/components/export-controls.tsx:87-111 | produces `CsvText` of the drawn reports and remembers the `.csv` name and its `text/csv` data URL; processing ends |
| ExportControls.ExportPanel.UploadLast | src/components/export-controls.tsx:113-138 | returns `UploadRequest` of the remembered pair, leaves the pair alone, and leaves processing off after a request |
| ExportControls.ExportPanel.Clear | src/components/export-controls.tsx:150 | forgets the name and the data URL |
| ExportControls.UploadAfterCsvThenPdf | src/components/export-controls.tsx:54 | after a CSV export and then a PDF export, the upload sends the PDF's name with the CSV's data |
| ExportControls.CsvExportStoredUnderItsName | src/components/export-controls.tsx:96 | a CSV export within the size limit is stored by the endpoint under its download name |
| ReportGenerator.EventTypeLabel | src/lib/report-generator.ts:61-71 | a known type gets its fixed label; any other type gets itself with every `_` turned into a space (same length, other characters kept) |
| ReportGenerator.KnownEventLabels | src/lib/report-generator.ts:62-69 | the six labels of the table |
| ReportGenerator.UnlabelledKindIsItsOwnLabel | src/lib/report-generator.ts:70 | a type outside the table without `_` is its own label |
| ReportGenerator.SplitOn | src/lib/report-generator.ts:123 | `split` returns at least one part and no part contains the separator |
| ReportGenerator.StatusTitle | src/lib/report-generator.ts:123 | split on `_`, capitalise each part, join with spaces; characterised by `StatusTitleIsTitleCase` and `StatusTitleShape` |
| ReportGenerator.SplitJoinRoundTrip | src/lib/report-generator.ts:123 | joining the parts of a split with the separator gives back the text |
| ReportGenerator.StatusTitleIsTitleCase | src/lib/report-generator.ts:122-125 | split/capitalise/join equals an independent definition: each `_` becomes a space and the first letter of each word is upper-cased |
| ReportGenerator.StatusTitleShape | src/lib/report-generator.ts:123 | the title has the status's length and no `_`, with spaces exactly where the underscores were |
| ReportGenerator.StatusTitleOfEachStatus | src/lib/report-generator.ts:122-125 | each of the six statuses gets its caption, e.g. `cheating_suspected` gives "Cheating Suspected" |
| ReportGenerator.ResultText | src/lib/report-generator.ts:149-153 | "PASSED" iff score >= passing score, else "FAILED" |
| ReportGenerator.CorrectCount | src/lib/report-generator.ts:230 | the number of correct answers, at most the number of answers |
| ReportGenerator.IncorrectCount | src/lib/report-generator.ts:231 | all answers minus the correct ones, between 0 and the number of answers; `AnswersPartition` shows it counts the wrong answers |
| ReportGenerator.AnswersPartition | src/lib/report-generator.ts:230-231 | the correct and the wrong answers split the answers as a multiset; the two counts add up to the number of answers |
| ReportGenerator.TruncateQuestion | src/lib/report-generator.ts:251 | a question of at most 50 characters is kept; a longer one becomes its first 47 characters plus `...` (50 in all) |
| ReportGenerator.TruncateQuestionIdempotent | src/lib/report-generator.ts:251 | truncating twice is truncating once |
| ReportGenerator.AnswerRows | src/lib/report-generator.ts:249-254 | one row per answer, in order: row i holds `Q<i+1>`, answer i's truncated question, its mark and its points |
| ReportGenerator.AnswerRowNumbering | src/lib/report-generator.ts:250 | row i is labelled `Q` plus digits reading back as i+1, so labels are distinct |
| ReportGenerator.ActivityRow | src/lib/report-generator.ts:183-188 | label by type, "N/A" for a missing or zero confidence, the details or "No additional details" |
| ReportGenerator.AfterHeader | src/lib/report-generator.ts:73-86 | the main header moves the cursor 10 down to the rule and 5 below it |
| ReportGenerator.AfterSectionHeader | src/lib/report-generator.ts:88-95 | a section header moves the cursor 8 down |
| ReportGenerator.AfterKeyValue | src/lib/report-generator.ts:97-106 | a key/value line moves the cursor 7 down |
| ReportGenerator.SummaryTableTop | src/lib/report-generator.ts:113-147 | the cursor threaded through header, exam, candidate and device sections reaches 171 with device info and 137 without |
| ReportGenerator.SampleReport | src/lib/report-generator.ts:322-377 | the sample has 3 activities and 20 answers, candidate "John Doe", and passes; its times come from the start reading of the clock, its id from a separate reading |
| ReportGenerator.SampleMarkIgnoresAnswer | src/lib/report-generator.ts:371-373 | the sample draws the answer and its mark independently: a wrong answer can be marked correct |
| Data.FindFirst | src/lib/data.ts:87 | `find` returns an element iff one satisfies the test, and then the first such |
| Data.Filter | src/lib/data.ts:88 | `filter` keeps exactly the elements satisfying the test |
| Data.FilterAppend | src/lib/data.ts:88 | filtering distributes over concatenation, so table order is kept |
| Data.FindFirstUnique | src/lib/data.ts:90-92 | when only one element can satisfy the test, `find` returns it |
| Data.GetExamById | src/lib/data.ts:87 | a found exam is in the table under that id; nothing is found iff no exam has that id |
| Data.GetCandidatesForExam | src/lib/data.ts:88 | exactly the candidates sitting that exam |
| Data.GetCandidateById | src/lib/data.ts:90-92 | a found candidate is in the table under that id; nothing is found iff no candidate has it |
| Data.GetAlertsByCandidateId | src/lib/data.ts:94-96 | the stored alerts, or none for an id without an entry |
| Data.IdsAreDistinct | src/lib/data.ts:3-58 | candidate ids are pairwise distinct, and so are exam ids |
| Data.CandidateLookupIsExact | src/lib/data.ts:90-92 | lookup by id yields c iff c is in the table with that id |
| Data.ExamLookupIsExact | src/lib/data.ts:87 | lookup by id yields e iff e is in the table with that id |
| Data.EveryCandidateHasAnExam | src/lib/data.ts:3-85 | every candidate's exam id is found in the exam table |
| Data.AlertsBelongToCandidates | src/lib/data.ts:60-77 | every key of the alert table is a candidate id |
| Data.QuietCandidates | src/lib/data.ts:94-96 | `c3` and `c4` have no alerts |
| Data.CandidatesForFirstExam | src/lib/data.ts:88 | `exam-101` has exactly `c1` then `c2` |
| Middleware.Guard | src/middleware.ts:4-18 | a redirect always carries the requested path as its callback |
| Middleware.MatcherApplies | src/middleware.ts:20-22 | the matcher selects `/dashboard`, any path below it, `/signin` and `/signup` |
| Middleware.GuardRedirectsExactly | src/middleware.ts:8-17 | redirect to sign-in iff there is no token and the path is `/dashboard` followed by anything; pass through otherwise |
| Middleware.TokenPassesEverything | src/middleware.ts:11-17 | with a token every request passes |
| Middleware.AuthRoutesPass | src/middleware.ts:9 | paths under `/signin` or `/signup` pass; the auth-route test does not affect the outcome |
| Middleware.PrefixWiderThanMatcher | src/middleware.ts:8 | `/dashboardX` is guarded by the raw prefix test, yet the matcher never hands it over |
| Middleware.Route | src/middleware.ts:20-22 | only paths the matcher selects can be redirected |
| Middleware.RouteRedirectsExactly | src/middleware.ts:20-22 | under the matcher, a token-less request is redirected iff it is for `/dashboard` or a path below it |
| ReportDialog.SanitizeName | src/components/report-dialog.tsx:71 | same length; each character outside `[A-Za-z0-9]` becomes `_` |
| ReportDialog.ReportFileName | src/components/report-dialog.tsx:71 | the sanitised candidate name followed by `_report.<ext>`; sanitising keeps the length |
| ReportDialog.ReportCsv | src/components/report-dialog.tsx:77 | the `report` header line, then the report with quotes doubled inside three quotes on each side; read back by `ReportCsvReadsBack` |
| ReportDialog.ReportFileNameIsSafe | src/components/report-dialog.tsx:106-111 | a report file name passes the endpoint's sanitiser unchanged |
| ReportDialog.StricterThanEndpoint | src/components/report-dialog.tsx:82 | `.` and `-` are replaced here but kept by the endpoint |
| ReportDialog.ReportCsvReadsBack | src/components/report-dialog.tsx:77 | read back as CSV, the text is a `report` header and one cell holding the report wrapped in literal quotes |
| ReportDialog.FailureMessage | src/components/report-dialog.tsx:50 | the service's error if non-empty, else "An unknown error occurred."; never empty |
| ReportDialog.ReportDialog.BeginGenerateReport | src/components/report-dialog.tsx:35-37 | while the service call is pending the dialog is loading with neither a report nor an error; details and visibility are kept |
| ReportDialog.ReportDialog.CompleteGenerateReport | src/components/report-dialog.tsx:45-62 | success sets the report, failure the message and the details, other fields keep their values, loading ends; from the pending state report and error are never both set |
| ReportDialog.ReportDialog.HandleGenerateReport | src/components/report-dialog.tsx:34-63 | begin then complete: success stores the report and no error; failure stores no report, the failure message and the details; loading ends; report and error are never both set |
| ReportDialog.ReportDialog.HandleOpenChange | src/components/report-dialog.tsx:132-139 | closing clears report, error and loading but keeps the error details; opening changes nothing else |
| ReportDialog.ReportDialog.DownloadPdf | src/components/report-dialog.tsx:65-72 | nothing without a report, else the sanitised `_report.pdf` name |
| ReportDialog.ReportDialog.DownloadCsv | src/components/report-dialog.tsx:74-87 | nothing without a report, else the `_report.csv` name and the single-cell CSV |
| ReportDialog.ReportDialog.UploadReport | src/components/report-dialog.tsx:89-118 | nothing without a report, else the format's name and data URL (`application/pdf` or `text/csv`) |
| ReportDialog.CsvUploadStoredUnderDownloadName | src/components/report-dialog.tsx:107-118 | a CSV upload within the limit is stored under its download name, whatever the candidate's name |
| StudentExport.ExamOrFallback | src/components/student-export.tsx:23 | the exam carries the asked-for id; when missing, the stand-in is "Unknown Exam" with empty date and description |
| StudentExport.FallbackNeverNeeded | src/components/student-export.tsx:23 | for every candidate in the table the real exam is used |
| StudentExport.AlertToEvent | src/components/student-export.tsx:38 | an alert becomes an event with its type, timestamp and description and confidence 0.8 |
| StudentExport.Events | src/components/student-export.tsx:38 | one event per alert, in order, with type, timestamp and description copied and confidence 0.8 |
| StudentExport.AlertKindsAreTheirOwnLabels | src/components/student-export.tsx:38 | alert types fall outside the label table and are shown as they are |
| StudentExport.Screenshots | src/components/student-export.tsx:40 | exactly the present, non-empty screenshot URIs |
| StudentExport.ScreenshotsAppend | src/components/student-export.tsx:40 | screenshots keep alert order |
| StudentExport.BuildReport | src/components/student-export.tsx:26-46 | id `RPT-<candidate>-…` from its own clock reading, start and end times from two further readings, exam and candidate copied, score in 0..99 of 100, passed iff score >= 60, events and screenshots from the alerts, no answers |
| StudentExport.StudentExportPanel.HandleExportPdf | src/components/student-export.tsx:16-58 | nothing without a selection; "Candidate not found" for an unknown id; otherwise the assembled report under the sanitised name; processing is off afterwards |
| StudentExport.StudentExportPanel.Select | src/components/student-export.tsx:64 | choosing a candidate selects its id and leaves processing alone |
| StudentExport.ExportedReportDescribesCandidate | src/components/student-export.tsx:20-38 | for a table candidate the report names a real exam and each event's label is its type |
| WebcamFeed.ConfigColoursAgree | src/components/webcam-feed.tsx:22-74 | every state has a badge whose colours share one hue; exactly the camera failures and face alarms are red |
| WebcamFeed.ConfigMessagesDistinct | src/components/webcam-feed.tsx:22-74 | no two states share a message |
| WebcamFeed.DetectionConfig | src/components/webcam-feed.tsx:22-74 | the badge of each state: its message and the colour classes of its hue |
| WebcamFeed.Step | src/components/webcam-feed.tsx:137 | the step stays in 0..9 and wraps from 9 to 0 |
| WebcamFeed.StepsAreModular | src/components/webcam-feed.tsx:132-138 | n ticks from i land on (i+n) mod 10 |
| WebcamFeed.SimulationCycle | src/components/webcam-feed.tsx:76-87 | the states repeat with period 10; the first tick shows entry 1 (`face_ok`) |
| WebcamFeed.ClassifyMediaError | src/components/webcam-feed.tsx:111-115 | `NotAllowedError` and `PermissionDeniedError` mean no permission; every other error means no camera |
| WebcamFeed.Feed.SetPermission | src/components/webcam-feed.tsx:130-151 | a change of permission restarts the effect: counter 0, interval only when granted |
| WebcamFeed.Feed.BeginPermissionRequest | src/components/webcam-feed.tsx:96 | a request first shows `initializing` |
| WebcamFeed.Feed.CompletePermissionRequest | src/components/webcam-feed.tsx:97-122 | granted: permission true, `face_ok`; no media API: permission false, `no_camera_found`; error: permission false and the classified state; the counter restarts when the permission changes and is kept when it does not |
| WebcamFeed.Feed.Tick | src/components/webcam-feed.tsx:134-139 | with permission the counter steps and its state is shown; otherwise nothing changes |
| WebcamFeed.Feed.Ticks | src/components/webcam-feed.tsx:136-139 | n ticks with permission move the counter n places round the cycle; zero ticks keep the shown state |
| WebcamFeed.GrantThenTick | src/components/webcam-feed.tsx:91-138 | a fresh feed shows `initializing`, then `face_ok` once granted, then entry 1 after a tick |
| Strings.NatToStringRoundTrip | src/lib/report-generator.ts:250 | the decimal rendering of a number reads back as that number |
| Strings.JoinEndsWithLast | src/components/export-controls.tsx:94 | a join ends with its last part |
| Csv.HeaderAndRowsRoundTrip | src/components/export-controls.tsx:94 | a plain header line followed by quoted lines reads back as the header and the rows |
| Csv.QuotedRoundTrip | src/components/export-controls.tsx:94 | a quoted cell reads back as the original cell, with doubled quotes undone |

## Left out

- Astral characters (surrogate pairs) are not modelled separately: a `char` is one UTF-16 code unit, and `.` in the data URI pattern is taken to match any code unit but a line terminator.
- Object-prototype keys (`constructor`, `toString`, ...) in the label table and the alert table: the model treats both as plain maps.
- Floating point: the `toFixed(1)` percentages and `Math.round(confidence*100)` are a formatting parameter; confidences are reals.
- `formatDate`, `toLocaleString` and `toISOString` are parameters.
- jsPDF and autoTable drawing: fonts, colours, measured table heights, page breaks, the footer loop, and the page-appending loop of the PDF export. No PDF is rendered.
- ExportControls.ExportPanel.ExportPdf: a failure while rendering is not modelled; the export always succeeds once the reports are drawn.
- StudentExport.StudentExportPanel.HandleExportPdf: a failure while rendering is not modelled; the export always succeeds once the report is assembled.
- Base64, `Buffer`, `Blob`, `FileReader`, `saveAs`, `URL.createObjectURL`, `fetch` and the filesystem calls: the encoders and the decoder are function parameters, and the file store is a map. An I/O error other than writing to a directory name is not modelled; on the `.`/`..` names the write fails and the endpoint answers 500 "Server error".
- UploadRoute.Validate: JSON fields that are not strings are not modelled; a non-string `name` would make the endpoint fail with 500 after the directory is created. A body that is not JSON, or is JSON `null`, is the `Malformed` request (500); a JSON number, string or array has neither field and gets 400 "Missing name or dataUri".
- The report service (a hosted language model) and the random behavioural statistics sent to it; the service's answer is a parameter of `HandleGenerateReport`.
- Authentication: reading the session token is the `hasToken` parameter. The URL encoding of the `callbackUrl` query parameter is not modelled; the redirect carries the path itself.
- `toUpperCase` is modelled on ASCII letters only. Every status string is ASCII.
- Concurrency and timing: `FileReader.onload` is modelled as completing inside the export, and awaited calls as completing in order. A click before the data URL arrives is not modelled, nor are overlapping handlers.
- Toasts other than the export panel's upload outcome, the busy flags' effect on disabled buttons, and all rendering.
- The webcam's video stream, its tracks and their cleanup; the `setInterval` period of 7 s is a tick.
