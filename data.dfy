/**
 * The in-memory fixtures behind the dashboard: the candidate table, the alerts recorded
 * per candidate, the exam table, and the four read-only lookups over them.
 */
module Data {
  import opened Wrappers

  datatype CandidateStatus = Clear | Warn | Alarm

  datatype Candidate = Candidate(
    id: string, name: string, email: string, avatarUrl: string,
    status: CandidateStatus, suspicionScore: int, examId: string)

  datatype AlertKind = Face | Eye | Object | Audio

  /** The alert type as stored: `face`, `eye`, `object` or `audio`. */
  function AlertKindName(k: AlertKind): string
  {
    match k
    case Face => "face"
    case Eye => "eye"
    case Object => "object"
    case Audio => "audio"
  }

  datatype Alert = Alert(
    id: string, timestamp: string, description: string, kind: AlertKind,
    screenshotDataUri: Option<string>)

  datatype Exam = Exam(id: string, title: string, date: string, description: Option<string>)

  const Candidates: seq<Candidate> := [
    Candidate("c1", "Alex Johnson", "alex.j@example.com", "https://picsum.photos/seed/avatar1/100/100", Alarm, 88, "exam-101"),
    Candidate("c2", "Maria Garcia", "maria.g@example.com", "https://picsum.photos/seed/avatar2/100/100", Warn, 42, "exam-101"),
    Candidate("c3", "Chen Wei", "chen.w@example.com", "https://picsum.photos/seed/avatar3/100/100", Clear, 12, "exam-102"),
    Candidate("c4", "Fatima Al-Fassi", "fatima.af@example.com", "https://picsum.photos/seed/avatar4/100/100", Clear, 5, "exam-103"),
    Candidate("c5", "David Smith", "david.s@example.com", "https://picsum.photos/seed/avatar5/100/100", Warn, 55, "exam-104"),
    Candidate("c6", "Yuki Tanaka", "yuki.t@example.com", "https://picsum.photos/seed/avatar6/100/100", Alarm, 95, "exam-105")
  ]

  const Alerts: map<string, seq<Alert>> := map[
    "c1" := [
      Alert("a1", "00:05:12", "Multiple faces detected in frame.", Face, Some("https://picsum.photos/seed/alert1/400/225")),
      Alert("a2", "00:15:34", "Suspicious keyword \"help me\" detected.", Audio, None),
      Alert("a3", "00:28:45", "Mobile phone detected.", Object, Some("https://picsum.photos/seed/alert2/400/225"))],
    "c2" := [
      Alert("a4", "00:10:02", "Candidate frequently looking away from screen.", Eye, None)],
    "c5" := [
      Alert("a5", "00:22:18", "Candidate disappeared from frame.", Face, Some("https://picsum.photos/seed/alert3/400/225"))],
    "c6" := [
      Alert("a6", "00:02:50", "Prohibited textbook detected.", Object, Some("https://picsum.photos/seed/alert4/400/225")),
      Alert("a7", "00:31:05", "Unidentified voice detected.", Audio, None),
      Alert("a8", "00:45:11", "Candidate gaze is off-screen for an extended period.", Eye, None)]
  ]

  const Exams: seq<Exam> := [
    Exam("exam-101", "Physics 101 - Midterm", "2025-12-10", Some("Chapters 1-6. Closed book.")),
    Exam("exam-102", "Calculus II - Final", "2025-12-18", Some("Comprehensive.")),
    Exam("exam-103", "Computer Networks - Quiz", "2025-11-30", None),
    Exam("exam-104", "English Literature", "2025-12-05", None),
    Exam("exam-105", "Data Structures - Practical", "2025-12-12", None)
  ]

  // ------------------------------------------------------------ find and filter

  /** `Array.prototype.find`: the first element satisfying `p`, if any. */
  function FindFirst<T>(xs: seq<T>, p: T -> bool): (r: Option<T>)
    ensures r.Some? <==> exists i :: 0 <= i < |xs| && p(xs[i])
    ensures r.Some? ==> exists i :: 0 <= i < |xs| && xs[i] == r.value && p(xs[i]) &&
                                    forall j :: 0 <= j < i ==> !p(xs[j])
  {
    if |xs| == 0 then None
    else if p(xs[0]) then Some(xs[0])
    else
      var r := FindFirst(xs[1..], p);
      assert forall i :: 1 <= i < |xs| ==> xs[i] == xs[1..][i - 1];
      r
  }

  /** `Array.prototype.filter`: the elements satisfying `p`, in their original order. */
  function Filter<T(!new)>(xs: seq<T>, p: T -> bool): (r: seq<T>)
    ensures |r| <= |xs|
    ensures forall x :: x in r <==> x in xs && p(x)
  {
    if |xs| == 0 then []
    else if p(xs[0]) then [xs[0]] + Filter(xs[1..], p)
    else Filter(xs[1..], p)
  }

  /** Filtering distributes over concatenation, so it keeps the relative order. */
  lemma {:induction false} FilterAppend<T(!new)>(xs: seq<T>, ys: seq<T>, p: T -> bool)
    ensures Filter(xs + ys, p) == Filter(xs, p) + Filter(ys, p)
  {
    if |xs| == 0 {
      assert xs + ys == ys;
    } else {
      assert (xs + ys)[1..] == xs[1..] + ys;
      FilterAppend(xs[1..], ys, p);
    }
  }

  /** When at most one element satisfies `p`, `find` returns exactly that element. */
  lemma FindFirstUnique<T>(xs: seq<T>, p: T -> bool, x: T)
    requires x in xs && p(x)
    requires forall i, j :: 0 <= i < |xs| && 0 <= j < |xs| && p(xs[i]) && p(xs[j]) ==> xs[i] == xs[j]
    ensures FindFirst(xs, p) == Some(x)
  {
    var k :| 0 <= k < |xs| && xs[k] == x;
  }

  // ------------------------------------------------------------------ lookups

  function GetExamById(id: string): (r: Option<Exam>)
    ensures r.Some? ==> r.value in Exams && r.value.id == id
    ensures r.None? <==> forall e :: e in Exams ==> e.id != id
  {
    FindFirst(Exams, (e: Exam) => e.id == id)
  }

  function GetCandidatesForExam(id: string): (r: seq<Candidate>)
    ensures forall c :: c in r <==> c in Candidates && c.examId == id
  {
    Filter(Candidates, (c: Candidate) => c.examId == id)
  }

  function GetCandidateById(id: string): (r: Option<Candidate>)
    ensures r.Some? ==> r.value in Candidates && r.value.id == id
    ensures r.None? <==> forall c :: c in Candidates ==> c.id != id
  {
    FindFirst(Candidates, (c: Candidate) => c.id == id)
  }

  /** The alerts stored for a candidate; an id without an entry has none. */
  function GetAlertsByCandidateId(id: string): (r: seq<Alert>)
    ensures id in Alerts ==> r == Alerts[id]
    ensures id !in Alerts ==> r == []
  {
    if id in Alerts then Alerts[id] else []
  }

  // --------------------------------------------------------- table properties

  /** No two candidates share an id, and no two exams share an id. */
  lemma IdsAreDistinct()
    ensures forall i, j :: 0 <= i < j < |Candidates| ==> Candidates[i].id != Candidates[j].id
    ensures forall i, j :: 0 <= i < j < |Exams| ==> Exams[i].id != Exams[j].id
  {
  }

  /** Lookup by id is unambiguous: it yields a candidate exactly when that candidate is in
      the table under that id. */
  lemma CandidateLookupIsExact(id: string, c: Candidate)
    ensures GetCandidateById(id) == Some(c) <==> c in Candidates && c.id == id
  {
    IdsAreDistinct();
    if c in Candidates && c.id == id {
      FindFirstUnique(Candidates, (x: Candidate) => x.id == id, c);
    }
  }

  lemma ExamLookupIsExact(id: string, e: Exam)
    ensures GetExamById(id) == Some(e) <==> e in Exams && e.id == id
  {
    IdsAreDistinct();
    if e in Exams && e.id == id {
      FindFirstUnique(Exams, (x: Exam) => x.id == id, e);
    }
  }

  /** Every candidate sits an exam that is in the exam table. */
  lemma EveryCandidateHasAnExam(c: Candidate)
    requires c in Candidates
    ensures GetExamById(c.examId).Some?
  {
    var i :| 0 <= i < |Candidates| && Candidates[i] == c;
    assert Exams[i - (if i >= 1 then 1 else 0)].id == c.examId;
  }

  /** Every key of the alert table is a candidate's id. */
  lemma AlertsBelongToCandidates(id: string)
    requires id in Alerts
    ensures GetCandidateById(id).Some?
  {
    assert id == "c1" || id == "c2" || id == "c5" || id == "c6";
  }

  /** `c3` and `c4` have no alerts. */
  lemma QuietCandidates()
    ensures GetAlertsByCandidateId("c3") == [] && GetAlertsByCandidateId("c4") == []
  {
  }

  /** The candidates for `exam-101` are `c1` and `c2`, in table order. */
  lemma CandidatesForFirstExam()
    ensures GetCandidatesForExam("exam-101") == [Candidates[0], Candidates[1]]
  {
    FilterPrefix(Candidates, (c: Candidate) => c.examId == "exam-101", 2);
  }

  /** A sequence whose first `k` elements satisfy `p` and whose others do not filters to
      its first `k` elements. */
  lemma {:induction false} FilterPrefix<T(!new)>(xs: seq<T>, p: T -> bool, k: nat)
    requires k <= |xs|
    requires forall i :: 0 <= i < k ==> p(xs[i])
    requires forall i :: k <= i < |xs| ==> !p(xs[i])
    ensures Filter(xs, p) == xs[..k]
  {
    if |xs| > 0 {
      if k == 0 {
        FilterPrefix(xs[1..], p, 0);
      } else {
        FilterPrefix(xs[1..], p, k - 1);
        assert [xs[0]] + xs[1..][..k - 1] == xs[..k];
      }
    }
  }
}
