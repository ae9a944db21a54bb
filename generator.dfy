/** The synthetic data generator `generateInitialData` (services/db.ts).
    The calls to `Math.random` are replaced by explicit draws, indexed the
    way the nested loops reach them: by class, by student within the class
    and by subject. */
module Generator {
  import opened Types
  import opened Seqs
  import opened Constants
  import opened Decimal

  const STUDENTS_PER_CLASS: nat := 15

  /** `Math.floor(Math.random() * 5)` for the attendance rate of student n
      of class c is `attendance[c][n]`; `Math.floor(Math.random() * 60)` for
      that student's score in subject j is `scores[c][n][j]`. */
  datatype Draws = Draws(attendance: seq<seq<int>>, scores: seq<seq<seq<int>>>)

  predicate ValidDraws(d: Draws)
  {
    && |d.attendance| == |CLASSES| && |d.scores| == |CLASSES|
    && (forall c :: 0 <= c < |CLASSES| ==> |d.attendance[c]| == STUDENTS_PER_CLASS && |d.scores[c]| == STUDENTS_PER_CLASS)
    && (forall c, n :: 0 <= c < |CLASSES| && 0 <= n < |d.scores[c]| ==> |d.scores[c][n]| == |SUBJECTS|)
    && (forall c, n :: 0 <= c < |CLASSES| && 0 <= n < |d.attendance[c]| ==> 0 <= d.attendance[c][n] < 5)
    && (forall c, n, j :: 0 <= c < |CLASSES| && 0 <= n < |d.scores[c]| && 0 <= j < |d.scores[c][n]| ==> 0 <= d.scores[c][n][j] < 60)
  }

  /** `${cls.id}-s${i}`: the class id, "-s", then the index in decimal. */
  function StudentId(cls: ClassRoom, i: nat): (id: string)
    ensures |id| > |cls.id| + 2 && id[..|cls.id| + 2] == cls.id + "-s"
  {
    cls.id + "-s" + NatToString(i)
  }

  /** The form year plus a zero and the index; the stream plays no part. */
  function AdmissionNumber(cls: ClassRoom, i: nat): string
    requires |cls.id| >= 2 && '0' <= cls.id[1] <= '9'
  {
    NatToString(2020 + DigitValue(cls.id[1])) + "0" + NatToString(i)
  }

  /** An admission number is "202", the form digit of the class id, "0",
      then the index: nothing of the stream enters it. */
  lemma AdmissionNumberShape(cls: ClassRoom, i: nat)
    requires |cls.id| >= 2 && '0' <= cls.id[1] <= '9'
    ensures var a := AdmissionNumber(cls, i);
      && |a| >= 6 && a[..3] == "202" && a[3] == cls.id[1] && a[4] == '0'
      && a[5..] == NatToString(i)
  {
    FormYear(DigitValue(cls.id[1]));
  }

  /** The year 2020 + k of a form digit k is "202" followed by that digit. */
  lemma FormYear(k: nat)
    requires k < 10
    ensures NatToString(2020 + k) == "202" + [DigitChar(k)]
  {
    assert (2020 + k) / 10 == 202 && (2020 + k) % 10 == k;
    assert NatToString(202) == "202" by {
      assert NatToString(2) == "2";
      assert NatToString(20) == "20";
    }
  }

  /** Student number i (from 1) of the class `cls`. */
  function NewStudent(cls: ClassRoom, i: nat, attendanceDraw: int): (s: Student)
    requires |cls.id| >= 2 && '0' <= cls.id[1] <= '9'
    ensures s.id == StudentId(cls, i) && s.admissionNumber == AdmissionNumber(cls, i)
    ensures s.classId == cls.id && s.stream == cls.stream
    ensures 0 <= attendanceDraw < 5 ==> 95 <= s.attendanceRate <= 99
    ensures s.gender.None? && s.parentName.None? && s.parentEmail.None?
    ensures s.feesPaid.None? && s.feesTotal.None? && s.dob.None?
  {
    Student(
      StudentId(cls, i),
      "Student " + cls.name + " " + cls.stream + " " + NatToString(i),
      AdmissionNumber(cls, i),
      cls.id, cls.stream, None, None, "0700000000", None,
      95 + attendanceDraw, None, None, None)
  }

  /** The Term 1 result of the student `sId` in the subject `sub`. */
  function NewResult(sId: string, sub: Subject, scoreDraw: int): (x: ExamResult)
    ensures x.studentId == sId && x.subjectId == sub.id && x.term == TERMS[0]
    ensures x.grade == CalculateGrade(x.score)
    ensures 0 <= scoreDraw < 60 ==> 40 <= x.score <= 99
  {
    var score := scoreDraw + 40;
    ExamResult(sId + "-" + sub.id + "-t1", sId, sub.id, "Term 1", score, CalculateGrade(score), None)
  }

  /** The 15 students of class c, in the order they are generated. */
  function StudentsOfClass(c: nat, d: Draws): seq<Student>
    requires c < |CLASSES| && ValidDraws(d)
  {
    ClassIdShape();
    seq(STUDENTS_PER_CLASS, n requires 0 <= n < STUDENTS_PER_CLASS => NewStudent(CLASSES[c], n + 1, d.attendance[c][n]))
  }

  /** The results of student n (from 0) of class c, one per subject in catalogue order. */
  function ResultsOfStudent(c: nat, n: nat, d: Draws): seq<ExamResult>
    requires c < |CLASSES| && n < STUDENTS_PER_CLASS && ValidDraws(d)
  {
    seq(|SUBJECTS|, j requires 0 <= j < |SUBJECTS| => NewResult(StudentId(CLASSES[c], n + 1), SUBJECTS[j], d.scores[c][n][j]))
  }

  /** The results of class c grouped by student. */
  function StudentResultBlocks(c: nat, d: Draws): seq<seq<ExamResult>>
    requires c < |CLASSES| && ValidDraws(d)
  {
    seq(STUDENTS_PER_CLASS, n requires 0 <= n < STUDENTS_PER_CLASS => ResultsOfStudent(c, n, d))
  }

  function ResultsOfClass(c: nat, d: Draws): seq<ExamResult>
    requires c < |CLASSES| && ValidDraws(d)
  {
    Flatten(StudentResultBlocks(c, d))
  }

  function ClassStudentBlocks(d: Draws): seq<seq<Student>>
    requires ValidDraws(d)
  {
    seq(|CLASSES|, c requires 0 <= c < |CLASSES| => StudentsOfClass(c, d))
  }

  function ClassResultBlocks(d: Draws): seq<seq<ExamResult>>
    requires ValidDraws(d)
  {
    seq(|CLASSES|, c requires 0 <= c < |CLASSES| => ResultsOfClass(c, d))
  }

  /** The state the generator produces for the draws `d`. */
  function InitialData(d: Draws): DBState
    requires ValidDraws(d)
  {
    DBState(Flatten(ClassStudentBlocks(d)), Flatten(ClassResultBlocks(d)), [])
  }

  lemma PushPrefix<T>(s: seq<T>, p: seq<T>, x: T)
    requires |p| < |s| && p == s[..|p|] && x == s[|p|]
    ensures p + [x] == s[..|p| + 1]
  {
  }

  /** Pushing element j of `block` after its first j elements gives its first j + 1. */
  lemma PushStep<T>(s: seq<T>, block: seq<T>, j: nat)
    requires j < |block|
    ensures s + block[..j] + [block[j]] == s + block[..j + 1]
  {
    assert block[..j + 1] == block[..j] + [block[j]];
  }

  lemma ResultOfStudentAt(c: nat, n: nat, d: Draws, j: nat)
    requires ValidDraws(d) && c < |CLASSES| && n < STUDENTS_PER_CLASS && j < |SUBJECTS|
    ensures |ResultsOfStudent(c, n, d)| == |SUBJECTS|
    ensures ResultsOfStudent(c, n, d)[j] == NewResult(StudentId(CLASSES[c], n + 1), SUBJECTS[j], d.scores[c][n][j])
  {
  }

  /** The inner `SUBJECTS.forEach`: push one Term 1 result per subject for
      the student `sId`, student n of class c (c and n pick the score draws). */
  method PushSubjectResults(results: seq<ExamResult>, sId: string, c: nat, n: nat, d: Draws)
    returns (results': seq<ExamResult>)
    requires ValidDraws(d) && c < |CLASSES| && n < STUDENTS_PER_CLASS && sId == StudentId(CLASSES[c], n + 1)
    ensures results' == results + ResultsOfStudent(c, n, d)
  {
    ghost var block := ResultsOfStudent(c, n, d);
    results' := results;
    var j := 0;
    while j < |SUBJECTS|
      invariant 0 <= j <= |SUBJECTS|
      invariant results' == results + block[..j]
    {
      ResultOfStudentAt(c, n, d, j);
      PushStep(results, block, j);
      results' := results' + [NewResult(sId, SUBJECTS[j], d.scores[c][n][j])];
      j := j + 1;
    }
    assert block[..j] == block;
  }

  /** One step of the student loop: student i of class c and its results are appended. */
  lemma StudentStep(c: nat, i: nat, d: Draws, done: seq<Student>, doneResults: seq<ExamResult>)
    requires ValidDraws(d) && c < |CLASSES| && 1 <= i <= STUDENTS_PER_CLASS
    ensures |CLASSES[c].id| >= 2 && '0' <= CLASSES[c].id[1] <= '9'
    ensures done + StudentsOfClass(c, d)[..i - 1] + [NewStudent(CLASSES[c], i, d.attendance[c][i - 1])]
      == done + StudentsOfClass(c, d)[..i]
    ensures doneResults + Flatten(StudentResultBlocks(c, d)[..i - 1]) + ResultsOfStudent(c, i - 1, d)
      == doneResults + Flatten(StudentResultBlocks(c, d)[..i])
  {
    ClassIdShape();
    var st := StudentsOfClass(c, d);
    PushPrefix(st, st[..i - 1], NewStudent(CLASSES[c], i, d.attendance[c][i - 1]));
    FlattenPush(StudentResultBlocks(c, d), i - 1);
  }

  /** One step of the class loop: class c's students and results are appended. */
  lemma ClassStep(c: nat, d: Draws)
    requires ValidDraws(d) && c < |CLASSES|
    ensures Flatten(ClassStudentBlocks(d)[..c]) + StudentsOfClass(c, d)[..STUDENTS_PER_CLASS]
      == Flatten(ClassStudentBlocks(d)[..c + 1])
    ensures Flatten(ClassResultBlocks(d)[..c]) + Flatten(StudentResultBlocks(c, d)[..STUDENTS_PER_CLASS])
      == Flatten(ClassResultBlocks(d)[..c + 1])
  {
    FlattenPush(ClassStudentBlocks(d), c);
    FlattenPush(ClassResultBlocks(d), c);
    assert StudentsOfClass(c, d)[..STUDENTS_PER_CLASS] == StudentsOfClass(c, d);
    assert StudentResultBlocks(c, d)[..STUDENTS_PER_CLASS] == StudentResultBlocks(c, d);
  }

  method GenerateInitialData(d: Draws) returns (db: DBState)
    requires ValidDraws(d)
    ensures db == InitialData(d)
  {
    var students: seq<Student> := [];
    var results: seq<ExamResult> := [];
    var c := 0;
    while c < |CLASSES|
      invariant 0 <= c <= |CLASSES|
      invariant students == Flatten(ClassStudentBlocks(d)[..c])
      invariant results == Flatten(ClassResultBlocks(d)[..c])
    {
      var cls := CLASSES[c];
      ghost var before, beforeResults := students, results;
      var i := 1;
      while i <= STUDENTS_PER_CLASS
        invariant 1 <= i <= STUDENTS_PER_CLASS + 1
        invariant students == before + StudentsOfClass(c, d)[..i - 1]
        invariant results == beforeResults + Flatten(StudentResultBlocks(c, d)[..i - 1])
      {
        StudentStep(c, i, d, before, beforeResults);
        var sId := StudentId(cls, i);
        students := students + [NewStudent(cls, i, d.attendance[c][i - 1])];
        results := PushSubjectResults(results, sId, c, i - 1, d);
        i := i + 1;
      }
      ClassStep(c, d);
      c := c + 1;
    }
    assert ClassStudentBlocks(d)[..c] == ClassStudentBlocks(d);
    assert ClassResultBlocks(d)[..c] == ClassResultBlocks(d);
    db := DBState(students, results, []);
  }

  // ----- What the generated state looks like -----

  /** 15 students for each of the 6 classes and one result per student and subject. */
  lemma GeneratedCounts(d: Draws)
    requires ValidDraws(d)
    ensures |InitialData(d).students| == |CLASSES| * STUDENTS_PER_CLASS == 90
    ensures |InitialData(d).results| == |InitialData(d).students| * |SUBJECTS| == 900
    ensures InitialData(d).attendance == []
  {
    FlattenLength(ClassStudentBlocks(d), STUDENTS_PER_CLASS);
    forall c | 0 <= c < |CLASSES|
      ensures |ResultsOfClass(c, d)| == STUDENTS_PER_CLASS * |SUBJECTS|
    {
      FlattenLength(StudentResultBlocks(c, d), |SUBJECTS|);
    }
    FlattenLength(ClassResultBlocks(d), STUDENTS_PER_CLASS * |SUBJECTS|);
  }

  /** A student id determines its class (all class ids have 3 characters) and its index. */
  lemma {:induction false} StudentIdInjective(c1: ClassRoom, i1: nat, c2: ClassRoom, i2: nat)
    requires |c1.id| == 3 && |c2.id| == 3
    requires StudentId(c1, i1) == StudentId(c2, i2)
    ensures c1.id == c2.id && i1 == i2
  {
    var s1, s2 := StudentId(c1, i1), StudentId(c2, i2);
    assert s1[..3] == c1.id && s2[..3] == c2.id;
    assert s1[5..] == NatToString(i1) && s2[5..] == NatToString(i2);
    NatToStringInjective(i1, i2);
  }

  /** Student ids of two catalogue classes or two indices differ. */
  lemma StudentIdsDiffer(c1: nat, i1: nat, c2: nat, i2: nat)
    requires c1 < |CLASSES| && c2 < |CLASSES| && (c1 != c2 || i1 != i2)
    ensures StudentId(CLASSES[c1], i1) != StudentId(CLASSES[c2], i2)
  {
    ClassIdShape();
    CataloguesDistinct();
    if StudentId(CLASSES[c1], i1) == StudentId(CLASSES[c2], i2) {
      StudentIdInjective(CLASSES[c1], i1, CLASSES[c2], i2);
    }
  }

  /** A generated student of class c is student i of that class for some i in 1..15. */
  lemma StudentOfClassShape(c: nat, d: Draws, s: Student)
    requires ValidDraws(d) && c < |CLASSES| && s in StudentsOfClass(c, d)
    ensures exists i :: 1 <= i <= STUDENTS_PER_CLASS && s.id == StudentId(CLASSES[c], i)
    ensures s.classId == CLASSES[c].id && 95 <= s.attendanceRate <= 99
  {
    var st := StudentsOfClass(c, d);
    var n :| 0 <= n < |st| && st[n] == s;
    assert s.id == StudentId(CLASSES[c], n + 1);
  }

  predicate DifferentId(s: Student, t: Student)
  {
    s.id != t.id
  }

  /** The students of one class have pairwise different ids. */
  lemma ClassStudentIdsDistinct(c: nat, d: Draws)
    requires ValidDraws(d) && c < |CLASSES|
    ensures Pairwise(StudentsOfClass(c, d), DifferentId)
  {
    var st := StudentsOfClass(c, d);
    forall p, q | 0 <= p < q < |st|
      ensures DifferentId(st[p], st[q])
    {
      StudentsOfClassDiffer(c, d, p, q);
    }
  }

  lemma StudentsOfClassDiffer(c: nat, d: Draws, p: nat, q: nat)
    requires ValidDraws(d) && c < |CLASSES| && p < q < STUDENTS_PER_CLASS
    ensures |StudentsOfClass(c, d)| == STUDENTS_PER_CLASS
    ensures StudentsOfClass(c, d)[p].id != StudentsOfClass(c, d)[q].id
  {
    StudentOfClassAt(c, d, p);
    StudentOfClassAt(c, d, q);
    StudentIdsDiffer(c, p + 1, c, q + 1);
  }

  lemma StudentOfClassAt(c: nat, d: Draws, n: nat)
    requires ValidDraws(d) && c < |CLASSES| && n < STUDENTS_PER_CLASS
    ensures |StudentsOfClass(c, d)| == STUDENTS_PER_CLASS
    ensures StudentsOfClass(c, d)[n].id == StudentId(CLASSES[c], n + 1)
  {
  }

  /** Students of two different classes have different ids. */
  lemma StudentsOfClassesDiffer(c1: nat, c2: nat, d: Draws, s: Student, t: Student)
    requires ValidDraws(d) && c1 < c2 < |CLASSES|
    requires s in StudentsOfClass(c1, d) && t in StudentsOfClass(c2, d)
    ensures DifferentId(s, t)
  {
    StudentOfClassShape(c1, d, s);
    StudentOfClassShape(c2, d, t);
    var i1 :| 1 <= i1 <= STUDENTS_PER_CLASS && s.id == StudentId(CLASSES[c1], i1);
    var i2 :| 1 <= i2 <= STUDENTS_PER_CLASS && t.id == StudentId(CLASSES[c2], i2);
    StudentIdsDiffer(c1, i1, c2, i2);
  }

  /** Every generated student has a different id. */
  lemma GeneratedStudentIdsUnique(d: Draws)
    requires ValidDraws(d)
    ensures forall a, b :: 0 <= a < b < |InitialData(d).students| ==>
      InitialData(d).students[a].id != InitialData(d).students[b].id
  {
    var bs := ClassStudentBlocks(d);
    forall c | 0 <= c < |bs|
      ensures Pairwise(bs[c], DifferentId)
    {
      ClassStudentIdsDistinct(c, d);
    }
    forall c1, c2, s, t | 0 <= c1 < c2 < |bs| && s in bs[c1] && t in bs[c2]
      ensures DifferentId(s, t)
    {
      StudentsOfClassesDiffer(c1, c2, d, s, t);
    }
    FlattenPairwise(bs, DifferentId);
  }

  /** Every generated student's attendance rate is 95..99. */
  lemma GeneratedAttendance(d: Draws)
    requires ValidDraws(d)
    ensures forall s :: s in InitialData(d).students ==> 95 <= s.attendanceRate <= 99
  {
    forall s | s in InitialData(d).students
      ensures 95 <= s.attendanceRate <= 99
    {
      var c := FlattenOrigin(ClassStudentBlocks(d), s);
      StudentOfClassShape(c, d, s);
    }
  }

  /** Result j of student n of class c is that student's Term 1 mark of 40..99
      in subject j, graded by the grading policy, so never D, D- or E. */
  lemma ResultFacts(c: nat, n: nat, d: Draws, x: ExamResult)
    requires ValidDraws(d) && c < |CLASSES| && n < STUDENTS_PER_CLASS && x in ResultsOfStudent(c, n, d)
    ensures x.studentId == StudentId(CLASSES[c], n + 1)
    ensures exists j :: 0 <= j < |SUBJECTS| && SUBJECTS[j].id == x.subjectId
    ensures x.term == "Term 1"
    ensures 40 <= x.score <= 99
    ensures x.grade == CalculateGrade(x.score)
    ensures x.grade != "D" && x.grade != "D-" && x.grade != "E"
  {
    var b := ResultsOfStudent(c, n, d);
    var j :| 0 <= j < |b| && b[j] == x;
    NewResultFacts(StudentId(CLASSES[c], n + 1), SUBJECTS[j], d.scores[c][n][j]);
  }

  /** A result made from a valid score draw is a Term 1 mark of 40..99 graded
      by the grading policy, so never D, D- or E. */
  lemma NewResultFacts(sId: string, sub: Subject, scoreDraw: int)
    requires 0 <= scoreDraw < 60
    ensures var x := NewResult(sId, sub, scoreDraw);
      && x.studentId == sId && x.subjectId == sub.id
      && x.term == "Term 1"
      && 40 <= x.score <= 99
      && x.grade == CalculateGrade(x.score)
      && x.grade != "D" && x.grade != "D-" && x.grade != "E"
  {
    var x := NewResult(sId, sub, scoreDraw);
    assert x.score == scoreDraw + 40 && x.grade == CalculateGrade(x.score);
    PassingScoreGrade(x.score);
  }

  /** Every generated result comes from one student of one class. */
  lemma GeneratedResultOrigin(d: Draws, x: ExamResult) returns (c: nat, n: nat)
    requires ValidDraws(d) && x in InitialData(d).results
    ensures c < |CLASSES| && n < STUDENTS_PER_CLASS && x in ResultsOfStudent(c, n, d)
  {
    c := FlattenOrigin(ClassResultBlocks(d), x);
    n := FlattenOrigin(StudentResultBlocks(c, d), x);
  }

  /** Student n of class c is among the generated students. */
  lemma GeneratedStudentPresent(d: Draws, c: nat, n: nat)
    requires ValidDraws(d) && c < |CLASSES| && n < STUDENTS_PER_CLASS
    ensures exists k :: 0 <= k < |InitialData(d).students| && InitialData(d).students[k].id == StudentId(CLASSES[c], n + 1)
  {
    var s := StudentsOfClass(c, d)[n];
    FlattenComplete(ClassStudentBlocks(d), c, s);
    var st := InitialData(d).students;
    var k :| 0 <= k < |st| && st[k] == s;
  }

  /** Every generated result is a Term 1 mark of 40..99 graded by the grading
      policy (so never D, D- or E), for a generated student and a catalogue
      subject. */
  lemma GeneratedResultFacts(d: Draws)
    requires ValidDraws(d)
    ensures forall x :: x in InitialData(d).results ==>
      && x.term == "Term 1"
      && 40 <= x.score <= 99
      && x.grade == CalculateGrade(x.score)
      && x.grade != "D" && x.grade != "D-" && x.grade != "E"
      && (exists k :: 0 <= k < |InitialData(d).students| && InitialData(d).students[k].id == x.studentId)
      && (exists j :: 0 <= j < |SUBJECTS| && SUBJECTS[j].id == x.subjectId)
  {
    forall x | x in InitialData(d).results
      ensures && x.term == "Term 1"
              && 40 <= x.score <= 99
              && x.grade == CalculateGrade(x.score)
              && x.grade != "D" && x.grade != "D-" && x.grade != "E"
              && (exists k :: 0 <= k < |InitialData(d).students| && InitialData(d).students[k].id == x.studentId)
              && (exists j :: 0 <= j < |SUBJECTS| && SUBJECTS[j].id == x.subjectId)
    {
      var c, n := GeneratedResultOrigin(d, x);
      ResultFacts(c, n, d, x);
      GeneratedStudentPresent(d, c, n);
    }
  }

  /** Every generated student has a generated result in every subject. */
  lemma GeneratedResultsComplete(d: Draws, c: nat, n: nat, j: nat)
    requires ValidDraws(d) && c < |CLASSES| && n < STUDENTS_PER_CLASS && j < |SUBJECTS|
    ensures exists x :: x in InitialData(d).results && x.studentId == StudentId(CLASSES[c], n + 1) && x.subjectId == SUBJECTS[j].id
  {
    var x := ResultsOfStudent(c, n, d)[j];
    FlattenComplete(StudentResultBlocks(c, d), n, x);
    FlattenComplete(ClassResultBlocks(d), c, x);
    NewResultFacts(StudentId(CLASSES[c], n + 1), SUBJECTS[j], d.scores[c][n][j]);
  }

  predicate DifferentKey(a: ExamResult, b: ExamResult)
  {
    !SameKey(a, b)
  }

  /** The results of one student have pairwise different subjects. */
  lemma ResultsOfStudentUniqueKeys(c: nat, n: nat, d: Draws)
    requires ValidDraws(d) && c < |CLASSES| && n < STUDENTS_PER_CLASS
    ensures Pairwise(ResultsOfStudent(c, n, d), DifferentKey)
  {
    var b := ResultsOfStudent(c, n, d);
    CataloguesDistinct();
    forall p, q | 0 <= p < q < |b|
      ensures DifferentKey(b[p], b[q])
    {
      assert b[p].subjectId == SUBJECTS[p].id && b[q].subjectId == SUBJECTS[q].id;
    }
  }

  /** The results of one class hold at most one result per upsert key. */
  lemma ResultsOfClassUniqueKeys(c: nat, d: Draws)
    requires ValidDraws(d) && c < |CLASSES|
    ensures Pairwise(ResultsOfClass(c, d), DifferentKey)
  {
    var bs := StudentResultBlocks(c, d);
    forall n | 0 <= n < |bs|
      ensures Pairwise(bs[n], DifferentKey)
    {
      ResultsOfStudentUniqueKeys(c, n, d);
    }
    forall n1, n2, x, y | 0 <= n1 < n2 < |bs| && x in bs[n1] && y in bs[n2]
      ensures DifferentKey(x, y)
    {
      StudentResultsDisjoint(c, n1, n2, d, x, y);
    }
    FlattenPairwise(bs, DifferentKey);
  }

  /** Results of two different students of one class never share a key. */
  lemma StudentResultsDisjoint(c: nat, n1: nat, n2: nat, d: Draws, x: ExamResult, y: ExamResult)
    requires ValidDraws(d) && c < |CLASSES| && n1 < n2 < STUDENTS_PER_CLASS
    requires x in ResultsOfStudent(c, n1, d) && y in ResultsOfStudent(c, n2, d)
    ensures DifferentKey(x, y)
  {
    ResultFacts(c, n1, d, x);
    ResultFacts(c, n2, d, y);
    StudentIdsDiffer(c, n1 + 1, c, n2 + 1);
  }

  /** Results of two different classes never share a key. */
  lemma ClassResultsDisjoint(c1: nat, c2: nat, d: Draws, x: ExamResult, y: ExamResult)
    requires ValidDraws(d) && c1 < c2 < |CLASSES| && x in ResultsOfClass(c1, d) && y in ResultsOfClass(c2, d)
    ensures DifferentKey(x, y)
  {
    var n1 := FlattenOrigin(StudentResultBlocks(c1, d), x);
    var n2 := FlattenOrigin(StudentResultBlocks(c2, d), y);
    ResultFacts(c1, n1, d, x);
    ResultFacts(c2, n2, d, y);
    StudentIdsDiffer(c1, n1 + 1, c2, n2 + 1);
  }

  /** The generated results already hold at most one result per upsert key. */
  lemma GeneratedResultKeysUnique(d: Draws)
    requires ValidDraws(d)
    ensures UniqueKeys(InitialData(d).results)
  {
    var bs := ClassResultBlocks(d);
    forall c | 0 <= c < |bs|
      ensures Pairwise(bs[c], DifferentKey)
    {
      ResultsOfClassUniqueKeys(c, d);
    }
    forall c1, c2, x, y | 0 <= c1 < c2 < |bs| && x in bs[c1] && y in bs[c2]
      ensures DifferentKey(x, y)
    {
      ClassResultsDisjoint(c1, c2, d, x, y);
    }
    FlattenPairwise(bs, DifferentKey);
  }

  /** The first student of Form 1 North and of Form 1 South get the same
      admission number, "202101": the number ignores the stream. */
  lemma AdmissionNumbersCollide(d: Draws)
    requires ValidDraws(d)
    ensures exists s, t ::
      && s in InitialData(d).students && t in InitialData(d).students
      && s.id == "f1n-s1" && t.id == "f1s-s1"
      && s.admissionNumber == t.admissionNumber == "202101"
  {
    ClassIdShape();
    var s := FirstStudentOf(0, d);
    var t := FirstStudentOf(1, d);
    FormOneAdmissionNumber();
    assert NatToString(1) == "1";
  }

  /** The first student of class c is generated with index 1. */
  lemma FirstStudentOf(c: nat, d: Draws) returns (s: Student)
    requires c < |CLASSES| && ValidDraws(d)
    ensures |CLASSES[c].id| == 3 && '0' <= CLASSES[c].id[1] <= '9'
    ensures s == NewStudent(CLASSES[c], 1, d.attendance[c][0])
    ensures s in InitialData(d).students
  {
    ClassIdShape();
    s := StudentsOfClass(c, d)[0];
    FlattenComplete(ClassStudentBlocks(d), c, s);
  }

  lemma FormOneAdmissionNumber()
    ensures CLASSES[0].id[1] == CLASSES[1].id[1] == '1'
    ensures AdmissionNumber(CLASSES[0], 1) == AdmissionNumber(CLASSES[1], 1) == "202101"
  {
    ClassIdShape();
    assert CLASSES[0].id[1] == CLASSES[1].id[1] == '1';
    assert DigitValue('1') == 1;
    assert NatToString(2021) == "2021" && NatToString(1) == "1";
  }

  /** The first generated student is "f1n-s1". */
  lemma FirstStudentId(d: Draws)
    requires ValidDraws(d)
    ensures |InitialData(d).students| > 0 && InitialData(d).students[0].id == "f1n-s1"
  {
    FlattenFirst(ClassStudentBlocks(d));
    assert NatToString(1) == "1";
  }
}
