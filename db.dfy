/** The local store and its queries (services/db.ts): the persisted state,
    the order-preserving filters, the class average, the result upsert and
    the demo login. */
module Db {
  import opened Types
  import opened Seqs
  import opened Constants
  import opened Generator

  // ----- getStudentsByClass, getStudentResults -----

  function InClass(classId: string): Student -> bool
  {
    (s: Student) => s.classId == classId
  }

  function OfStudent(studentId: string): ExamResult -> bool
  {
    (r: ExamResult) => r.studentId == studentId
  }

  function StudentsByClass(db: DBState, classId: string): (r: seq<Student>)
    ensures |r| <= |db.students|
    ensures forall i :: 0 <= i < |r| ==> r[i].classId == classId
  {
    Filter(db.students, InClass(classId))
  }

  /** The students of the class are exactly those of the state with that class
      id, each as often as there, in their original order. */
  lemma StudentsByClassExact(db: DBState, classId: string)
    ensures forall s :: multiset(StudentsByClass(db, classId))[s] == if s.classId == classId then multiset(db.students)[s] else 0
    ensures forall s :: s in StudentsByClass(db, classId) <==> s in db.students && s.classId == classId
    ensures SubsequenceOf(StudentsByClass(db, classId), db.students)
  {
    forall s {
      FilterMultiplicity(db.students, InClass(classId), s);
    }
    FilterSubsequence(db.students, InClass(classId));
  }

  function StudentResults(db: DBState, studentId: string): (r: seq<ExamResult>)
    ensures |r| <= |db.results|
    ensures forall i :: 0 <= i < |r| ==> r[i].studentId == studentId
  {
    Filter(db.results, OfStudent(studentId))
  }

  /** The results of the student are exactly those of the state with that
      student id, each as often as there, in their original order. */
  lemma StudentResultsExact(db: DBState, studentId: string)
    ensures forall x :: multiset(StudentResults(db, studentId))[x] == if x.studentId == studentId then multiset(db.results)[x] else 0
    ensures forall x :: x in StudentResults(db, studentId) <==> x in db.results && x.studentId == studentId
    ensures SubsequenceOf(StudentResults(db, studentId), db.results)
  {
    forall x {
      FilterMultiplicity(db.results, OfStudent(studentId), x);
    }
    FilterSubsequence(db.results, OfStudent(studentId));
  }

  /** In the generated state each class has exactly its 15 students
      `{id}-s1` .. `{id}-s15`, in that order. */
  lemma GeneratedClassRoster(d: Draws, c: nat)
    requires ValidDraws(d) && c < |CLASSES|
    ensures StudentsByClass(InitialData(d), CLASSES[c].id) == StudentsOfClass(c, d)
    ensures |StudentsByClass(InitialData(d), CLASSES[c].id)| == STUDENTS_PER_CLASS
    ensures forall i :: 0 <= i < STUDENTS_PER_CLASS ==>
      StudentsByClass(InitialData(d), CLASSES[c].id)[i].id == StudentId(CLASSES[c], i + 1)
  {
    var bs := ClassStudentBlocks(d);
    var p := InClass(CLASSES[c].id);
    CataloguesDistinct();
    forall x | x in bs[c]
      ensures p(x)
    {
      StudentOfClassShape(c, d, x);
    }
    forall i, x | 0 <= i < |bs| && i != c && x in bs[i]
      ensures !p(x)
    {
      StudentOfClassShape(i, d, x);
    }
    FilterFlattenSingle(bs, p, c);
  }

  // ----- getClassAverage -----

  /** `!subjectId`: an absent or empty subject id means "every subject". */
  predicate NoSubject(subjectId: Option<string>)
  {
    subjectId.None? || subjectId.value == ""
  }

  /** The ids of the class's students (`classStudents`). */
  function ClassStudentIds(db: DBState, classId: string): (ids: seq<string>)
    ensures forall x :: x in ids <==> exists s :: s in db.students && s.classId == classId && s.id == x
  {
    var cs := StudentsByClass(db, classId);
    StudentsByClassExact(db, classId);
    var ids := seq(|cs|, i requires 0 <= i < |cs| => cs[i].id);
    assert forall i :: 0 <= i < |cs| ==> ids[i] == cs[i].id && cs[i] in cs;
    ids
  }

  function IsRelevant(ids: seq<string>, term: string, subjectId: Option<string>): ExamResult -> bool
  {
    (r: ExamResult) => r.studentId in ids && r.term == term && (NoSubject(subjectId) || r.subjectId == subjectId.value)
  }

  /** The results the class average is taken over. */
  function RelevantResults(db: DBState, classId: string, term: string, subjectId: Option<string>): (rs: seq<ExamResult>)
    ensures |rs| <= |db.results|
    ensures forall x :: x in rs <==> x in db.results && CountsForAverage(db, classId, term, subjectId, x)
    ensures forall x :: multiset(rs)[x] == if CountsForAverage(db, classId, term, subjectId, x) then multiset(db.results)[x] else 0
  {
    var p := IsRelevant(ClassStudentIds(db, classId), term, subjectId);
    var rs := Filter(db.results, p);
    assert forall x :: x in rs <==> x in db.results && p(x) by {
      forall x {
        FilterMultiplicity(db.results, p, x);
      }
    }
    assert forall x :: multiset(rs)[x] == if p(x) then multiset(db.results)[x] else 0 by {
      forall x {
        FilterMultiplicity(db.results, p, x);
      }
    }
    rs
  }

  /** A result counts for the average of the class in the term when its
      student is in the class and the subject matches, unless no subject is given. */
  ghost predicate CountsForAverage(db: DBState, classId: string, term: string, subjectId: Option<string>, x: ExamResult)
  {
    && (exists s :: s in db.students && s.classId == classId && s.id == x.studentId)
    && x.term == term
    && (NoSubject(subjectId) || x.subjectId == subjectId.value)
  }

  /** `reduce((acc, r) => acc + r.score, 0)`: the sum of the scores. */
  function TotalScore(rs: seq<ExamResult>): int
  {
    if rs == [] then 0 else TotalScore(rs[..|rs| - 1]) + rs[|rs| - 1].score
  }

  function MinScore(rs: seq<ExamResult>): (m: int)
    requires |rs| > 0
    ensures forall i :: 0 <= i < |rs| ==> m <= rs[i].score
    ensures exists i :: 0 <= i < |rs| && rs[i].score == m
  {
    if |rs| == 1 then rs[0].score
    else
      var rest := MinScore(rs[1..]);
      assert forall i :: 1 <= i < |rs| ==> rs[i] == rs[1..][i - 1];
      if rs[0].score <= rest then rs[0].score else rest
  }

  function MaxScore(rs: seq<ExamResult>): (m: int)
    requires |rs| > 0
    ensures forall i :: 0 <= i < |rs| ==> rs[i].score <= m
    ensures exists i :: 0 <= i < |rs| && rs[i].score == m
  {
    if |rs| == 1 then rs[0].score
    else
      var rest := MaxScore(rs[1..]);
      assert forall i :: 1 <= i < |rs| ==> rs[i] == rs[1..][i - 1];
      if rs[0].score >= rest then rs[0].score else rest
  }

  /** r is within one half of total / n, a half below counting as within
      and a half above not: n * (r - 1/2) <= total < n * (r + 1/2). */
  predicate WithinHalf(total: int, n: nat, r: int)
  {
    n * (2 * r - 1) <= 2 * total < n * (2 * r + 1)
  }

  /** `Math.round(total / n)` for a positive count: the nearest integer,
      halves rounded up. */
  function RoundHalfUp(total: int, n: nat): (r: int)
    requires n > 0
    ensures WithinHalf(total, n, r)
  {
    var q := (2 * total + n) / (2 * n);
    assert 2 * n * q <= 2 * total + n < 2 * n * q + 2 * n;
    assert n * (2 * q - 1) == 2 * n * q - n && n * (2 * q + 1) == 2 * n * q + n;
    q
  }

  lemma MulMonotone(n: nat, a: int, b: int)
    requires a <= b
    ensures n * a <= n * b
  {
  }

  /** The rounding is the only integer within one half of total / n, so any
      r with that property is it. */
  lemma RoundHalfUpUnique(total: int, n: nat, r: int)
    requires n > 0 && WithinHalf(total, n, r)
    ensures r == RoundHalfUp(total, n)
  {
    var q := RoundHalfUp(total, n);
    if r < q {
      MulMonotone(n, 2 * r + 1, 2 * q - 1);
    } else if r > q {
      MulMonotone(n, 2 * q + 1, 2 * r - 1);
    }
  }

  lemma {:induction false} TotalScoreBounds(rs: seq<ExamResult>, lo: int, hi: int)
    requires forall i :: 0 <= i < |rs| ==> lo <= rs[i].score <= hi
    ensures |rs| * lo <= TotalScore(rs) <= |rs| * hi
  {
    if rs != [] {
      var init := rs[..|rs| - 1];
      assert forall i :: 0 <= i < |init| ==> init[i] == rs[i];
      TotalScoreBounds(init, lo, hi);
      assert |rs| * lo == |init| * lo + lo && |rs| * hi == |init| * hi + hi;
    }
  }

  /** An integer within one half of total / n lies between any bounds on the n scores. */
  lemma RoundedBetweenBounds(total: int, n: nat, lo: int, hi: int, r: int)
    requires n > 0 && n * lo <= total <= n * hi
    requires WithinHalf(total, n, r)
    ensures lo <= r <= hi
  {
    if r < lo {
      MulMonotone(n, 2 * r + 1, 2 * lo - 1);
    } else if r > hi {
      MulMonotone(n, 2 * hi + 1, 2 * r - 1);
    }
  }

  /** A rounded mean lies between the least and the greatest score. */
  lemma RoundedMeanBetween(rs: seq<ExamResult>)
    requires |rs| > 0
    ensures MinScore(rs) <= RoundHalfUp(TotalScore(rs), |rs|) <= MaxScore(rs)
  {
    var lo, hi, t := MinScore(rs), MaxScore(rs), TotalScore(rs);
    TotalScoreBounds(rs, lo, hi);
    var n := |rs|;
    var r := RoundHalfUp(t, n);
    RoundedBetweenBounds(t, n, lo, hi, r);
  }

  function ClassAverage(db: DBState, classId: string, term: string, subjectId: Option<string>): (avg: int)
    ensures var rs := RelevantResults(db, classId, term, subjectId);
      && (rs == [] ==> avg == 0)
      && (rs != [] ==> WithinHalf(TotalScore(rs), |rs|, avg))
      && (rs != [] ==> MinScore(rs) <= avg <= MaxScore(rs))
  {
    var rs := RelevantResults(db, classId, term, subjectId);
    if |rs| == 0 then 0
    else
      RoundedMeanBetween(rs);
      RoundHalfUp(TotalScore(rs), |rs|)
  }

  /** A class whose two relevant results score 50 and 51 averages 51: the
      half rounds up. */
  lemma ClassAverageHalfUpExample(a: ExamResult, b: ExamResult)
    requires a.studentId == b.studentId && a.term == b.term && a.subjectId != b.subjectId
    requires a.score == 50 && b.score == 51
    ensures var db := DBState([Student(a.studentId, "", "", "c", "", None, None, "", None, 0, None, None, None)], [a, b], []);
      ClassAverage(db, "c", a.term, None) == 51
  {
    var db := DBState([Student(a.studentId, "", "", "c", "", None, None, "", None, 0, None, None, None)], [a, b], []);
    var rs := RelevantResults(db, "c", a.term, None);
    assert db.students[0] in db.students;
    assert a in rs && b in rs;
    TotalOfTwo(rs, a, b);
    RoundHalfUpUnique(101, 2, 51);
  }

  /** Two different results of a list of at most two make up its total. */
  lemma TotalOfTwo(rs: seq<ExamResult>, a: ExamResult, b: ExamResult)
    requires |rs| <= 2 && a in rs && b in rs && a != b
    ensures |rs| == 2 && TotalScore(rs) == a.score + b.score
  {
    var first := rs[..1];
    assert first[..0] == [] && first[0] == rs[0];
    assert TotalScore(first) == rs[0].score;
    assert (rs[0] == a && rs[1] == b) || (rs[0] == b && rs[1] == a);
  }

  // ----- saveResult -----

  /** `findIndex`: the first position holding a result with the same key, or -1. */
  function FindResultIndex(results: seq<ExamResult>, r: ExamResult): (i: int)
    ensures -1 <= i < |results|
    ensures i >= 0 ==> SameKey(results[i], r) && forall j :: 0 <= j < i ==> !SameKey(results[j], r)
    ensures i == -1 ==> forall j :: 0 <= j < |results| ==> !SameKey(results[j], r)
  {
    if results == [] then -1
    else if SameKey(results[0], r) then 0
    else
      var i := FindResultIndex(results[1..], r);
      assert forall j :: 1 <= j < |results| ==> results[j] == results[1..][j - 1];
      if i == -1 then -1 else i + 1
  }

  /** The new list of results after `saveResult(r)`. */
  function Upsert(results: seq<ExamResult>, r: ExamResult): (u: seq<ExamResult>)
    ensures r in u
    ensures forall x :: x in u ==> x == r || x in results
    ensures |u| == if exists j :: 0 <= j < |results| && SameKey(results[j], r) then |results| else |results| + 1
  {
    var i := FindResultIndex(results, r);
    if i >= 0 then
      assert results[i := r][i] == r;
      results[i := r]
    else results + [r]
  }

  /** With a result of the same key at i and none before, the upsert writes r
      at i and changes nothing else. */
  lemma UpsertReplacesFirstMatch(results: seq<ExamResult>, r: ExamResult, i: nat)
    requires i < |results| && SameKey(results[i], r)
    requires forall j :: 0 <= j < i ==> !SameKey(results[j], r)
    ensures |Upsert(results, r)| == |results|
    ensures Upsert(results, r)[i] == r
    ensures forall j :: 0 <= j < |results| && j != i ==> Upsert(results, r)[j] == results[j]
  {
    assert FindResultIndex(results, r) == i;
  }

  /** With no result of the same key, the upsert appends r. */
  lemma UpsertAppends(results: seq<ExamResult>, r: ExamResult)
    requires forall j :: 0 <= j < |results| ==> !SameKey(results[j], r)
    ensures Upsert(results, r) == results + [r]
  {
  }

  /** At most one result per key before means at most one after, and the
      saved key then has exactly one result: r itself. */
  lemma UpsertKeepsUniqueKeys(results: seq<ExamResult>, r: ExamResult)
    requires UniqueKeys(results)
    ensures UniqueKeys(Upsert(results, r))
    ensures r in Upsert(results, r)
    ensures forall j :: 0 <= j < |Upsert(results, r)| && SameKey(Upsert(results, r)[j], r) ==> Upsert(results, r)[j] == r
  {
    var u := Upsert(results, r);
    var f := FindResultIndex(results, r);
    if f >= 0 {
      forall a, b | 0 <= a < b < |u|
        ensures !SameKey(u[a], u[b])
      {
        assert SameKey(u[a], u[b]) <==> SameKey(results[a], results[b]);
      }
      forall j | 0 <= j < |u| && SameKey(u[j], r)
        ensures u[j] == r
      {
      }
      assert u[f] == r;
    } else {
      assert u == results + [r];
      assert u[|results|] == r;
    }
  }

  /** Saving b over a result of the same key saved just before keeps only b:
      the last write wins, as if the first save had not happened. */
  lemma UpsertLastWriteWins(results: seq<ExamResult>, a: ExamResult, b: ExamResult)
    requires SameKey(a, b)
    ensures Upsert(Upsert(results, a), b) == Upsert(results, b)
  {
    var u := Upsert(results, a);
    var f := FindResultIndex(results, a);
    if f >= 0 {
      assert FindResultIndex(results, b) == f;
      UpsertReplacesFirstMatch(u, b, f);
      assert Upsert(u, b) == results[f := b];
    } else {
      assert FindResultIndex(results, b) == -1;
      UpsertReplacesFirstMatch(u, b, |results|);
      assert Upsert(u, b) == results + [b];
    }
  }

  /** Saving the same result twice is the same as saving it once. */
  lemma UpsertIdempotent(results: seq<ExamResult>, r: ExamResult)
    ensures Upsert(Upsert(results, r), r) == Upsert(results, r)
  {
    UpsertLastWriteWins(results, r, r);
  }

  /** Every result's grade is the grading policy's grade of its score. */
  ghost predicate GradesConsistent(rs: seq<ExamResult>)
  {
    forall i :: 0 <= i < |rs| ==> rs[i].grade == CalculateGrade(rs[i].score)
  }

  /** Saving a correctly graded result keeps every grade consistent. */
  lemma UpsertKeepsGradesConsistent(results: seq<ExamResult>, r: ExamResult)
    requires GradesConsistent(results) && r.grade == CalculateGrade(r.score)
    ensures GradesConsistent(Upsert(results, r))
  {
  }

  /** The generated state satisfies both invariants the upsert keeps. */
  lemma GeneratedResultsWellFormed(d: Draws)
    requires ValidDraws(d)
    ensures UniqueKeys(InitialData(d).results) && GradesConsistent(InitialData(d).results)
  {
    GeneratedResultKeysUnique(d);
    GeneratedResultFacts(d);
  }

  // ----- mockLogin -----

  function MockLogin(role: Role): (u: User)
    ensures u.role == role
    ensures role == STUDENT ==> u.id == "f1n-s1"
  {
    match role
    case ADMIN => User("admin1", "Principal Jane", ADMIN, "admin@school.ke", None)
    case TEACHER => User("t1", "Mr. Kamau", TEACHER, "kamau@school.ke", None)
    case STUDENT => User("f1n-s1", "Student One", STUDENT, "student@school.ke", None)
    case PARENT => User("p1", "Parent One", PARENT, "parent@school.ke", None)
  }

  /** The demo student logs in as the first generated student. */
  lemma StudentLoginIsGenerated(d: Draws)
    requires ValidDraws(d)
    ensures |InitialData(d).students| > 0 && MockLogin(STUDENT).id == InitialData(d).students[0].id
  {
    FirstStudentId(d);
  }

  // ----- getDB, saveDB and the operations that go through them -----

  /** The browser's localStorage entry for the data key. Serialisation is
      taken to be an exact copy, so the entry holds the state itself. */
  class LocalStore {
    var storage: Option<DBState>
    /** How many times the entry has been written (`localStorage.setItem`). */
    ghost var writes: nat

    constructor(initial: Option<DBState>)
      ensures storage == initial && writes == 0
    {
      storage := initial;
      writes := 0;
    }

    /** The state `getDB` returns from the current storage. */
    function Loaded(d: Draws): DBState
      requires ValidDraws(d)
      reads this
    {
      if storage.Some? then storage.value else InitialData(d)
    }

    method GetDB(d: Draws) returns (db: DBState)
      requires ValidDraws(d)
      modifies this
      ensures old(storage).None? ==> db == InitialData(d) && storage == Some(db) && writes == old(writes) + 1
      ensures old(storage).Some? ==> db == old(storage).value && storage == old(storage) && writes == old(writes)
      ensures db == old(Loaded(d))
    {
      if storage.None? {
        db := GenerateInitialData(d);
        storage := Some(db);
        writes := writes + 1;
      } else {
        db := storage.value;
      }
    }

    method SaveDB(state: DBState)
      modifies this
      ensures storage == Some(state) && writes == old(writes) + 1
    {
      storage := Some(state);
      writes := writes + 1;
    }

    method GetStudentsByClass(classId: string, d: Draws) returns (r: seq<Student>)
      requires ValidDraws(d)
      modifies this
      ensures storage == Some(old(Loaded(d)))
      ensures writes == old(writes) + (if old(storage).None? then 1 else 0)
      ensures r == StudentsByClass(old(Loaded(d)), classId)
    {
      var db := GetDB(d);
      r := StudentsByClass(db, classId);
    }

    method GetStudentResults(studentId: string, d: Draws) returns (r: seq<ExamResult>)
      requires ValidDraws(d)
      modifies this
      ensures storage == Some(old(Loaded(d)))
      ensures writes == old(writes) + (if old(storage).None? then 1 else 0)
      ensures r == StudentResults(old(Loaded(d)), studentId)
    {
      var db := GetDB(d);
      r := StudentResults(db, studentId);
    }

    method GetClassAverage(classId: string, term: string, subjectId: Option<string>, d: Draws) returns (avg: int)
      requires ValidDraws(d)
      modifies this
      ensures storage == Some(old(Loaded(d)))
      ensures writes == old(writes) + (if old(storage).None? then 1 else 0)
      ensures avg == ClassAverage(old(Loaded(d)), classId, term, subjectId)
    {
      var db := GetDB(d);
      avg := ClassAverage(db, classId, term, subjectId);
    }

    /** Upsert by (studentId, subjectId, term), then persist the whole state. */
    method SaveResult(result: ExamResult, d: Draws)
      requires ValidDraws(d)
      modifies this
      ensures storage == Some(old(Loaded(d)).(results := Upsert(old(Loaded(d)).results, result)))
      ensures writes == old(writes) + (if old(storage).None? then 2 else 1)
    {
      var db := GetDB(d);
      var existingIndex := FindResultIndex(db.results, result);
      if existingIndex >= 0 {
        db := db.(results := db.results[existingIndex := result]);
      } else {
        db := db.(results := db.results + [result]);
      }
      SaveDB(db);
    }
  }

  /** `saveDB(s)` followed by `getDB()` gives back `s`. */
  method SaveThenGetDB(store: LocalStore, s: DBState, d: Draws) returns (loaded: DBState)
    requires ValidDraws(d)
    modifies store
    ensures loaded == s
  {
    store.SaveDB(s);
    loaded := store.GetDB(d);
  }
}
