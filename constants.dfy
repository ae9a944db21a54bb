/** The static catalogues and the grading policy (constants.ts). */
module Constants {
  import opened Types

  const TERMS: seq<string> := ["Term 1", "Term 2", "Term 3"]

  const SUBJECTS: seq<Subject> := [
    Subject("math", "Mathematics", "101", Sciences),
    Subject("eng", "English", "102", Languages),
    Subject("kis", "Kiswahili", "103", Languages),
    Subject("chem", "Chemistry", "201", Sciences),
    Subject("bio", "Biology", "202", Sciences),
    Subject("phy", "Physics", "203", Sciences),
    Subject("hist", "History", "301", Humanities),
    Subject("geo", "Geography", "302", Humanities),
    Subject("cre", "C.R.E", "303", Humanities),
    Subject("biz", "Business Studies", "401", Technical)
  ]

  const CLASSES: seq<ClassRoom> := [
    ClassRoom("f1n", "Form 1", "North", "t1"),
    ClassRoom("f1s", "Form 1", "South", "t2"),
    ClassRoom("f2n", "Form 2", "North", "t3"),
    ClassRoom("f2s", "Form 2", "South", "t4"),
    ClassRoom("f3n", "Form 3", "North", "t5"),
    ClassRoom("f4n", "Form 4", "North", "t6")
  ]

  datatype GradeBand = GradeBand(min: int, grade: string, points: int)

  /** Bands ordered by descending minimum score. */
  const GRADING_SYSTEM: seq<GradeBand> := [
    GradeBand(80, "A", 12),
    GradeBand(75, "A-", 11),
    GradeBand(70, "B+", 10),
    GradeBand(65, "B", 9),
    GradeBand(60, "B-", 8),
    GradeBand(55, "C+", 7),
    GradeBand(50, "C", 6),
    GradeBand(45, "C-", 5),
    GradeBand(40, "D+", 4),
    GradeBand(35, "D", 3),
    GradeBand(30, "D-", 2),
    GradeBand(0, "E", 1)
  ]

  // ----- Shape of the tables -----

  /** Minimums strictly decrease and points strictly decrease with them. */
  ghost predicate StrictlyDescending(t: seq<GradeBand>)
  {
    forall i, j :: 0 <= i < j < |t| ==> t[i].min > t[j].min && t[i].points > t[j].points
  }

  ghost predicate DistinctGrades(t: seq<GradeBand>)
  {
    forall i, j :: 0 <= i < j < |t| ==> t[i].grade != t[j].grade
  }

  /** Each band's minimum and points exceed those of the next band. */
  ghost predicate AdjacentDescending(t: seq<GradeBand>)
  {
    forall i :: 0 <= i < |t| - 1 ==> t[i].min > t[i + 1].min && t[i].points > t[i + 1].points
  }

  lemma {:induction false} AdjacentToPairwise(t: seq<GradeBand>)
    requires AdjacentDescending(t)
    ensures StrictlyDescending(t)
  {
    if |t| > 1 {
      AdjacentToPairwise(t[1..]);
      forall j | 1 <= j < |t|
        ensures t[0].min > t[j].min && t[0].points > t[j].points
      {
        if j > 1 {
          assert t[1..][0] == t[1] && t[1..][j - 1] == t[j];
        }
      }
      forall i, j | 0 <= i < j < |t|
        ensures t[i].min > t[j].min && t[i].points > t[j].points
      {
        if i > 0 {
          assert t[1..][i - 1] == t[i] && t[1..][j - 1] == t[j];
        }
      }
    }
  }

  /** The table runs from minimum 80 and 12 points down to minimum 0 and 1 point,
      both strictly decreasing, and no grade label appears twice. */
  lemma GradingSystemShape()
    ensures StrictlyDescending(GRADING_SYSTEM) && DistinctGrades(GRADING_SYSTEM)
    ensures GRADING_SYSTEM[0].min == 80 && GRADING_SYSTEM[0].points == 12
    ensures GRADING_SYSTEM[|GRADING_SYSTEM| - 1].min == 0 && GRADING_SYSTEM[|GRADING_SYSTEM| - 1].points == 1
  {
    GradingSystemAdjacent();
    AdjacentToPairwise(GRADING_SYSTEM);
    GradingSystemGradesDistinct();
  }

  lemma GradingSystemAdjacent()
    ensures AdjacentDescending(GRADING_SYSTEM)
  {
    var t := GRADING_SYSTEM;
    assert forall i :: 0 <= i < |t| - 1 ==> t[i].min > t[i + 1].min && t[i].points > t[i + 1].points;
  }

  /** Distinct labels follow from distinct points, since the label determines
      the points. */
  lemma GradingSystemGradesDistinct()
    ensures DistinctGrades(GRADING_SYSTEM)
  {
    var t := GRADING_SYSTEM;
    GradingSystemAdjacent();
    AdjacentToPairwise(t);
    LabelDeterminesPoints();
  }

  lemma LabelDeterminesPoints()
    ensures forall i :: 0 <= i < |GRADING_SYSTEM| ==> PointsOfLabel(GRADING_SYSTEM[i].grade) == GRADING_SYSTEM[i].points
  {
  }

  /** The points the table gives to each grade label. */
  function PointsOfLabel(g: string): int
  {
    if g == "A" then 12 else if g == "A-" then 11 else if g == "B+" then 10
    else if g == "B" then 9 else if g == "B-" then 8 else if g == "C+" then 7
    else if g == "C" then 6 else if g == "C-" then 5 else if g == "D+" then 4
    else if g == "D" then 3 else if g == "D-" then 2 else if g == "E" then 1 else 0
  }

  lemma CataloguesDistinct()
    ensures forall i, j :: 0 <= i < j < |CLASSES| ==> CLASSES[i].id != CLASSES[j].id
    ensures forall i, j :: 0 <= i < j < |SUBJECTS| ==> SUBJECTS[i].id != SUBJECTS[j].id
    ensures |TERMS| == 3 && TERMS[0] != TERMS[1] && TERMS[1] != TERMS[2] && TERMS[0] != TERMS[2]
  {
  }

  /** Every class id is three characters whose middle one is the form digit. */
  lemma ClassIdShape()
    ensures forall i :: 0 <= i < |CLASSES| ==> |CLASSES[i].id| == 3 && '0' <= CLASSES[i].id[1] <= '9'
  {
  }

  // ----- calculateGrade -----

  /** `Array.prototype.find` over the table: the first band whose minimum the score reaches. */
  function FindBand(t: seq<GradeBand>, score: int): (k: Option<nat>)
    ensures k.Some? ==> k.value < |t| && t[k.value].min <= score
    ensures k.Some? ==> forall j :: 0 <= j < k.value ==> t[j].min > score
    ensures k.None? ==> forall j :: 0 <= j < |t| ==> t[j].min > score
  {
    FindBandFrom(t, score, 0)
  }

  /** The search from position i on. */
  function FindBandFrom(t: seq<GradeBand>, score: int, i: nat): (k: Option<nat>)
    requires i <= |t|
    ensures k.Some? ==> i <= k.value < |t| && t[k.value].min <= score
    ensures k.Some? ==> forall j :: i <= j < k.value ==> t[j].min > score
    ensures k.None? ==> forall j :: i <= j < |t| ==> t[j].min > score
    decreases |t| - i
  {
    if i == |t| then None
    else if t[i].min <= score then Some(i)
    else FindBandFrom(t, score, i + 1)
  }

  function CalculateGrade(score: int): (g: string)
    ensures score < 0 ==> g == "E"
    ensures exists k :: 0 <= k < |GRADING_SYSTEM| && g == GRADING_SYSTEM[k].grade
  {
    match FindBand(GRADING_SYSTEM, score)
    case Some(k) => GRADING_SYSTEM[k].grade
    case None => assert GRADING_SYSTEM[11].grade == "E"; "E"
  }

  /** Any score, negative ones included, gets the grade of the band with the
      greatest minimum not above it, when there is one. */
  lemma CalculateGradeGreatestMin(score: int, k: nat)
    requires k < |GRADING_SYSTEM| && GRADING_SYSTEM[k].min <= score
    requires forall j :: 0 <= j < |GRADING_SYSTEM| && GRADING_SYSTEM[j].min <= score ==> GRADING_SYSTEM[j].min <= GRADING_SYSTEM[k].min
    ensures CalculateGrade(score) == GRADING_SYSTEM[k].grade
  {
    GradingSystemShape();
    var f := FindBand(GRADING_SYSTEM, score);
    assert f.Some?;
    assert f.value == k;
  }

  /** Every non-negative score falls in some band: the one with minimum 0 at worst. */
  lemma NonNegativeScoreHasBand(score: int)
    requires score >= 0
    ensures FindBand(GRADING_SYSTEM, score).Some?
  {
    var last := |GRADING_SYSTEM| - 1;
    assert GRADING_SYSTEM[last].min == 0;
  }

  /** The points of a grade label, looked up in the table (0 for an unknown label). */
  function PointsOf(grade: string): (p: int)
  {
    match FindGrade(GRADING_SYSTEM, grade)
    case Some(k) => GRADING_SYSTEM[k].points
    case None => 0
  }

  /** The first band carrying the label `grade`. */
  function FindGrade(t: seq<GradeBand>, grade: string): (k: Option<nat>)
    ensures k.Some? ==> k.value < |t| && t[k.value].grade == grade
    ensures k.Some? ==> forall j :: 0 <= j < k.value ==> t[j].grade != grade
    ensures k.None? ==> forall j :: 0 <= j < |t| ==> t[j].grade != grade
  {
    FindGradeFrom(t, grade, 0)
  }

  function FindGradeFrom(t: seq<GradeBand>, grade: string, i: nat): (k: Option<nat>)
    requires i <= |t|
    ensures k.Some? ==> i <= k.value < |t| && t[k.value].grade == grade
    ensures k.Some? ==> forall j :: i <= j < k.value ==> t[j].grade != grade
    ensures k.None? ==> forall j :: i <= j < |t| ==> t[j].grade != grade
    decreases |t| - i
  {
    if i == |t| then None
    else if t[i].grade == grade then Some(i)
    else FindGradeFrom(t, grade, i + 1)
  }

  lemma PointsOfBand(k: nat)
    requires k < |GRADING_SYSTEM|
    ensures PointsOf(GRADING_SYSTEM[k].grade) == GRADING_SYSTEM[k].points
  {
    GradingSystemShape();
    var f := FindGrade(GRADING_SYSTEM, GRADING_SYSTEM[k].grade);
    assert f.Some? && f.value == k;
  }

  /** A higher score never earns fewer points. */
  lemma GradeMonotone(s1: int, s2: int)
    requires s1 <= s2
    ensures PointsOf(CalculateGrade(s1)) <= PointsOf(CalculateGrade(s2))
  {
    GradingSystemShape();
    var last := |GRADING_SYSTEM| - 1;
    var f1, f2 := FindBand(GRADING_SYSTEM, s1), FindBand(GRADING_SYSTEM, s2);
    if f1.None? {
      PointsOfBand(last);
      if f2.Some? {
        PointsOfBand(f2.value);
      }
    } else {
      PointsOfBand(f1.value);
      assert f2.Some? && f2.value <= f1.value;
      PointsOfBand(f2.value);
    }
  }

  lemma GradeBoundaries()
    ensures CalculateGrade(100) == "A" && CalculateGrade(80) == "A"
    ensures CalculateGrade(79) == "A-"
    ensures CalculateGrade(40) == "D+" && CalculateGrade(39) == "D"
    ensures CalculateGrade(30) == "D-"
    ensures CalculateGrade(29) == "E" && CalculateGrade(0) == "E"
  {
    var t := GRADING_SYSTEM;
    assert t[0].grade == "A" && t[1].grade == "A-" && t[8].grade == "D+";
    assert t[9].grade == "D" && t[10].grade == "D-" && t[11].grade == "E";
    GradeAt(100, 0);
    GradeAt(80, 0);
    GradeAt(79, 1);
    GradeAt(40, 8);
    GradeAt(39, 9);
    GradeAt(30, 10);
    GradeAt(29, 11);
    GradeAt(0, 11);
  }

  /** `score` lies in band `k`: it reaches band k's minimum and not the one above. */
  lemma GradeAt(score: int, k: nat)
    requires k < |GRADING_SYSTEM| && GRADING_SYSTEM[k].min <= score
    requires k > 0 ==> score < GRADING_SYSTEM[k - 1].min
    ensures CalculateGrade(score) == GRADING_SYSTEM[k].grade
  {
    GradingSystemShape();
    var f := FindBand(GRADING_SYSTEM, score);
    assert f.Some? && f.value == k;
  }

  /** A score of at least 40 is never graded D, D- or E. */
  lemma PassingScoreGrade(score: int)
    requires score >= 40
    ensures CalculateGrade(score) != "D" && CalculateGrade(score) != "D-" && CalculateGrade(score) != "E"
  {
    GradeMonotone(40, score);
    GradeBoundaries();
    PointsOfBand(8);
    PointsOfBand(9);
    PointsOfBand(10);
    PointsOfBand(11);
  }
}
