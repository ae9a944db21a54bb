# School dashboard data layer, modelled in Dafny

This project models the data layer of a browser-based school dashboard (Kenyan
secondary-school style: forms and streams, KCSE-like letter grades). It covers
two source files:

- `constants.ts`: the static catalogues (three terms, ten subjects, six classes)
  and the grading policy `calculateGrade`. That function takes the first band of
  the descending `GRADING_SYSTEM` table whose minimum the score reaches, and
  falls back to `'E'`.
- `services/db.ts`: the single persisted state (`DBState`: students, results,
  attendance) kept in `localStorage`. The file holds:
  - the lazy `getDB`, which generates and stores the data on first access;
  - `saveDB`;
  - the order-preserving filters `getStudentsByClass` and `getStudentResults`;
  - `getClassAverage`, a rounded mean or 0;
  - `saveResult`, an in-place upsert keyed by (studentId, subjectId, term);
  - the synthetic-data generator `generateInitialData`;
  - the demo login `mockLogin`.

Files and modules:

| file | module | what it holds |
|---|---|---|
| types.dfy | `Types` | the record shapes of types.ts, `DBState`, the upsert key `SameKey` and the invariant `UniqueKeys` |
| seqs.dfy | `Seqs` | `Filter` (JavaScript's `Array.prototype.filter`) and its exactness lemmas; `Flatten`, the concatenation of blocks that nested `forEach` loops push |
| decimal.dfy | `Decimal` | decimal rendering of a number in a template literal, `parseInt` of a digit, injectivity |
| constants.dfy | `Constants` | catalogues, `GRADING_SYSTEM`, `CalculateGrade` and its properties |
| generator.dfy | `Generator` | `GenerateInitialData` (nested loops), its specification `InitialData` as blocks per class and per student, and the shape of the generated state |
| db.dfy | `Db` | queries, class average, upsert, `MockLogin`, and the class `LocalStore` over the storage cell |

Modelling choices:

- `localStorage` under the data key is the field `storage: Option<DBState>` of
  the class `LocalStore`. JSON serialisation is taken to be an exact copy. A
  ghost counter `writes` counts `setItem` calls, so "getDB does not write" can
  be stated.
- `Math.random` is replaced by explicit draws (`Generator.Draws`). There is one
  value of `Math.floor(Math.random() * 5)` per student, indexed
  `[class][student]`, and one of `Math.floor(Math.random() * 60)` per student
  and subject, indexed `[class][student][subject]`. `ValidDraws` states their
  ranges. The specified state `InitialData` is the concatenation, class by
  class and student by student, of the records the loops push.
- Scores are integers. `Math.round(total / n)` is modelled as
  `(2 * total + n) / (2 * n)`, using Dafny's floor division. For a positive `n`
  this is exactly `floor(total / n + 1/2)`, which is JavaScript's round-half-up.
- `!subjectId` in `getClassAverage` is true for an absent and for an empty
  subject id. Both mean "every subject" (`Db.NoSubject`).
- Fields that types.ts declares but the generator never sets are `Option`s and
  are `None` in generated data. These are gender, parentName, feesPaid,
  feesTotal, parentEmail, dob and a result's date. At run time those
  properties are absent.

Behaviour of the code worth noting:

- Every generated result is for Term 1 (`Generator.GeneratedResultFacts`), and
  the attendance list is generated empty (`Generator.GeneratedCounts`).
  `DBState` holds only students, results and attendance; the code keeps no fee
  or notification collections.
- `${2020 + parseInt(cls.id[1])}0${i}` reads only the form digit of the class
  id, so `f1n-s1` and `f1s-s1` both get the admission number `202101`
  (`Generator.AdmissionNumberShape`, `Generator.AdmissionNumbersCollide`).
  Student ids, by contrast, are pairwise distinct
  (`Generator.GeneratedStudentIdsUnique`).
- `Math.floor(Math.random() * 60) + 40` gives scores 40..99, never 100,
  although the comment beside it at services/db.ts:34 says 40-100
  (`Generator.NewResultFacts`).
- `mockLogin` cannot fail on the closed `Role` type: its `default: throw`
  branch is unreachable for well-typed callers (`Db.MockLogin`).

## Model

| member | source | states |
|---|---|---|
| `Constants.GradingSystemShape` | constants.ts:28-41 | band minimums strictly decrease from 80 to 0, points strictly decrease from 12 to 1 in step with them, and no grade label appears twice |
| `Constants.CataloguesDistinct` | constants.ts:3-26 | class ids are pairwise distinct, subject ids are pairwise distinct, and the three term labels are distinct |
| `Constants.ClassIdShape` | constants.ts:19-26 | every class id has three characters and a digit in the middle (what `parseInt(cls.id[1])` reads) |
| `Constants.FindBand` | constants.ts:44 | `find` over the table: the index returned is a band the score reaches, and no earlier band is reached; none means that no band is reached |
| `Constants.CalculateGrade` | constants.ts:43-46 | a negative score gets `'E'`, and every result is one of the table's grade labels |
| `Constants.CalculateGradeGreatestMin` | constants.ts:28-45 | the grade is that of the band with the greatest minimum not above the score |
| `Constants.NonNegativeScoreHasBand` | constants.ts:40-45 | every non-negative score reaches some band (the minimum-0 band at worst), so the fallback is only taken for negative scores |
| `Constants.GradeAt` | constants.ts:28-45 | a score at or above band k's minimum and below band k-1's minimum gets band k's grade |
| `Constants.GradeMonotone` | constants.ts:28-45 | s1 <= s2 implies that the points of s1's grade are at most the points of s2's grade |
| `Constants.GradeBoundaries` | constants.ts:29-46 | 100 and 80 give A, 79 gives A-, 40 gives D+, 39 gives D, 30 gives D-, 29 and 0 give E |
| `Constants.PassingScoreGrade` | constants.ts:37-45 | a score of at least 40 is never graded D, D- or E |
| `Decimal.NatToStringInjective` | services/db.ts:21 | different indices render as different decimal strings |
| `Decimal.DigitValue` | services/db.ts:25 | `parseInt` of one digit character gives the digit whose character it is |
| `Generator.GenerateInitialData` | services/db.ts:13-48 | the nested loops produce exactly the specified state `InitialData(d)` for the random draws `d` |
| `Decimal.NatToString` | services/db.ts:21 | `${i}` of a natural: a non-empty string of decimal digits, two or more from 10 on, with no leading zero except for 0 itself |
| `Generator.StudentId` | services/db.ts:21 | `${cls.id}-s${i}`: the class id and `-s`, followed by at least one character (the decimal index) |
| `Generator.AdmissionNumber` | services/db.ts:25 | `${2020 + parseInt(cls.id[1])}0${i}`; its shape is stated by `AdmissionNumberShape` |
| `Generator.AdmissionNumberShape` | services/db.ts:25 | an admission number is `202`, the form digit `cls.id[1]`, `0`, then the decimal index; the stream plays no part |
| `Generator.NewStudent` | services/db.ts:21-30 | the pushed student has the id and admission number above, the class's id and stream, attendance 95..99 for a draw in 0..4, and no gender, parent name, parent email, fees or date of birth |
| `Generator.NewResult` | services/db.ts:34-42 | the pushed result belongs to the given student and subject, is for `TERMS[0]` (Term 1), is graded by `calculateGrade` of its score, and scores 40..99 for a draw in 0..59 |
| `Generator.PushSubjectResults` | services/db.ts:33-43 | the per-subject loop appends exactly the student's results `ResultsOfStudent(c, n, d)`: one per subject, in catalogue order, and nothing else |
| `Generator.GeneratedCounts` | services/db.ts:18-47 | 6 classes × 15 = 90 students, 90 × 10 subjects = 900 results, no attendance records |
| `Generator.StudentIdInjective` | services/db.ts:21 | an id `{cls.id}-s{i}` determines the class id and the index |
| `Generator.GeneratedStudentIdsUnique` | services/db.ts:18-30 | all generated student ids are distinct |
| `Generator.NewResultFacts` | services/db.ts:34-42 | a result built from a score draw in 0..59 belongs to the given student and subject, is for Term 1, scores 40..99 and is graded by `calculateGrade`, so never D, D- or E |
| `Generator.GeneratedResultFacts` | services/db.ts:33-42 | every generated result is a Term 1 mark in 40..99 with grade `calculateGrade(score)`, never D, D- or E, for a generated student and a catalogue subject |
| `Generator.GeneratedResultsComplete` | services/db.ts:18-43 | every generated student has a generated result in every subject |
| `Generator.StudentIdsDiffer` | services/db.ts:18-21 | two catalogue classes or two indices give different student ids |
| `Generator.GeneratedResultKeysUnique` | services/db.ts:33-43 | the generated results hold at most one result per (studentId, subjectId, term) |
| `Generator.GeneratedAttendance` | services/db.ts:29 | every generated student's attendance rate is in 95..99 |
| `Generator.AdmissionNumbersCollide` | services/db.ts:25 | the generated state holds two different students, f1n-s1 and f1s-s1, that both receive the admission number 202101 |
| `Generator.FirstStudentId` | services/db.ts:18-21 | the first generated student is `f1n-s1` |
| `Db.StudentsByClass` | services/db.ts:64-67 | every returned student is in the class, and there are no more than in the state |
| `Db.StudentsByClassExact` | services/db.ts:64-67 | returns exactly the state's students with that class id, each as often as in the state, as a subsequence in original order |
| `Db.StudentResults` | services/db.ts:69-72 | every returned result belongs to the student, and there are no more than in the state |
| `Db.StudentResultsExact` | services/db.ts:69-72 | returns exactly the state's results for that student, each as often as in the state, as a subsequence in original order |
| `Db.GeneratedClassRoster` | services/db.ts:18-31 | in the generated state `getStudentsByClass` of a catalogue class returns exactly the 15 students generated for it, `{id}-s1` .. `{id}-s15` in order |
| `Db.ClassStudentIds` | services/db.ts:87 | an id is listed iff some student of the state in that class has it |
| `Db.RelevantResults` | services/db.ts:87-92 | a result is counted iff it is in the state, its student is in the class, its term matches, and the subject matches unless no subject was given; each counted result appears exactly as often as in the state, and there are no more than in the state |
| `Db.TotalScore` | services/db.ts:95 | the `reduce` sum of the scores; `TotalScoreBounds` bounds it by count × least and count × greatest score, and `TotalOfTwo` gives the sum of a two-result list |
| `Db.RoundHalfUp` | services/db.ts:96 | the result r satisfies n(r - 1/2) <= total < n(r + 1/2), so it is the nearest integer with halves rounded up |
| `Db.RoundHalfUpUnique` | services/db.ts:96 | that property determines the rounding uniquely |
| `Db.RoundedMeanBetween` | services/db.ts:94-96 | the rounded mean lies between the least and the greatest score |
| `Db.ClassAverage` | services/db.ts:85-97 | 0 for no relevant results; otherwise the round-half-up mean of their scores, lying between their minimum and maximum |
| `Db.ClassAverageHalfUpExample` | services/db.ts:85-96 | a class whose only relevant results, for one student in one term, score 50 and 51 has the average 51: the half rounds up |
| `Db.Upsert` | services/db.ts:76-81 | the argument is in the new list, every other element was already there, and the length grows by one exactly when no result had the key; `UpsertReplacesFirstMatch` and `UpsertAppends` pin down the two branches |
| `Db.FindResultIndex` | services/db.ts:76 | `findIndex`: the first position with the same (studentId, subjectId, term), or -1 exactly when there is none |
| `Db.UpsertReplacesFirstMatch` | services/db.ts:76-78 | when a result with the key exists, the first one is overwritten, the length is unchanged and every other position is unchanged |
| `Db.UpsertAppends` | services/db.ts:79-81 | when no result has the key, the argument is appended after the unchanged old results |
| `Db.UpsertKeepsUniqueKeys` | services/db.ts:74-83 | at most one result per key before implies at most one after, and the saved key then holds exactly the argument |
| `Db.UpsertLastWriteWins` | services/db.ts:74-83 | saving b after a with the same key equals saving only b |
| `Db.UpsertIdempotent` | services/db.ts:74-83 | saving the same result twice equals saving it once |
| `Db.UpsertKeepsGradesConsistent` | services/db.ts:74-83 | if every stored grade equals `calculateGrade(score)` and the saved result's does too, this still holds afterwards |
| `Db.GeneratedResultsWellFormed` | services/db.ts:33-43 | the generated results satisfy both invariants the upsert keeps |
| `Db.MockLogin` | services/db.ts:99-113 | the returned user has the requested role, and the student identity is `f1n-s1` |
| `Db.StudentLoginIsGenerated` | services/db.ts:106-107 | the student login id equals the first generated student's id |
| `Db.LocalStore.Loaded` | services/db.ts:51-57 | the state `getDB` returns from the current storage; `GetDB` proves its result equals it |
| `Db.LocalStore.GetDB` | services/db.ts:50-58 | on empty storage: stores the generated state, returns that same state and writes once; otherwise: returns the stored state and does not write |
| `Db.LocalStore.SaveDB` | services/db.ts:60-62 | the storage afterwards holds exactly the given state |
| `Db.LocalStore.GetStudentsByClass` | services/db.ts:64-67 | loads the state as `getDB` does, writing only when the storage was empty, and returns `StudentsByClass` of it |
| `Db.LocalStore.GetStudentResults` | services/db.ts:69-72 | loads the state as `getDB` does, writing only when the storage was empty, and returns `StudentResults` of it |
| `Db.LocalStore.GetClassAverage` | services/db.ts:85-97 | loads the state as `getDB` does, writing only when the storage was empty, and returns `ClassAverage` of it |
| `Db.LocalStore.SaveResult` | services/db.ts:74-83 | the storage afterwards holds the loaded state with `results` replaced by its upsert with the argument; students and attendance are untouched; it writes once, twice when the storage was empty |
| `Db.SaveThenGetDB` | services/db.ts:50-62 | `saveDB(s)` followed by `getDB()` returns `s` |

## Left out

- React views, components, routing, the theme flag and the splash timer (App.tsx, views/, components/) are presentation code that only calls this layer.
- services/gemini.ts is an asynchronous call to an external text-generation service. It is not part of this model.
- JSON serialisation and `localStorage` failures (quota, corrupt blob) are not modelled: storage is an exact-copy cell. The storage key `edu_ke_data_v1` is implicit, since there is a single cell.
- The concrete values of `Math.random` are parameters (`Generator.Draws`) and not specific numbers.
- `CURRENT_YEAR` (constants.ts:4) reads the clock and is used by no modelled operation.
- Scores are integers. A JavaScript score that is not an integer, or a total beyond 2^53 where floating-point division loses exactness, is not modelled.
- `Db.MockLogin`: the `default: throw new Error('Invalid role')` branch is not modelled, because the closed `Role` datatype makes it unreachable.
- The 0..100 input filter of the marks-entry view is not a precondition of `SaveResult`, because `saveResult` itself accepts any score.
- Concurrency (two tabs overwriting each other's saves) is not modelled. The code is single-threaded, and every operation reads and writes the whole state.
