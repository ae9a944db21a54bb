/** The record shapes of the school dashboard (types.ts). Optional TypeScript
    fields, and required fields that the data generator never fills in, are
    `Option`s: at run time those properties are simply absent. */
module Types {

  datatype Option<+T> = None | Some(value: T)

  /** The four login roles; the TypeScript enum is closed. */
  datatype Role = ADMIN | TEACHER | STUDENT | PARENT

  datatype User = User(id: string, name: string, role: Role, email: string, avatar: Option<string>)

  datatype Gender = M | F

  datatype Student = Student(
    id: string,
    name: string,
    admissionNumber: string,
    classId: string,
    stream: string,
    gender: Option<Gender>,
    parentName: Option<string>,
    parentPhone: string,
    parentEmail: Option<string>,
    attendanceRate: int,
    feesPaid: Option<int>,
    feesTotal: Option<int>,
    dob: Option<string>)

  datatype Category = Languages | Sciences | Humanities | Technical

  datatype Subject = Subject(id: string, name: string, code: string, category: Category)

  /** One exam mark. Its identity for the upsert is the triple
      (studentId, subjectId, term), not the synthetic `id` string. */
  datatype ExamResult = ExamResult(
    id: string,
    studentId: string,
    subjectId: string,
    term: string,
    score: int,
    grade: string,
    date: Option<string>)

  datatype ClassRoom = ClassRoom(id: string, name: string, stream: string, teacherId: string)

  datatype AttendanceStatus = Present | Absent | Late

  datatype AttendanceRecord = AttendanceRecord(id: string, studentId: string, date: string, status: AttendanceStatus)

  /** The whole persisted aggregate (services/db.ts `DBState`). */
  datatype DBState = DBState(students: seq<Student>, results: seq<ExamResult>, attendance: seq<AttendanceRecord>)

  /** Two results have the same upsert key. */
  predicate SameKey(a: ExamResult, b: ExamResult)
  {
    a.studentId == b.studentId && a.subjectId == b.subjectId && a.term == b.term
  }

  /** No two results share an upsert key. */
  ghost predicate UniqueKeys(rs: seq<ExamResult>)
  {
    forall i, j :: 0 <= i < j < |rs| ==> !SameKey(rs[i], rs[j])
  }
}
