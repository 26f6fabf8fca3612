/**
 * The user endpoints: lookup of a student or teacher by id, a teacher's
 * assigned students, and login by e-mail address (server.js lines 42-73).
 */
module Accounts {
  import opened Wrappers
  import opened Seqs
  import opened Records

  const EMAIL_AND_ROLE_REQUIRED := "Email and role are required."
  const INVALID_CREDENTIALS := "Invalid credentials. User not found."
  const STUDENT_NOT_FOUND := "Student not found"
  const TEACHER_NOT_FOUND := "Teacher not found"

  /** `String.prototype.toLowerCase` on one character, for the ASCII letters. */
  function LowerChar(c: char): char
  {
    if 'A' <= c <= 'Z' then (c as int + 32) as char else c
  }

  /** Every ASCII capital moves down 32 code points to its small letter; every other character stays. */
  function Lower(s: string): (r: string)
    ensures |r| == |s|
    ensures forall i :: 0 <= i < |s| ==> !('A' <= r[i] <= 'Z')
    ensures forall i :: 0 <= i < |s| ==>
      if 'A' <= s[i] <= 'Z' then r[i] as int == s[i] as int + 32 else r[i] == s[i]
  {
    seq(|s|, i requires 0 <= i < |s| => LowerChar(s[i]))
  }

  /** `a.toLowerCase() === b.toLowerCase()` */
  predicate SameEmail(a: string, b: string)
  {
    Lower(a) == Lower(b)
  }

  /** `GET /api/students/:id`: the first student with that id, or 404 as plain text. */
  function GetStudent(students: seq<Student>, id: int): (r: Response)
    ensures r.status == 200 <==> exists s :: s in students && s.id == id
    ensures r.status == 200 ==> r.body.UserBody? && r.body.user.StudentUser?
                                && r.body.user.student in students && r.body.user.student.id == id
    ensures r.status == 200 ==> r.body.user.student == students[FindStudent(students, id).value]
    ensures r.status != 200 ==> r == Response(404, PlainText(STUDENT_NOT_FOUND))
  {
    match FindStudent(students, id)
    case Some(i) => Response(200, UserBody(StudentUser(students[i])))
    case None => Response(404, PlainText(STUDENT_NOT_FOUND))
  }

  /** `GET /api/teachers/:id`: the first teacher with that id, or 404 as plain text. */
  function GetTeacher(teachers: seq<Teacher>, id: int): (r: Response)
    ensures r.status == 200 <==> exists t :: t in teachers && t.id == id
    ensures r.status == 200 ==> r.body.UserBody? && r.body.user.TeacherUser?
                                && r.body.user.teacher in teachers && r.body.user.teacher.id == id
    ensures r.status == 200 ==> r.body.user.teacher == teachers[FindTeacher(teachers, id).value]
    ensures r.status != 200 ==> r == Response(404, PlainText(TEACHER_NOT_FOUND))
  {
    match FindTeacher(teachers, id)
    case Some(i) => Response(200, UserBody(TeacherUser(teachers[i])))
    case None => Response(404, PlainText(TEACHER_NOT_FOUND))
  }

  /** The students whose id is on `teacher.students`, in the order of the student table. */
  function AssignedStudents(students: seq<Student>, teacher: Teacher): (r: seq<Student>)
    ensures forall s :: s in r <==> s in students && s.id in teacher.students
  {
    Filter(students, (s: Student) => s.id in teacher.students)
  }

  /** `GET /api/teachers/:id/students` */
  function TeacherStudents(students: seq<Student>, teachers: seq<Teacher>, id: int): (r: Response)
    ensures r.status == 200 <==> exists t :: t in teachers && t.id == id
    ensures r.status != 200 ==> r == Response(404, PlainText(TEACHER_NOT_FOUND))
    ensures r.status == 200 ==>
      exists t :: t in teachers && t.id == id && r == Response(200, StudentList(AssignedStudents(students, t)))
    ensures r.status == 200 ==>
      r.body == StudentList(AssignedStudents(students, teachers[FindTeacher(teachers, id).value]))
  {
    match FindTeacher(teachers, id)
    case Some(i) => Response(200, StudentList(AssignedStudents(students, teachers[i])))
    case None => Response(404, PlainText(TEACHER_NOT_FOUND))
  }

  function FindStudentByEmail(students: seq<Student>, email: string): (r: Option<nat>)
    ensures r.Some? ==> r.value < |students| && SameEmail(students[r.value].email, email)
    ensures r.Some? ==> forall j :: 0 <= j < r.value ==> !SameEmail(students[j].email, email)
    ensures r.None? <==> forall s :: s in students ==> !SameEmail(s.email, email)
  {
    FirstIndex(students, (s: Student) => SameEmail(s.email, email))
  }

  function FindTeacherByEmail(teachers: seq<Teacher>, email: string): (r: Option<nat>)
    ensures r.Some? ==> r.value < |teachers| && SameEmail(teachers[r.value].email, email)
    ensures r.Some? ==> forall j :: 0 <= j < r.value ==> !SameEmail(teachers[j].email, email)
    ensures r.None? <==> forall t :: t in teachers ==> !SameEmail(t.email, email)
  {
    FirstIndex(teachers, (t: Teacher) => SameEmail(t.email, email))
  }

  /**
   * `POST /api/login`. An empty `email` or `role` stands for a missing one.
   * Only the e-mail address is compared; the password is not checked.
   */
  function Login(students: seq<Student>, teachers: seq<Teacher>, email: string, role: string): (r: Response)
    ensures r.status == 400 <==> email == "" || role == ""
    ensures r.status == 400 ==> r.body == Message(EMAIL_AND_ROLE_REQUIRED)
    ensures r.status == 200 <==>
      email != "" && role != "" &&
      ((role == "student" && exists s :: s in students && SameEmail(s.email, email)) ||
       (role == "teacher" && exists t :: t in teachers && SameEmail(t.email, email)))
    ensures r.status == 200 && role == "student" ==>
      r.body.UserBody? && r.body.user.StudentUser? && r.body.user.student in students
      && SameEmail(r.body.user.student.email, email)
      && r.body.user.student == students[FindStudentByEmail(students, email).value]
    ensures r.status == 200 && role == "teacher" ==>
      r.body.UserBody? && r.body.user.TeacherUser? && r.body.user.teacher in teachers
      && SameEmail(r.body.user.teacher.email, email)
      && r.body.user.teacher == teachers[FindTeacherByEmail(teachers, email).value]
    ensures r.status !in {200, 400} ==> r == Response(401, Message(INVALID_CREDENTIALS))
  {
    if email == "" || role == "" then Response(400, Message(EMAIL_AND_ROLE_REQUIRED))
    else
      var user :=
        if role == "student" then
          (match FindStudentByEmail(students, email)
           case Some(i) => Some(StudentUser(students[i]))
           case None => None)
        else if role == "teacher" then
          (match FindTeacherByEmail(teachers, email)
           case Some(i) => Some(TeacherUser(teachers[i]))
           case None => None)
        else None;
      match user
      case Some(u) => Response(200, UserBody(u))
      case None => Response(401, Message(INVALID_CREDENTIALS))
  }

  lemma {:induction false} LowerIdempotent(s: string)
    ensures Lower(Lower(s)) == Lower(s)
  {
    var l := Lower(s);
    assert forall i :: 0 <= i < |s| ==> Lower(l)[i] == l[i];
  }

  /** Login does not depend on the letter case of the e-mail address. */
  lemma {:induction false} LoginIgnoresCase(students: seq<Student>, teachers: seq<Teacher>, e1: string, e2: string, role: string)
    requires Lower(e1) == Lower(e2)
    ensures Login(students, teachers, e1, role) == Login(students, teachers, e2, role)
  {
    assert |e1| == |e2|;
    assert forall a :: SameEmail(a, e1) <==> SameEmail(a, e2);
    assert FindStudentByEmail(students, e1) == FindStudentByEmail(students, e2);
    assert FindTeacherByEmail(teachers, e1) == FindTeacherByEmail(teachers, e2);
  }
}
