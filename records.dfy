/**
 * The records of the in-memory store: students, teachers, quizzes and quiz
 * results, and the HTTP responses the handlers send. Timestamps (the
 * `Date.now()` quiz id, ISO date strings, `new Date()`) are plain integers
 * supplied by the caller; a field the client may omit is an `Option`.
 */
module Records {
  import opened Wrappers
  import opened Seqs

  datatype Student = Student(id: int, name: string, email: string)

  datatype Teacher = Teacher(id: int, name: string, email: string, students: seq<int>)

  datatype User = StudentUser(student: Student) | TeacherUser(teacher: Teacher)

  /**
   * A question as the client sent it. `correctAnswerIndex` is `None` when the
   * field is absent (as in the student view); `points` is `None` when it is
   * absent or null.
   */
  datatype Question = Question(
    text: string,
    options: seq<string>,
    correctAnswerIndex: Option<int>,
    points: Option<int>)

  datatype Quiz = Quiz(
    id: int,
    title: string,
    subject: string,
    teacherId: int,
    startTime: Option<int>,
    endTime: Option<int>,
    isActive: bool,
    createdOn: int,
    questions: seq<Question>)

  /**
   * The body of a quiz-creation request. An empty title, a `teacherId` of 0 and
   * a `None` question list stand for the falsy or missing JavaScript values.
   */
  datatype QuizDraft = QuizDraft(
    id: Option<int>,
    title: string,
    subject: string,
    teacherId: int,
    startTime: Option<int>,
    endTime: Option<int>,
    questions: Option<seq<Question>>)

  datatype QuizResult = QuizResult(
    quizId: int,
    studentId: int,
    studentName: string,
    score: int,
    totalQuestions: nat,
    totalPossibleScore: int,
    quizTitle: string,
    timeTaken: int,
    completedOn: int)

  /** One leaderboard entry (a value of `playerStats`). */
  datatype Standing = Standing(studentId: int, name: string, points: int, totalTimeTaken: int)

  /** A quiz with its attempt count, as `/api/quizzes/all` lists it. */
  datatype QuizStats = QuizStats(quiz: Quiz, attempts: nat)

  /** `res.send(text)` gives `PlainText`; `res.json(...)` gives the other variants. */
  datatype Body =
    | PlainText(text: string)
    | Message(message: string)
    | UserBody(user: User)
    | StudentList(students: seq<Student>)
    | QuizWithMessage(message: string, quiz: Quiz)
    | QuizBody(quiz: Quiz)
    | QuizList(quizzes: seq<Quiz>)
    | QuizStatsList(stats: seq<QuizStats>)
    | ResultWithMessage(message: string, result: QuizResult)
    | ResultList(results: seq<QuizResult>)
    | StandingList(standings: seq<Standing>)

  datatype Response = Response(status: int, body: Body)

  /** `students.find(s => s.id === id)`, as a position. */
  function FindStudent(students: seq<Student>, id: int): (r: Option<nat>)
    ensures r.Some? ==> r.value < |students| && students[r.value].id == id
    ensures r.Some? ==> forall j :: 0 <= j < r.value ==> students[j].id != id
    ensures r.None? <==> forall s :: s in students ==> s.id != id
  {
    FirstIndex(students, (s: Student) => s.id == id)
  }

  /** `teachers.find(t => t.id === id)`, as a position. */
  function FindTeacher(teachers: seq<Teacher>, id: int): (r: Option<nat>)
    ensures r.Some? ==> r.value < |teachers| && teachers[r.value].id == id
    ensures r.Some? ==> forall j :: 0 <= j < r.value ==> teachers[j].id != id
    ensures r.None? <==> forall t :: t in teachers ==> t.id != id
  {
    FirstIndex(teachers, (t: Teacher) => t.id == id)
  }

  /** `quizzes.find(q => q.id === id)`, as a position: the first quiz with that id. */
  function FindQuiz(quizzes: seq<Quiz>, id: int): (r: Option<nat>)
    ensures r.Some? ==> r.value < |quizzes| && quizzes[r.value].id == id
    ensures r.Some? ==> forall j :: 0 <= j < r.value ==> quizzes[j].id != id
    ensures r.None? <==> forall q :: q in quizzes ==> q.id != id
  {
    FirstIndex(quizzes, (q: Quiz) => q.id == id)
  }

  function QuizIds(quizzes: seq<Quiz>): set<int>
  {
    set q | q in quizzes :: q.id
  }

  function StudentIds(students: seq<Student>): set<int>
  {
    set s | s in students :: s.id
  }
}
