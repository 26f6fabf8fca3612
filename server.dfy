/**
 * The quiz and results handlers of server.js as methods of one store object.
 * `students` and `teachers` are never reassigned; `quizzes` and `quizResults`
 * are the module-level arrays the handlers push to, filter and update.
 */
module QuizServer {
  import opened Wrappers
  import opened Seqs
  import opened Records
  import opened Scoring
  import opened Availability
  import opened Leaderboard
  import Accounts

  const INVALID_QUIZ := "Invalid quiz data. Teacher ID is required."
  const QUIZ_CREATED := "Quiz created successfully!"
  const QUIZ_DELETED := "Quiz deleted successfully."
  const QUIZ_NOT_FOUND_ON_DELETE := "Quiz not found."
  const QUIZ_ENDED := "Quiz ended successfully"
  const QUIZ_NOT_FOUND := "Quiz not found"
  const QUIZ_OR_STUDENT_NOT_FOUND := "Quiz or student not found."
  const QUIZ_SUBMITTED := "Quiz submitted successfully!"

  /** The check of line 79: a title, a question list and a teacher id are present. */
  predicate WellFormedDraft(d: QuizDraft)
  {
    d.title != "" && d.questions.Some? && d.teacherId != 0
  }

  /**
   * `{ id: Date.now(), ...quizData, isActive: true, createdOn: now }`: the spread
   * comes after `id`, so an id in the request replaces the clock value.
   */
  function NewQuiz(d: QuizDraft, clock: int, now: int): (q: Quiz)
    requires d.questions.Some?
    ensures q.isActive && q.createdOn == now
    ensures q.id == (if d.id.Some? then d.id.value else clock)
    ensures q.title == d.title && q.subject == d.subject && q.teacherId == d.teacherId
    ensures q.startTime == d.startTime && q.endTime == d.endTime
    ensures q.questions == d.questions.value
  {
    Quiz(d.id.GetOr(clock), d.title, d.subject, d.teacherId, d.startTime, d.endTime, true, now, d.questions.value)
  }

  /** `quizzes.filter(q => q.id !== quizId)` */
  function WithoutQuiz(quizzes: seq<Quiz>, quizId: int): (r: seq<Quiz>)
    ensures forall q :: q in r <==> q in quizzes && q.id != quizId
  {
    Filter(quizzes, (q: Quiz) => q.id != quizId)
  }

  /** `quizResults.filter(r => r.quizId !== quizId)` */
  function WithoutResultsFor(results: seq<QuizResult>, quizId: int): (r: seq<QuizResult>)
    ensures forall res :: res in r <==> res in results && res.quizId != quizId
  {
    Filter(results, (res: QuizResult) => res.quizId != quizId)
  }

  /** `quizResults.filter(r => r.quizId === quiz.id)` (line 90) */
  function ResultsFor(results: seq<QuizResult>, quizId: int): (r: seq<QuizResult>)
    ensures forall res :: res in r <==> res in results && res.quizId == quizId
  {
    Filter(results, (res: QuizResult) => res.quizId == quizId)
  }

  /** The number of attempts shown for a quiz. */
  function Attempts(results: seq<QuizResult>, quizId: int): nat
  {
    |ResultsFor(results, quizId)|
  }

  /** Lines 117-118: the quiz is switched off and closes now; nothing else about it changes. */
  function Ended(q: Quiz, now: int): (e: Quiz)
    ensures !e.isActive && e.endTime == Some(now)
    ensures e.(isActive := q.isActive, endTime := q.endTime) == q
  {
    q.(isActive := false, endTime := Some(now))
  }

  /** An ended quiz is offered to no student at any time. */
  lemma EndedNotOffered(q: Quiz, now: int, completed: seq<int>, later: int)
    ensures !IsAvailable(Ended(q, now), completed, later)
  {
  }

  /** Line 79 tests presence, not content: an empty question list is truthy and passes. */
  lemma EmptyQuestionListAccepted(d: QuizDraft)
    requires d.title != "" && d.teacherId != 0 && d.questions == Some([])
    ensures WellFormedDraft(d)
    ensures NewQuiz(d, 0, 0).questions == []
  {
  }

  /** Deleting a quiz removes exactly its attempts from the results. */
  lemma {:induction false} DeleteRemovesAttempts(results: seq<QuizResult>, quizId: int)
    ensures |WithoutResultsFor(results, quizId)| == |results| - Attempts(results, quizId)
  {
    if results != [] {
      DeleteRemovesAttempts(results[1..], quizId);
    }
  }

  /** A new result adds one attempt to its quiz and none to any other. */
  lemma SubmitAddsOneAttempt(results: seq<QuizResult>, res: QuizResult, quizId: int)
    ensures Attempts(results + [res], quizId) == Attempts(results, quizId) + (if res.quizId == quizId then 1 else 0)
  {
    FilterConcat(results, [res], (r: QuizResult) => r.quizId == quizId);
    assert [res][1..] == [];
  }

  class Server {
    const students: seq<Student>
    const teachers: seq<Teacher>
    var quizzes: seq<Quiz>
    var quizResults: seq<QuizResult>

    /**
     * Every stored result names a stored quiz and a known student: submission
     * checks both, and deleting a quiz deletes its results with it (line 103).
     */
    ghost predicate Valid()
      reads this
    {
      forall r :: r in quizResults ==> r.quizId in QuizIds(quizzes) && r.studentId in StudentIds(students)
    }

    /** The store at start-up: the seeded tables and no results. */
    constructor (students: seq<Student>, teachers: seq<Teacher>, quizzes: seq<Quiz>)
      ensures Valid()
      ensures this.students == students && this.teachers == teachers
      ensures this.quizzes == quizzes && quizResults == []
    {
      this.students := students;
      this.teachers := teachers;
      this.quizzes := quizzes;
      quizResults := [];
    }

    /** `POST /api/quizzes` (lines 77-86). */
    method CreateQuiz(draft: QuizDraft, clock: int, now: int) returns (r: Response)
      requires Valid()
      modifies this
      ensures Valid()
      ensures quizResults == old(quizResults)
      ensures !WellFormedDraft(draft) ==> r == Response(400, Message(INVALID_QUIZ)) && quizzes == old(quizzes)
      ensures WellFormedDraft(draft) ==>
        quizzes == old(quizzes) + [NewQuiz(draft, clock, now)]
        && r == Response(201, QuizWithMessage(QUIZ_CREATED, NewQuiz(draft, clock, now)))
    {
      if !WellFormedDraft(draft) {
        return Response(400, Message(INVALID_QUIZ));
      }
      var newQuiz := NewQuiz(draft, clock, now);
      quizzes := quizzes + [newQuiz];
      r := Response(201, QuizWithMessage(QUIZ_CREATED, newQuiz));
      assert QuizIds(old(quizzes)) <= QuizIds(quizzes) by {
        forall q | q in old(quizzes) ensures q in quizzes { }
      }
    }

    /** `GET /api/quizzes/all` (lines 88-97), without the average score. */
    method AllQuizzes() returns (r: Response)
      ensures r.status == 200 && r.body.QuizStatsList?
      ensures |r.body.stats| == |quizzes|
      ensures forall i :: 0 <= i < |quizzes| ==>
        r.body.stats[i].quiz == quizzes[i]
        && r.body.stats[i].attempts == |ResultsFor(quizResults, quizzes[i].id)|
    {
      var qs, rs := quizzes, quizResults;
      var stats := seq(|qs|, i requires 0 <= i < |qs| => QuizStats(qs[i], Attempts(rs, qs[i].id)));
      r := Response(200, QuizStatsList(stats));
    }

    /** `DELETE /api/quizzes/:id` (lines 99-111). */
    method DeleteQuiz(id: int) returns (r: Response)
      requires Valid()
      modifies this
      ensures Valid()
      ensures quizzes == WithoutQuiz(old(quizzes), id)
      ensures quizResults == WithoutResultsFor(old(quizResults), id)
      ensures r.status == 200 <==> |quizzes| < |old(quizzes)|
      ensures r.status == 200 <==> exists q :: q in old(quizzes) && q.id == id
      ensures r == Response(200, Message(QUIZ_DELETED)) || r == Response(404, Message(QUIZ_NOT_FOUND_ON_DELETE))
    {
      var initialLength := |quizzes|;
      FilterKeepsAll(quizzes, (q: Quiz) => q.id != id);
      quizzes := WithoutQuiz(quizzes, id);
      quizResults := WithoutResultsFor(quizResults, id);
      if |quizzes| < initialLength {
        r := Response(200, Message(QUIZ_DELETED));
      } else {
        r := Response(404, Message(QUIZ_NOT_FOUND_ON_DELETE));
      }
      forall res | res in quizResults ensures res.quizId in QuizIds(quizzes) {
        var q :| q in old(quizzes) && q.id == res.quizId;
        assert q in quizzes;
      }
    }

    /** `PATCH /api/quizzes/:id/end` (lines 113-124): only the first quiz with that id is ended. */
    method EndQuiz(id: int, now: int) returns (r: Response)
      requires Valid()
      modifies this
      ensures Valid()
      ensures quizResults == old(quizResults)
      ensures FindQuiz(old(quizzes), id).None? ==>
        quizzes == old(quizzes) && r == Response(404, Message(QUIZ_NOT_FOUND))
      ensures FindQuiz(old(quizzes), id).Some? ==>
        var i := FindQuiz(old(quizzes), id).value;
        |quizzes| == |old(quizzes)|
        && !quizzes[i].isActive && quizzes[i].endTime == Some(now)
        && quizzes[i] == Ended(old(quizzes)[i], now)
        && (forall j :: 0 <= j < |quizzes| && j != i ==> quizzes[j] == old(quizzes)[j])
        && r == Response(200, QuizWithMessage(QUIZ_ENDED, quizzes[i]))
    {
      match FindQuiz(quizzes, id)
      case None =>
        r := Response(404, Message(QUIZ_NOT_FOUND));
      case Some(i) =>
        var ended := Ended(quizzes[i], now);
        quizzes := quizzes[i := ended];
        r := Response(200, QuizWithMessage(QUIZ_ENDED, ended));
        forall res | res in quizResults ensures res.quizId in QuizIds(quizzes) {
          var q :| q in old(quizzes) && q.id == res.quizId;
          var k :| 0 <= k < |old(quizzes)| && old(quizzes)[k] == q;
          assert quizzes[k].id == q.id;
        }
    }

    /** `GET /api/quizzes?studentId=` (lines 128-158). */
    method QuizzesFor(studentId: int, now: int) returns (r: Response)
      ensures (forall s :: s in students ==> s.id != studentId) ==> r == Response(404, Message(Accounts.STUDENT_NOT_FOUND))
      ensures (exists s :: s in students && s.id == studentId) ==> r.status == 200 && r.body.QuizList?
      ensures r.status == 200 ==>
        r.body.QuizList? &&
        var list := r.body.quizzes;
        && (forall q :: q in list <==>
              q in quizzes && q.isActive && InWindow(q, now)
              && !(exists res :: res in quizResults && res.studentId == studentId && res.quizId == q.id))
        && (forall i, j :: 0 <= i < j < |list| ==> list[i].createdOn >= list[j].createdOn)
        && list == AvailableQuizzes(quizzes, quizResults, studentId, now)
    {
      if FindStudent(students, studentId).None? {
        return Response(404, Message(Accounts.STUDENT_NOT_FOUND));
      }
      r := Response(200, QuizList(AvailableQuizzes(quizzes, quizResults, studentId, now)));
    }

    /** `GET /api/quizzes/:id` (lines 160-170): the first quiz with that id, without its answer key. */
    method QuizForStudent(id: int) returns (r: Response)
      ensures FindQuiz(quizzes, id).None? ==> r == Response(404, Message(QUIZ_NOT_FOUND))
      ensures FindQuiz(quizzes, id).Some? ==>
        r.status == 200 && r.body.QuizBody? && r.body.quiz == StudentView(quizzes[FindQuiz(quizzes, id).value])
      ensures r.status == 200 ==>
        r.body.QuizBody? && forall q :: q in r.body.quiz.questions ==> q.correctAnswerIndex.None?
    {
      match FindQuiz(quizzes, id)
      case None =>
        r := Response(404, Message(QUIZ_NOT_FOUND));
      case Some(i) =>
        r := Response(200, QuizBody(StudentView(quizzes[i])));
    }

    /** `POST /api/quizzes/submit` (lines 174-204). */
    method Submit(quizId: int, studentId: int, answers: seq<string>, timeTaken: int, now: int) returns (r: Response)
      requires Valid()
      modifies this
      ensures Valid()
      ensures quizzes == old(quizzes)
      ensures FindQuiz(quizzes, quizId).None? || FindStudent(students, studentId).None? ==>
        r == Response(404, Message(QUIZ_OR_STUDENT_NOT_FOUND)) && quizResults == old(quizResults)
      ensures FindQuiz(quizzes, quizId).Some? && FindStudent(students, studentId).Some? ==>
        var quiz := quizzes[FindQuiz(quizzes, quizId).value];
        var student := students[FindStudent(students, studentId).value];
        r.status == 201 && r.body.ResultWithMessage? && r.body.message == QUIZ_SUBMITTED
        && quizResults == old(quizResults) + [r.body.result]
        && r.body.result == QuizResult(quizId, studentId, student.name,
                                       Earned(quiz.questions, answers), |quiz.questions|, Possible(quiz.questions),
                                       quiz.title, timeTaken, now)
    {
      var qi := FindQuiz(quizzes, quizId);
      var si := FindStudent(students, studentId);
      if qi.None? || si.None? {
        return Response(404, Message(QUIZ_OR_STUDENT_NOT_FOUND));
      }
      var quiz, student := quizzes[qi.value], students[si.value];
      var score, totalPossibleScore := Grade(quiz.questions, answers);
      var newResult := QuizResult(quizId, studentId, student.name, score, |quiz.questions|,
                                  totalPossibleScore, quiz.title, timeTaken, now);
      quizResults := quizResults + [newResult];
      r := Response(201, ResultWithMessage(QUIZ_SUBMITTED, newResult));
      assert quiz in quizzes && student in students;
    }

    /** `GET /api/students/:id/results` (lines 206-210). */
    method ResultsOf(studentId: int) returns (r: Response)
      ensures r.status == 200 && r.body.ResultList?
      ensures forall res :: res in r.body.results <==> res in quizResults && res.studentId == studentId
      ensures r.body.results == StudentResults(quizResults, studentId)
    {
      r := Response(200, ResultList(StudentResults(quizResults, studentId)));
    }

    /** `GET /api/leaderboard` (lines 212-229). */
    method GetLeaderboard() returns (r: Response)
      ensures r.status == 200 && r.body.StandingList?
      ensures var board := r.body.standings;
        && (forall id :: id in Players(quizResults) <==> exists i :: 0 <= i < |board| && board[i].studentId == id)
        && (forall i, j :: 0 <= i < j < |board| ==> board[i].studentId != board[j].studentId)
        && (forall i :: 0 <= i < |board| ==>
              board[i].studentId in Players(quizResults) && board[i] == Entry(quizResults, board[i].studentId))
        && (forall i, j :: 0 <= i < j < |board| ==>
              board[i].points > board[j].points
              || (board[i].points == board[j].points && board[i].totalTimeTaken <= board[j].totalTimeTaken))
        && (forall i, j :: 0 <= i < j < |board| ==>
              board[i].points == board[j].points && board[i].totalTimeTaken == board[j].totalTimeTaken
              ==> board[i].studentId < board[j].studentId)
      ensures Valid() ==> forall i :: 0 <= i < |r.body.standings| ==> r.body.standings[i].studentId in StudentIds(students)
    {
      var board := Ranking(quizResults);
      r := Response(200, StandingList(board));
    }
  }
}
