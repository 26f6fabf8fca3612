/**
 * The student-facing quiz endpoints: the quizzes a student may still take
 * (server.js lines 128-158) and a quiz with its answer key removed (lines
 * 160-170).
 */
module Availability {
  import opened Wrappers
  import opened Seqs
  import opened StableSort
  import opened Records

  /** `quizResults.filter(r => r.studentId === id).map(r => r.quizId)` */
  function CompletedQuizIds(results: seq<QuizResult>, studentId: int): (r: seq<int>)
    ensures |r| <= |results|
    ensures forall id :: id in r <==> exists res :: res in results && res.studentId == studentId && res.quizId == id
  {
    if results == [] then []
    else
      (if results[0].studentId == studentId then [results[0].quizId] else [])
      + CompletedQuizIds(results[1..], studentId)
  }

  /** A set `startTime`/`endTime` bounds the window; an absent one does not. */
  predicate InWindow(q: Quiz, now: int)
  {
    (q.startTime.None? || q.startTime.value <= now) && (q.endTime.None? || q.endTime.value >= now)
  }

  /** The predicate of lines 144-152. */
  predicate IsAvailable(q: Quiz, completed: seq<int>, now: int)
  {
    q.isActive && q.id !in completed && InWindow(q, now)
  }

  /** The quizzes the filter of lines 144-152 keeps, in store order. */
  function Eligible(quizzes: seq<Quiz>, completed: seq<int>, now: int): (r: seq<Quiz>)
    ensures forall q :: q in r <==> q in quizzes && IsAvailable(q, completed, now)
  {
    Filter(quizzes, (q: Quiz) => IsAvailable(q, completed, now))
  }

  /** The comparator of line 155, `b.createdOn - a.createdOn`: newest first. */
  function NewestFirst(q: Quiz): (int, int)
  {
    (-q.createdOn, 0)
  }

  /**
   * Ranking by `NewestFirst` agrees with the comparator: `a` may precede `b`
   * exactly when `b.createdOn - a.createdOn <= 0`, and the two tie exactly
   * when it is 0.
   */
  lemma NewestFirstIsComparator(a: Quiz, b: Quiz)
    ensures RankLeq(NewestFirst(a), NewestFirst(b)) <==> b.createdOn - a.createdOn <= 0
    ensures NewestFirst(a) == NewestFirst(b) <==> b.createdOn - a.createdOn == 0
  {
  }

  /** The list `GET /api/quizzes?studentId=` returns for a known student. */
  function AvailableQuizzes(quizzes: seq<Quiz>, results: seq<QuizResult>, studentId: int, now: int): (r: seq<Quiz>)
    ensures forall q :: q in r <==>
      q in quizzes && q.isActive && InWindow(q, now)
      && !(exists res :: res in results && res.studentId == studentId && res.quizId == q.id)
    ensures forall i, j :: 0 <= i < j < |r| ==> r[i].createdOn >= r[j].createdOn
    ensures multiset(r) == multiset(Eligible(quizzes, CompletedQuizIds(results, studentId), now))
  {
    var eligible := Eligible(quizzes, CompletedQuizIds(results, studentId), now);
    var r := Sort(eligible, NewestFirst);
    assert forall q :: q in r <==> q in eligible by {
      forall q ensures q in r <==> q in eligible {
        assert q in r <==> q in multiset(r);
      }
    }
    assert forall i, j :: 0 <= i < j < |r| ==> RankLeq(NewestFirst(r[i]), NewestFirst(r[j]));
    r
  }

  /** Quizzes created at the same instant are listed in store order (the sort is stable). */
  lemma SameCreationKeepsStoreOrder(quizzes: seq<Quiz>, results: seq<QuizResult>, studentId: int, now: int, createdOn: int)
    ensures WithRank(AvailableQuizzes(quizzes, results, studentId, now), NewestFirst, (-createdOn, 0))
         == WithRank(Eligible(quizzes, CompletedQuizIds(results, studentId), now), NewestFirst, (-createdOn, 0))
  {
    SortStable(Eligible(quizzes, CompletedQuizIds(results, studentId), now), NewestFirst, (-createdOn, 0));
  }

  /** After a result for `quizId` is stored, no quiz with that id is offered to that student. */
  lemma {:induction false} SubmittedQuizNotOffered(quizzes: seq<Quiz>, results: seq<QuizResult>, res: QuizResult, now: int)
    ensures forall q :: q in AvailableQuizzes(quizzes, results + [res], res.studentId, now) ==> q.id != res.quizId
  {
    assert res in results + [res];
  }

  /** `delete q.correctAnswerIndex` on one copied question. */
  function WithoutAnswer(q: Question): Question
  {
    q.(correctAnswerIndex := None)
  }

  /**
   * The deep copy of lines 164-165: every question loses `correctAnswerIndex`
   * and keeps its text, options and points; the quiz's own fields are kept.
   */
  function StudentView(quiz: Quiz): (v: Quiz)
    ensures v.(questions := []) == quiz.(questions := [])
    ensures |v.questions| == |quiz.questions|
    ensures forall i :: 0 <= i < |v.questions| ==>
      v.questions[i].correctAnswerIndex.None?
      && v.questions[i].(correctAnswerIndex := quiz.questions[i].correctAnswerIndex) == quiz.questions[i]
  {
    quiz.(questions := seq(|quiz.questions|, i requires 0 <= i < |quiz.questions| => WithoutAnswer(quiz.questions[i])))
  }

  /** The answer key the view removes: one entry per question. */
  function AnswerKey(quiz: Quiz): (key: seq<Option<int>>)
    ensures |key| == |quiz.questions|
  {
    seq(|quiz.questions|, i requires 0 <= i < |quiz.questions| => quiz.questions[i].correctAnswerIndex)
  }

  /** Puts an answer key back into a quiz with as many questions. */
  function WithAnswerKey(quiz: Quiz, key: seq<Option<int>>): Quiz
    requires |key| == |quiz.questions|
  {
    quiz.(questions := seq(|key|, i requires 0 <= i < |key| => quiz.questions[i].(correctAnswerIndex := key[i])))
  }

  /** The view loses exactly the answer key: putting it back gives the stored quiz. */
  lemma {:induction false} ViewLosesOnlyAnswerKey(quiz: Quiz)
    ensures WithAnswerKey(StudentView(quiz), AnswerKey(quiz)) == quiz
  {
    var back := WithAnswerKey(StudentView(quiz), AnswerKey(quiz));
    assert back.questions == quiz.questions;
  }

  /** Taking the view of a view changes nothing. */
  lemma {:induction false} ViewIdempotent(quiz: Quiz)
    ensures StudentView(StudentView(quiz)) == StudentView(quiz)
  {
    var v := StudentView(quiz);
    assert StudentView(v).questions == v.questions;
  }
}
