/**
 * Grading a submission (server.js lines 180-188): every question is worth
 * `question.points || 1`, and it is earned when the answer at the question's
 * position is strictly equal to the option at `correctAnswerIndex`.
 */
module Scoring {
  import opened Wrappers
  import opened Records

  /** `question.points || 1`: a missing or zero points value counts as one point. */
  function PointsOf(q: Question): (p: int)
    ensures p != 0
    ensures q.points.None? ==> p == 1
    ensures q.points.Some? && q.points.value != 0 ==> p == q.points.value
    ensures q.points == Some(0) ==> p == 1
  {
    if q.points.Some? && q.points.value != 0 then q.points.value else 1
  }

  /** `answers[index]`, which is `undefined` past the end of the array. */
  function AnswerAt(answers: seq<string>, index: nat): (a: Option<string>)
    ensures a.Some? <==> index < |answers|
    ensures a.Some? ==> a.value == answers[index]
  {
    if index < |answers| then Some(answers[index]) else None
  }

  /** `question.options[question.correctAnswerIndex]`, `undefined` when the index is missing or out of range. */
  function CorrectOption(q: Question): (c: Option<string>)
    ensures c.Some? <==> q.correctAnswerIndex.Some? && 0 <= q.correctAnswerIndex.value < |q.options|
    ensures c.Some? ==> c.value == q.options[q.correctAnswerIndex.value]
  {
    match q.correctAnswerIndex
    case Some(k) => if 0 <= k < |q.options| then Some(q.options[k]) else None
    case None => None
  }

  /** Line 185 with `===`, where `undefined === undefined` holds. */
  predicate AnsweredCorrectly(q: Question, answers: seq<string>, index: nat): (ok: bool)
    ensures ok <==>
      if index < |answers| then CorrectOption(q) == Some(answers[index])
      else CorrectOption(q).None?
  {
    AnswerAt(answers, index) == CorrectOption(q)
  }

  /** `totalPossibleScore` for the questions `qs`: the sum of their points. */
  function Possible(qs: seq<Question>): int
  {
    if qs == [] then 0 else Possible(qs[..|qs| - 1]) + PointsOf(qs[|qs| - 1])
  }

  /** `score` for the questions `qs`: the points of those answered correctly. */
  function Earned(qs: seq<Question>, answers: seq<string>): int
  {
    if qs == [] then 0
    else
      var last := |qs| - 1;
      Earned(qs[..last], answers) + (if AnsweredCorrectly(qs[last], answers, last) then PointsOf(qs[last]) else 0)
  }

  /** The `forEach` loop of lines 182-188. */
  method Grade(qs: seq<Question>, answers: seq<string>) returns (score: int, totalPossibleScore: int)
    ensures score == Earned(qs, answers)
    ensures totalPossibleScore == Possible(qs)
  {
    score, totalPossibleScore := 0, 0;
    var index := 0;
    while index < |qs|
      invariant 0 <= index <= |qs|
      invariant score == Earned(qs[..index], answers)
      invariant totalPossibleScore == Possible(qs[..index])
    {
      assert qs[..index + 1][..index] == qs[..index];
      var question := qs[index];
      totalPossibleScore := totalPossibleScore + PointsOf(question);
      if AnswerAt(answers, index) == CorrectOption(question) {
        score := score + PointsOf(question);
      }
      index := index + 1;
    }
    assert qs[..index] == qs;
  }

  /** No question carries a negative `points` value. */
  predicate NonNegativePoints(qs: seq<Question>)
  {
    forall i :: 0 <= i < |qs| ==> qs[i].points.None? || qs[i].points.value >= 0
  }

  /** With non-negative points the score lies between 0 and `totalPossibleScore`. */
  lemma {:induction false} ScoreWithinTotal(qs: seq<Question>, answers: seq<string>)
    requires NonNegativePoints(qs)
    ensures 0 <= Earned(qs, answers) <= Possible(qs)
  {
    if qs != [] {
      var last := |qs| - 1;
      assert NonNegativePoints(qs[..last]);
      ScoreWithinTotal(qs[..last], answers);
    }
  }

  /** With non-negative points every question is worth at least one point. */
  lemma {:induction false} TotalAtLeastQuestionCount(qs: seq<Question>)
    requires NonNegativePoints(qs)
    ensures Possible(qs) >= |qs|
  {
    if qs != [] {
      var last := |qs| - 1;
      assert NonNegativePoints(qs[..last]);
      TotalAtLeastQuestionCount(qs[..last]);
    }
  }

  /** Answering every question correctly earns the full `totalPossibleScore`. */
  lemma {:induction false} AllCorrectFullMarks(qs: seq<Question>, answers: seq<string>)
    requires forall i :: 0 <= i < |qs| ==> AnsweredCorrectly(qs[i], answers, i)
    ensures Earned(qs, answers) == Possible(qs)
  {
    if qs != [] {
      var last := |qs| - 1;
      AllCorrectFullMarks(qs[..last], answers);
    }
  }

  /** Answering nothing correctly scores 0, whatever the points. */
  lemma {:induction false} NoneCorrectScoresZero(qs: seq<Question>, answers: seq<string>)
    requires forall i :: 0 <= i < |qs| ==> !AnsweredCorrectly(qs[i], answers, i)
    ensures Earned(qs, answers) == 0
  {
    if qs != [] {
      var last := |qs| - 1;
      NoneCorrectScoresZero(qs[..last], answers);
    }
  }

  /**
   * A question whose correct option is missing (no index, or an index outside
   * `options`) is credited to a submission that leaves it unanswered.
   */
  lemma UnansweredMatchesMissingOption(q: Question, answers: seq<string>, index: nat)
    requires CorrectOption(q).None? && index >= |answers|
    ensures AnsweredCorrectly(q, answers, index)
  {
  }

  /**
   * Nothing validates `points`: a single wrongly answered question worth -5
   * gives a score of 0 against a `totalPossibleScore` of -5.
   */
  lemma NegativePointsExceedTotal()
    ensures var qs := [Question("2 + 2?", ["4"], Some(0), Some(-5))];
            Earned(qs, ["5"]) == 0 && Possible(qs) == -5
  {
    var qs := [Question("2 + 2?", ["4"], Some(0), Some(-5))];
    assert qs[..0] == [];
  }
}
