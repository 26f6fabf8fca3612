/**
 * A student's results and the leaderboard (server.js lines 206-229). The
 * leaderboard folds `quizResults` into `playerStats`, keyed by student id,
 * then sorts `Object.values(playerStats)` by points (descending) and total
 * time (ascending). The keys are array-index keys, so `Object.values` lists them
 * in ascending numeric order, and the stable sort leaves entries tied on
 * both points and time in ascending student id order.
 */
module Leaderboard {
  import opened Seqs
  import opened StableSort
  import opened Records
  import opened OrderedKeys

  /** The student ids that occur in `results`. */
  function Players(results: seq<QuizResult>): set<int>
  {
    set r | r in results :: r.studentId
  }

  /** The sum of the scores of `studentId`'s results. */
  function TotalScore(results: seq<QuizResult>, studentId: int): int
  {
    if results == [] then 0
    else
      var last := results[|results| - 1];
      TotalScore(results[..|results| - 1], studentId) + (if last.studentId == studentId then last.score else 0)
  }

  /** The sum of the `timeTaken` values of `studentId`'s results. */
  function TotalTime(results: seq<QuizResult>, studentId: int): int
  {
    if results == [] then 0
    else
      var last := results[|results| - 1];
      TotalTime(results[..|results| - 1], studentId) + (if last.studentId == studentId then last.timeTaken else 0)
  }

  /** The `studentName` of `studentId`'s first result. */
  function FirstName(results: seq<QuizResult>, studentId: int): string
    requires studentId in Players(results)
  {
    if results[0].studentId == studentId then results[0].studentName
    else
      assert results[0] in results;
      assert exists r :: r in results[1..] && r.studentId == studentId by {
        var r :| r in results && r.studentId == studentId;
        assert r in results[1..];
      }
      FirstName(results[1..], studentId)
  }

  /** The `playerStats` entry of `studentId` once every result has been folded in. */
  function Entry(results: seq<QuizResult>, studentId: int): (e: Standing)
    requires studentId in Players(results)
  {
    Standing(studentId, FirstName(results, studentId), TotalScore(results, studentId), TotalTime(results, studentId))
  }

  /** What `playerStats` holds once every result has been folded in. */
  function Tally(results: seq<QuizResult>): (m: map<int, Standing>)
    ensures m.Keys == Players(results)
    ensures forall id :: id in m ==> m[id].studentId == id
  {
    map id | id in Players(results) :: Entry(results, id)
  }

  lemma {:induction false} FirstNameExtend(results: seq<QuizResult>, r: QuizResult, studentId: int)
    requires studentId in Players(results + [r])
    ensures studentId in Players(results) ==> FirstName(results + [r], studentId) == FirstName(results, studentId)
    ensures studentId !in Players(results) ==> FirstName(results + [r], studentId) == r.studentName
  {
    if results == [] {
      assert results + [r] == [r];
    } else {
      assert (results + [r])[1..] == results[1..] + [r];
      assert (results + [r])[0] == results[0];
      if results[0].studentId != studentId {
        assert Players(results) == {results[0].studentId} + Players(results[1..]) by {
          assert results == [results[0]] + results[1..];
        }
        assert Players(results + [r]) == {results[0].studentId} + Players(results[1..] + [r]) by {
          assert results + [r] == [results[0]] + (results[1..] + [r]);
        }
        FirstNameExtend(results[1..], r, studentId);
      }
    }
  }

  /** A student without results has no points and no time. */
  lemma {:induction false} NotPlayerTotalsZero(results: seq<QuizResult>, studentId: int)
    requires studentId !in Players(results)
    ensures TotalScore(results, studentId) == 0 && TotalTime(results, studentId) == 0
  {
    if results != [] {
      var init := results[..|results| - 1];
      assert Players(init) <= Players(results) by {
        forall x | x in init ensures x in results { }
      }
      assert results[|results| - 1] in results;
      NotPlayerTotalsZero(init, studentId);
    }
  }

  /**
   * Folding in one more result: the entry is created with 0 points and 0 time
   * when missing (line 215), then the score and time are added (lines 218-219);
   * other entries do not change.
   */
  lemma EntryExtend(results: seq<QuizResult>, r: QuizResult, studentId: int)
    requires studentId in Players(results + [r])
    ensures studentId != r.studentId ==>
      studentId in Players(results) && Entry(results + [r], studentId) == Entry(results, studentId)
    ensures studentId == r.studentId ==>
      var e := if studentId in Players(results) then Entry(results, studentId) else Standing(studentId, r.studentName, 0, 0);
      Entry(results + [r], studentId) == e.(points := e.points + r.score, totalTimeTaken := e.totalTimeTaken + r.timeTaken)
  {
    var rs := results + [r];
    assert rs[..|rs| - 1] == results;
    assert Players(rs) == Players(results) + {r.studentId} by {
      assert r in rs;
      assert forall x :: x in rs <==> x in results || x == r;
    }
    FirstNameExtend(results, r, studentId);
    if studentId !in Players(results) {
      NotPlayerTotalsZero(results, studentId);
    }
  }

  /**
   * The `forEach` loop of lines 214-220. `keys` lists the keys of `playerStats`
   * in the order they were added.
   */
  method CollectStats(results: seq<QuizResult>) returns (playerStats: map<int, Standing>, keys: seq<int>)
    ensures playerStats == Tally(results)
    ensures forall k :: k in keys <==> k in playerStats
  {
    playerStats, keys := map[], [];
    var i := 0;
    while i < |results|
      invariant 0 <= i <= |results|
      invariant playerStats.Keys == Players(results[..i])
      invariant forall id :: id in playerStats ==> id in Players(results[..i]) && playerStats[id] == Entry(results[..i], id)
      invariant forall k :: k in keys <==> k in playerStats
    {
      var result := results[i];
      ghost var prefix := results[..i];
      assert results[..i + 1] == prefix + [result];
      if result.studentId !in playerStats {
        playerStats := playerStats[result.studentId := Standing(result.studentId, result.studentName, 0, 0)];
        keys := keys + [result.studentId];
      }
      var entry := playerStats[result.studentId];
      playerStats := playerStats[result.studentId := entry.(points := entry.points + result.score,
                                                           totalTimeTaken := entry.totalTimeTaken + result.timeTaken)];
      assert Players(prefix + [result]) == Players(prefix) + {result.studentId} by {
        assert result in prefix + [result];
        assert forall x :: x in prefix + [result] <==> x in prefix || x == result;
      }
      forall id | id in playerStats
        ensures id in Players(prefix + [result]) && playerStats[id] == Entry(prefix + [result], id)
      {
        EntryExtend(prefix, result, id);
      }
      i := i + 1;
    }
    assert results[..i] == results;
  }

  /** `Object.values(playerStats)`, where `keys` are the keys in the order they were added. */
  function ObjectValues(playerStats: map<int, Standing>, keys: seq<int>): (r: seq<Standing>)
    requires forall k :: k in keys <==> k in playerStats
    ensures |r| == |AscendingKeys(keys)|
    ensures forall i :: 0 <= i < |r| ==>
      var k := AscendingKeys(keys)[i];
      k in AscendingKeys(keys) && k in playerStats && r[i] == playerStats[k]
  {
    var ordered := AscendingKeys(keys);
    seq(|ordered|, i requires 0 <= i < |ordered| => playerStats[ordered[i]])
  }

  /** The comparator of lines 222-227: more points first, then less total time. */
  function PointsThenTime(s: Standing): (int, int)
  {
    (-s.points, s.totalTimeTaken)
  }

  /** The comparator of lines 222-227, as JavaScript computes it. */
  function Comparator(a: Standing, b: Standing): int
  {
    if b.points != a.points then b.points - a.points else a.totalTimeTaken - b.totalTimeTaken
  }

  /**
   * Ranking by `PointsThenTime` agrees with the comparator: `a` may precede
   * `b` exactly when the comparator is at most 0, and the two tie exactly when it is 0.
   */
  lemma PointsThenTimeIsComparator(a: Standing, b: Standing)
    ensures RankLeq(PointsThenTime(a), PointsThenTime(b)) <==> Comparator(a, b) <= 0
    ensures PointsThenTime(a) == PointsThenTime(b) <==> Comparator(a, b) == 0
  {
  }

  function StudentIdOf(s: Standing): int
  {
    s.studentId
  }

  /** The values of `Tally(results)` come out of `Object.values` in ascending student id order, each once. */
  lemma ObjectValuesOfTally(results: seq<QuizResult>, keys: seq<int>)
    requires forall k :: k in keys <==> k in Tally(results)
    ensures var values := ObjectValues(Tally(results), keys);
      && (forall i, j :: 0 <= i < j < |values| ==> StudentIdOf(values[i]) < StudentIdOf(values[j]))
      && (forall i :: 0 <= i < |values| ==> values[i].studentId in Players(results)
                                            && values[i] == Entry(results, values[i].studentId))
      && (forall id :: id in Players(results) ==> exists i :: 0 <= i < |values| && values[i].studentId == id)
  {
    var m := Tally(results);
    var ordered := AscendingKeys(keys);
    var values := ObjectValues(m, keys);
    forall i | 0 <= i < |values| ensures values[i].studentId == ordered[i] {
      assert ordered[i] in ordered;
    }
    forall id | id in Players(results) ensures exists i :: 0 <= i < |values| && values[i].studentId == id {
      assert id in ordered;
      var i :| 0 <= i < |ordered| && ordered[i] == id;
      assert values[i].studentId == id;
    }
  }

  /** In a list whose student ids strictly increase, an entry occurs at most once. */
  lemma {:induction false} DistinctCountsOnce(s: seq<Standing>, x: Standing)
    requires forall i, j :: 0 <= i < j < |s| ==> StudentIdOf(s[i]) < StudentIdOf(s[j])
    ensures multiset(s)[x] <= 1
  {
    if s != [] {
      assert s == [s[0]] + s[1..];
      DistinctCountsOnce(s[1..], x);
      if s[0] == x {
        assert x !in s[1..];
      }
    }
  }

  /** A permutation of a list with strictly increasing student ids has each student id once. */
  lemma PermutationKeepsIdsDistinct(values: seq<Standing>, board: seq<Standing>)
    requires multiset(board) == multiset(values)
    requires forall i, j :: 0 <= i < j < |values| ==> StudentIdOf(values[i]) < StudentIdOf(values[j])
    ensures forall i, j :: 0 <= i < j < |board| ==> board[i].studentId != board[j].studentId
  {
    forall i, j | 0 <= i < j < |board| ensures board[i].studentId != board[j].studentId {
      if board[i].studentId == board[j].studentId {
        assert board[i] in multiset(values) && board[j] in multiset(values);
        var a :| 0 <= a < |values| && values[a] == board[i];
        var b :| 0 <= b < |values| && values[b] == board[j];
        assert board[i] == board[j];
        assert multiset(board)[board[i]] >= 2 by {
          assert board == board[..i] + [board[i]] + board[i + 1..j] + [board[j]] + board[j + 1..];
        }
        DistinctCountsOnce(values, board[i]);
        assert false;
      }
    }
  }

  /** The leaderboard for `results`, when `keys` lists the student ids in the order they were first seen. */
  function Standings(results: seq<QuizResult>, keys: seq<int>): seq<Standing>
    requires forall k :: k in keys <==> k in Tally(results)
  {
    Sort(ObjectValues(Tally(results), keys), PointsThenTime)
  }

  /** Every player has exactly one entry, and it holds their totals. */
  lemma StandingsCoverPlayers(results: seq<QuizResult>, keys: seq<int>)
    requires forall k :: k in keys <==> k in Tally(results)
    ensures var board := Standings(results, keys);
      && (forall id :: id in Players(results) <==> exists i :: 0 <= i < |board| && board[i].studentId == id)
      && (forall i, j :: 0 <= i < j < |board| ==> board[i].studentId != board[j].studentId)
      && (forall i :: 0 <= i < |board| ==>
            board[i].studentId in Players(results) && board[i] == Entry(results, board[i].studentId))
  {
    var values := ObjectValues(Tally(results), keys);
    var board := Standings(results, keys);
    ObjectValuesOfTally(results, keys);
    PermutationKeepsIdsDistinct(values, board);
    PermutationKeepsEntries(results, values, board);
  }

  /** Entries tied on points and time are in ascending student id order. */
  lemma StandingsTiesById(results: seq<QuizResult>, keys: seq<int>)
    requires forall k :: k in keys <==> k in Tally(results)
    ensures var board := Standings(results, keys);
      forall i, j :: 0 <= i < j < |board| ==>
        board[i].points == board[j].points && board[i].totalTimeTaken == board[j].totalTimeTaken
        ==> board[i].studentId < board[j].studentId
  {
    var values := ObjectValues(Tally(results), keys);
    ObjectValuesOfTally(results, keys);
    SortTiesFollowInput(values, PointsThenTime, StudentIdOf);
    var board := Standings(results, keys);
    assert TiesOrderedBy(board, PointsThenTime, StudentIdOf);
  }

  /** `GET /api/leaderboard`: the sorted values of `playerStats`. */
  method Ranking(results: seq<QuizResult>) returns (board: seq<Standing>)
    ensures forall id :: id in Players(results) <==> exists i :: 0 <= i < |board| && board[i].studentId == id
    ensures forall i, j :: 0 <= i < j < |board| ==> board[i].studentId != board[j].studentId
    ensures forall i :: 0 <= i < |board| ==>
      board[i].studentId in Players(results) && board[i] == Entry(results, board[i].studentId)
    ensures forall i, j :: 0 <= i < j < |board| ==>
      board[i].points > board[j].points
      || (board[i].points == board[j].points && board[i].totalTimeTaken <= board[j].totalTimeTaken)
    ensures forall i, j :: 0 <= i < j < |board| ==>
      board[i].points == board[j].points && board[i].totalTimeTaken == board[j].totalTimeTaken
      ==> board[i].studentId < board[j].studentId
  {
    var playerStats, keys := CollectStats(results);
    board := Sort(ObjectValues(playerStats, keys), PointsThenTime);
    assert board == Standings(results, keys);
    StandingsCoverPlayers(results, keys);
    StandingsTiesById(results, keys);
    assert forall i, j :: 0 <= i < j < |board| ==> RankLeq(PointsThenTime(board[i]), PointsThenTime(board[j]));
  }

  /** A permutation of the entries of `Tally(results)` holds the same entries, each for a player. */
  lemma PermutationKeepsEntries(results: seq<QuizResult>, values: seq<Standing>, board: seq<Standing>)
    requires multiset(board) == multiset(values)
    requires forall i :: 0 <= i < |values| ==>
      values[i].studentId in Players(results) && values[i] == Entry(results, values[i].studentId)
    requires forall id :: id in Players(results) ==> exists i :: 0 <= i < |values| && values[i].studentId == id
    ensures forall i :: 0 <= i < |board| ==>
      board[i].studentId in Players(results) && board[i] == Entry(results, board[i].studentId)
    ensures forall id :: id in Players(results) ==> exists i :: 0 <= i < |board| && board[i].studentId == id
  {
    forall i | 0 <= i < |board|
      ensures board[i].studentId in Players(results) && board[i] == Entry(results, board[i].studentId)
    {
      assert board[i] in multiset(values);
      var k :| 0 <= k < |values| && values[k] == board[i];
    }
    forall id | id in Players(results)
      ensures exists i :: 0 <= i < |board| && board[i].studentId == id
    {
      var k :| 0 <= k < |values| && values[k].studentId == id;
      assert values[k] in multiset(board);
      var i :| 0 <= i < |board| && board[i] == values[k];
    }
  }

  /** `GET /api/students/:id/results`: that student's results, in the order stored. */
  function StudentResults(results: seq<QuizResult>, studentId: int): (r: seq<QuizResult>)
    ensures forall res :: res in r <==> res in results && res.studentId == studentId
  {
    Filter(results, (res: QuizResult) => res.studentId == studentId)
  }

  function SumScores(results: seq<QuizResult>): int
  {
    if results == [] then 0 else SumScores(results[..|results| - 1]) + results[|results| - 1].score
  }

  /** A student's leaderboard points are the sum of the scores on their results page. */
  lemma {:induction false} ResultsAddUpToPoints(results: seq<QuizResult>, studentId: int)
    ensures SumScores(StudentResults(results, studentId)) == TotalScore(results, studentId)
  {
    if results != [] {
      var init, last := results[..|results| - 1], results[|results| - 1];
      assert results == init + [last];
      FilterConcat(init, [last], (res: QuizResult) => res.studentId == studentId);
      ResultsAddUpToPoints(init, studentId);
      var kept := StudentResults(init, studentId);
      if last.studentId == studentId {
        assert StudentResults(results, studentId) == kept + [last];
        assert (kept + [last])[..|kept|] == kept;
      } else {
        assert StudentResults(results, studentId) == kept;
      }
    }
  }
}
