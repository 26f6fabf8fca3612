/**
 * `Array.prototype.sort` with a comparator, which ECMAScript requires to be
 * stable. Each comparator in the handlers compares a pair of integer keys
 * lexicographically, so a sort is described by a rank function and the
 * insertion sort below stands for the engine's algorithm: for a consistent
 * comparator every stable sort produces the same sequence.
 */
module StableSort {
  import opened Seqs

  /** The comparator's "a does not come after b": lexicographic order on rank pairs. */
  predicate RankLeq(a: (int, int), b: (int, int))
  {
    a.0 < b.0 || (a.0 == b.0 && a.1 <= b.1)
  }

  ghost predicate Sorted<T(!new)>(s: seq<T>, rank: T -> (int, int))
  {
    forall i, j :: 0 <= i < j < |s| ==> RankLeq(rank(s[i]), rank(s[j]))
  }

  /** Equal-rank elements of `s` are in strictly increasing `tb` order. */
  ghost predicate TiesOrderedBy<T(!new)>(s: seq<T>, rank: T -> (int, int), tb: T -> int)
  {
    forall i, j :: 0 <= i < j < |s| && rank(s[i]) == rank(s[j]) ==> tb(s[i]) < tb(s[j])
  }

  /** The elements of `s` whose rank is `k`, in their order in `s`. */
  function WithRank<T(!new)>(s: seq<T>, rank: T -> (int, int), k: (int, int)): seq<T>
  {
    Filter(s, x => rank(x) == k)
  }

  /**
   * Inserts `x` in front of the first element it does not come after, that is
   * after every element of strictly smaller rank and before its equals.
   */
  function Insert<T(!new)>(x: T, s: seq<T>, rank: T -> (int, int)): (r: seq<T>)
    requires Sorted(s, rank)
    ensures |r| == |s| + 1
    ensures multiset(r) == multiset(s) + multiset{x}
    ensures Sorted(r, rank)
  {
    if s == [] || RankLeq(rank(x), rank(s[0])) then [x] + s
    else
      var rest := Insert(x, s[1..], rank);
      assert s == [s[0]] + s[1..];
      PrependSorted(s[0], x, s[1..], rest, rank);
      [s[0]] + rest
  }

  /** Putting `a` in front keeps `rest` sorted when `a` ranks at most every element of it. */
  lemma PrependSorted<T(!new)>(a: T, x: T, t: seq<T>, rest: seq<T>, rank: T -> (int, int))
    requires Sorted(rest, rank)
    requires multiset(rest) == multiset(t) + multiset{x}
    requires RankLeq(rank(a), rank(x))
    requires forall i :: 0 <= i < |t| ==> RankLeq(rank(a), rank(t[i]))
    ensures Sorted([a] + rest, rank)
  {
    forall i | 0 <= i < |rest| ensures RankLeq(rank(a), rank(rest[i])) {
      assert rest[i] in multiset(rest);
      if rest[i] != x {
        assert rest[i] in t;
      }
    }
  }

  /** Insertion sort: a sorted permutation of `s`. */
  function Sort<T(!new)>(s: seq<T>, rank: T -> (int, int)): (r: seq<T>)
    ensures |r| == |s|
    ensures multiset(r) == multiset(s)
    ensures Sorted(r, rank)
  {
    if s == [] then []
    else
      assert s == [s[0]] + s[1..];
      Insert(s[0], Sort(s[1..], rank), rank)
  }

  lemma {:induction false} InsertStable<T(!new)>(x: T, s: seq<T>, rank: T -> (int, int), k: (int, int))
    requires Sorted(s, rank)
    ensures WithRank(Insert(x, s, rank), rank, k) == (if rank(x) == k then [x] else []) + WithRank(s, rank, k)
  {
    if s == [] || RankLeq(rank(x), rank(s[0])) {
      assert WithRank([x] + s, rank, k) == (if rank(x) == k then [x] else []) + WithRank(s, rank, k) by {
        assert ([x] + s)[1..] == s;
      }
    } else {
      var rest := Insert(x, s[1..], rank);
      InsertStable(x, s[1..], rank, k);
      assert ([s[0]] + rest)[1..] == rest;
      assert s == [s[0]] + s[1..];
    }
  }

  /** Stability: for every rank, the elements of that rank leave in the order they came in. */
  lemma {:induction false} SortStable<T(!new)>(s: seq<T>, rank: T -> (int, int), k: (int, int))
    ensures WithRank(Sort(s, rank), rank, k) == WithRank(s, rank, k)
  {
    if s != [] {
      SortStable(s[1..], rank, k);
      InsertStable(s[0], Sort(s[1..], rank), rank, k);
    }
  }

  lemma {:induction false} InsertTiesOrdered<T(!new)>(x: T, s: seq<T>, rank: T -> (int, int), tb: T -> int)
    requires Sorted(s, rank) && TiesOrderedBy(s, rank, tb)
    requires forall i :: 0 <= i < |s| ==> tb(x) < tb(s[i])
    ensures TiesOrderedBy(Insert(x, s, rank), rank, tb)
  {
    if s == [] || RankLeq(rank(x), rank(s[0])) {
    } else {
      var rest := Insert(x, s[1..], rank);
      InsertTiesOrdered(x, s[1..], rank, tb);
      var r := [s[0]] + rest;
      assert r == Insert(x, s, rank);
      forall j | 0 < j < |r| && rank(r[0]) == rank(r[j])
        ensures tb(r[0]) < tb(r[j])
      {
        assert r[j] in multiset(rest);
        if r[j] != x {
          assert r[j] in s[1..];
          var m :| 0 <= m < |s[1..]| && s[1..][m] == r[j];
          assert s[m + 1] == r[j];
        }
      }
    }
  }

  /**
   * Stability, as used by the leaderboard: when the input is in strictly
   * increasing `tb` order, elements of equal rank leave in that order.
   */
  lemma {:induction false} SortTiesFollowInput<T(!new)>(s: seq<T>, rank: T -> (int, int), tb: T -> int)
    requires forall i, j :: 0 <= i < j < |s| ==> tb(s[i]) < tb(s[j])
    ensures TiesOrderedBy(Sort(s, rank), rank, tb)
  {
    if s != [] {
      SortTiesFollowInput(s[1..], rank, tb);
      var sorted := Sort(s[1..], rank);
      forall i | 0 <= i < |sorted| ensures tb(s[0]) < tb(sorted[i]) {
        assert sorted[i] in multiset(s[1..]);
        var m :| 0 <= m < |s[1..]| && s[1..][m] == sorted[i];
        assert s[m + 1] == sorted[i];
      }
      InsertTiesOrdered(s[0], sorted, rank, tb);
    }
  }
}
