/** The aggregation every read endpoint shares: an attempt list is summed into a
    total score and a total maximum, and the pair becomes a rounded percentage,
    `totalMax > 0 ? Math.round(total / totalMax * 100) : 0`. */
module Scoring {
  import opened Common
  import Seqs
  import Ranking

  /** One stored quiz attempt (a Score row) joined with the fields the
      endpoints select from its user, quiz and class. */
  datatype Attempt = Attempt(
    userId: Id,
    userName: Option<string>,
    userEmail: string,
    quizId: Id,
    quizTitle: string,
    classId: Id,
    className: string,
    teacherId: Id,
    score: int,
    maxScore: int,
    createdAt: int)

  /** An attempt whose score lies between 0 and its maximum. */
  predicate WellFormed(a: Attempt)
  {
    0 <= a.score <= a.maxScore
  }

  predicate AllWellFormed(s: seq<Attempt>)
  {
    forall i :: 0 <= i < |s| ==> WellFormed(s[i])
  }

  /** `s.reduce((sum, a) => sum + a.score, 0)`, folded from the left. */
  function TotalScore(s: seq<Attempt>): int
  {
    if s == [] then 0 else TotalScore(s[..|s| - 1]) + s[|s| - 1].score
  }

  /** `s.reduce((sum, a) => sum + a.maxScore, 0)`, folded from the left. */
  function TotalMax(s: seq<Attempt>): int
  {
    if s == [] then 0 else TotalMax(s[..|s| - 1]) + s[|s| - 1].maxScore
  }

  /** `max > 0 ? Math.round(total / max * 100) : 0`, with Math.round taken as exact
      rounding half up: the result is the integer nearest to 100 * total / max,
      and a value exactly halfway goes to the larger neighbour. */
  function Percent(total: int, max: int): (r: int)
    ensures max <= 0 ==> r == 0
    ensures max > 0 ==> 2 * max * r <= 200 * total + max < 2 * max * (r + 1)
  {
    if max > 0 then (200 * total + max) / (2 * max) else 0
  }

  /** The percentage every endpoint reports for a list of attempts. */
  function Average(s: seq<Attempt>): int
  {
    Percent(TotalScore(s), TotalMax(s))
  }

  /** A zero (or negative) maximum total never divides: the percentage is 0. */
  lemma PercentZeroGuard(total: int, max: int)
    requires max <= 0
    ensures Percent(total, max) == 0
  {
  }

  /** Strict inequality of two multiples of a positive factor carries over to the multiplicands. */
  lemma CancelLess(m: int, a: int, b: int)
    requires m > 0 && m * a < m * b
    ensures a < b
  {
    assert m * b - m * a == m * (b - a);
  }

  /** A total between 0 and the maximum gives a percentage between 0 and 100. */
  lemma PercentBounds(total: int, max: int)
    requires 0 <= total <= max
    ensures 0 <= Percent(total, max) <= 100
  {
    if max > 0 {
      var r := Percent(total, max);
      assert 2 * max * r < 2 * max * 101;
      CancelLess(2 * max, r, 101);
      assert 2 * max * 0 < 2 * max * (r + 1);
      CancelLess(2 * max, 0, r + 1);
    }
  }

  /** A full score is 100 percent and a zero score is 0 percent. */
  lemma PercentEndpoints(max: int)
    requires max > 0
    ensures Percent(max, max) == 100 && Percent(0, max) == 0
  {
    var full := Percent(max, max);
    assert 2 * max * full < 2 * max * 101;
    CancelLess(2 * max, full, 101);
    assert 2 * max * 100 < 2 * max * (full + 1);
    CancelLess(2 * max, 100, full + 1);
    var none := Percent(0, max);
    assert 2 * max * none < 2 * max * 1;
    CancelLess(2 * max, none, 1);
    assert 2 * max * 0 < 2 * max * (none + 1);
    CancelLess(2 * max, 0, none + 1);
  }

  /** Each sum over a concatenation is the sum of the parts. */
  lemma {:induction false} TotalsAppend(a: seq<Attempt>, b: seq<Attempt>)
    ensures TotalScore(a + b) == TotalScore(a) + TotalScore(b)
    ensures TotalMax(a + b) == TotalMax(a) + TotalMax(b)
    decreases |b|
  {
    if b != [] {
      var b' := b[..|b| - 1];
      assert (a + b)[..|a + b| - 1] == a + b';
      TotalsAppend(a, b');
    } else {
      assert a + b == a;
    }
  }

  /** The sums do not depend on the order of the attempts. */
  lemma {:induction false} TotalsPermutation(a: seq<Attempt>, b: seq<Attempt>)
    requires multiset(a) == multiset(b)
    ensures TotalScore(a) == TotalScore(b) && TotalMax(a) == TotalMax(b)
    decreases |a|
  {
    if a == [] {
      assert |b| == |multiset(b)| == 0;
    } else {
      var a', x := a[..|a| - 1], a[|a| - 1];
      assert a == a' + [x];
      assert x in multiset(b);
      var k :| 0 <= k < |b| && b[k] == x;
      var front, back := b[..k], b[k + 1..];
      assert b == front + [x] + back;
      calc {
        multiset(a');
        multiset(a) - multiset{x};
        multiset(b) - multiset{x};
        multiset(front) + multiset{x} + multiset(back) - multiset{x};
        multiset(front + back);
      }
      TotalsPermutation(a', front + back);
      TotalsAppend(front, back);
      TotalsAppend(front + [x], back);
      TotalsAppend(front, [x]);
    }
  }

  /** Attempts whose scores lie within their maxima sum to a total within the maximum total. */
  lemma {:induction false} TotalsBounded(s: seq<Attempt>)
    requires AllWellFormed(s)
    ensures 0 <= TotalScore(s) <= TotalMax(s)
  {
    if s != [] {
      TotalsBounded(s[..|s| - 1]);
    }
  }

  /** The reported average of well-formed attempts is a percentage. */
  lemma AverageInRange(s: seq<Attempt>)
    requires AllWellFormed(s)
    ensures 0 <= Average(s) <= 100
  {
    TotalsBounded(s);
    if TotalMax(s) > 0 {
      PercentBounds(TotalScore(s), TotalMax(s));
    }
  }

  /** No attempts is the defined zero state, not an error. */
  lemma AverageOfNone()
    ensures Average([]) == 0
  {
  }

  /** `take: n` on an ordered query: the first `n` rows, or all of them when fewer. */
  function Take<T>(s: seq<T>, n: nat): (r: seq<T>)
    ensures |r| <= n && |r| <= |s|
    ensures |r| == if |s| < n then |s| else n
    ensures forall i :: 0 <= i < |r| ==> r[i] == s[i]
  {
    if |s| <= n then s else s[..n]
  }

  /** `flatMap` of nested attempt lists, in order. */
  function Flatten(ss: seq<seq<Attempt>>): (r: seq<Attempt>)
  {
    if ss == [] then [] else Flatten(ss[..|ss| - 1]) + ss[|ss| - 1]
  }

  /** Flattening keeps every attempt: the count is the sum of the counts. */
  function CountAll(ss: seq<seq<Attempt>>): nat
  {
    if ss == [] then 0 else CountAll(ss[..|ss| - 1]) + |ss[|ss| - 1]|
  }

  lemma {:induction false} FlattenLength(ss: seq<seq<Attempt>>)
    ensures |Flatten(ss)| == CountAll(ss)
  {
    if ss != [] {
      FlattenLength(ss[..|ss| - 1]);
    }
  }

  /** Flattening one more list appends it. */
  lemma FlattenSnoc(ss: seq<seq<Attempt>>, s: seq<Attempt>)
    ensures Flatten(ss + [s]) == Flatten(ss) + s
  {
    assert (ss + [s])[..|ss|] == ss;
  }

  /** Every attempt of every inner list appears in the flattened list. */
  lemma {:induction false} FlattenContains(ss: seq<seq<Attempt>>, i: int, j: int)
    requires 0 <= i < |ss| && 0 <= j < |ss[i]|
    ensures ss[i][j] in Flatten(ss)
  {
    var last := |ss| - 1;
    if i < last {
      FlattenContains(ss[..last], i, j);
    } else {
      assert Flatten(ss) == Flatten(ss[..last]) + ss[last];
      assert Flatten(ss)[|Flatten(ss[..last])| + j] == ss[i][j];
    }
  }

  /** A sequence is in non-increasing order of creation time (`orderBy: { createdAt: 'desc' }`). */
  predicate NewestFirst(s: seq<Attempt>)
  {
    forall i, j :: 0 <= i < j < |s| ==> s[i].createdAt >= s[j].createdAt
  }

  /** A `where` filter applied to a newest-first list leaves it newest first. */
  lemma {:induction false} FilterNewestFirst(s: seq<Attempt>, p: Attempt -> bool)
    requires NewestFirst(s)
    ensures NewestFirst(Seqs.Filter(s, p))
  {
    if s != [] {
      var init, last := s[..|s| - 1], s[|s| - 1];
      assert s == init + [last];
      FilterNewestFirst(init, p);
      Seqs.FilterAppend(init, [last], p);
      assert Seqs.Filter([last], p) == Seqs.Filter([], p) + (if p(last) then [last] else []);
      var f := Seqs.Filter(init, p);
      forall k | 0 <= k < |f| ensures f[k].createdAt >= last.createdAt {
        assert f[k] in f;
        Seqs.FilterMember(init, p, f[k]);
      }
    }
  }

  /** The first `n` of a newest-first list are newest first, and none is older than any left out. */
  lemma TakeNewestFirst(s: seq<Attempt>, n: nat)
    requires NewestFirst(s)
    ensures NewestFirst(Take(s, n))
    ensures forall i, j :: 0 <= i < |Take(s, n)| <= j < |s| ==> Take(s, n)[i].createdAt >= s[j].createdAt
  {
  }

  function CreatedKey(a: Attempt): Ranking.Key
  {
    Ranking.Key(a.createdAt, 0)
  }

  /** `orderBy: { createdAt: 'desc' }` on a relation: the same attempts, newest first. */
  function NewestOrder(s: seq<Attempt>): (r: seq<Attempt>)
    ensures NewestFirst(r)
    ensures multiset(r) == multiset(s) && |r| == |s|
    ensures forall a :: a in r <==> a in s
  {
    var r := Ranking.SortDesc(s, CreatedKey);
    assert forall i, j :: 0 <= i < j < |r| ==> Ranking.Ahead(CreatedKey(r[i]), CreatedKey(r[j]));
    assert forall a :: a in r <==> a in multiset(r);
    assert forall a :: a in s <==> a in multiset(s);
    r
  }

  /** The head of the newest-first order is an attempt of the list, and none is newer. */
  lemma NewestHead(s: seq<Attempt>)
    ensures |s| > 0 ==> NewestOrder(s)[0] in s
    ensures |s| > 0 ==> forall b :: b in s ==> NewestOrder(s)[0].createdAt >= b.createdAt
  {
    var r := NewestOrder(s);
    if |s| > 0 {
      assert r[0] in multiset(r);
      forall b | b in s ensures r[0].createdAt >= b.createdAt {
        assert b in multiset(r);
        var k :| 0 <= k < |r| && r[k] == b;
      }
    }
  }
}
