/** Sorting by descending keys, the `Array.prototype.sort` comparators of the
    leaderboard (`b.averageScore - a.averageScore`, then `b.totalScore - a.totalScore`)
    and of the teacher's top performers (`b.score - a.score`). */
module Ranking {

  /** A two-part sort key: the primary key decides, the secondary key breaks ties. */
  datatype Key = Key(primary: int, secondary: int)

  /** `a` may stand before `b`: the comparator does not return a positive number for (a, b). */
  predicate Ahead(a: Key, b: Key)
  {
    a.primary > b.primary || (a.primary == b.primary && a.secondary >= b.secondary)
  }

  /** Ordered by descending key, as the comparator demands. */
  predicate SortedDesc<T>(s: seq<T>, key: T -> Key)
  {
    forall i, j :: 0 <= i < j < |s| ==> Ahead(key(s[i]), key(s[j]))
  }

  /** Inserts `x` after every element that ranks at or above it. */
  function Insert<T>(x: T, s: seq<T>, key: T -> Key): (r: seq<T>)
    requires SortedDesc(s, key)
    ensures SortedDesc(r, key)
    ensures multiset(r) == multiset(s) + multiset{x}
    ensures |r| == |s| + 1
  {
    if s == [] then [x]
    else if Ahead(key(s[0]), key(x)) then
      var rest := Insert(x, s[1..], key);
      assert SortedDesc(s[1..], key) by {
        forall i, j | 0 <= i < j < |s[1..]| ensures Ahead(key(s[1..][i]), key(s[1..][j])) {
          assert s[1..][i] == s[i + 1] && s[1..][j] == s[j + 1];
        }
      }
      assert s == [s[0]] + s[1..];
      assert forall k :: 0 <= k < |rest| ==> Ahead(key(s[0]), key(rest[k])) by {
        forall k | 0 <= k < |rest| ensures Ahead(key(s[0]), key(rest[k])) {
          assert rest[k] in multiset(rest);
          assert rest[k] == x || rest[k] in multiset(s[1..]);
          if rest[k] != x {
            var m :| 0 <= m < |s[1..]| && s[1..][m] == rest[k];
            assert s[m + 1] == rest[k];
          }
        }
      }
      [s[0]] + rest
    else
      assert forall k :: 0 <= k < |s| ==> Ahead(key(x), key(s[k])) by {
        forall k | 0 <= k < |s| ensures Ahead(key(x), key(s[k])) {
          assert Ahead(key(s[0]), key(s[k])) || k == 0;
        }
      }
      [x] + s
  }

  /** A stable insertion sort into descending key order. */
  function SortDesc<T>(s: seq<T>, key: T -> Key): (r: seq<T>)
    ensures SortedDesc(r, key)
    ensures multiset(r) == multiset(s)
    ensures |r| == |s|
  {
    if s == [] then []
    else
      assert s == s[..|s| - 1] + [s[|s| - 1]];
      Insert(s[|s| - 1], SortDesc(s[..|s| - 1], key), key)
  }
}
