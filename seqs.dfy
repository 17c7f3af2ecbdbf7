/** `Array.prototype.filter` and the unique-index insert shared by the schemas. */
module Seqs {

  /** `s.filter(p)`: the elements satisfying `p`, in their original order. */
  function Filter<T>(s: seq<T>, p: T -> bool): (r: seq<T>)
    ensures |r| <= |s|
    ensures forall i :: 0 <= i < |r| ==> p(r[i])
  {
    if s == [] then []
    else Filter(s[..|s| - 1], p) + (if p(s[|s| - 1]) then [s[|s| - 1]] else [])
  }

  /** Filtering distributes over concatenation: the relative order of the kept
      elements is the order of the input. */
  lemma {:induction false} FilterAppend<T>(a: seq<T>, b: seq<T>, p: T -> bool)
    ensures Filter(a + b, p) == Filter(a, p) + Filter(b, p)
    decreases |b|
  {
    if b == [] {
      assert a + b == a;
    } else {
      var b' := b[..|b| - 1];
      assert (a + b)[..|a + b| - 1] == a + b';
      FilterAppend(a, b', p);
    }
  }

  /** An element is kept exactly when it is in the input and satisfies `p`. */
  lemma {:induction false} FilterMember<T>(s: seq<T>, p: T -> bool, x: T)
    ensures x in Filter(s, p) <==> x in s && p(x)
  {
    if s != [] {
      var s' := s[..|s| - 1];
      FilterMember(s', p, x);
      assert s == s' + [s[|s| - 1]];
    }
  }

  /** When every element passes, filtering changes nothing. */
  lemma {:induction false} FilterAll<T>(s: seq<T>, p: T -> bool)
    requires forall i :: 0 <= i < |s| ==> p(s[i])
    ensures Filter(s, p) == s
  {
    if s != [] {
      FilterAll(s[..|s| - 1], p);
    }
  }

  /** No two elements share a key (a `unique: true` index). */
  predicate UniqueBy<T, K(==)>(s: seq<T>, key: T -> K)
  {
    forall i, j :: 0 <= i < j < |s| ==> key(s[i]) != key(s[j])
  }

  /** Some element has key `k`. */
  predicate HasKey<T, K(==)>(s: seq<T>, k: K, key: T -> K)
  {
    exists i :: 0 <= i < |s| && key(s[i]) == k
  }

  /** The first element with key `k`, as `findOne` on a unique field returns it. */
  function FindBy<T, K(==)>(s: seq<T>, k: K, key: T -> K): (r: int)
    ensures -1 <= r < |s|
    ensures r >= 0 ==> key(s[r]) == k && forall i :: 0 <= i < r ==> key(s[i]) != k
    ensures r == -1 <==> !HasKey(s, k, key)
  {
    if s == [] then -1
    else if key(s[0]) == k then 0
    else
      var r := FindBy(s[1..], k, key);
      assert forall i :: 1 <= i < |s| ==> s[i] == s[1..][i - 1];
      if r == -1 then -1 else r + 1
  }

  /** Appending a record does not change which record a lookup finds first. */
  lemma FindByAppend<T, K>(s: seq<T>, x: T, k: K, key: T -> K)
    requires HasKey(s, k, key)
    ensures FindBy(s + [x], k, key) == FindBy(s, k, key)
  {
    var r0, r1 := FindBy(s, k, key), FindBy(s + [x], k, key);
    assert (s + [x])[r0] == s[r0];
  }

  /** Inserting into a collection with a unique index: a record whose key is
      already present is rejected (`false`) and the collection stays as it was;
      otherwise the record is appended. */
  function InsertUnique<T, K(==)>(s: seq<T>, x: T, key: T -> K): (r: (seq<T>, bool))
    ensures r.1 <==> !HasKey(s, key(x), key)
    ensures r.1 ==> r.0 == s + [x]
    ensures !r.1 ==> r.0 == s
    ensures UniqueBy(s, key) ==> UniqueBy(r.0, key)
  {
    if FindBy(s, key(x), key) >= 0 then (s, false) else (s + [x], true)
  }
}
