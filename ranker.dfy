/**
 * `sort_values(key, ascending=False)`, the descending ranking used for the
 * origin table, the county summary and each county's detail rows.
 *
 * pandas sorts with an unstable quicksort, so the order of equal keys is
 * unspecified.  The model sorts by insertion, which fixes one order, but
 * claims only what every such order shares: the result is a permutation of
 * the input in non-increasing key order.  SortedPermutationsAgree shows that
 * this determines the sequence of keys, so only the tie order is left open.
 */
module Ranker {

  import opened Seqs

  /** Keys never increase from left to right. */
  predicate NonIncreasing<T>(s: seq<T>, key: T -> int) {
    forall i, j :: 0 <= i < j < |s| ==> key(s[i]) >= key(s[j])
  }

  /** Every key of `t`, a permutation of `u` plus `x`, is at most `bound`
      when every key of `u` and that of `x` are. */
  lemma BoundedPermutation<T>(t: seq<T>, u: seq<T>, x: T, bound: int, key: T -> int)
    requires multiset(t) == multiset(u) + multiset{x}
    requires key(x) <= bound && forall k :: 0 <= k < |u| ==> key(u[k]) <= bound
    ensures forall k :: 0 <= k < |t| ==> key(t[k]) <= bound
  {
    forall k | 0 <= k < |t| ensures key(t[k]) <= bound {
      assert t[k] in multiset(t);
      if t[k] != x {
        assert t[k] in multiset(u);
        var m :| 0 <= m < |u| && u[m] == t[k];
      }
    }
  }

  /** A head whose key bounds a non-increasing tail keeps it non-increasing. */
  lemma ConsNonIncreasing<T>(h: T, t: seq<T>, key: T -> int)
    requires NonIncreasing(t, key) && forall k :: 0 <= k < |t| ==> key(t[k]) <= key(h)
    ensures NonIncreasing([h] + t, key)
  {
    var r := [h] + t;
    forall i, j | 0 <= i < j < |r| ensures key(r[i]) >= key(r[j]) {
      assert r[j] == t[j - 1];
      if i > 0 {
        assert r[i] == t[i - 1];
      }
    }
  }

  /** Inserts `x` into a non-increasing sequence, before the first smaller-or-equal key. */
  function Insert<T>(x: T, s: seq<T>, key: T -> int): (r: seq<T>)
    requires NonIncreasing(s, key)
    ensures NonIncreasing(r, key)
    ensures multiset(r) == multiset(s) + multiset{x}
    ensures |r| == |s| + 1
  {
    if s == [] || key(x) >= key(s[0]) then
      ConsNonIncreasing(x, s, key);
      [x] + s
    else
      var t := Insert(x, s[1..], key);
      SplitAt(s, 0);
      BoundedPermutation(t, s[1..], x, key(s[0]), key);
      ConsNonIncreasing(s[0], t, key);
      [s[0]] + t
  }

  /** The descending sort: a non-increasing permutation of `s`. */
  function SortDescending<T>(s: seq<T>, key: T -> int): (r: seq<T>)
    ensures NonIncreasing(r, key)
    ensures multiset(r) == multiset(s)
    ensures |r| == |s|
  {
    if s == [] then []
    else
      assert s == [s[0]] + s[1..];
      Insert(s[0], SortDescending(s[1..], key), key)
  }

  /** Dropping one entry keeps a ranking non-increasing. */
  lemma NonIncreasingRemoveAt<T>(s: seq<T>, i: nat, key: T -> int)
    requires i < |s| && NonIncreasing(s, key)
    ensures NonIncreasing(RemoveAt(s, i), key)
  {
  }

  /** In two non-increasing permutations of each other, the heads carry the same key. */
  lemma HeadsAgree<T>(a: seq<T>, b: seq<T>, key: T -> int)
    requires a != [] && multiset(a) == multiset(b)
    requires NonIncreasing(a, key) && NonIncreasing(b, key)
    ensures b != [] && key(a[0]) == key(b[0])
  {
    assert a[0] in multiset(b);
    var i :| 0 <= i < |b| && b[i] == a[0];
    assert b[0] in multiset(a);
    var j :| 0 <= j < |a| && a[j] == b[0];
    assert key(a[0]) >= key(a[j]);
    assert key(b[0]) >= key(b[i]);
  }

  /** Dropping, from a non-increasing sequence, an element that carries the
      top key only shifts entries of equal key. */
  lemma RemoveTopShift<T>(b: seq<T>, i: nat, key: T -> int)
    requires i < |b| && NonIncreasing(b, key) && key(b[i]) == key(b[0])
    ensures forall k :: 0 <= k < |b| - 1 ==> key(RemoveAt(b, i)[k]) == key(b[k + 1])
  {
    var rest := RemoveAt(b, i);
    forall k | 0 <= k < |b| - 1 ensures key(rest[k]) == key(b[k + 1]) {
      if k < i {
        assert key(b[0]) >= key(b[k]) >= key(b[k + 1]) >= key(b[i]);
      }
    }
  }

  /** Taking the head of `a` out of `b` leaves a permutation of the rest of `a`. */
  lemma PermutationWithoutHead<T>(a: seq<T>, b: seq<T>, i: nat)
    requires a != [] && i < |b| && b[i] == a[0] && multiset(a) == multiset(b)
    ensures multiset(a[1..]) == multiset(RemoveAt(b, i))
  {
    SplitAt(a, 0);
    assert multiset(a[1..]) + multiset{a[0]} == multiset(RemoveAt(b, i)) + multiset{a[0]};
    MultisetCancel(multiset(a[1..]), multiset(RemoveAt(b, i)), a[0]);
  }

  /** Any two non-increasing permutations of the same rows list the same keys
      position by position: however ties are broken, the k-th ranked entry has
      the same key. */
  lemma {:induction false} SortedPermutationsAgree<T>(a: seq<T>, b: seq<T>, key: T -> int)
    requires multiset(a) == multiset(b)
    requires NonIncreasing(a, key) && NonIncreasing(b, key)
    ensures |a| == |b|
    ensures forall k :: 0 <= k < |a| ==> key(a[k]) == key(b[k])
  {
    assert |a| == |multiset(a)| == |multiset(b)| == |b|;
    if a != [] {
      HeadsAgree(a, b, key);
      var x := a[0];
      assert x in multiset(b);
      var i :| 0 <= i < |b| && b[i] == x;
      var rest := RemoveAt(b, i);
      PermutationWithoutHead(a, b, i);
      NonIncreasingRemoveAt(b, i, key);
      SortedPermutationsAgree(a[1..], rest, key);
      RemoveTopShift(b, i, key);
      forall k | 0 < k < |a| ensures key(a[k]) == key(b[k]) {
        assert a[k] == a[1..][k - 1];
      }
    }
  }

  /** A value at two positions of `b` occurs at least twice in its multiset. */
  lemma TwiceInMultiset<T>(b: seq<T>, i: nat, j: nat)
    requires i < j < |b| && b[i] == b[j]
    ensures multiset(b)[b[i]] >= 2
  {
    var rb := RemoveAt(b, j);
    assert rb[i] == b[i];
    assert b[i] in multiset(rb);
  }

  /** A value that occurs at least twice sits at two different positions. */
  lemma TwoPositions<T>(a: seq<T>, x: T)
    requires multiset(a)[x] >= 2
    ensures exists p, q :: 0 <= p < q < |a| && a[p] == x && a[q] == x
  {
    assert x in multiset(a);
    var p :| 0 <= p < |a| && a[p] == x;
    var ra := RemoveAt(a, p);
    assert x in multiset(ra);
    var m :| 0 <= m < |ra| && ra[m] == x;
    if m < p {
      assert a[m] == x;
    } else {
      assert a[m + 1] == x;
    }
  }

  /** Every entry of `b` sits somewhere in its permutation `a`. */
  lemma FoundInPermutation<T>(a: seq<T>, b: seq<T>, i: nat)
    requires multiset(a) == multiset(b) && i < |b|
    ensures exists p :: 0 <= p < |a| && a[p] == b[i]
  {
    assert b[i] in multiset(a);
  }

  /** Reordering keeps keys distinct: a permutation of a table with one entry
      per key still has one entry per key. */
  lemma PermutationKeepsKeysDistinct<T, K>(a: seq<T>, b: seq<T>, key: T -> K)
    requires multiset(a) == multiset(b)
    requires forall i, j :: 0 <= i < j < |a| ==> key(a[i]) != key(a[j])
    ensures forall i, j :: 0 <= i < j < |b| ==> key(b[i]) != key(b[j])
  {
    forall i, j | 0 <= i < j < |b| ensures key(b[i]) != key(b[j]) {
      if key(b[i]) == key(b[j]) {
        FoundInPermutation(a, b, i);
        FoundInPermutation(a, b, j);
        if b[i] == b[j] {
          // b holds this value twice, so a must too
          TwiceInMultiset(b, i, j);
          TwoPositions(a, b[i]);
        }
      }
    }
  }
}
