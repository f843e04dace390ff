/**
 * Sequence vocabulary shared by the aggregations: sums of a numeric field,
 * first-appearance de-duplication (pandas `unique()` and `groupby(sort=False)`),
 * and order-preserving selection (a boolean-mask filter).
 *
 * Sums and filters are defined on the last element, s[..|s| - 1] first, so
 * that they follow the left-to-right accumulation the source performs.
 */
module Seqs {

  /** The sum of `f` over the elements of `s`. */
  function SumBy<T>(s: seq<T>, f: T -> int): int {
    if s == [] then 0 else SumBy(s[..|s| - 1], f) + f(s[|s| - 1])
  }

  lemma {:induction false} SumByConcat<T>(a: seq<T>, b: seq<T>, f: T -> int)
    ensures SumBy(a + b, f) == SumBy(a, f) + SumBy(b, f)
  {
    if b == [] {
      assert a + b == a;
    } else {
      assert (a + b)[..|a + b| - 1] == a + b[..|b| - 1];
      SumByConcat(a, b[..|b| - 1], f);
    }
  }

  /** `f` applied to every element of `s`, in order. */
  function Map<A, B>(s: seq<A>, f: A -> B): (r: seq<B>)
    ensures |r| == |s|
    ensures forall i :: 0 <= i < |s| ==> r[i] == f(s[i])
  {
    seq(|s|, i requires 0 <= i < |s| => f(s[i]))
  }

  lemma MapSnoc<A, B>(s: seq<A>, f: A -> B)
    requires s != []
    ensures Map(s, f) == Map(s[..|s| - 1], f) + [f(s[|s| - 1])]
  {
  }

  /** `s` is its prefix, its element at `i` and its suffix. */
  lemma SplitAt<T>(s: seq<T>, i: nat)
    requires i < |s|
    ensures s == s[..i] + [s[i]] + s[i + 1..]
  {
  }

  lemma TakeAppend<T>(s: seq<T>, x: T)
    ensures (s + [x])[..|s|] == s
  {
  }

  lemma TakeNext<T>(s: seq<T>, j: nat)
    requires j < |s|
    ensures s[..j + 1] == s[..j] + [s[j]]
  {
  }

  lemma SplitLast<T>(s: seq<T>)
    requires s != []
    ensures s == s[..|s| - 1] + [s[|s| - 1]]
  {
  }

  /** `s` without its element at position `i`. */
  function RemoveAt<T>(s: seq<T>, i: nat): (r: seq<T>)
    requires i < |s|
    ensures |r| == |s| - 1
    ensures forall k :: 0 <= k < |r| ==> r[k] == if k < i then s[k] else s[k + 1]
    ensures multiset(r) + multiset{s[i]} == multiset(s)
  {
    assert s == s[..i] + [s[i]] + s[i + 1..];
    assert multiset(s) == multiset(s[..i]) + multiset{s[i]} + multiset(s[i + 1..]);
    s[..i] + s[i + 1..]
  }

  lemma MultisetCancel<T>(p: multiset<T>, q: multiset<T>, x: T)
    requires p + multiset{x} == q + multiset{x}
    ensures p == q
  {
    assert forall y :: p[y] == (p + multiset{x})[y] - multiset{x}[y];
    assert forall y :: q[y] == (q + multiset{x})[y] - multiset{x}[y];
  }

  lemma SumBySingleton<T>(x: T, f: T -> int)
    ensures SumBy([x], f) == f(x)
  {
    assert [x][..0] == [];
  }

  lemma SumByMiddle<T>(p: seq<T>, x: T, q: seq<T>, f: T -> int)
    ensures SumBy(p + [x] + q, f) == SumBy(p + q, f) + f(x)
  {
    SumByConcat(p + [x], q, f);
    SumByConcat(p, [x], f);
    SumByConcat(p, q, f);
    SumBySingleton(x, f);
  }

  lemma SumByRemoveAt<T>(s: seq<T>, i: nat, f: T -> int)
    requires i < |s|
    ensures SumBy(s, f) == SumBy(RemoveAt(s, i), f) + f(s[i])
  {
    SplitAt(s, i);
    assert RemoveAt(s, i) == s[..i] + s[i + 1..];
    SumByMiddle(s[..i], s[i], s[i + 1..], f);
  }

  /** Reordering never changes a sum. */
  lemma {:induction false} SumByPermutation<T>(a: seq<T>, b: seq<T>, f: T -> int)
    requires multiset(a) == multiset(b)
    ensures SumBy(a, f) == SumBy(b, f)
  {
    if a != [] {
      var init, x := a[..|a| - 1], a[|a| - 1];
      assert a == init + [x];
      assert x in multiset(b);
      var i :| 0 <= i < |b| && b[i] == x;
      var rest := RemoveAt(b, i);
      assert multiset(init) + multiset{x} == multiset(a);
      MultisetCancel(multiset(init), multiset(rest), x);
      SumByPermutation(init, rest, f);
      SumByRemoveAt(b, i, f);
    }
  }

  predicate NoDuplicates<T(==)>(s: seq<T>) {
    forall i, j :: 0 <= i < j < |s| ==> s[i] != s[j]
  }

  /** The position of the first occurrence of `x` in `s`. */
  function FirstIndex<T(==)>(s: seq<T>, x: T): (r: nat)
    requires x in s
    ensures r < |s| && s[r] == x && x !in s[..r]
  {
    var init := s[..|s| - 1];
    if x in init then
      var r := FirstIndex(init, x);
      assert s[..r] == init[..r];
      r
    else
      |s| - 1
  }

  /** The distinct elements of `s`, each once, in order of first appearance
      (what pandas' `Series.unique()` and `groupby(..., sort=False)` produce). */
  function Distinct<T(==,!new)>(s: seq<T>): (r: seq<T>)
    ensures NoDuplicates(r)
    ensures forall x :: x in r <==> x in s
    ensures forall i, j :: 0 <= i < j < |r| ==> FirstIndex(s, r[i]) < FirstIndex(s, r[j])
  {
    if s == [] then []
    else
      var init, x := s[..|s| - 1], s[|s| - 1];
      var d := Distinct(init);
      SplitLast(s);
      assert forall y :: y in init ==> FirstIndex(s, y) == FirstIndex(init, y);
      if x in d then d else d + [x]
  }

  /** The elements of `s` that satisfy `p`, in their original order (a
      boolean-mask selection such as `df[df['county'] == c]`). */
  function Filter<T(!new)>(s: seq<T>, p: T -> bool): (r: seq<T>)
    ensures IsSubsequence(r, s)
    ensures forall x :: multiset(r)[x] == if p(x) then multiset(s)[x] else 0
    ensures forall i :: 0 <= i < |r| ==> p(r[i])
  {
    if s == [] then []
    else
      var init, last := s[..|s| - 1], s[|s| - 1];
      SplitLast(s);
      var kept := Filter(init, p);
      if p(last) then
        assert forall i :: 0 <= i < |kept + [last]| ==> (kept + [last])[i] in multiset(kept + [last]);
        kept + [last]
      else
        kept
  }

  /** `a` is obtained from `b` by deleting elements: the kept ones stay in order. */
  ghost predicate IsSubsequence<T>(a: seq<T>, b: seq<T>) {
    if a == [] then true
    else if b == [] then false
    else (a[|a| - 1] == b[|b| - 1] && IsSubsequence(a[..|a| - 1], b[..|b| - 1]))
         || IsSubsequence(a, b[..|b| - 1])
  }
}
