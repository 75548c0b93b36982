/** `Array.prototype.sort(compare)`, which the application calls on radio
    and log arrays. The engine's algorithm is not specified by the language,
    only its outcome: the array is rearranged in place, and when the
    comparator is consistent on its elements the result is sorted by it.
    The model sorts by insertion. */
module ArraySort {

  /** The comparator behaves as a total preorder on the values satisfying `P`:
      a positive answer one way means a non-positive answer the other way, and
      "not after" is transitive. */
  ghost predicate ConsistentOn<T(!new)>(cmp: (T, T) -> int, P: T -> bool) {
    && (forall x, y :: P(x) && P(y) && cmp(x, y) > 0 ==> cmp(y, x) <= 0)
    && (forall x, y, z :: P(x) && P(y) && P(z) && cmp(x, y) <= 0 && cmp(y, z) <= 0 ==> cmp(x, z) <= 0)
  }

  ghost predicate AllSatisfy<T>(s: seq<T>, P: T -> bool) {
    forall i :: 0 <= i < |s| ==> P(s[i])
  }

  /** No element of `s[..n]` is placed after one the comparator puts strictly before it. */
  ghost predicate SortedPrefix<T>(cmp: (T, T) -> int, s: seq<T>, n: int) {
    forall p, q :: 0 <= p < q < n && q < |s| ==> cmp(s[p], s[q]) <= 0
  }

  ghost predicate SortedBy<T>(cmp: (T, T) -> int, s: seq<T>) {
    SortedPrefix(cmp, s, |s|)
  }

  /** While the element at `j` travels down: `s[..i+1]` without it is sorted ... */
  ghost predicate SortedExcept<T>(cmp: (T, T) -> int, s: seq<T>, i: int, j: int) {
    forall p, q :: 0 <= p < q <= i && q < |s| && p != j && q != j ==> cmp(s[p], s[q]) <= 0
  }

  /** ... and it belongs before everything it has passed. */
  ghost predicate BelowPassed<T>(cmp: (T, T) -> int, s: seq<T>, i: int, j: int) {
    forall q :: j < q <= i && 0 <= j && q < |s| ==> cmp(s[j], s[q]) <= 0
  }

  lemma StartInsert<T>(cmp: (T, T) -> int, s: seq<T>, i: int)
    requires 0 <= i < |s| && SortedPrefix(cmp, s, i)
    ensures SortedExcept(cmp, s, i, i) && BelowPassed(cmp, s, i, i)
  {
  }

  lemma SwapDown<T(!new)>(cmp: (T, T) -> int, P: T -> bool, s: seq<T>, i: int, j: int)
    requires ConsistentOn(cmp, P) && AllSatisfy(s, P)
    requires 0 < j <= i < |s|
    requires SortedExcept(cmp, s, i, j) && BelowPassed(cmp, s, i, j)
    requires cmp(s[j - 1], s[j]) > 0
    ensures var t := s[j - 1 := s[j]][j := s[j - 1]];
      AllSatisfy(t, P) && SortedExcept(cmp, t, i, j - 1) && BelowPassed(cmp, t, i, j - 1)
  {
    var t := s[j - 1 := s[j]][j := s[j - 1]];
    assert P(s[j - 1]) && P(s[j]);
    assert cmp(t[j - 1], t[j]) <= 0;
  }

  lemma FinishInsert<T(!new)>(cmp: (T, T) -> int, P: T -> bool, s: seq<T>, i: int, j: int)
    requires ConsistentOn(cmp, P) && AllSatisfy(s, P)
    requires 0 <= j <= i < |s|
    requires SortedExcept(cmp, s, i, j) && BelowPassed(cmp, s, i, j)
    requires j == 0 || cmp(s[j - 1], s[j]) <= 0
    ensures SortedPrefix(cmp, s, i + 1)
  {
    forall p | 0 <= p < j
      ensures cmp(s[p], s[j]) <= 0
    {
      if p < j - 1 {
        assert P(s[p]) && P(s[j - 1]) && P(s[j]);
        assert cmp(s[p], s[j - 1]) <= 0;
      }
    }
  }

  method Swap<T>(a: array<T>, i: int, j: int)
    requires 0 <= i < a.Length && 0 <= j < a.Length
    modifies a
    ensures a[..] == old(a[..])[i := old(a[j])][j := old(a[i])]
    ensures multiset(a[..]) == old(multiset(a[..]))
  {
    a[i], a[j] := a[j], a[i];
  }

  /** `a.sort(cmp)`: always a permutation of the input; sorted by `cmp`
      whenever `cmp` is consistent on a class `P` holding every element. */
  method SortInPlace<T(!new)>(a: array<T>, cmp: (T, T) -> int, ghost P: T -> bool)
    modifies a
    ensures multiset(a[..]) == old(multiset(a[..]))
    ensures ConsistentOn(cmp, P) && AllSatisfy(old(a[..]), P) ==> SortedBy(cmp, a[..])
  {
    ghost var good := ConsistentOn(cmp, P) && AllSatisfy(a[..], P);
    var i := 0;
    while i < a.Length
      invariant 0 <= i <= a.Length
      invariant multiset(a[..]) == old(multiset(a[..]))
      invariant good ==> ConsistentOn(cmp, P) && AllSatisfy(a[..], P) && SortedPrefix(cmp, a[..], i)
    {
      var j := i;
      if good { StartInsert(cmp, a[..], i); }
      while j > 0 && cmp(a[j - 1], a[j]) > 0
        invariant 0 <= j <= i
        invariant multiset(a[..]) == old(multiset(a[..]))
        invariant good ==> AllSatisfy(a[..], P) && SortedExcept(cmp, a[..], i, j) && BelowPassed(cmp, a[..], i, j)
      {
        if good { SwapDown(cmp, P, a[..], i, j); }
        Swap(a, j - 1, j);
        j := j - 1;
      }
      if good { FinishInsert(cmp, P, a[..], i, j); }
      i := i + 1;
    }
  }
}
