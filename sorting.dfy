/**
 * The ascending sort that `Array.Sort` performs on the batch of samples.
 * `Sort` is the reference definition (insertion into an ascending sequence);
 * `SortInPlace` sorts an array in place and is proved to leave exactly
 * `Sort` of the old contents in it.
 */
module Sorting {

  /** `s` is in ascending (non-decreasing) order. */
  predicate Ascending(s: seq<real>) {
    forall p, q :: 0 <= p < q < |s| ==> s[p] <= s[q]
  }

  /** Inserts `x` in front of the first element of `s` that is not below it. */
  function Insert(x: real, s: seq<real>): (r: seq<real>)
    ensures |r| == |s| + 1
    ensures r[0] == x || (|s| > 0 && r[0] == s[0])
  {
    if |s| == 0 || x <= s[0] then [x] + s
    else [s[0]] + Insert(x, s[1..])
  }

  /** Insertion adds exactly one occurrence of `x`. */
  lemma {:induction false} InsertPermutes(x: real, s: seq<real>)
    ensures multiset(Insert(x, s)) == multiset(s) + multiset{x}
  {
    if |s| > 0 && s[0] < x {
      InsertPermutes(x, s[1..]);
      assert s == [s[0]] + s[1..];
    }
  }

  /** Inserting into an ascending sequence keeps it ascending. */
  lemma {:induction false} InsertAscending(x: real, s: seq<real>)
    requires Ascending(s)
    ensures Ascending(Insert(x, s))
  {
    if |s| > 0 && s[0] < x {
      InsertAscending(x, s[1..]);
      var rest := Insert(x, s[1..]);
      assert s[0] <= rest[0];
      assert Insert(x, s) == [s[0]] + rest;
    }
  }

  /** The ascending rearrangement of `s`, by repeated insertion. */
  function Sort(s: seq<real>): (r: seq<real>)
    ensures |r| == |s|
  {
    if |s| == 0 then [] else Insert(s[0], Sort(s[1..]))
  }

  /** Sorting only rearranges: the result holds the same elements, as often. */
  lemma {:induction false} SortPermutes(s: seq<real>)
    ensures multiset(Sort(s)) == multiset(s)
  {
    if |s| > 0 {
      SortPermutes(s[1..]);
      InsertPermutes(s[0], Sort(s[1..]));
      assert s == [s[0]] + s[1..];
    }
  }

  /** The result of sorting is ascending. */
  lemma {:induction false} SortAscending(s: seq<real>)
    ensures Ascending(Sort(s))
  {
    if |s| > 0 {
      SortAscending(s[1..]);
      InsertAscending(s[0], Sort(s[1..]));
    }
  }

  /** The head of a non-empty ascending sequence is its least element. */
  lemma HeadIsLeast(s: seq<real>, v: real)
    requires Ascending(s) && v in multiset(s)
    ensures s[0] <= v
  {
    var k :| 0 <= k < |s| && s[k] == v;
  }

  /** Dropping the head removes one occurrence of it. */
  lemma TailMultiset(s: seq<real>)
    requires |s| > 0
    ensures multiset(s[1..]) == multiset(s) - multiset{s[0]}
  {
    assert s == [s[0]] + s[1..];
  }

  lemma AscendingTail(s: seq<real>)
    requires Ascending(s) && |s| > 0
    ensures Ascending(s[1..])
  {
  }

  lemma SameSize(x: seq<real>, y: seq<real>)
    requires multiset(x) == multiset(y)
    ensures |x| == |y|
  {
    assert |x| == |multiset(x)| && |y| == |multiset(y)|;
  }

  /** Two ascending permutations of each other start alike, and their tails are again ascending permutations. */
  lemma SameHead(x: seq<real>, y: seq<real>)
    requires Ascending(x) && Ascending(y)
    requires multiset(x) == multiset(y)
    requires |x| > 0
    ensures |y| > 0 && x[0] == y[0]
    ensures Ascending(x[1..]) && Ascending(y[1..])
    ensures multiset(x[1..]) == multiset(y[1..])
  {
    SameSize(x, y);
    assert y[0] in multiset(y) && x[0] in multiset(x);
    HeadIsLeast(x, y[0]);
    HeadIsLeast(y, x[0]);
    TailMultiset(x);
    TailMultiset(y);
    AscendingTail(x);
    AscendingTail(y);
  }

  /** Two ascending sequences with the same elements (counted with multiplicity) are equal. */
  lemma {:induction false} AscendingPermutationUnique(x: seq<real>, y: seq<real>)
    requires Ascending(x) && Ascending(y)
    requires multiset(x) == multiset(y)
    ensures x == y
  {
    if |x| == 0 {
      SameSize(x, y);
    } else {
      SameHead(x, y);
      AscendingPermutationUnique(x[1..], y[1..]);
      calc {
        x;
        [x[0]] + x[1..];
        [y[0]] + y[1..];
        y;
      }
    }
  }

  /** Any ascending permutation of `s` is `Sort(s)`. */
  lemma SortIsTheAscendingPermutation(s: seq<real>, r: seq<real>)
    requires Ascending(r) && multiset(r) == multiset(s)
    ensures r == Sort(s)
  {
    SortPermutes(s);
    SortAscending(s);
    AscendingPermutationUnique(r, Sort(s));
  }

  /** Swaps the neighbours `a[j - 1]` and `a[j]`, leaving the other elements in place. */
  method SwapDown(a: array<real>, j: int)
    requires 0 < j < a.Length
    modifies a
    ensures a[j - 1] == old(a[j]) && a[j] == old(a[j - 1])
    ensures forall k :: 0 <= k < a.Length && k != j - 1 && k != j ==> a[k] == old(a[k])
    ensures multiset(a[..]) == old(multiset(a[..]))
  {
    a[j - 1], a[j] := a[j], a[j - 1];
  }

  /** Sinks `a[i]` into the ascending prefix `a[..i]`, so that `a[..i + 1]` is ascending. */
  method SinkInto(a: array<real>, i: int)
    requires 0 <= i < a.Length
    requires Ascending(a[..i])
    modifies a
    ensures Ascending(a[..i + 1])
    ensures a[i + 1..] == old(a[i + 1..])
    ensures multiset(a[..]) == old(multiset(a[..]))
  {
    var j := i;
    while 0 < j && a[j] < a[j - 1]
      invariant 0 <= j <= i
      invariant forall p, q :: 0 <= p < q <= i && q != j ==> a[p] <= a[q]
      invariant 0 < j < i ==> a[j - 1] <= a[j + 1]
      invariant a[i + 1..] == old(a[i + 1..])
      invariant multiset(a[..]) == old(multiset(a[..]))
    {
      SwapDown(a, j);
      j := j - 1;
    }
  }

  /**
   * Sorts `a` in place into ascending order, standing for `Array.Sort` on the
   * sample batch. The algorithm here is insertion; only the result matters,
   * and `SortIsTheAscendingPermutation` shows that result is unique.
   */
  method SortInPlace(a: array<real>)
    modifies a
    ensures a[..] == Sort(old(a[..]))
  {
    var i := 0;
    while i < a.Length
      invariant 0 <= i <= a.Length
      invariant Ascending(a[..i])
      invariant multiset(a[..]) == old(multiset(a[..]))
    {
      SinkInto(a, i);
      i := i + 1;
    }
    assert a[..a.Length] == a[..];
    SortIsTheAscendingPermutation(old(a[..]), a[..]);
  }
}
