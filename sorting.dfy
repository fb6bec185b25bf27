/**
 * In-place sorting of an array by an integer key, as `Array.prototype.sort`
 * does with a numeric comparator (`(a, b) => key(a) - key(b)`).
 */
module Sorting {

  /** The keys of `s` do not decrease from left to right. */
  ghost predicate SortedBy<T>(s: seq<T>, key: T -> int)
  {
    forall i, j :: 0 <= i < j < |s| ==> key(s[i]) <= key(s[j])
  }

  /** Exchanges two neighbouring elements. */
  method SwapDown<T>(a: array<T>, j: nat)
    requires 0 < j < a.Length
    modifies a
    ensures a[..] == old(a[..])[j - 1 := old(a[j])][j := old(a[j - 1])]
    ensures multiset(a[..]) == multiset(old(a[..]))
  {
    a[j - 1], a[j] := a[j], a[j - 1];
  }

  /**
   * The state of the insertion of `s[j]` into the sorted prefix up to `i`:
   * leaving position `j` out, the prefix is sorted, and `s[j]` is no larger
   * than anything after it.
   */
  ghost predicate InsertionGap<T>(s: seq<T>, i: nat, j: nat, key: T -> int)
    requires j <= i < |s|
  {
    && (forall p, q :: 0 <= p < q <= i && p != j && q != j ==> key(s[p]) <= key(s[q]))
    && (forall q :: j < q <= i ==> key(s[j]) <= key(s[q]))
  }

  /** Before the first step the gap is at `i` itself. */
  lemma InsertionStart<T>(s: seq<T>, i: nat, key: T -> int)
    requires i < |s| && SortedBy(s[..i], key)
    ensures InsertionGap(s, i, i, key)
  {
    forall p, q | 0 <= p < q <= i && p != i && q != i
      ensures key(s[p]) <= key(s[q])
    {
      assert s[p] == s[..i][p] && s[q] == s[..i][q];
    }
  }

  /** Exchanging s[j - 1] > s[j] moves the gap one place left. */
  lemma InsertionStep<T>(s: seq<T>, t: seq<T>, i: nat, j: nat, key: T -> int)
    requires 0 < j <= i < |s| == |t|
    requires key(s[j - 1]) > key(s[j])
    requires t == s[j - 1 := s[j]][j := s[j - 1]]
    requires InsertionGap(s, i, j, key)
    ensures InsertionGap(t, i, j - 1, key)
  {
    forall p, q | 0 <= p < q <= i && p != j - 1 && q != j - 1
      ensures key(t[p]) <= key(t[q])
    {
      if q == j {
        assert key(s[p]) <= key(s[j - 1]);
      } else if p == j {
        assert key(s[j - 1]) <= key(s[q]);
      }
    }
  }

  /** Once nothing larger is left before the gap, the prefix up to `i` is sorted. */
  lemma InsertionDone<T>(s: seq<T>, i: nat, j: nat, key: T -> int)
    requires j <= i < |s|
    requires InsertionGap(s, i, j, key)
    requires j == 0 || key(s[j - 1]) <= key(s[j])
    ensures SortedBy(s[..i + 1], key)
  {
    var u := s[..i + 1];
    forall p, q | 0 <= p < q < |u|
      ensures key(u[p]) <= key(u[q])
    {
      assert u[p] == s[p] && u[q] == s[q];
      if q == j {
        assert key(s[p]) <= key(s[j - 1]);
      }
    }
  }

  /**
   * Moves `a[i]` left past the strictly larger keys before it, so that the
   * prefix `a[..i + 1]` is sorted when `a[..i]` was.
   */
  method InsertAt<T>(a: array<T>, i: nat, key: T -> int)
    requires i < a.Length
    requires SortedBy(a[..i], key)
    modifies a
    ensures SortedBy(a[..i + 1], key)
    ensures a[i + 1..] == old(a[i + 1..])
    ensures multiset(a[..]) == multiset(old(a[..]))
  {
    InsertionStart(a[..], i, key);
    var j := i;
    while j > 0 && key(a[j - 1]) > key(a[j])
      invariant 0 <= j <= i
      invariant InsertionGap(a[..], i, j, key)
      invariant a[i + 1..] == old(a[i + 1..])
      invariant multiset(a[..]) == multiset(old(a[..]))
    {
      ghost var before := a[..];
      SwapDown(a, j);
      InsertionStep(before, a[..], i, j, key);
      j := j - 1;
    }
    InsertionDone(a[..], i, j, key);
  }

  /**
   * Sorts `a` in place so that the keys ascend; the result is a permutation of
   * the original contents.
   */
  method SortBy<T>(a: array<T>, key: T -> int)
    modifies a
    ensures SortedBy(a[..], key)
    ensures multiset(a[..]) == multiset(old(a[..]))
  {
    var i := 0;
    while i < a.Length
      invariant 0 <= i <= a.Length
      invariant SortedBy(a[..i], key)
      invariant multiset(a[..]) == multiset(old(a[..]))
    {
      InsertAt(a, i, key);
      i := i + 1;
    }
    assert a[..a.Length] == a[..];
  }
}
