/**
 * The sort of `task1`: quicksort on an inclusive index range of an integer
 * array, with a median-of-three pivot parked at `Right - 1` and partition
 * scans that need no bounds checks because `a[Left] <= pivot` and
 * `a[Right - 1] == pivot` stop them.
 */
module Quicksort {

  /** `s[lo..hi]` (both ends included) is in ascending order. */
  ghost predicate SortedRange(s: seq<int>, lo: int, hi: int) {
    forall p, q :: lo <= p <= q <= hi && 0 <= p && q < |s| ==> s[p] <= s[q]
  }

  /** Every element of `s[lo..hi]` is at most `x`. */
  ghost predicate AllAtMost(s: seq<int>, lo: int, hi: int, x: int) {
    forall k :: lo <= k <= hi && 0 <= k < |s| ==> s[k] <= x
  }

  /** Every element of `s[lo..hi]` is at least `x`. */
  ghost predicate AllAtLeast(s: seq<int>, lo: int, hi: int, x: int) {
    forall k :: lo <= k <= hi && 0 <= k < |s| ==> s[k] >= x
  }

  /** `s` and `t` hold the same elements outside `[lo, hi]`. */
  ghost predicate SameOutside(s: seq<int>, t: seq<int>, lo: int, hi: int) {
    |s| == |t| && forall k :: 0 <= k < |s| && (k < lo || k > hi) ==> s[k] == t[k]
  }

  /** The middle value of three. */
  function Median(x: int, y: int, z: int): int {
    if (x <= y && y <= z) || (z <= y && y <= x) then y
    else if (y <= x && x <= z) || (z <= x && x <= y) then x
    else z
  }

  function Min(x: int, y: int): int {
    if x <= y then x else y
  }

  function Max(x: int, y: int): int {
    if x <= y then y else x
  }

  /** `swap`. */
  method Swap(a: array<int>, i: int, j: int)
    requires 0 <= i < a.Length && 0 <= j < a.Length
    modifies a
    ensures a[i] == old(a[j]) && a[j] == old(a[i])
    ensures forall k :: 0 <= k < a.Length && k != i && k != j ==> a[k] == old(a[k])
    ensures multiset(a[..]) == old(multiset(a[..]))
  {
    a[i], a[j] := a[j], a[i];
  }

  /**
   * `Median3`: orders `a[Left]`, `a[Center]`, `a[Right]`, parks the median
   * at `Right - 1` and returns it.
   */
  method Median3(a: array<int>, left: int, right: int) returns (pivot: int)
    requires 0 <= left && left + 2 <= right < a.Length
    modifies a
    ensures var c := (left + right) / 2;
            pivot == a[right - 1] == Median(old(a[left]), old(a[c]), old(a[right]))
    ensures a[left] <= a[right - 1] <= a[right]
    ensures var c := (left + right) / 2;
            a[left] == Min(Min(old(a[left]), old(a[c])), old(a[right])) &&
            a[right] == Max(Max(old(a[left]), old(a[c])), old(a[right]))
    ensures var c := (left + right) / 2;
            c < right - 1 ==> a[c] == old(a[right - 1])
    ensures multiset(a[..]) == old(multiset(a[..]))
    ensures forall k :: 0 <= k < a.Length && k != left && k != (left + right) / 2 && k != right - 1 && k != right
                        ==> a[k] == old(a[k])
  {
    var center := (left + right) / 2;
    ghost var m := Median(a[left], a[center], a[right]);
    ghost var lo := Min(Min(a[left], a[center]), a[right]);
    ghost var hi := Max(Max(a[left], a[center]), a[right]);
    if a[left] > a[center] {
      Swap(a, left, center);
    }
    if a[left] > a[right] {
      Swap(a, left, right);
    }
    if a[center] > a[right] {
      Swap(a, center, right);
    }
    assert a[left] <= a[center] <= a[right] && a[center] == m && a[left] == lo && a[right] == hi;
    Swap(a, center, right - 1);
    pivot := a[right - 1];
  }

  /**
   * Lines 60-71: the scans from both ends and the final swap that puts the
   * pivot between the two parts.
   */
  method Partition(a: array<int>, left: int, right: int, pivot: int) returns (i: int)
    requires 0 <= left && left + 2 <= right < a.Length
    requires a[left] <= pivot && a[right - 1] == pivot && a[right] >= pivot
    modifies a
    ensures left < i < right && a[i] == pivot
    ensures AllAtMost(a[..], left, i - 1, pivot) && AllAtLeast(a[..], i + 1, right, pivot)
    ensures multiset(a[..]) == old(multiset(a[..]))
    ensures SameOutside(a[..], old(a[..]), left, right)
  {
    i := Cross(a, left, right, pivot);
    ghost var a1 := a[..];
    Swap(a, i, right - 1);
    assert forall k :: i + 1 <= k <= right && k != right - 1 ==> a[k] == a1[k];
  }

  /**
   * The loop of lines 60-68: scans from both ends, swapping the pair that
   * blocks them, until they cross at `i`.
   */
  method Cross(a: array<int>, left: int, right: int, pivot: int) returns (i: int)
    requires 0 <= left && left + 2 <= right < a.Length
    requires a[left] <= pivot && a[right - 1] == pivot && a[right] >= pivot
    modifies a
    ensures left < i < right && a[right - 1] == pivot
    ensures AllAtMost(a[..], left, i - 1, pivot) && AllAtLeast(a[..], i, right, pivot)
    ensures multiset(a[..]) == old(multiset(a[..]))
    ensures SameOutside(a[..], old(a[..]), left, right)
  {
    ghost var a0 := a[..];
    i := left;
    var j := right - 1;
    while true
      invariant left <= i < j <= right - 1
      invariant AllAtMost(a[..], left, i, pivot) && AllAtLeast(a[..], j, right - 1, pivot)
      invariant a[right - 1] == pivot && a[right] >= pivot
      invariant multiset(a[..]) == multiset(a0) && SameOutside(a[..], a0, left, right)
      decreases j - i
    {
      i := ScanUp(a, i, j, pivot);
      j := ScanDown(a, left, i, j, pivot);
      if i < j {
        Swap(a, i, j);
      } else {
        break;
      }
    }
  }

  /**
   * `while (a[++i] < Pivot)`: the next index after `i` holding a value not
   * below the pivot; `a[j] >= pivot` stops the scan by `j`.
   */
  method ScanUp(a: array<int>, i: int, j: int, pivot: int) returns (i': int)
    requires 0 <= i < j < a.Length && a[j] >= pivot
    ensures i < i' <= j && a[i'] >= pivot
    ensures forall k :: i < k < i' ==> a[k] < pivot
  {
    i' := i + 1;
    while a[i'] < pivot
      invariant i < i' <= j
      invariant forall k :: i < k < i' ==> a[k] < pivot
      decreases j - i'
    {
      i' := i' + 1;
    }
  }

  /**
   * `while (a[--j] > Pivot)`: the next index before `j` holding a value not
   * above the pivot; everything from `left` to `i - 1` stops the scan.
   */
  method ScanDown(a: array<int>, left: int, i: int, j: int, pivot: int) returns (j': int)
    requires 0 <= left < i <= j < a.Length && AllAtMost(a[..], left, i - 1, pivot)
    ensures i - 1 <= j' < j && a[j'] <= pivot
    ensures forall k :: j' < k < j ==> a[k] > pivot
  {
    j' := j - 1;
    while a[j'] > pivot
      invariant i - 1 <= j' < j
      invariant forall k :: j' < k < j ==> a[k] > pivot
      decreases j'
    {
      j' := j' - 1;
    }
  }

  /** `Quicksort`: sorts `a[Left..Right]` by swaps, leaving every other cell alone. */
  method Sort(a: array<int>, left: int, right: int)
    requires 0 <= left && right < a.Length
    modifies a
    ensures SortedRange(a[..], left, right)
    ensures multiset(a[..]) == old(multiset(a[..]))
    ensures SameOutside(a[..], old(a[..]), left, right)
    ensures left >= right ==> a[..] == old(a[..])
    ensures right == left + 1 ==> a[left] == Min(old(a[left]), old(a[right])) && a[right] == Max(old(a[left]), old(a[right]))
    decreases right - left
  {
    if left >= right {
      return;
    }
    if right - left + 1 == 2 {
      if a[left] > a[right] {
        Swap(a, left, right);
      }
      return;
    }
    ghost var a0 := a[..];
    var pivot := Median3(a, left, right);
    assert SameOutside(a[..], a0, left, right);
    ghost var am := a[..];
    var i := Partition(a, left, right, pivot);
    ghost var a1 := a[..];
    assert SameOutside(a1, a0, left, right) by {
      SameOutsideTrans(a1, am, a0, left, right);
    }
    Sort(a, left, i - 1);
    ghost var a2 := a[..];
    Sort(a, i + 1, right);
    SortedParts(a[..], a2, a1, left, i, right);
    SameOutsideTrans(a[..], a1, a0, left, right);
  }

  lemma SameOutsideTrans(s: seq<int>, t: seq<int>, u: seq<int>, lo: int, hi: int)
    requires SameOutside(s, t, lo, hi) && SameOutside(t, u, lo, hi)
    ensures SameOutside(s, u, lo, hi)
  {
  }

  /**
   * After the partition (`t1`) and sorting each side in turn (`t2`, then
   * `s`), the whole range is sorted.
   */
  lemma SortedParts(s: seq<int>, t2: seq<int>, t1: seq<int>, lo: int, mid: int, hi: int)
    requires 0 <= lo < mid < hi < |t1|
    requires AllAtMost(t1, lo, mid - 1, t1[mid]) && AllAtLeast(t1, mid + 1, hi, t1[mid])
    requires multiset(t2) == multiset(t1) && SameOutside(t2, t1, lo, mid - 1) && SortedRange(t2, lo, mid - 1)
    requires multiset(s) == multiset(t2) && SameOutside(s, t2, mid + 1, hi) && SortedRange(s, mid + 1, hi)
    ensures SortedRange(s, lo, hi)
    ensures multiset(s) == multiset(t1) && SameOutside(s, t1, lo, hi)
  {
    BoundsKept(t2, t1, lo, mid - 1, t1[mid]);
    BoundsKept(s, t2, mid + 1, hi, t1[mid]);
    assert s[mid] == t1[mid];
    assert AllAtMost(s, lo, mid - 1, s[mid]);
    SortedJoin(s, lo, mid, hi);
  }

  /**
   * Same multiset and same cells outside `[lo, hi]`: the segment itself is
   * a permutation, so bounds on its elements carry over.
   */
  lemma BoundsKept(s: seq<int>, t: seq<int>, lo: int, hi: int, x: int)
    requires 0 <= lo && hi < |s| && lo <= hi + 1
    requires multiset(s) == multiset(t) && SameOutside(s, t, lo, hi)
    ensures AllAtMost(t, lo, hi, x) ==> AllAtMost(s, lo, hi, x)
    ensures AllAtLeast(t, lo, hi, x) ==> AllAtLeast(s, lo, hi, x)
  {
    SegmentPermutation(s, t, lo, hi);
    forall k | lo <= k <= hi
      ensures s[k] in multiset(t[lo..hi + 1])
    {
      assert s[k] == s[lo..hi + 1][k - lo];
      assert s[k] in multiset(s[lo..hi + 1]);
    }
    forall k | lo <= k <= hi
      ensures exists m :: lo <= m <= hi && t[m] == s[k]
    {
      var seg := t[lo..hi + 1];
      assert s[k] in seg;
      var m :| 0 <= m < |seg| && seg[m] == s[k];
      assert t[lo + m] == s[k];
    }
  }

  lemma SegmentPermutation(s: seq<int>, t: seq<int>, lo: int, hi: int)
    requires 0 <= lo && hi < |s| && lo <= hi + 1
    requires multiset(s) == multiset(t) && SameOutside(s, t, lo, hi)
    ensures multiset(s[lo..hi + 1]) == multiset(t[lo..hi + 1])
  {
    MultisetThree(s, lo, hi);
    MultisetThree(t, lo, hi);
    assert s[..lo] == t[..lo];
    assert s[hi + 1..] == t[hi + 1..];
    MultisetCancel(multiset(s[..lo]), multiset(s[lo..hi + 1]), multiset(s[hi + 1..]), multiset(t[lo..hi + 1]));
  }

  /** The elements of `s`: those before `lo`, those in `[lo, hi]`, those after `hi`. */
  lemma MultisetThree(s: seq<int>, lo: int, hi: int)
    requires 0 <= lo && hi < |s| && lo <= hi + 1
    ensures multiset(s) == multiset(s[..lo]) + multiset(s[lo..hi + 1]) + multiset(s[hi + 1..])
  {
    assert s == s[..lo] + s[lo..hi + 1] + s[hi + 1..];
  }

  lemma MultisetCancel(a: multiset<int>, b: multiset<int>, c: multiset<int>, b': multiset<int>)
    requires a + b + c == a + b' + c
    ensures b == b'
  {
    assert b == (a + b + c) - a - c;
    assert b' == (a + b' + c) - a - c;
  }

  /** Two sorted parts around a middle element that separates them make a sorted range. */
  lemma SortedJoin(s: seq<int>, lo: int, mid: int, hi: int)
    requires 0 <= lo <= mid <= hi < |s|
    requires SortedRange(s, lo, mid - 1) && SortedRange(s, mid + 1, hi)
    requires AllAtMost(s, lo, mid - 1, s[mid]) && AllAtLeast(s, mid + 1, hi, s[mid])
    ensures SortedRange(s, lo, hi)
  {
  }
}
