/**
 * The strategy pattern of pattern/07_strategy.go: a `Context` holds one of two sorting
 * strategies, bubble sort and quicksort (Lomuto partition), and runs it on a slice of ints in
 * place. Both strategies leave the slice in ascending order and a permutation of what it held;
 * since an ascending permutation is unique, both leave exactly the same slice.
 */
module Strategy {
  import Sorting

  /** Ascending order of a sequence of ints. */
  ghost predicate Sorted(s: seq<int>) {
    forall i, j :: 0 <= i < j < |s| ==> s[i] <= s[j]
  }

  /** The order `<=` on ints, as a comparator for the reference sort. */
  predicate IntLe(x: int, y: int) {
    x <= y
  }

  /** The reference result: the values of `s` in ascending order. */
  function Ascending(s: seq<int>): (r: seq<int>)
    ensures multiset(r) == multiset(s) && Sorted(r)
  {
    IntLeTotalPreorder();
    Sorting.SortBySorted(s, IntLe);
    Sorting.SortBy(s, IntLe)
  }

  lemma {:induction false} IntLeTotalPreorder()
    ensures Sorting.TotalPreorder(IntLe) && Sorting.Antisymmetric(IntLe)
  {
  }

  /** An array sorted in place equals the reference result of what it held. */
  lemma {:induction false} SortedIsAscending(s: seq<int>, was: seq<int>)
    requires Sorted(s) && multiset(s) == multiset(was)
    ensures s == Ascending(was)
  {
    IntLeTotalPreorder();
    Sorting.SortedByUnique(s, Ascending(was), IntLe);
  }

  /** The two concrete strategies; Go's SortStrategy interface has exactly these two. */
  datatype SortStrategy = BubbleSortStrategy | QuickSortStrategy

  /** `s` with the cells at `i` and `j` exchanged. */
  function Swapped(s: seq<int>, i: int, j: int): (r: seq<int>)
    requires 0 <= i < |s| && 0 <= j < |s|
    ensures |r| == |s| && multiset(r) == multiset(s)
    ensures r[i] == s[j] && r[j] == s[i]
    ensures forall k :: 0 <= k < |s| && k != i && k != j ==> r[k] == s[k]
  {
    s[i := s[j]][j := s[i]]
  }

  /** Ascending order on the cells lo..hi-1 (indices outside `s` are ignored). */
  ghost predicate SortedRange(s: seq<int>, lo: int, hi: int) {
    forall i, j :: lo <= i < j < hi && 0 <= i && j < |s| ==> s[i] <= s[j]
  }

  /** Every cell before `m` is at most every cell from `m` on. */
  ghost predicate Split(s: seq<int>, m: int) {
    forall k, l :: 0 <= k < m <= l < |s| ==> s[k] <= s[l]
  }

  /** `s` and `t` agree outside the cells lo..hi. */
  ghost predicate SameOutside(s: seq<int>, t: seq<int>, lo: int, hi: int) {
    |s| == |t| && forall k :: 0 <= k < |s| && !(lo <= k <= hi) ==> s[k] == t[k]
  }

  /** No cell of s[0..j] exceeds s[j]. */
  ghost predicate MaxAt(s: seq<int>, j: int) {
    0 <= j < |s| && forall k :: 0 <= k <= j ==> s[k] <= s[j]
  }

  /** One comparison of the inner loop of bubble sort: exchange j and j+1 when out of order. */
  function CompareSwap(s: seq<int>, j: int): seq<int>
    requires 0 <= j < |s| - 1
  {
    if s[j] > s[j + 1] then Swapped(s, j, j + 1) else s
  }

  /** The comparison at j carries the largest of s[0..j] to j+1 and keeps the sorted tail. */
  lemma {:induction false} CompareSwapKeeps(s: seq<int>, j: int, m: int)
    requires 0 <= j && j + 1 < m <= |s|
    requires MaxAt(s, j) && SortedRange(s, m, |s|) && Split(s, m)
    ensures var t := CompareSwap(s, j);
      && MaxAt(t, j + 1)
      && SortedRange(t, m, |s|) && Split(t, m) && multiset(t) == multiset(s) && |t| == |s|
  {
  }

  /** At the end of a pass the largest of s[0..m-1] sits at m-1, so the sorted tail grows. */
  lemma {:induction false} PassDone(s: seq<int>, m: int)
    requires 0 < m <= |s|
    requires MaxAt(s, m - 1) && SortedRange(s, m, |s|) && Split(s, m)
    ensures SortedRange(s, m - 1, |s|) && Split(s, m - 1)
  {
  }

  /** BubbleSortStrategy.Sort: after pass i the last i places hold the largest values in order. */
  method BubbleSort(a: array<int>)
    modifies a
    ensures Sorted(a[..]) && multiset(a[..]) == multiset(old(a[..]))
  {
    var n := a.Length;
    var i := 0;
    while i < n - 1
      invariant 0 <= i <= if n == 0 then 0 else n - 1
      invariant multiset(a[..]) == multiset(old(a[..]))
      invariant SortedRange(a[..], n - i, n) && Split(a[..], n - i)
    {
      BubblePass(a, n - i);
      i := i + 1;
    }
    assert n > 0 ==> SortedRange(a[..], 1, n) && Split(a[..], 1);
  }

  /** The inner loop of bubble sort over a[0..m-1]: the largest of those cells moves to m-1, so
      the sorted tail grows by one cell. */
  method BubblePass(a: array<int>, m: int)
    requires 0 < m <= a.Length
    requires SortedRange(a[..], m, a.Length) && Split(a[..], m)
    modifies a
    ensures SortedRange(a[..], m - 1, a.Length) && Split(a[..], m - 1)
    ensures multiset(a[..]) == multiset(old(a[..]))
  {
    var j := 0;
    while j < m - 1
      invariant 0 <= j <= m - 1
      invariant multiset(a[..]) == multiset(old(a[..]))
      invariant SortedRange(a[..], m, a.Length) && Split(a[..], m)
      invariant MaxAt(a[..], j)
    {
      ghost var s := a[..];
      CompareSwapKeeps(s, j, m);
      if a[j] > a[j + 1] {
        a[j], a[j + 1] := a[j + 1], a[j];
      }
      assert a[..] == CompareSwap(s, j);
      j := j + 1;
    }
    PassDone(a[..], m);
  }

  /** low..i holds values below the pivot and i+1..j-1 the others. */
  ghost predicate Grouped(s: seq<int>, low: int, i: int, j: int, pivot: int) {
    0 <= low && low - 1 <= i < j <= |s|
    && (forall k :: low <= k <= i ==> s[k] < pivot)
    && (forall k :: i < k < j ==> s[k] >= pivot)
  }

  /** One step of the partition loop: a value below the pivot is swapped to the end of the
      first group, any other value joins the second group where it is. */
  lemma {:induction false} PartitionStep(s: seq<int>, low: int, i: int, j: int, pivot: int)
    requires Grouped(s, low, i, j, pivot) && j < |s|
    ensures s[j] < pivot ==> Grouped(Swapped(s, i + 1, j), low, i + 1, j + 1, pivot)
    ensures s[j] >= pivot ==> Grouped(s, low, i, j + 1, pivot)
  {
  }

  /** partition: the old last element of the range lands at `p`, smaller values before it,
      the others after it. */
  method Partition(a: array<int>, low: int, high: int) returns (p: int)
    requires 0 <= low <= high < a.Length
    modifies a
    ensures low <= p <= high && a[p] == old(a[high])
    ensures forall k :: low <= k < p ==> a[k] < a[p]
    ensures forall k :: p < k <= high ==> a[k] >= a[p]
    ensures SameOutside(a[..], old(a[..]), low, high)
    ensures multiset(a[..]) == multiset(old(a[..]))
  {
    var pivot := a[high];
    var i := PartitionScan(a, low, high);
    ghost var s := a[..];
    Swap(a, i + 1, high);
    SwapInside(s, old(a[..]), i + 1, high, low, high);
    PivotPlaced(s, low, i, high, pivot);
    p := i + 1;
  }

  /** The loop of partition: moves the values below the pivot a[high] to low..i and leaves the
      others in i+1..high-1. */
  method PartitionScan(a: array<int>, low: int, high: int) returns (i: int)
    requires 0 <= low <= high < a.Length
    modifies a
    ensures i < high && a[high] == old(a[high]) && Grouped(a[..], low, i, high, a[high])
    ensures SameOutside(a[..], old(a[..]), low, high)
    ensures multiset(a[..]) == multiset(old(a[..]))
  {
    var pivot := a[high];
    i := low - 1;
    var j := low;
    while j < high
      invariant j <= high && a[high] == pivot
      invariant Grouped(a[..], low, i, j, pivot)
      invariant SameOutside(a[..], old(a[..]), low, high)
      invariant multiset(a[..]) == multiset(old(a[..]))
    {
      PartitionStep(a[..], low, i, j, pivot);
      if a[j] < pivot {
        ghost var s := a[..];
        Swap(a, i + 1, j);
        SwapInside(s, old(a[..]), i + 1, j, low, high);
        i := i + 1;
      }
      j := j + 1;
    }
  }

  /** The closing swap puts the pivot between the two groups. */
  lemma {:induction false} PivotPlaced(s: seq<int>, low: int, i: int, high: int, pivot: int)
    requires Grouped(s, low, i, high, pivot) && high < |s| && s[high] == pivot
    ensures var t := Swapped(s, i + 1, high);
      && t[i + 1] == pivot
      && (forall k :: low <= k < i + 1 ==> t[k] < pivot)
      && (forall k :: i + 1 < k <= high ==> t[k] >= pivot)
  {
  }

  /** The swap `a[x], a[y] = a[y], a[x]`. */
  method Swap(a: array<int>, x: int, y: int)
    requires 0 <= x < a.Length && 0 <= y < a.Length
    modifies a
    ensures a[..] == Swapped(old(a[..]), x, y)
  {
    a[x], a[y] := a[y], a[x];
  }

  /** A swap of two cells of lo..hi keeps the cells outside the range and the multiset. */
  lemma {:induction false} SwapInside(s: seq<int>, orig: seq<int>, x: int, y: int, lo: int, hi: int)
    requires lo <= x <= hi && lo <= y <= hi && 0 <= x < |s| && 0 <= y < |s|
    requires SameOutside(s, orig, lo, hi) && multiset(s) == multiset(orig)
    ensures SameOutside(Swapped(s, x, y), orig, lo, hi) && multiset(Swapped(s, x, y)) == multiset(orig)
  {
  }

  /** Equal multisets and equal cells outside lo..hi-1 give equal multisets on lo..hi-1. */
  lemma {:induction false} RangeMultiset(s: seq<int>, t: seq<int>, lo: int, hi: int)
    requires 0 <= lo <= hi <= |s| == |t| && multiset(s) == multiset(t)
    requires forall k :: 0 <= k < |s| && !(lo <= k < hi) ==> s[k] == t[k]
    ensures multiset(s[lo..hi]) == multiset(t[lo..hi])
  {
    assert s[..lo] == t[..lo];
    assert s[hi..] == t[hi..];
    Thirds(s, lo, hi);
    Thirds(t, lo, hi);
    MultisetCancel(multiset(s[..lo]), multiset(s[lo..hi]), multiset(t[lo..hi]), multiset(s[hi..]));
  }

  lemma {:induction false} MultisetCancel(a: multiset<int>, b: multiset<int>, b': multiset<int>, c: multiset<int>)
    requires a + b + c == a + b' + c
    ensures b == b'
  {
    forall x ensures b[x] == b'[x] {
      assert (a + b + c)[x] == (a + b' + c)[x];
    }
  }

  lemma {:induction false} Thirds(s: seq<int>, lo: int, hi: int)
    requires 0 <= lo <= hi <= |s|
    ensures multiset(s) == multiset(s[..lo]) + multiset(s[lo..hi]) + multiset(s[hi..])
  {
    assert s == s[..lo] + s[lo..hi] + s[hi..];
  }

  /** A bound on every cell of lo..hi-1 of `t` holds on `s` when the two agree outside the
      range and are permutations of each other. */
  lemma {:induction false} BoundsCarry(s: seq<int>, t: seq<int>, lo: int, hi: int, x: int)
    requires 0 <= lo <= hi <= |s| == |t| && multiset(s) == multiset(t)
    requires forall k :: 0 <= k < |s| && !(lo <= k < hi) ==> s[k] == t[k]
    ensures (forall k :: lo <= k < hi ==> t[k] < x) ==> (forall k :: lo <= k < hi ==> s[k] < x)
    ensures (forall k :: lo <= k < hi ==> t[k] >= x) ==> (forall k :: lo <= k < hi ==> s[k] >= x)
  {
    RangeMultiset(s, t, lo, hi);
    forall k | lo <= k < hi ensures exists m :: lo <= m < hi && t[m] == s[k] {
      assert s[lo..hi][k - lo] == s[k];
      assert s[k] in multiset(t[lo..hi]);
      var m :| 0 <= m < hi - lo && t[lo..hi][m] == s[k];
      assert t[lo + m] == s[k];
    }
  }

  /** The two recursive calls of quickSort, around the pivot at `p`, sort low..high. */
  lemma {:induction false} QuickSortCombine(a1: seq<int>, a2: seq<int>, a3: seq<int>, low: int, p: int, high: int)
    requires 0 <= low <= p <= high < |a1|
    requires forall k :: low <= k < p ==> a1[k] < a1[p]
    requires forall k :: p < k <= high ==> a1[k] >= a1[p]
    requires multiset(a2) == multiset(a1) && SameOutside(a2, a1, low, p - 1)
    requires SortedRange(a2, low, p)
    requires multiset(a3) == multiset(a2) && SameOutside(a3, a2, p + 1, high)
    requires SortedRange(a3, p + 1, high + 1)
    ensures SortedRange(a3, low, high + 1)
  {
    BoundsCarry(a2, a1, low, p, a1[p]);
    BoundsCarry(a3, a2, p + 1, high + 1, a1[p]);
  }

  /** quickSort: sorts a[low..high] (both ends included) and touches nothing else; a range
      with low >= high is left alone, as in the source. */
  method QuickSort(a: array<int>, low: int, high: int)
    requires low >= high || (0 <= low && high < a.Length)
    modifies a
    decreases high - low
    ensures SortedRange(a[..], low, high + 1)
    ensures low >= high ==> a[..] == old(a[..])
    ensures SameOutside(a[..], old(a[..]), low, high)
    ensures multiset(a[..]) == multiset(old(a[..]))
  {
    if low < high {
      var p := Partition(a, low, high);
      ghost var a1 := a[..];
      QuickSort(a, low, p - 1);
      ghost var a2 := a[..];
      QuickSort(a, p + 1, high);
      QuickSortCombine(a1, a2, a[..], low, p, high);
    }
  }

  /** QuickSortStrategy.Sort: quickSort over the whole slice. */
  method QuickSortAll(a: array<int>)
    modifies a
    ensures Sorted(a[..]) && multiset(a[..]) == multiset(old(a[..]))
  {
    QuickSort(a, 0, a.Length - 1);
  }

  /** Runs one strategy on `a`; either way `a` ends up as the reference result. */
  method Run(strategy: SortStrategy, a: array<int>)
    modifies a
    ensures a[..] == Ascending(old(a[..]))
  {
    if strategy == BubbleSortStrategy {
      BubbleSort(a);
    } else {
      QuickSortAll(a);
    }
    SortedIsAscending(a[..], old(a[..]));
  }

  /** Context: holds the current strategy, which SetStrategy replaces. */
  class Context {
    var strategy: SortStrategy

    /** NewContext */
    constructor (strategy: SortStrategy)
      ensures this.strategy == strategy
    {
      this.strategy := strategy;
    }

    method SetStrategy(strategy: SortStrategy)
      modifies this
      ensures this.strategy == strategy
    {
      this.strategy := strategy;
    }

    /** ExecuteStrategy: sorts `a` with the current strategy; the context is unchanged. */
    method ExecuteStrategy(a: array<int>)
      modifies a
      ensures a[..] == Ascending(old(a[..]))
    {
      Run(strategy, a);
    }
  }
}
