/** Iterative quicksort in place: pointers are array indices, `l` and `ir` delimit the elements from
    `l - 1` to `ir - 1`, and the segments still to do stand on a fixed stack of pointers. */
module QuickSort {
  import opened Numbers

  const INSERTION_THRESHOLD := 10
  const NSTACK := 50

  predicate Sorted(s: seq<int>, lo: int, hi: int)
    requires 0 <= lo <= hi <= |s|
  {
    forall p, q | lo <= p < q < hi :: s[p] <= s[q]
  }

  // -------- rearranging a range --------

  /** `t` is `s` with the elements from `lo` to `hi - 1` in another order. */
  predicate Within(s: seq<int>, t: seq<int>, lo: int, hi: int) {
    && 0 <= lo <= hi <= |s| == |t|
    && (forall p | 0 <= p < |s| && !(lo <= p < hi) :: t[p] == s[p])
    && multiset(t) == multiset(s)
  }

  function Swap(s: seq<int>, i: int, j: int): (t: seq<int>)
    requires 0 <= i < |s| && 0 <= j < |s|
    ensures |t| == |s|
  {
    s[i := s[j]][j := s[i]]
  }

  lemma WithinSwap(s: seq<int>, i: int, j: int, lo: int, hi: int)
    requires 0 <= lo <= i < hi <= |s| && lo <= j < hi
    ensures Within(s, Swap(s, i, j), lo, hi)
  {
  }

  lemma WithinTrans(s: seq<int>, t: seq<int>, u: seq<int>, lo: int, hi: int)
    requires Within(s, t, lo, hi) && Within(t, u, lo, hi)
    ensures Within(s, u, lo, hi)
  {
  }

  lemma WithinWiden(s: seq<int>, t: seq<int>, lo: int, hi: int, lo': int, hi': int)
    requires Within(s, t, lo, hi) && 0 <= lo' <= lo && hi <= hi' <= |s|
    ensures Within(s, t, lo', hi')
  {
  }

  lemma Parts(s: seq<int>, v: int, lo: int, hi: int)
    requires 0 <= lo <= hi <= |s|
    ensures multiset(s)[v] == multiset(s[..lo])[v] + multiset(s[lo..hi])[v] + multiset(s[hi..])[v]
  {
    assert s == s[..lo] + s[lo..hi] + s[hi..];
  }

  /** Nothing enters or leaves the range. */
  lemma WithinMember(s: seq<int>, t: seq<int>, lo: int, hi: int, p: int)
    requires Within(s, t, lo, hi) && lo <= p < hi
    ensures exists q :: lo <= q < hi && t[p] == s[q]
  {
    Parts(s, t[p], lo, hi);
    Parts(t, t[p], lo, hi);
    assert s[..lo] == t[..lo] && s[hi..] == t[hi..];
    assert t[p] == t[lo..hi][p - lo];
    assert t[p] in multiset(t[lo..hi]);
    assert t[p] in s[lo..hi];
  }

  // -------- insertion sort --------

  /** `s` is sorted from `base` to `i` but for position `j`, where `value` still has to go, or further
      down. */
  predicate Hole(s: seq<int>, j: int, value: int, base: int, i: int) {
    && 0 <= base <= j <= i < |s|
    && (forall p, q | base <= p < q <= i && p != j && q != j :: s[p] <= s[q])
    && (forall p | j < p <= i :: value <= s[p])
  }

  lemma HoleDown(s: seq<int>, t: seq<int>, j: int, value: int, base: int, i: int)
    requires Hole(s, j, value, base, i) && base < j && value < s[j - 1] && t == s[j := s[j - 1]]
    ensures Hole(t, j - 1, value, base, i) && t[j - 1 := value] == Swap(s[j := value], j, j - 1)
  {
  }

  lemma HoleFilled(s: seq<int>, j: int, value: int, base: int, i: int)
    requires Hole(s, j, value, base, i) && (j == base || s[j - 1] <= value)
    ensures Sorted(s[j := value], base, i + 1)
  {
  }

  lemma HoleStart(s: seq<int>, base: int, i: int)
    requires 0 <= base < i < |s| && Sorted(s, base, i)
    ensures Hole(s, i, s[i], base, i) && s[i := s[i]] == s
  {
  }

  lemma WithinRefl(s: seq<int>, lo: int, hi: int)
    requires 0 <= lo <= hi <= |s|
    ensures Within(s, s, lo, hi)
  {
  }

  /** `value` is on its way down: put at `j`, it would only have changed the order. */
  predicate Moving(was: seq<int>, s: seq<int>, j: int, value: int, base: int, i: int) {
    Hole(s, j, value, base, i) && Within(was, s[j := value], base, i + 1)
  }

  lemma MoveStart(was: seq<int>, base: int, i: int)
    requires 0 <= base < i < |was| && Sorted(was, base, i)
    ensures Moving(was, was, i, was[i], base, i)
  {
    HoleStart(was, base, i);
    WithinRefl(was, base, i + 1);
  }

  lemma MoveDown(was: seq<int>, s: seq<int>, j: int, value: int, base: int, i: int)
    requires Moving(was, s, j, value, base, i) && base < j < |s| && value < s[j - 1]
    ensures Moving(was, s[j := s[j - 1]], j - 1, value, base, i)
  {
    hide Within, Swap;
    var t := s[j := s[j - 1]];
    HoleDown(s, t, j, value, base, i);
    WithinSwap(s[j := value], j, j - 1, base, i + 1);
    WithinTrans(was, s[j := value], t[j - 1 := value], base, i + 1);
  }

  lemma MoveEnd(was: seq<int>, s: seq<int>, j: int, value: int, base: int, i: int)
    requires Moving(was, s, j, value, base, i) && 0 <= base <= j < |s| && (j == base || s[j - 1] <= value)
    ensures i < |s| && Within(was, s[j := value], base, i + 1) && Sorted(s[j := value], base, i + 1)
  {
    HoleFilled(s, j, value, base, i);
  }

  /** The inner loop: element `i` moves down to its place. */
  method Insert(arr: array<int>, base: int, i: int)
    requires 0 <= base < i < arr.Length && Sorted(arr[..], base, i)
    modifies arr
    ensures Within(old(arr[..]), arr[..], base, i + 1) && Sorted(arr[..], base, i + 1)
  {
    hide Within, Sorted, Moving, Hole;
    ghost var was := arr[..];
    MoveStart(was, base, i);
    var value := arr[i];
    var j := i;
    ghost var s := was;
    while value < arr[j - 1]
      invariant base < j <= i && s == arr[..] && Moving(was, s, j, value, base, i)
      decreases j
    {
      MoveDown(was, s, j, value, base, i);
      s := s[j := s[j - 1]];
      arr[j] := arr[j - 1];
      j := j - 1;
      if j == base { break; }
    }
    MoveEnd(was, s, j, value, base, i);
    arr[j] := value;
    assert arr[..] == s[j := value];
  }

  method InsertionSort(n: int, arr: array<int>, base: int)
    requires 0 <= n && 0 <= base && base + n <= arr.Length
    modifies arr
    ensures Within(old(arr[..]), arr[..], base, base + n)
    ensures Sorted(arr[..], base, base + n)
  {
    ghost var was := arr[..];
    WithinRefl(was, base, base + n);
    assert Sorted(was, base, if n > 0 then base + 1 else base);
    hide Within, Sorted;
    var i := base + 1;
    ghost var s := was;
    while i < base + n
      invariant base < i && (i <= base + n || n == 0)
      invariant s == arr[..] && Within(was, s, base, base + n)
      invariant Sorted(s, base, if n > 0 then i else base)
    {
      Insert(arr, base, i);
      ghost var t := arr[..];
      WithinWiden(s, t, base, i + 1, base, base + n);
      WithinTrans(was, s, t, base, base + n);
      s := t;
      i := i + 1;
    }
  }

  // -------- partitioning --------

  /** The median of three stands at `l`, between two sentinels for the scans. */
  predicate Median(s: seq<int>, l: int, ir: int) {
    1 <= l < ir <= |s| && s[l - 1] <= s[l] <= s[ir - 1]
  }

  /** Between two exchanges: what lies below `i` is not above the pivot, what lies from `j - 1` on not
      below it. */
  predicate Crossing(s: seq<int>, l: int, ir: int, i: int, j: int) {
    && 1 <= l < i <= j <= ir <= |s|
    && (if i == l + 1 then j == ir > i + 1 else j < ir)
    && (forall k | l - 1 <= k < i :: s[k] <= s[l])
    && (forall k | j - 1 <= k < ir :: s[l] <= s[k])
  }

  /** Around position `j - 1`: everything in front is at most the pivot, everything from `i - 1` on at
      least, and what is between equals it. */
  predicate Partitioned(s: seq<int>, l: int, ir: int, i: int, j: int) {
    && 1 <= l < j < i <= ir <= |s|
    && (forall p, q | l - 1 <= p < q < ir && !(q < j - 1) && !(p >= i - 1) :: s[p] <= s[q])
  }

  function IfGreater(s: seq<int>, i: int, j: int): (t: seq<int>)
    requires 0 <= i < |s| && 0 <= j < |s|
    ensures |t| == |s|
  {
    if s[i] > s[j] then Swap(s, i, j) else s
  }

  lemma IfGreaterWithin(s: seq<int>, i: int, j: int, lo: int, hi: int)
    requires 0 <= lo <= i < hi <= |s| && lo <= j < hi
    ensures Within(s, IfGreater(s, i, j), lo, hi)
  {
    WithinSwap(s, i, j, lo, hi);
  }

  method SwapAt(arr: array<int>, i: int, j: int)
    requires 0 <= i < arr.Length && 0 <= j < arr.Length
    modifies arr
    ensures arr[..] == Swap(old(arr[..]), i, j)
  {
    arr[i], arr[j] := arr[j], arr[i];
  }

  method SwapIfGreater(arr: array<int>, i: int, j: int)
    requires 0 <= i < arr.Length && 0 <= j < arr.Length
    modifies arr
    ensures arr[..] == IfGreater(old(arr[..]), i, j)
  {
    if arr[i] > arr[j] {
      SwapAt(arr, i, j);
    }
  }

  /** The exchange of the middle element `m` to `l`, and three conditional ones. */
  function Arranged(s: seq<int>, m: int, l: int, ir: int): (t: seq<int>)
    requires 1 <= l && 0 <= m && l + INSERTION_THRESHOLD <= ir <= |s| && m < |s|
    ensures |t| == |s|
  {
    IfGreater(IfGreater(IfGreater(Swap(s, m, l), l - 1, ir - 1), l, ir - 1), l - 1, l)
  }

  lemma ArrangedWithin(s: seq<int>, m: int, l: int, ir: int)
    requires 1 <= l <= m < ir <= |s| && l + INSERTION_THRESHOLD <= ir
    ensures Within(s, Arranged(s, m, l, ir), l - 1, ir)
  {
    hide Within, Swap, IfGreater;
    var s1 := Swap(s, m, l);
    var s2 := IfGreater(s1, l - 1, ir - 1);
    var s3 := IfGreater(s2, l, ir - 1);
    var s4 := IfGreater(s3, l - 1, l);
    WithinSwap(s, m, l, l - 1, ir);
    IfGreaterWithin(s1, l - 1, ir - 1, l - 1, ir);
    IfGreaterWithin(s2, l, ir - 1, l - 1, ir);
    IfGreaterWithin(s3, l - 1, l, l - 1, ir);
    WithinTrans(s, s1, s2, l - 1, ir);
    WithinTrans(s, s2, s3, l - 1, ir);
    WithinTrans(s, s3, s4, l - 1, ir);
  }

  lemma ArrangedMedian(s: seq<int>, m: int, l: int, ir: int)
    requires 1 <= l <= m < ir <= |s| && l + INSERTION_THRESHOLD <= ir
    ensures Median(Arranged(s, m, l, ir), l, ir)
  {
  }

  method MedianOfThree(arr: array<int>, l: int, ir: int)
    requires 1 <= l && l + INSERTION_THRESHOLD <= ir <= arr.Length
    modifies arr
    ensures Within(old(arr[..]), arr[..], l - 1, ir) && Median(arr[..], l, ir)
  {
    hide Within, Median, IfGreater, Swap;
    ghost var s := arr[..];
    var m := (l + ir) / 2 - 1;
    ArrangedWithin(s, m, l, ir);
    ArrangedMedian(s, m, l, ir);
    SwapAt(arr, m, l);
    SwapIfGreater(arr, l - 1, ir - 1);
    SwapIfGreater(arr, l, ir - 1);
    SwapIfGreater(arr, l - 1, l);
  }

  /** The upward scan from `i0` stands behind position `i - 1`: it cannot run past the sentinel. */
  predicate ScanUp(s: seq<int>, l: int, ir: int, i0: int, j0: int, i: int) {
    && Crossing(s, l, ir, i0, j0)
    && i0 < i <= ir && (i == i0 + 1 || i <= j0)
    && (forall k | l - 1 <= k < i - 1 :: s[k] <= s[l])
  }

  predicate ScanDown(s: seq<int>, l: int, ir: int, i0: int, j0: int, j: int) {
    && Crossing(s, l, ir, i0, j0)
    && l < j < j0 <= |s|
    && (forall k | j <= k < ir :: s[l] <= s[k])
  }

  lemma ScanUpStep(s: seq<int>, l: int, ir: int, i0: int, j0: int, i: int)
    requires ScanUp(s, l, ir, i0, j0, i) && s[i - 1] < s[l]
    ensures ScanUp(s, l, ir, i0, j0, i + 1)
  {
  }

  lemma ScanDownStep(s: seq<int>, l: int, ir: int, i0: int, j0: int, j: int)
    requires ScanDown(s, l, ir, i0, j0, j) && s[j - 1] > s[l]
    ensures ScanDown(s, l, ir, i0, j0, j - 1)
  {
  }

  lemma ScanStart(s: seq<int>, l: int, ir: int, i: int, j: int)
    requires Crossing(s, l, ir, i, j)
    ensures ScanUp(s, l, ir, i, j, i + 1) && ScanDown(s, l, ir, i, j, j - 1)
  {
  }

  lemma Exchange(s: seq<int>, l: int, ir: int, i0: int, j0: int, i: int, j: int)
    requires ScanUp(s, l, ir, i0, j0, i) && s[i - 1] >= s[l] && ScanDown(s, l, ir, i0, j0, j) && s[j - 1] <= s[l]
    requires i <= j
    ensures Crossing(Swap(s, i - 1, j - 1), l, ir, i, j) && Swap(s, i - 1, j - 1)[l] == s[l]
    ensures l <= i - 1 < ir && l <= j - 1 < ir
  {
  }

  lemma PlacePivot(s: seq<int>, l: int, ir: int, i0: int, j0: int, i: int, j: int)
    requires ScanUp(s, l, ir, i0, j0, i) && s[i - 1] >= s[l] && ScanDown(s, l, ir, i0, j0, j) && s[j - 1] <= s[l]
    requires j < i
    ensures Partitioned(Swap(s, l, j - 1), l, ir, i, j)
  {
  }

  lemma MedianCrossing(s: seq<int>, l: int, ir: int)
    requires Median(s, l, ir) && l + INSERTION_THRESHOLD <= ir
    ensures Crossing(s, l, ir, l + 1, ir)
  {
  }

  lemma SwapByCopy(s: seq<int>, l: int, j: int)
    requires 0 <= l < |s| && 0 <= j < |s|
    ensures s[l := s[j]][j := s[l]] == Swap(s, l, j)
  {
  }

  /** Up from `i0` to behind the first element that is not below the pivot. */
  method Upward(arr: array<int>, i0: int, a: int, ghost s: seq<int>, ghost l: int, ghost ir: int, ghost j0: int)
    returns (i: int)
    requires s == arr[..] && Crossing(s, l, ir, i0, j0) && a == s[l]
    ensures ScanUp(s, l, ir, i0, j0, i) && s[i - 1] >= a
  {
    ScanStart(s, l, ir, i0, j0);
    hide Crossing;
    i := i0 + 1;
    while arr[i - 1] < a
      invariant ScanUp(s, l, ir, i0, j0, i)
      decreases ir - i
    {
      ScanUpStep(s, l, ir, i0, j0, i);
      i := i + 1;
    }
  }

  method Downward(arr: array<int>, j0: int, a: int, ghost s: seq<int>, ghost l: int, ghost ir: int, ghost i0: int)
    returns (j: int)
    requires s == arr[..] && Crossing(s, l, ir, i0, j0) && a == s[l]
    ensures ScanDown(s, l, ir, i0, j0, j) && s[j - 1] <= a
  {
    ScanStart(s, l, ir, i0, j0);
    hide Crossing;
    j := j0 - 1;
    while arr[j - 1] > a
      invariant ScanDown(s, l, ir, i0, j0, j)
      decreases j
    {
      ScanDownStep(s, l, ir, i0, j0, j);
      j := j - 1;
    }
  }

  /** The pivot, kept in a local, goes between the two halves. */
  method CopyIn(arr: array<int>, l: int, j: int, a: int)
    requires 0 <= l < arr.Length && 0 <= j < arr.Length && a == arr[l]
    modifies arr
    ensures arr[..] == Swap(old(arr[..]), l, j)
  {
    SwapByCopy(arr[..], l, j);
    arr[l] := arr[j];
    arr[j] := a;
  }

  method Partition(arr: array<int>, l: int, ir: int) returns (i: int, j: int)
    requires 1 <= l && l + INSERTION_THRESHOLD <= ir <= arr.Length
    modifies arr
    ensures Within(old(arr[..]), arr[..], l - 1, ir) && Partitioned(arr[..], l, ir, i, j)
  {
    hide Within, Median, Crossing, Partitioned, Swap;
    ghost var was := arr[..];
    MedianOfThree(arr, l, ir);
    i, j := l + 1, ir;
    var a := arr[l];
    ghost var s := arr[..];
    MedianCrossing(s, l, ir);
    while true
      invariant s == arr[..] && s[l] == a && Within(was, s, l - 1, ir) && Crossing(s, l, ir, i, j)
      decreases j - i
    {
      ghost var i0, j0 := i, j;
      i := Upward(arr, i, a, s, l, ir, j0);
      j := Downward(arr, j, a, s, l, ir, i0);
      if j < i {
        PlacePivot(s, l, ir, i0, j0, i, j);
        break;
      }
      Exchange(s, l, ir, i0, j0, i, j);
      WithinSwap(s, i - 1, j - 1, l - 1, ir);
      SwapAt(arr, i - 1, j - 1);
      ghost var t := Swap(s, i - 1, j - 1);
      WithinTrans(was, s, t, l - 1, ir);
      s := t;
    }
    WithinSwap(s, l, j - 1, l - 1, ir);
    WithinTrans(was, s, Swap(s, l, j - 1), l - 1, ir);
    CopyIn(arr, l, j - 1, a);
  }

  // -------- the segments still to do --------

  /** The elements from `l - 1` to `ir - 1`. */
  datatype Seg = Seg(l: int, ir: int)

  function Size(g: Seg): int { g.ir - g.l + 1 }

  predicate Inside(g: Seg, p: int) { g.l - 1 <= p < g.ir }

  predicate Apart(g: Seg, h: Seg) { g.ir < h.l || h.ir < g.l }

  ghost predicate SegsOk(segs: seq<Seg>, n: int) {
    && (forall g <- segs :: 1 <= g.l <= g.ir + 1 && g.ir <= n)
    && (forall i, j | 0 <= i < j < |segs| :: Apart(segs[i], segs[j]))
  }

  /** The segments cover what is not sorted: two elements are in order unless one segment holds both. */
  ghost predicate Ordered(s: seq<int>, segs: seq<Seg>) {
    forall p, q | 0 <= p < q < |s| :: s[p] <= s[q] || exists g <- segs :: Inside(g, p) && Inside(g, q)
  }

  lemma OneHolder(segs: seq<Seg>, cur: Seg, p: int, n: int)
    requires SegsOk(segs + [cur], n) && Inside(cur, p)
    ensures forall g <- segs :: !Inside(g, p)
  {
    forall g | g in segs ensures !Inside(g, p) {
      var i :| 0 <= i < |segs| && segs[i] == g;
      assert Apart((segs + [cur])[i], (segs + [cur])[|segs|]);
    }
  }

  /** Rearranging one segment leaves every pair that it does not hold in order. */
  lemma OtherPairs(s: seq<int>, t: seq<int>, segs: seq<Seg>, cur: Seg, p: int, q: int)
    requires SegsOk(segs + [cur], |s|) && Ordered(s, segs + [cur]) && Within(s, t, cur.l - 1, cur.ir)
    requires 0 <= p < q < |s| && !(Inside(cur, p) && Inside(cur, q))
    ensures t[p] <= t[q] || exists g <- segs :: Inside(g, p) && Inside(g, q)
  {
    var p', q' := p, q;
    if Inside(cur, p) {
      WithinMember(s, t, cur.l - 1, cur.ir, p);
      p' :| Inside(cur, p') && t[p] == s[p'];
      OneHolder(segs, cur, p', |s|);
    } else if Inside(cur, q) {
      WithinMember(s, t, cur.l - 1, cur.ir, q);
      q' :| Inside(cur, q') && t[q] == s[q'];
      OneHolder(segs, cur, q', |s|);
    }
    assert s[p'] <= s[q'] || exists g <- segs + [cur] :: Inside(g, p') && Inside(g, q');
  }

  /** A segment that has been sorted is done. */
  lemma SegmentSorted(s: seq<int>, t: seq<int>, segs: seq<Seg>, cur: Seg)
    requires SegsOk(segs + [cur], |s|) && Ordered(s, segs + [cur])
    requires Within(s, t, cur.l - 1, cur.ir) && Sorted(t, cur.l - 1, cur.ir)
    ensures Ordered(t, segs)
  {
    forall p, q | 0 <= p < q < |t|
      ensures t[p] <= t[q] || exists g <- segs :: Inside(g, p) && Inside(g, q)
    {
      if !(Inside(cur, p) && Inside(cur, q)) {
        OtherPairs(s, t, segs, cur, p, q);
      }
    }
  }

  /** A partitioned segment is covered by its two sides. */
  lemma SegmentSplit(s: seq<int>, t: seq<int>, segs: seq<Seg>, cur: Seg, i: int, j: int, x: Seg, y: Seg)
    requires SegsOk(segs + [cur], |s|) && Ordered(s, segs + [cur])
    requires Within(s, t, cur.l - 1, cur.ir) && Partitioned(t, cur.l, cur.ir, i, j)
    requires (x == Seg(cur.l, j - 1) && y == Seg(i, cur.ir)) || (x == Seg(i, cur.ir) && y == Seg(cur.l, j - 1))
    ensures Ordered(t, segs + [x] + [y])
  {
    var both := segs + [x] + [y];
    assert forall g | g in segs :: g in both;
    assert both[|segs|] == x && both[|segs| + 1] == y;
    forall p, q | 0 <= p < q < |t|
      ensures t[p] <= t[q] || exists g <- both :: Inside(g, p) && Inside(g, q)
    {
      if !(Inside(cur, p) && Inside(cur, q)) {
        OtherPairs(s, t, segs, cur, p, q);
      } else if q < j - 1 || p >= i - 1 {
        assert (Inside(x, p) && Inside(x, q)) || (Inside(y, p) && Inside(y, q));
      }
    }
  }

  lemma SplitSegsOk(segs: seq<Seg>, cur: Seg, n: int, i: int, j: int, x: Seg, y: Seg)
    requires SegsOk(segs + [cur], n) && cur.l < j < i <= cur.ir
    requires (x == Seg(cur.l, j - 1) && y == Seg(i, cur.ir)) || (x == Seg(i, cur.ir) && y == Seg(cur.l, j - 1))
    ensures SegsOk(segs + [x] + [y], n)
  {
    var whole, both := segs + [cur], segs + [x] + [y];
    forall g | g in both ensures 1 <= g.l <= g.ir + 1 && g.ir <= n {
      assert whole[|segs|] == cur;
      assert g in segs ==> g in whole;
    }
    forall k, m | 0 <= k < m < |both| ensures Apart(both[k], both[m]) {
      if k < |segs| {
        assert Apart(whole[k], whole[if m < |segs| then m else |segs|]);
      }
    }
  }

  // -------- sizes --------

  /** With `d` segments below it on the stack, a segment has at most `n` over `2^d` elements. */
  ghost predicate Halving(segs: seq<Seg>, n: int) {
    forall d | 0 <= d < |segs| :: Size(segs[d]) * Pow2(d) <= n
  }

  /** The larger side takes the segment's place on the stack, the smaller one is at most half of it. */
  lemma LargerSidePushed(segs: seq<Seg>, cur: Seg, n: int, larger: Seg, smaller: Seg)
    requires Halving(segs + [cur], n)
    requires 0 <= Size(smaller) <= Size(larger) && Size(smaller) + Size(larger) <= Size(cur)
    ensures Halving(segs + [larger] + [smaller], n)
  {
    var both := segs + [larger] + [smaller];
    var d := |segs|;
    assert (segs + [cur])[d] == cur;
    MulOrder(Size(larger), Size(cur), Pow2(d));
    MulOrder(2 * Size(smaller), Size(cur), Pow2(d));
    assert Size(smaller) * Pow2(d + 1) == 2 * Size(smaller) * Pow2(d);
    forall k | 0 <= k < |both| ensures Size(both[k]) * Pow2(k) <= n {
      assert k < d ==> both[k] == (segs + [cur])[k];
    }
  }

  /** A segment long enough to be partitioned has few others below it. */
  lemma DepthBound(segs: seq<Seg>, cur: Seg, n: int, pairs: nat)
    requires Halving(segs + [cur], n) && n < (INSERTION_THRESHOLD + 1) * Pow2(pairs)
    requires Size(cur) > INSERTION_THRESHOLD
    ensures |segs| < pairs
  {
    var d := |segs|;
    assert (segs + [cur])[d] == cur;
    MulOrder(INSERTION_THRESHOLD + 1, Size(cur), Pow2(d));
    if d >= pairs {
      Pow2Monotone(pairs, d);
    }
  }

  function Work(segs: seq<Seg>): int {
    if segs == [] then 0 else Work(segs[..|segs| - 1]) + 2 * Size(segs[|segs| - 1]) + 1
  }

  // -------- the sort --------

  /** The stack from `stack[1]` to `stack[stackp]` holds the pointers of `segs`. */
  predicate Stacked(stack: seq<int>, stackp: int, segs: seq<Seg>) {
    && stackp == 2 * |segs| < |stack|
    && (forall d | 0 <= d < |segs| :: stack[2 * d + 1] == segs[d].l && stack[2 * d + 2] == segs[d].ir)
  }

  lemma WholeIsOneSegment(s: seq<int>)
    ensures SegsOk([Seg(1, |s|)], |s|) && Ordered(s, [Seg(1, |s|)]) && Halving([Seg(1, |s|)], |s|)
  {
    var g := Seg(1, |s|);
    assert g in [g];
    assert Pow2(0) == 1;
  }

  lemma AllSorted(s: seq<int>)
    requires Ordered(s, [])
    ensures Sorted(s, 0, |s|)
  {
  }

  /** What holds between rounds. */
  ghost predicate Round(was: seq<int>, s: seq<int>, stack: seq<int>, stackp: int, segs: seq<Seg>, cur: Seg) {
    && Within(was, s, 0, |was|)
    && SegsOk(segs + [cur], |s|) && Ordered(s, segs + [cur]) && Halving(segs + [cur], |s|)
    && Stacked(stack, stackp, segs)
  }

  /** The work left, over all segments. */
  ghost function Todo(segs: seq<Seg>, cur: Seg): int {
    Work(segs) + 2 * Size(cur) + 1
  }

  lemma RoundBounds(was: seq<int>, s: seq<int>, stack: seq<int>, stackp: int, segs: seq<Seg>, cur: Seg)
    requires Round(was, s, stack, stackp, segs, cur)
    ensures 1 <= cur.l <= cur.ir + 1 && cur.ir <= |s| && stackp == 2 * |segs| < |stack| && Todo(segs, cur) > 0
  {
    assert cur in segs + [cur];
    WorkPositive(segs, |s|) by {
      assert forall g | g in segs :: g in segs + [cur];
    }
  }

  lemma {:induction false} WorkPositive(segs: seq<Seg>, n: int)
    requires forall g <- segs :: 1 <= g.l <= g.ir + 1
    ensures Work(segs) >= 0
  {
    if segs != [] {
      WorkPositive(segs[..|segs| - 1], n);
    }
  }

  lemma RoundDepth(was: seq<int>, s: seq<int>, stack: seq<int>, stackp: int, segs: seq<Seg>, cur: Seg, pairs: nat)
    requires Round(was, s, stack, stackp, segs, cur)
    requires |s| < (INSERTION_THRESHOLD + 1) * Pow2(pairs) && Size(cur) > INSERTION_THRESHOLD
    ensures |segs| < pairs
  {
    DepthBound(segs, cur, |s|, pairs);
  }

  lemma FirstRound(was: seq<int>, stack: seq<int>)
    requires stack != []
    ensures Round(was, was, stack, 0, [], Seg(1, |was|))
  {
    WholeIsOneSegment(was);
    WithinRefl(was, 0, |was|);
    assert [] + [Seg(1, |was|)] == [Seg(1, |was|)];
  }

  lemma RoundSorted(was: seq<int>, s: seq<int>, t: seq<int>, stack: seq<int>, segs: seq<Seg>, cur: Seg)
    requires Round(was, s, stack, 2 * |segs|, segs, cur)
    requires Within(s, t, cur.l - 1, cur.ir) && Sorted(t, cur.l - 1, cur.ir)
    ensures multiset(t) == multiset(was) && |t| == |was|
    ensures segs == [] ==> Sorted(t, 0, |t|)
    ensures segs != [] ==>
              var n := |segs| - 1;
              && stack[2 * n + 1] == segs[n].l && stack[2 * n + 2] == segs[n].ir
              && Round(was, t, stack, 2 * n, segs[..n], segs[n])
              && Todo(segs[..n], segs[n]) < Todo(segs, cur)
  {
    WithinWiden(s, t, cur.l - 1, cur.ir, 0, |s|);
    WithinTrans(was, s, t, 0, |was|);
    SegmentSorted(s, t, segs, cur);
    if segs == [] {
      AllSorted(t);
    } else {
      assert segs[..|segs| - 1] + [segs[|segs| - 1]] == segs;
      assert cur in segs + [cur];
      assert forall g | g in segs :: g in segs + [cur];
      assert forall d | 0 <= d < |segs| :: (segs + [cur])[d] == segs[d];
      hide Within, Ordered, Inside;
    }
  }

  /** Partitioning the current segment, with its larger side `x` pushed and the smaller, `y`, current. */
  lemma RoundSplit(was: seq<int>, s: seq<int>, t: seq<int>, stack: seq<int>,
                   segs: seq<Seg>, cur: Seg, i: int, j: int, x: Seg, y: Seg)
    requires Round(was, s, stack, 2 * |segs|, segs, cur)
    requires Within(s, t, cur.l - 1, cur.ir) && Partitioned(t, cur.l, cur.ir, i, j)
    requires (x == Seg(cur.l, j - 1) && y == Seg(i, cur.ir)) || (x == Seg(i, cur.ir) && y == Seg(cur.l, j - 1))
    requires Size(y) <= Size(x) && 2 * |segs| + 2 < |stack|
    ensures Round(was, t, stack[2 * |segs| + 2 := x.ir][2 * |segs| + 1 := x.l], 2 * |segs| + 2, segs + [x], y)
    ensures Todo(segs + [x], y) < Todo(segs, cur)
  {
    WithinWiden(s, t, cur.l - 1, cur.ir, 0, |s|);
    WithinTrans(was, s, t, 0, |was|);
    SegmentSplit(s, t, segs, cur, i, j, x, y);
    SplitSegsOk(segs, cur, |s|, i, j, x, y);
    LargerSidePushed(segs, cur, |s|, x, y);
    assert (segs + [x])[..|segs|] == segs;
    hide Within, Ordered, SegsOk, Halving;
  }

  /** One round on a segment that is too long for insertion sort: partition it, push its larger side, go
      on with the smaller. */
  method Divide(arr: array<int>, stack: array<int>, l0: int, ir0: int, stackp0: nat,
                ghost was: seq<int>, ghost segs0: seq<Seg>)
    returns (l: int, ir: int, stackp: nat, ghost segs: seq<Seg>)
    requires arr != stack && Round(was, arr[..], stack[..], stackp0, segs0, Seg(l0, ir0))
    requires ir0 - l0 >= INSERTION_THRESHOLD && stackp0 == 2 * |segs0| && stackp0 + 2 < stack.Length
    requires 1 <= l0 && ir0 <= arr.Length
    modifies arr, stack
    ensures Round(was, arr[..], stack[..], stackp, segs, Seg(l, ir))
    ensures Todo(segs, Seg(l, ir)) < Todo(segs0, Seg(l0, ir0))
  {
    hide Within, Round, Partitioned, Todo;
    ghost var s, st := arr[..], stack[..];
    var i, j := Partition(arr, l0, ir0);
    ghost var t := arr[..];
    stackp := stackp0 + 2;
    ghost var left, right := Seg(l0, j - 1), Seg(i, ir0);
    if ir0 - i + 1 >= j - l0 {
      stack[stackp] := ir0;
      stack[stackp - 1] := i;
      RoundSplit(was, s, t, st, segs0, Seg(l0, ir0), i, j, right, left);
      segs := segs0 + [right];
      l, ir := l0, j - 1;
    } else {
      stack[stackp] := j - 1;
      stack[stackp - 1] := l0;
      RoundSplit(was, s, t, st, segs0, Seg(l0, ir0), i, j, left, right);
      segs := segs0 + [left];
      l, ir := i, ir0;
    }
    assert arr[..] == t;
  }

  /** One round on a short segment: insertion sort, then the next segment from the stack, if any. */
  method Conclude(arr: array<int>, stack: array<int>, l0: int, ir0: int, stackp0: nat,
                  ghost was: seq<int>, ghost segs0: seq<Seg>)
    returns (done: bool, l: int, ir: int, stackp: nat, ghost segs: seq<Seg>)
    requires arr != stack && Round(was, arr[..], stack[..], stackp0, segs0, Seg(l0, ir0))
    requires 1 <= l0 <= ir0 + 1 && ir0 <= arr.Length && stackp0 == 2 * |segs0| < stack.Length
    modifies arr
    ensures multiset(arr[..]) == multiset(was)
    ensures done ==> Sorted(arr[..], 0, arr.Length)
    ensures !done ==> Round(was, arr[..], stack[..], stackp, segs, Seg(l, ir))
    ensures !done ==> Todo(segs, Seg(l, ir)) < Todo(segs0, Seg(l0, ir0))
  {
    hide Within, Sorted, Round, Todo;
    ghost var s, st := arr[..], stack[..];
    InsertionSort(ir0 - l0 + 1, arr, l0 - 1);
    ghost var t := arr[..];
    RoundSorted(was, s, t, st, segs0, Seg(l0, ir0));
    done, l, ir, stackp, segs := stackp0 == 0, l0, ir0, stackp0, segs0;
    if !done {
      ir, l, stackp := stack[stackp], stack[stackp - 1], stackp - 2;
      segs := segs0[..|segs0| - 1];
      assert stack[..] == st;
    }
  }

  /** Any array is sorted, given a stack with room for as many pairs as halvings take it down to eleven
      elements. */
  method SortWith(arr: array<int>, nstack: nat)
    requires nstack > 0 && arr.Length < (INSERTION_THRESHOLD + 1) * Pow2((nstack - 1) / 2)
    modifies arr
    ensures multiset(arr[..]) == multiset(old(arr[..]))
    ensures Sorted(arr[..], 0, arr.Length)
  {
    hide Within, Sorted, Round, Todo, Pow2;
    ghost var was := arr[..];
    var ir, l := arr.Length, 1;
    var stack := new int[nstack];
    var stackp: nat := 0;
    ghost var segs: seq<Seg> := [];
    FirstRound(was, stack[..]);
    var done := false;
    while !done
      invariant fresh(stack) && stack.Length == nstack
      invariant done ==> multiset(arr[..]) == multiset(was) && Sorted(arr[..], 0, arr.Length)
      invariant !done ==> Round(was, arr[..], stack[..], stackp, segs, Seg(l, ir))
      decreases !done, Todo(segs, Seg(l, ir))
    {
      RoundBounds(was, arr[..], stack[..], stackp, segs, Seg(l, ir));
      if ir - l < INSERTION_THRESHOLD {
        done, l, ir, stackp, segs := Conclude(arr, stack, l, ir, stackp, was, segs);
      } else {
        RoundDepth(was, arr[..], stack[..], stackp, segs, Seg(l, ir), (nstack - 1) / 2);
        l, ir, stackp, segs := Divide(arr, stack, l, ir, stackp, was, segs);
      }
    }
  }

  /** With the fifty-slot stack, every array of fewer than 11 * 2^24 elements. */
  method Sort(arr: array<int>)
    requires arr.Length < 11 * Pow2(24)
    modifies arr
    ensures multiset(arr[..]) == multiset(old(arr[..]))
    ensures Sorted(arr[..], 0, arr.Length)
  {
    SortWith(arr, NSTACK);
  }
}
