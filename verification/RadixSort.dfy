/** Least-significant-digit radix sort with eight-bit digits, its loops unrolled by four. */
module RadixSort {
  import opened Numbers

  const LOG_BASE := 8
  const BASE := 256
  const TYPE_BITS := 32

  type U32 = x: int | 0 <= x < 0x1_0000_0000

  function Digit(x: nat, e: nat): (d: nat)
    ensures d < BASE
  {
    x / Pow2(e) % BASE
  }

  // -------- one pass, told as a function --------

  /** The elements with digit `d`, in their order. */
  function Filter(s: seq<nat>, e: nat, d: nat): (r: seq<nat>)
    ensures |r| <= |s|
  {
    if s == [] then []
    else (if Digit(s[0], e) == d then [s[0]] else []) + Filter(s[1..], e, d)
  }

  /** The elements with digits below `d`, digit by digit. */
  function Below(s: seq<nat>, e: nat, d: nat): seq<nat>
    decreases d
  {
    if d == 0 then [] else Below(s, e, d - 1) + Filter(s, e, d - 1)
  }

  function Pass(s: seq<nat>, e: nat): seq<nat> { Below(s, e, BASE) }

  /** `log_exp` after `k` passes. */
  function Exp(k: nat): nat { k * LOG_BASE }

  function Passes(s: seq<nat>, k: nat): seq<nat>
    decreases k
  {
    if k == 0 then s else Pass(Passes(s, k - 1), Exp(k - 1))
  }

  lemma FilterCons(x: nat, s: seq<nat>, e: nat, d: nat)
    ensures Filter([x] + s, e, d) == (if Digit(x, e) == d then [x] else []) + Filter(s, e, d)
  {
    assert ([x] + s)[1..] == s;
  }

  lemma {:induction false} FilterConcat(s: seq<nat>, t: seq<nat>, e: nat, d: nat)
    ensures Filter(s + t, e, d) == Filter(s, e, d) + Filter(t, e, d)
  {
    hide Digit;
    if s == [] {
      assert s + t == t;
    } else {
      hide Filter;
      FilterCons(s[0], s[1..], e, d);
      FilterCons(s[0], s[1..] + t, e, d);
      assert s == [s[0]] + s[1..] && s + t == [s[0]] + (s[1..] + t);
      FilterConcat(s[1..], t, e, d);
    }
  }

  // -------- a pass is a stable permutation, ordered by its digit --------

  lemma {:induction false} FilterCount(s: seq<nat>, e: nat, d: nat, v: nat)
    ensures multiset(Filter(s, e, d))[v] == if Digit(v, e) == d then multiset(s)[v] else 0
  {
    hide Digit;
    if s != [] {
      FilterCount(s[1..], e, d, v);
      assert s == [s[0]] + s[1..];
      CountConcat([s[0]], s[1..], v);
      CountConcat(if Digit(s[0], e) == d then [s[0]] else [], Filter(s[1..], e, d), v);
    }
  }

  lemma BelowStep(s: seq<nat>, e: nat, d: nat)
    ensures Below(s, e, d) == if d == 0 then [] else Below(s, e, d - 1) + Filter(s, e, d - 1)
  {
    hide Filter;
  }

  lemma {:induction false} BelowCount(s: seq<nat>, e: nat, d: nat, v: nat)
    ensures multiset(Below(s, e, d))[v] == if Digit(v, e) < d then multiset(s)[v] else 0
    decreases d
  {
    hide Digit, Filter, Below;
    BelowStep(s, e, d);
    if d > 0 {
      BelowCount(s, e, d - 1, v);
      FilterCount(s, e, d - 1, v);
      CountConcat(Below(s, e, d - 1), Filter(s, e, d - 1), v);
    }
  }

  lemma CountConcat(s: seq<nat>, t: seq<nat>, v: nat)
    ensures multiset(s + t)[v] == multiset(s)[v] + multiset(t)[v]
  {
  }

  lemma PassPermutes(s: seq<nat>, e: nat)
    ensures multiset(Pass(s, e)) == multiset(s)
  {
    forall v: nat ensures multiset(Pass(s, e))[v] == multiset(s)[v] {
      BelowCount(s, e, BASE, v);
    }
  }

  lemma {:induction false} FilterOfFilter(s: seq<nat>, e: nat, k: nat, d: nat)
    ensures Filter(Filter(s, e, k), e, d) == if k == d then Filter(s, e, d) else []
  {
    if s != [] {
      FilterOfFilter(s[1..], e, k, d);
      var rest := Filter(s[1..], e, k);
      FilterCons(s[0], rest, e, d);
      assert Filter(s, e, k) == if Digit(s[0], e) == k then [s[0]] + rest else rest;
      hide Digit;
    }
  }

  lemma {:induction false} FilterOfBelow(s: seq<nat>, e: nat, k: nat, d: nat)
    ensures Filter(Below(s, e, k), e, d) == if d < k then Filter(s, e, d) else []
    decreases k
  {
    hide Digit;
    if k == 0 {
      assert Below(s, e, k) == [];
    } else {
      var a, b := Below(s, e, k - 1), Filter(s, e, k - 1);
      assert Below(s, e, k) == a + b;
      hide Below, Filter;
      FilterOfBelow(s, e, k - 1, d);
      FilterOfFilter(s, e, k - 1, d);
      FilterConcat(a, b, e, d);
    }
  }

  /** Elements with the same digit keep their order. */
  lemma PassIsStable(s: seq<nat>, e: nat, d: nat)
    requires d < BASE
    ensures Filter(Pass(s, e), e, d) == Filter(s, e, d)
  {
    FilterOfBelow(s, e, BASE, d);
  }

  /** Sorted by the low `e` bits. */
  predicate SortedLow(s: seq<nat>, e: nat) {
    forall i, j | 0 <= i < j < |s| :: s[i] % Pow2(e) <= s[j] % Pow2(e)
  }

  lemma {:induction false} FilterMember(s: seq<nat>, e: nat, d: nat, x: nat)
    ensures x in Filter(s, e, d) <==> x in s && Digit(x, e) == d
  {
    if s != [] {
      FilterMember(s[1..], e, d, x);
      assert s == [s[0]] + s[1..];
    }
  }

  lemma {:induction false} FilterSorted(s: seq<nat>, e: nat, d: nat)
    requires SortedLow(s, e)
    ensures SortedLow(Filter(s, e, d), e)
  {
    if s != [] {
      FilterSorted(s[1..], e, d);
      var rest := Filter(s[1..], e, d);
      forall j | 0 <= j < |rest| ensures s[0] % Pow2(e) <= rest[j] % Pow2(e) {
        FilterMember(s[1..], e, d, rest[j]);
        assert rest[j] in s[1..];
      }
    }
  }

  /** The low bits with one digit more. */
  lemma LowWithDigit(x: nat, e: nat)
    ensures x % Pow2(e + LOG_BASE) == x % Pow2(e) + Pow2(e) * Digit(x, e)
  {
    BaseIsPow2();
    Pow2Add(e, LOG_BASE);
    DivDiv(x, Pow2(e), BASE);
  }

  lemma LowOrder(x: nat, y: nat, e: nat)
    requires Digit(x, e) < Digit(y, e) || (Digit(x, e) == Digit(y, e) && x % Pow2(e) <= y % Pow2(e))
    ensures x % Pow2(e + LOG_BASE) <= y % Pow2(e + LOG_BASE)
  {
    LowWithDigit(x, e);
    LowWithDigit(y, e);
    MulStep(Digit(x, e), Digit(y, e), Pow2(e));
    assert Pow2(e) * Digit(x, e) == Digit(x, e) * Pow2(e) && Pow2(e) * Digit(y, e) == Digit(y, e) * Pow2(e);
  }

  lemma {:induction false} BelowMember(s: seq<nat>, e: nat, d: nat, x: nat)
    ensures x in Below(s, e, d) <==> x in s && Digit(x, e) < d
    decreases d
  {
    if d != 0 {
      BelowMember(s, e, d - 1, x);
      FilterMember(s, e, d - 1, x);
    }
  }

  /** An element with a smaller digit, or with the same one from a sorted list, comes first. */
  lemma JoinSorted(a: seq<nat>, b: seq<nat>, e: nat, d: nat)
    requires SortedLow(a, e + LOG_BASE) && SortedLow(b, e)
    requires (forall x <- a :: Digit(x, e) < d) && (forall y <- b :: Digit(y, e) == d)
    ensures SortedLow(a + b, e + LOG_BASE)
  {
    hide Digit, Pow2;
    forall i, j | 0 <= i < j < |a + b|
      ensures (a + b)[i] % Pow2(e + LOG_BASE) <= (a + b)[j] % Pow2(e + LOG_BASE)
    {
      if j >= |a| {
        assert b[j - |a|] in b;
        if i < |a| {
          assert a[i] in a;
        } else {
          assert b[i - |a|] in b;
        }
        LowOrder((a + b)[i], (a + b)[j], e);
      }
    }
  }

  lemma {:induction false} BelowSorted(s: seq<nat>, e: nat, d: nat)
    requires SortedLow(s, e)
    ensures SortedLow(Below(s, e, d), e + LOG_BASE)
    decreases d
  {
    if d == 0 {
      assert Below(s, e, d) == [];
    } else {
      var a, b := Below(s, e, d - 1), Filter(s, e, d - 1);
      assert Below(s, e, d) == a + b;
      hide Below, Filter, Digit, SortedLow;
      BelowSorted(s, e, d - 1);
      FilterSorted(s, e, d - 1);
      forall x | x in a ensures Digit(x, e) < d - 1 {
        BelowMember(s, e, d - 1, x);
      }
      forall y | y in b ensures Digit(y, e) == d - 1 {
        FilterMember(s, e, d - 1, y);
      }
      JoinSorted(a, b, e, d - 1);
    }
  }

  lemma {:induction false} PassesSort(s: seq<nat>, k: nat)
    ensures multiset(Passes(s, k)) == multiset(s) && SortedLow(Passes(s, k), Exp(k))
    decreases k
  {
    hide Below;
    if k == 0 {
      assert Pow2(Exp(0)) == 1;
    } else {
      assert Exp(k - 1) + LOG_BASE == Exp(k);
      hide SortedLow, Exp;
      PassesSort(s, k - 1);
      PassPermutes(Passes(s, k - 1), Exp(k - 1));
      BelowSorted(Passes(s, k - 1), Exp(k - 1), BASE);
    }
  }

  predicate Sorted(s: seq<nat>) { forall i, j | 0 <= i < j < |s| :: s[i] <= s[j] }

  /** Enough passes for the width of the elements sort them. */
  lemma EnoughPassesSort(s: seq<nat>, k: nat)
    requires forall x <- s :: x < Pow2(Exp(k))
    ensures Sorted(Passes(s, k)) && multiset(Passes(s, k)) == multiset(s)
  {
    hide Pow2, Passes, Exp;
    PassesSort(s, k);
    var t := Passes(s, k);
    forall i, j | 0 <= i < j < |t| ensures t[i] <= t[j] {
      assert t[i] in multiset(t) && t[j] in multiset(t);
      assert t[i] in s && t[j] in s;
      DivIs(t[i], Pow2(Exp(k)), 0, t[i]);
      DivIs(t[j], Pow2(Exp(k)), 0, t[j]);
    }
  }

  // -------- where the buckets lie --------

  function Start(s: seq<nat>, e: nat, d: nat): nat
    decreases d
  {
    if d == 0 then 0 else Start(s, e, d - 1) + |Filter(s, e, d - 1)|
  }

  lemma {:induction false} StartIsLength(s: seq<nat>, e: nat, d: nat)
    ensures Start(s, e, d) == |Below(s, e, d)|
    decreases d
  {
    if d != 0 {
      StartIsLength(s, e, d - 1);
    }
  }

  lemma {:induction false} StartMonotone(s: seq<nat>, e: nat, d: nat, d': nat)
    requires d <= d'
    ensures Start(s, e, d) <= Start(s, e, d')
    decreases d' - d
  {
    if d < d' {
      StartMonotone(s, e, d, d' - 1);
    }
  }

  lemma StartIsAll(s: seq<nat>, e: nat)
    ensures Start(s, e, BASE) == |s|
  {
    StartIsLength(s, e, BASE);
    PassPermutes(s, e);
    assert |multiset(Pass(s, e))| == |Pass(s, e)|;
    assert |multiset(s)| == |s|;
  }

  // -------- histogram --------

  predicate Counted(b: seq<nat>, s: seq<nat>, e: nat, p: int) {
    && |b| == BASE && 0 <= p <= |s|
    && (forall d | 0 <= d < BASE :: b[d] == |Filter(s[..p], e, d)|)
  }

  lemma CountStep(b: seq<nat>, s: seq<nat>, e: nat, p: int)
    requires Counted(b, s, e, p) && p < |s|
    ensures var d := Digit(s[p], e); Counted(b[d := b[d] + 1], s, e, p + 1)
  {
    assert s[..p + 1] == s[..p] + [s[p]];
    forall d | 0 <= d < BASE
      ensures |Filter(s[..p + 1], e, d)| == |Filter(s[..p], e, d)| + (if Digit(s[p], e) == d then 1 else 0)
    {
      FilterConcat(s[..p], [s[p]], e, d);
      assert [s[p]][1..] == [];
    }
  }

  // -------- prefix sums --------

  /** Up to `d` the counts have been added up. */
  predicate Summed(b: seq<nat>, s: seq<nat>, e: nat, d: int) {
    && |b| == BASE && 0 <= d <= BASE
    && (forall k | 0 <= k < d :: b[k] == Start(s, e, k + 1))
    && (forall k | d <= k < BASE :: b[k] == |Filter(s, e, k)|)
  }

  lemma SumStep(b: seq<nat>, s: seq<nat>, e: nat, d: int)
    requires Summed(b, s, e, d) && d < BASE
    ensures Summed(b[d := b[d] + Start(s, e, d)], s, e, d + 1)
    ensures Start(s, e, d + 1) == Start(s, e, d) + b[d]
  {
  }

  // -------- scatter --------

  /** The elements behind `p` stand at the ends of their buckets, and each counter points to the first
      of them. */
  predicate Placed(b: seq<nat>, t: seq<nat>, s: seq<nat>, e: nat, p: int) {
    && |b| == BASE && |t| == |s| && -1 <= p < |s|
    && (forall d | 0 <= d < BASE :: BucketPlaced(b[d], t, s, e, p, d))
  }

  predicate BucketPlaced(at: nat, t: seq<nat>, s: seq<nat>, e: nat, p: int, d: nat)
    requires -1 <= p < |s|
  {
    var done := Filter(s[p + 1..], e, d);
    at + |done| == Start(s, e, d + 1) <= |t| && t[at..at + |done|] == done
  }

  lemma PlaceStart(b: seq<nat>, t: seq<nat>, s: seq<nat>, e: nat)
    requires Summed(b, s, e, BASE) && |t| == |s|
    ensures Placed(b, t, s, e, |s| - 1)
  {
    StartIsAll(s, e);
    forall d | 0 <= d < BASE ensures BucketPlaced(b[d], t, s, e, |s| - 1, d) {
      StartMonotone(s, e, d + 1, BASE);
      assert s[|s|..] == [];
    }
  }

  lemma FilterFrom(s: seq<nat>, e: nat, p: int, d: nat)
    requires 0 <= p < |s|
    ensures Filter(s[p..], e, d) == (if Digit(s[p], e) == d then [s[p]] else []) + Filter(s[p + 1..], e, d)
    ensures |Filter(s[p..], e, d)| <= |Filter(s, e, d)|
  {
    assert s[p..][1..] == s[p + 1..];
    assert s == s[..p] + s[p..];
    FilterConcat(s[..p], s[p..], e, d);
  }

  /** The bucket of the next element still has room in front, and so no other bucket is touched. */
  lemma Room(b: seq<nat>, t: seq<nat>, s: seq<nat>, e: nat, p: int)
    requires Placed(b, t, s, e, p) && p >= 0
    ensures var d := Digit(s[p], e); Start(s, e, d) < b[d] <= Start(s, e, d + 1) <= |t|
  {
    hide Filter, Digit;
    var d := Digit(s[p], e);
    assert BucketPlaced(b[d], t, s, e, p, d);
    FilterFrom(s, e, p, d);
  }

  lemma PlaceStep(b: seq<nat>, t: seq<nat>, s: seq<nat>, e: nat, p: int)
    requires Placed(b, t, s, e, p) && p >= 0
    ensures var d := Digit(s[p], e);
            0 < b[d] <= |t| && Placed(b[d := b[d] - 1], t[b[d] - 1 := s[p]], s, e, p - 1)
  {
    hide Filter, Digit, Start, BucketPlaced;
    var d := Digit(s[p], e);
    Room(b, t, s, e, p);
    var b', t' := b[d := b[d] - 1], t[b[d] - 1 := s[p]];
    forall k | 0 <= k < BASE ensures BucketPlaced(b'[k], t', s, e, p - 1, k) {
      assert BucketPlaced(b[k], t, s, e, p, k);
      if k == d {
        SameBucket(b[d], t, s, e, p, d);
      } else {
        OtherBucket(b[d], b[k], t, s, e, p, d, k);
      }
    }
  }

  lemma SameBucket(at: nat, t: seq<nat>, s: seq<nat>, e: nat, p: int, d: nat)
    requires 0 <= p < |s| && d == Digit(s[p], e) && 0 < at <= |t| && BucketPlaced(at, t, s, e, p, d)
    ensures BucketPlaced(at - 1, t[at - 1 := s[p]], s, e, p - 1, d)
  {
    hide Filter, Digit, Start;
    FilterFrom(s, e, p, d);
    var done := Filter(s[p + 1..], e, d);
    assert t[at - 1 := s[p]][at - 1..at + |done|] == [s[p]] + t[at..at + |done|];
  }

  lemma OtherBucket(at: nat, at': nat, t: seq<nat>, s: seq<nat>, e: nat, p: int, d: nat, k: nat)
    requires 0 <= p < |s| && d == Digit(s[p], e) && k != d && BucketPlaced(at', t, s, e, p, k)
    requires Start(s, e, d) < at <= Start(s, e, d + 1) <= |t|
    ensures BucketPlaced(at', t[at - 1 := s[p]], s, e, p - 1, k)
  {
    hide Filter, Digit, Start;
    var done := Filter(s[p + 1..], e, k);
    FilterFrom(s, e, p, k);
    assert Filter(s[p..], e, k) == done;
    NextStart(s, e, k);
    if k < d {
      StartMonotone(s, e, k + 1, d);
    } else {
      StartMonotone(s, e, d + 1, k);
    }
    SliceApart(t, at - 1, s[p], at', at' + |done|);
  }

  lemma NextStart(s: seq<nat>, e: nat, d: nat)
    ensures Start(s, e, d + 1) == Start(s, e, d) + |Filter(s, e, d)|
  {
  }

  lemma SliceApart(t: seq<nat>, i: int, v: nat, lo: int, hi: int)
    requires 0 <= i < |t| && 0 <= lo <= hi <= |t| && !(lo <= i < hi)
    ensures t[i := v][lo..hi] == t[lo..hi]
  {
  }

  lemma {:induction false} PlacedBelow(b: seq<nat>, t: seq<nat>, s: seq<nat>, e: nat, d: nat)
    requires Placed(b, t, s, e, -1) && d <= BASE
    ensures Start(s, e, d) <= |t| && t[..Start(s, e, d)] == Below(s, e, d)
    decreases d
  {
    if d != 0 {
      PlacedBelow(b, t, s, e, d - 1);
      assert BucketPlaced(b[d - 1], t, s, e, -1, d - 1);
      assert s[0..] == s;
      assert t[..Start(s, e, d)] == t[..Start(s, e, d - 1)] + t[Start(s, e, d - 1)..Start(s, e, d)];
    }
  }

  lemma AllPlaced(b: seq<nat>, t: seq<nat>, s: seq<nat>, e: nat)
    requires Placed(b, t, s, e, -1)
    ensures t == Pass(s, e)
  {
    PlacedBelow(b, t, s, e, BASE);
    StartIsAll(s, e);
    assert t[..|t|] == t;
  }

  // -------- the loops --------

  /** The C macro: adds, and gives back what was there. */
  method FetchAdd(bucket: array<nat>, i: nat, inc: int) returns (before: nat)
    requires i < bucket.Length && bucket[i] + inc >= 0
    modifies bucket
    ensures before == old(bucket[i]) && bucket[..] == old(bucket[..])[i := before + inc]
  {
    before := bucket[i];
    bucket[i] := before + inc;
  }

  lemma CountedStart(b: seq<nat>, s: seq<nat>, e: nat)
    requires |b| == BASE && forall d | 0 <= d < BASE :: b[d] == 0
    ensures Counted(b, s, e, 0)
  {
    assert s[..0] == [];
  }

  method Histogram(arr: array<U32>, bucket: array<nat>, e: nat)
    requires bucket.Length == BASE
    modifies bucket
    ensures Counted(bucket[..], arr[..], e, arr.Length)
  {
    hide Counted, Digit;
    ghost var s := arr[..];
    var b := 0;
    while b < BASE
      invariant 0 <= b <= BASE
      invariant forall d | 0 <= d < b :: bucket[d] == 0
    {
      bucket[b] := 0;
      b := b + 1;
    }
    CountedStart(bucket[..], s, e);
    var n := arr.Length;
    var p := 0;
    while p < n - 3
      invariant 0 <= p <= n && arr[..] == s && Counted(bucket[..], s, e, p)
    {
      var a0, a1, a2, a3 := arr[p], arr[p + 1], arr[p + 2], arr[p + 3];
      Count(bucket, a0, e, s, p);
      Count(bucket, a1, e, s, p + 1);
      Count(bucket, a2, e, s, p + 2);
      Count(bucket, a3, e, s, p + 3);
      p := p + 4;
    }
    while p < n
      invariant 0 <= p <= n && arr[..] == s && Counted(bucket[..], s, e, p)
    {
      Count(bucket, arr[p], e, s, p);
      p := p + 1;
    }
  }

  method Count(bucket: array<nat>, a: U32, e: nat, ghost s: seq<nat>, ghost p: nat)
    requires bucket.Length == BASE && p < |s| && s[p] == a && Counted(bucket[..], s, e, p)
    modifies bucket
    ensures Counted(bucket[..], s, e, p + 1)
  {
    CountStep(bucket[..], s, e, p);
    hide Counted, Digit;
    var _ := FetchAdd(bucket, Digit(a, e), 1);
  }

  lemma SummedStart(b: seq<nat>, s: seq<nat>, e: nat)
    requires Counted(b, s, e, |s|)
    ensures Summed(b, s, e, 1) && b[0] == Start(s, e, 1)
  {
    assert s[..|s|] == s;
    assert Start(s, e, 1) == Start(s, e, 0) + |Filter(s, e, 0)|;
  }

  method PrefixSums(bucket: array<nat>, ghost s: seq<nat>, ghost e: nat)
    requires bucket.Length == BASE && Counted(bucket[..], s, e, |s|)
    modifies bucket
    ensures Summed(bucket[..], s, e, BASE)
  {
    hide Counted, Summed, Start;
    SummedStart(bucket[..], s, e);
    var prev := bucket[0];
    prev := AddUp(bucket, 1, prev, s, e);
    var b := 2;
    while b < BASE
      invariant 2 <= b <= BASE && b % 2 == 0
      invariant Summed(bucket[..], s, e, b) && prev == Start(s, e, b)
    {
      prev := AddUp(bucket, b, prev, s, e);
      prev := AddUp(bucket, b + 1, prev, s, e);
      b := b + 2;
    }
  }

  method AddUp(bucket: array<nat>, b: nat, prev: nat, ghost s: seq<nat>, ghost e: nat) returns (next: nat)
    requires bucket.Length == BASE && b < BASE && Summed(bucket[..], s, e, b) && prev == Start(s, e, b)
    modifies bucket
    ensures Summed(bucket[..], s, e, b + 1) && next == Start(s, e, b + 1)
  {
    SumStep(bucket[..], s, e, b);
    hide Summed, Start;
    var before := FetchAdd(bucket, b, prev);
    next := prev + before;
  }

  /** The counter of the digit of `a` steps down; `a` will stand in front of where it stood. */
  method Reserve(bucket: array<nat>, a: U32, e: nat, ghost t: seq<nat>, ghost s: seq<nat>, ghost p: int)
    returns (at: nat, ghost t': seq<nat>)
    requires bucket.Length == BASE && 0 <= p < |s| && s[p] == a && Placed(bucket[..], t, s, e, p)
    modifies bucket
    ensures 0 < at <= |t| && t' == t[at - 1 := a] && Placed(bucket[..], t', s, e, p - 1)
  {
    PlaceStep(bucket[..], t, s, e, p);
    hide Placed, Digit;
    at := FetchAdd(bucket, Digit(a, e), -1);
    t' := t[at - 1 := a];
  }

  method Scatter(arr: array<U32>, scratch: array<U32>, bucket: array<nat>, e: nat)
    requires arr != scratch && arr.Length == scratch.Length && bucket.Length == BASE
    requires Placed(bucket[..], scratch[..], arr[..], e, arr.Length - 1)
    modifies scratch, bucket
    ensures scratch[..] == Pass(arr[..], e)
  {
    hide Placed, Pass;
    ghost var s, t := arr[..], scratch[..];
    var p := arr.Length - 1;
    while p >= 3
      invariant -1 <= p < arr.Length && arr[..] == s && t == scratch[..] && Placed(bucket[..], t, s, e, p)
    {
      var a0, a1, a2, a3 := arr[p], arr[p - 1], arr[p - 2], arr[p - 3];
      ghost var t0, t1, t2, t3;
      var s0, s1, s2, s3;
      s0, t0 := Reserve(bucket, a0, e, t, s, p);
      s1, t1 := Reserve(bucket, a1, e, t0, s, p - 1);
      s2, t2 := Reserve(bucket, a2, e, t1, s, p - 2);
      s3, t3 := Reserve(bucket, a3, e, t2, s, p - 3);
      scratch[s0 - 1] := a0;
      scratch[s1 - 1] := a1;
      scratch[s2 - 1] := a2;
      scratch[s3 - 1] := a3;
      t := t3;
      p := p - 4;
    }
    while p >= 0
      invariant -1 <= p < arr.Length && arr[..] == s && t == scratch[..] && Placed(bucket[..], t, s, e, p)
    {
      var at;
      ghost var t0;
      at, t0 := Reserve(bucket, arr[p], e, t, s, p);
      scratch[at - 1] := arr[p];
      t := t0;
      p := p - 1;
    }
    AllPlaced(bucket[..], t, s, e);
  }

  /** One pass from `arr` to `scratch`. */
  method SortDigit(arr: array<U32>, scratch: array<U32>, bucket: array<nat>, e: nat)
    requires arr != scratch && arr.Length == scratch.Length && bucket.Length == BASE
    modifies scratch, bucket
    ensures scratch[..] == Pass(old(arr[..]), e) && arr[..] == old(arr[..])
  {
    hide Counted, Summed, Placed, Pass;
    ghost var s := arr[..];
    Histogram(arr, bucket, e);
    assert |s| == arr.Length;
    PrefixSums(bucket, s, e);
    assert arr[..] == s;
    PlaceStart(bucket[..], scratch[..], s, e);
    Scatter(arr, scratch, bucket, e);
  }

  function PassCount(bits: nat): nat { (bits + LOG_BASE - 1) / LOG_BASE }

  /** What `arrIn` holds in the end: after an odd number of passes the last one is lost, because the
      final copy goes the wrong way. */
  function Result(s: seq<nat>, k: nat): seq<nat> { Passes(s, if k % 2 == 0 then k else k - 1) }

  method SortWith(arrIn: array<U32>, scratchIn: array<U32>, bits: nat)
    requires arrIn != scratchIn && arrIn.Length == scratchIn.Length
    modifies arrIn, scratchIn
    ensures arrIn[..] == Result(old(arrIn[..]), PassCount(bits))
  {
    hide Passes, Pass, Exp;
    ghost var was := arrIn[..];
    var logExp := 0;
    var bucket := new nat[BASE];
    var arr, scratch := arrIn, scratchIn;
    ghost var k: nat := 0;
    PassesFrom(was, 0);
    while logExp < bits
      invariant fresh(bucket) && bucket.Length == BASE
      invariant if k % 2 == 0 then arr == arrIn && scratch == scratchIn else arr == scratchIn && scratch == arrIn
      invariant logExp == 8 * k == Exp(k) && k <= PassCount(bits)
      invariant arr[..] == Passes(was, k) && (k > 0 ==> scratch[..] == Passes(was, k - 1))
      decreases bits - logExp
    {
      SortDigit(arr, scratch, bucket, logExp);
      PassesFrom(was, k);
      arr, scratch := scratch, arr;
      logExp := logExp + LOG_BASE;
      k := k + 1;
    }
    if arr != arrIn {
      ghost var final := scratch[..];
      var i := 0;
      while i < arr.Length
        invariant 0 <= i <= arr.Length && scratch[..] == final
      {
        arr[i] := scratch[i];
        i := i + 1;
      }
    }
  }

  lemma PassesFrom(s: seq<nat>, k: nat)
    ensures Passes(s, 0) == s && Exp(0) == 0 && Exp(k + 1) == Exp(k) + LOG_BASE
    ensures Passes(s, k + 1) == Pass(Passes(s, k), Exp(k))
  {
    hide Pass;
  }

  /** Four passes sort any array of 32-bit numbers where it stands. */
  method Sort(arrIn: array<U32>, scratchIn: array<U32>)
    requires arrIn != scratchIn && arrIn.Length == scratchIn.Length
    modifies arrIn, scratchIn
    ensures Sorted(arrIn[..]) && multiset(arrIn[..]) == multiset(old(arrIn[..]))
  {
    hide Passes;
    ghost var was: seq<nat> := arrIn[..];
    SortWith(arrIn, scratchIn, TYPE_BITS);
    assert PassCount(TYPE_BITS) == 4;
    assert Pow2(Exp(4)) == 0x1_0000_0000 by {
      assert Pow2(8) == 0x100;
      Pow2Add(8, 8);
      Pow2Add(16, 16);
    }
    EnoughPassesSort(was, 4);
  }

  // -------- when the final copy does harm --------

  predicate Bounded(s: seq<nat>, k: nat) { forall x <- s :: x < Pow2(Exp(k)) }

  lemma {:induction false} FilterAll(s: seq<nat>, e: nat)
    requires forall x <- s :: Digit(x, e) == 0
    ensures Filter(s, e, 0) == s
  {
    if s != [] {
      FilterAll(s[1..], e);
    }
  }

  lemma {:induction false} PassOfEqualDigits(s: seq<nat>, e: nat, d: nat)
    requires forall x <- s :: Digit(x, e) == 0
    ensures d > 0 ==> Below(s, e, d) == s
    decreases d
  {
    if d > 0 {
      PassOfEqualDigits(s, e, d - 1);
      FilterAll(s, e);
      if d > 1 {
        BelowCountAll(s, e, d);
      }
    }
  }

  lemma BelowCountAll(s: seq<nat>, e: nat, d: nat)
    requires d > 1 && forall x <- s :: Digit(x, e) == 0
    ensures Filter(s, e, d - 1) == []
  {
    if Filter(s, e, d - 1) != [] {
      var x := Filter(s, e, d - 1)[0];
      FilterMember(s, e, d - 1, x);
      assert false;
    }
  }

  /** A value whose digits below the last pass are all zero, in front of a zero. */
  function Witness(k: nat): seq<nat>
    requires k > 0
  {
    [Pow2(Exp(k - 1)), 0]
  }

  lemma BaseIsPow2()
    ensures Pow2(LOG_BASE) == BASE
  {
    assert Pow2(2) == 4 && Pow2(4) == 16 && Pow2(6) == 64;
  }

  lemma ZeroDigit(e: nat, e': nat)
    requires e + LOG_BASE <= e'
    ensures Digit(Pow2(e'), e) == 0 && Digit(0, e) == 0
  {
    hide Pow2;
    BaseIsPow2();
    var a: int, b: int := Pow2(e' - e), Pow2(e' - e - LOG_BASE);
    Pow2Add(e, e' - e);
    Pow2Add(LOG_BASE, e' - e - LOG_BASE);
    assert a * Pow2(e) == Pow2(e) * a;
    DivIs(Pow2(e'), Pow2(e), a, 0);
    DivIs(a, BASE, b, 0);
    DivIs(0, Pow2(e), 0, 0);
  }

  lemma {:induction false} EarlyPassesDoNothing(k: nat, j: nat)
    requires 0 < k && j < k
    ensures Passes(Witness(k), j) == Witness(k)
    decreases j
  {
    hide Below, Digit, Pow2;
    if j > 0 {
      assert Exp(j - 1) + LOG_BASE <= Exp(k - 1);
      EarlyPassesDoNothing(k, j - 1);
      ZeroDigit(Exp(j - 1), Exp(k - 1));
      PassOfEqualDigits(Witness(k), Exp(j - 1), BASE);
    }
  }

  /** The sort works on every input of its width exactly if it takes an even number of passes. */
  lemma SortsIffEvenPasses(k: nat)
    ensures (forall s | Bounded(s, k) :: Sorted(Result(s, k))) <==> k % 2 == 0
  {
    hide Passes, Pow2;
    if k % 2 == 0 {
      forall s | Bounded(s, k) ensures Sorted(Result(s, k)) {
        EnoughPassesSort(s, k);
      }
    } else {
      var s := Witness(k);
      EarlyPassesDoNothing(k, k - 1);
      WitnessFits(k);
      assert Result(s, k) == s;
      assert s[0] > s[1];
      assert !Sorted(s);
    }
  }

  lemma WitnessFits(k: nat)
    requires k > 0
    ensures Bounded(Witness(k), k)
  {
    Pow2Monotone(Exp(k - 1) + 1, Exp(k));
    assert Pow2(Exp(k - 1) + 1) == 2 * Pow2(Exp(k - 1));
    hide Pow2;
  }
}
