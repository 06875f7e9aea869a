/** Shared helpers of the benchmarks: the unrolled comparison and the instruction length. */
module Util {
  /** `test` and `expected` agree up to `k`. */
  predicate AgreeTo(test: seq<int>, expected: seq<int>, k: int)
    requires 0 <= k <= |test| && |test| == |expected|
  {
    forall i | 0 <= i < k :: test[i] == expected[i]
  }

  /** Zero if the arrays agree, otherwise one more than the first index where they do not. */
  method Verify(n: nat, test: array<int>, expected: array<int>) returns (r: nat)
    requires test.Length == expected.Length == n
    ensures r == 0 ==> test[..] == expected[..]
    ensures r > 0 ==> r <= n && AgreeTo(test[..], expected[..], r - 1) && test[r - 1] != expected[r - 1]
  {
    var i := 0;
    while i < n / 2 * 2
      invariant 0 <= i <= n / 2 * 2 && i % 2 == 0
      invariant forall k | 0 <= k < i :: test[k] == expected[k]
    {
      var t0, t1 := test[i], test[i + 1];
      var v0, v1 := expected[i], expected[i + 1];
      if t0 != v0 { return i + 1; }
      if t1 != v1 { return i + 2; }
      i := i + 2;
    }
    if n % 2 != 0 && test[n - 1] != expected[n - 1] { return n; }
    r := 0;
  }

  /** The length in bytes that the helper reads off the first halfword of an instruction. */
  function InsnLen(halfword: nat): nat { if halfword % 4 != 0 then 4 else 2 }

  /** The length by the encoding: only halfwords whose two low bits are ones begin a 32-bit instruction. */
  function LengthOf(halfword: nat): nat { if halfword % 4 == 3 then 4 else 2 }

  /** The helper is right exactly for 32-bit instructions and for compressed quadrant 0; it takes the
      compressed quadrants 1 and 2 for 32-bit instructions. */
  lemma InsnLenIsRightIff(halfword: nat)
    ensures InsnLen(halfword) == LengthOf(halfword) <==> halfword % 4 == 3 || halfword % 4 == 0
  {
  }
}
