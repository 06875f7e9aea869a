/** Physical memory protection: how a test program encodes a region, and how its reference decoder reads
    the encoding back. Registers have `xlen` bits. */
module Pmp {
  import opened Numbers

  const PMP_R := 0x01
  const PMP_TOR := 0x08
  const PMP_NA4 := 0x10
  const PMP_NAPOT := 0x18
  const PMP_SHIFT := 2
  const GRANULE := 4

  /** `mode` is the address-matching field of the configuration, `PMP_A` of it. */
  datatype Pmpcfg = Pmpcfg(mode: nat, a0: nat, a1: nat)

  function Wrap(x: nat, xlen: nat): nat { x % Pow2(xlen) }

  // -------- encoding --------

  function SetPmpRange(base: nat, range: nat, xlen: nat): Pmpcfg {
    Pmpcfg(PMP_TOR, base / GRANULE, Wrap(base + range, xlen) / GRANULE)
  }

  /** `range / 2 - 1` wraps around for a range of one byte. */
  function SetPmpNapot(base: nat, range: nat, xlen: nat): Pmpcfg {
    Pmpcfg(if range > GRANULE then PMP_NAPOT else PMP_NA4, 0,
           Wrap(base + Wrap(range / 2 + Pow2(xlen) - 1, xlen), xlen) / GRANULE)
  }

  // -------- decoding --------

  predicate BitSet(a: nat, i: nat) { a / Pow2(i) % 2 == 1 }

  /** How many of the low `n` bits are ones, up to the first zero from bit `i` on. */
  function Ones(a: nat, i: nat, n: nat): (k: nat)
    requires i <= n
    ensures i <= k <= n
    ensures forall j | i <= j < k :: BitSet(a, j)
    ensures k < n ==> !BitSet(a, k)
    decreases n - i
  {
    if i < n && BitSet(a, i) then Ones(a, i + 1, n) else i
  }

  /** The region as byte addresses, from the first to behind the last. */
  function Region(p: Pmpcfg, xlen: nat): (r: (nat, nat)) {
    if p.mode == PMP_TOR then (Wrap(p.a0 * GRANULE, xlen), Wrap(p.a1 * GRANULE, xlen))
    else
      var k := Ones(p.a1, 0, xlen);
      var low := if p.mode == PMP_NAPOT then Pow2(k) - 1 else 0;
      var range := if p.mode == PMP_NAPOT then Wrap(Pow2(k + 1), xlen) else 1;
      var a0 := if p.a1 >= low then p.a1 - low else 0;
      (Wrap(a0 * GRANULE, xlen), Wrap(Wrap(a0 + range, xlen) * GRANULE, xlen))
  }

  /** Bytes counted by the loop from offset `i` on. */
  function Hits(lo: nat, hi: nat, addr: nat, size: nat, i: nat): nat
    decreases size - i
  {
    if i >= size then 0
    else (if lo <= addr + i < hi then GRANULE else 0) + Hits(lo, hi, addr, size, i + GRANULE)
  }

  predicate Accepts(lo: nat, hi: nat, addr: nat, size: nat) {
    Hits(lo, hi, addr, size, 0) == 0 || Hits(lo, hi, addr, size, 0) >= size
  }

  lemma {:induction false} LowOnes(a: nat, k: nat)
    requires forall j | 0 <= j < k :: BitSet(a, j)
    ensures a % Pow2(k) == Pow2(k) - 1 && a >= Pow2(k) - 1
    decreases k
  {
    if k > 0 {
      LowOnes(a, k - 1);
      DivDiv(a, Pow2(k - 1), 2);
      assert BitSet(a, k - 1);
      assert Pow2(k - 1) * 2 == Pow2(k);
    }
  }

  lemma BitAfterClearing(a: nat, j: nat)
    requires forall i | 0 <= i < j :: BitSet(a, i)
    ensures a >= Pow2(j) - 1 && BitSet(a - (Pow2(j) - 1), j) == BitSet(a, j)
  {
    LowOnes(a, j);
    DivIs(a - (Pow2(j) - 1), Pow2(j), a / Pow2(j), 0);
  }

  /** Clears the trailing ones of `a`, doubling the range for each. */
  method ClearOnes(a: nat, xlen: nat) returns (a1: nat, range: nat)
    requires xlen >= 2
    ensures var k := Ones(a, 0, xlen); a1 + Pow2(k) - 1 == a && range == Wrap(Pow2(k + 1), xlen)
  {
    RangeStart(xlen);
    hide Pow2, BitSet, Wrap;
    a1, range := a, 2;
    var i := 0;
    while i < xlen
      invariant 0 <= i <= xlen && Ones(a, i, xlen) == Ones(a, 0, xlen)
      invariant forall j | 0 <= j < i :: BitSet(a, j)
      invariant a1 + Pow2(i) - 1 == a && range == Wrap(Pow2(i + 1), xlen)
    {
      BitAfterClearing(a, i);
      if !BitSet(a1, i) { break; }
      DoubleRange(i, xlen);
      NextBit(a, i);
      a1 := a1 - Pow2(i);
      range := Wrap(range * 2, xlen);
      i := i + 1;
    }
  }

  lemma NextBit(a: nat, i: nat)
    requires forall j | 0 <= j <= i :: BitSet(a, j)
    ensures a >= Pow2(i + 1) - 1
  {
    LowOnes(a, i + 1);
  }

  method CountHits(lo: nat, hi: nat, addr: nat, size: nat) returns (hits: nat)
    ensures hits == Hits(lo, hi, addr, size, 0)
  {
    hits := 0;
    var i := 0;
    while i < size
      invariant hits + Hits(lo, hi, addr, size, i) == Hits(lo, hi, addr, size, 0)
      decreases size - i
    {
      if lo <= addr + i && addr + i < hi {
        hits := hits + GRANULE;
      }
      i := i + GRANULE;
    }
  }

  method PmpOk(p: Pmpcfg, addr: nat, size: nat, xlen: nat) returns (ok: bool)
    requires xlen >= 2 && p.a1 < Pow2(xlen) && addr + size <= Pow2(xlen)
    ensures ok == (p.mode == 0 || Accepts(Region(p, xlen).0, Region(p, xlen).1, addr, size))
  {
    if p.mode == 0 { return true; }
    hide Pow2, BitSet, Wrap, Hits;
    var a0, a1 := p.a0, p.a1;
    if p.mode != PMP_TOR {
      var range := 1;
      if p.mode == PMP_NAPOT {
        a1, range := ClearOnes(a1, xlen);
      }
      a0 := a1;
      a1 := Wrap(a0 + range, xlen);
    }
    a0 := Wrap(a0 * GRANULE, xlen);
    a1 := Wrap(a1 * GRANULE, xlen);
    var hits := CountHits(a0, a1, addr, size);
    ok := hits == 0 || hits >= size;
  }

  lemma RangeStart(xlen: nat)
    requires xlen >= 2
    ensures Pow2(0) == 1 && Wrap(Pow2(1), xlen) == 2
  {
    Pow2Monotone(2, xlen);
    assert Pow2(1) == 2 && Pow2(2) == 4;
    DivIs(2, Pow2(xlen), 0, 2);
  }

  lemma WrapDouble(x: nat, m: nat)
    requires m > 0
    ensures x % m * 2 % m == 2 * x % m
  {
    var q: int := x / m;
    assert x == q * m + x % m;
    assert 2 * x == x % m * 2 + (2 * q) * m;
    ModAdd(x % m * 2, 2 * q, m);
  }

  lemma DoubleRange(i: nat, xlen: nat)
    ensures Pow2(i + 1) == 2 * Pow2(i)
    ensures Wrap(Wrap(Pow2(i + 1), xlen) * 2, xlen) == Wrap(Pow2(i + 2), xlen)
  {
    assert Pow2(i + 2) == 2 * Pow2(i + 1);
    hide Pow2;
    WrapDouble(Pow2(i + 1), Pow2(xlen));
  }

  // -------- round trips --------

  /** The encoder's range: a power of two of at least one granule that fits in a register, its base a
      multiple of it, the region within the address space. */
  predicate Encodable(base: nat, k: nat, xlen: nat) {
    2 <= k < xlen && base % Pow2(k) == 0 && base + Pow2(k) <= Pow2(xlen)
  }

  /** The same for a region given by its ends: any whole number of granules. */
  predicate TorEncodable(base: nat, range: nat, xlen: nat) {
    && base % GRANULE == range % GRANULE == 0
    && range > 0 && base < Pow2(xlen) && range < Pow2(xlen) && base + range <= Pow2(xlen)
  }

  lemma WrapSmall(x: nat, xlen: nat)
    requires x < Pow2(xlen)
    ensures Wrap(x, xlen) == x
  {
    DivIs(x, Pow2(xlen), 0, x);
  }

  lemma WrapTop(x: nat, xlen: nat)
    requires x <= Pow2(xlen)
    ensures Wrap(x, xlen) == if x == Pow2(xlen) then 0 else x
  {
    if x == Pow2(xlen) {
      DivIs(x, x, 1, 0);
    } else {
      WrapSmall(x, xlen);
    }
  }

  /** What the address register holds: the base with the low bits filled with ones up to a zero. */
  lemma NapotAddress(base: nat, k: nat, xlen: nat)
    requires Encodable(base, k, xlen)
    ensures var p := SetPmpNapot(base, Pow2(k), xlen);
            if k == 2 then p == Pmpcfg(PMP_NA4, 0, base / 4)
            else p == Pmpcfg(PMP_NAPOT, 0, base / 4 + Pow2(k - 3) - 1)
  {
    assert Pow2(k) == 2 * Pow2(k - 1) == 4 * Pow2(k - 2);
    hide Pow2;
    var half: int := Pow2(k - 1);
    ModAdd(half - 1, 1, Pow2(xlen));
    WrapSmall(half - 1, xlen);
    assert Wrap(Pow2(k) / 2 + Pow2(xlen) - 1, xlen) == half - 1;
    WrapSmall(base + half - 1, xlen);
    MultipleOfFour(base, k);
    if k > 2 {
      HalfOfHalf(k);
      DivIs(base + half - 1, 4, base / 4 + Pow2(k - 3) - 1, 3);
    }
  }

  lemma HalfOfHalf(k: nat)
    requires k > 2
    ensures Pow2(k - 1) == 4 * Pow2(k - 3) && Pow2(k) == 8 * Pow2(k - 3)
  {
  }

  lemma MultipleOfFour(base: nat, k: nat)
    requires k >= 2 && base % Pow2(k) == 0
    ensures base % 4 == 0 && base / 4 % Pow2(k - 2) == 0
    ensures Pow2(2) == 4 && Pow2(k) == 4 * Pow2(k - 2)
  {
    Pow2Add(2, k - 2);
    DivDiv(base, 4, Pow2(k - 2));
    assert Pow2(2) == 4;
  }

  lemma OnesOf(q: nat, m: nat, xlen: nat)
    requires m < xlen
    ensures Ones(q * Pow2(m + 1) + Pow2(m) - 1, 0, xlen) == m
  {
    MulOrder(0, q, Pow2(m + 1));
    var a := q * Pow2(m + 1) + Pow2(m) - 1;
    var k := Ones(a, 0, xlen);
    BitsOf(q, m, m);
    BitsOf(q, m, if k < m then k else m);
    hide BitSet, Pow2;
  }

  lemma BitsOf(q: nat, m: nat, j: nat)
    requires j <= m
    ensures q * Pow2(m + 1) + Pow2(m) - 1 >= 0
    ensures BitSet(q * Pow2(m + 1) + Pow2(m) - 1, j) <==> j < m
  {
    MulOrder(0, q, Pow2(m + 1));
    var a := q * Pow2(m + 1) + Pow2(m) - 1;
    var d, e: int, h: int := Pow2(j), Pow2(m - j), q * Pow2(m - j);
    Pow2Add(m - j, j);
    assert Pow2(m + 1) == 2 * Pow2(m);
    assert j < m ==> Pow2(m - j) == 2 * Pow2(m - j - 1);
    hide Pow2, BitSet;
    assert a == (2 * h + e - 1) * d + (d - 1) by {
      Unfold(q, e, d);
    }
    DivIs(a, d, 2 * h + e - 1, d - 1);
    BitByQuotient(a, j, 2 * h + e - 1);
    assert j == m ==> e == 1 by { RangeStart(2); }
  }

  lemma Unfold(q: int, e: int, d: int)
    ensures q * (2 * (e * d)) + e * d - 1 == (2 * (q * e) + e - 1) * d + (d - 1)
  {
    assert q * (2 * (e * d)) == 2 * (q * e) * d;
    assert (2 * (q * e) + e - 1) * d == 2 * (q * e) * d + e * d - d;
  }

  lemma BitByQuotient(a: nat, j: nat, q: int)
    requires a / Pow2(j) == q
    ensures BitSet(a, j) <==> q % 2 == 1
  {
  }

  lemma DecodeFilled(a0: nat, m: nat, xlen: nat)
    requires Ones(a0 + Pow2(m) - 1, 0, xlen) == m && Pow2(m + 1) < Pow2(xlen) && a0 + Pow2(m + 1) < Pow2(xlen)
    ensures Region(Pmpcfg(PMP_NAPOT, 0, a0 + Pow2(m) - 1), xlen) ==
              (Wrap(a0 * GRANULE, xlen), Wrap((a0 + Pow2(m + 1)) * GRANULE, xlen))
  {
    hide Pow2, Wrap, Ones;
    WrapSmall(Pow2(m + 1), xlen);
    WrapSmall(a0 + Pow2(m + 1), xlen);
  }

  /** Decoding gives back the region that was encoded, except that its end wraps around. */
  lemma NapotDecoded(base: nat, k: nat, xlen: nat)
    requires Encodable(base, k, xlen)
    ensures Region(SetPmpNapot(base, Pow2(k), xlen), xlen) == (base, Wrap(base + Pow2(k), xlen))
  {
    hide Pow2, SetPmpNapot, Wrap, Region;
    NapotAddress(base, k, xlen);
    MultipleOfFour(base, k);
    if k == 2 {
      DecodeSingle(base, xlen);
    } else {
      DecodeBig(base, k, xlen);
    }
  }

  lemma DecodeBig(base: nat, k: nat, xlen: nat)
    requires Encodable(base, k, xlen) && k > 2
    ensures base / 4 + Pow2(k - 3) >= 1
    ensures Region(Pmpcfg(PMP_NAPOT, 0, base / 4 + Pow2(k - 3) - 1), xlen) == (base, Wrap(base + Pow2(k), xlen))
  {
    hide Pow2, Wrap, Region;
    WrapSmall(base, xlen);
    Filled(base, k - 3, xlen);
    DecodeFilled(base / 4, k - 3, xlen);
  }

  lemma DecodeSingle(base: nat, xlen: nat)
    requires base % 4 == 0 && base + 4 <= Pow2(xlen)
    ensures Region(Pmpcfg(PMP_NA4, 0, base / 4), xlen) == (base, Wrap(base + 4, xlen))
  {
    hide Pow2, Wrap, Ones;
    WrapSmall(base / 4 + 1, xlen);
    WrapSmall(base, xlen);
  }

  /** Decoding gives back exactly the region that was encoded if, and only if, it ends below the top of
      the address space. */
  lemma NapotRoundTrip(base: nat, k: nat, xlen: nat)
    requires Encodable(base, k, xlen)
    ensures Region(SetPmpNapot(base, Pow2(k), xlen), xlen) == (base, base + Pow2(k)) <==> base + Pow2(k) < Pow2(xlen)
  {
    hide Pow2, SetPmpNapot, Wrap, Region;
    NapotDecoded(base, k, xlen);
    WrapTop(base + Pow2(k), xlen);
  }

  lemma Filled(base: nat, m: nat, xlen: nat)
    requires Encodable(base, m + 3, xlen)
    ensures Ones(base / 4 + Pow2(m) - 1, 0, xlen) == m
    ensures Pow2(m + 1) < Pow2(xlen) && base / 4 + Pow2(m + 1) < Pow2(xlen)
    ensures base / 4 * GRANULE == base && (base / 4 + Pow2(m + 1)) * GRANULE == base + Pow2(m + 3)
  {
    HalfOfHalf(m + 3);
    NextPower(m);
    hide Pow2;
    MultipleOfFour(base, m + 3);
    var q: nat := base / 4 / Pow2(m + 1);
    assert base / 4 == q * Pow2(m + 1);
    OnesOf(q, m, xlen);
  }

  lemma NextPower(m: nat)
    ensures Pow2(m + 1) == 2 * Pow2(m)
  {
  }

  lemma TorDecoded(base: nat, range: nat, xlen: nat)
    requires TorEncodable(base, range, xlen)
    ensures Region(SetPmpRange(base, range, xlen), xlen) == (base, Wrap(base + range, xlen))
  {
    WrapSmall(base, xlen);
    WrapTop(base + range, xlen);
    WrapSmall(0, xlen);
    hide Pow2, Wrap;
    WholeGranules(base, range);
  }

  /** The same for a region given by its two ends. */
  lemma TorRoundTrip(base: nat, range: nat, xlen: nat)
    requires TorEncodable(base, range, xlen)
    ensures Region(SetPmpRange(base, range, xlen), xlen) == (base, base + range) <==> base + range < Pow2(xlen)
  {
    hide Pow2, SetPmpRange, Wrap, Region;
    TorDecoded(base, range, xlen);
    WrapTop(base + range, xlen);
  }

  lemma WholeGranules(base: nat, range: nat)
    requires base % GRANULE == 0 && range % GRANULE == 0
    ensures base / GRANULE * GRANULE == base && (base + range) / GRANULE * GRANULE == base + range
  {
  }

  /** A region that ends at the very top of the address space is read back as ending at zero, so that
      every access is accepted. */
  lemma TopOfMemoryWraps(base: nat, range: nat, addr: nat, size: nat, xlen: nat)
    requires TorEncodable(base, range, xlen) && base + range == Pow2(xlen)
    ensures Region(SetPmpRange(base, range, xlen), xlen) == (base, 0) && Accepts(base, 0, addr, size)
  {
    hide Pow2, SetPmpRange, Wrap, Region;
    TorDecoded(base, range, xlen);
    WrapTop(base + range, xlen);
    NoHits(base, addr, size, 0);
  }

  lemma {:induction false} NoHits(lo: nat, addr: nat, size: nat, i: nat)
    ensures Hits(lo, 0, addr, size, i) == 0
    decreases size - i
  {
    if i < size {
      NoHits(lo, addr, size, i + GRANULE);
    }
  }

  // -------- accesses --------

  predicate WhollyInside(lo: nat, hi: nat, addr: nat, size: nat) { lo <= addr && addr + size <= hi }

  predicate WhollyOutside(lo: nat, hi: nat, addr: nat, size: nat) { addr + size <= lo || hi <= addr }

  lemma {:induction false} HitsOfGranules(lo: nat, hi: nat, addr: nat, size: nat, i: nat)
    requires lo % GRANULE == hi % GRANULE == addr % GRANULE == size % GRANULE == i % GRANULE == 0
    requires lo <= hi && i < size
    ensures 0 <= Hits(lo, hi, addr, size, i) <= size - i
    ensures Hits(lo, hi, addr, size, i) == size - i <==> lo <= addr + i && addr + size <= hi
    ensures Hits(lo, hi, addr, size, i) == 0 <==> addr + size <= lo || hi <= addr + i || lo == hi
    decreases size - i
  {
    if i + GRANULE < size {
      HitsOfGranules(lo, hi, addr, size, i + GRANULE);
    } else {
      assert Hits(lo, hi, addr, size, i + GRANULE) == 0;
    }
  }

  /** A naturally aligned access is accepted exactly if it does not straddle the region's edge. */
  lemma AlignedAccess(lo: nat, hi: nat, addr: nat, s: nat)
    requires lo % GRANULE == hi % GRANULE == 0 && lo < hi && addr % Pow2(s) == 0
    ensures var size := Pow2(s);
            Accepts(lo, hi, addr, size) <==> WhollyInside(lo, hi, addr, size) || WhollyOutside(lo, hi, addr, size)
  {
    hide Pow2, Hits;
    if s <= 2 {
      SmallPowers(s);
      SmallAccess(lo, hi, addr, Pow2(s));
    } else {
      MultipleOfFour(addr, s);
      BigAccess(lo, hi, addr, Pow2(s));
    }
  }

  lemma BigAccess(lo: nat, hi: nat, addr: nat, size: nat)
    requires lo % GRANULE == hi % GRANULE == addr % GRANULE == size % GRANULE == 0 && lo < hi && size > 0
    ensures Accepts(lo, hi, addr, size) <==> WhollyInside(lo, hi, addr, size) || WhollyOutside(lo, hi, addr, size)
  {
    HitsOfGranules(lo, hi, addr, size, 0);
    hide Hits;
  }

  lemma SmallPowers(s: nat)
    requires s <= 2
    ensures Pow2(s) == 1 || Pow2(s) == 2 || Pow2(s) == 4
  {
    assert Pow2(0) == 1 && Pow2(1) == 2 && Pow2(2) == 4;
  }

  lemma SmallAccess(lo: nat, hi: nat, addr: nat, size: nat)
    requires (size == 1 || size == 2 || size == 4) && addr % size == 0
    requires lo % GRANULE == hi % GRANULE == 0 && lo < hi
    ensures Accepts(lo, hi, addr, size)
    ensures WhollyInside(lo, hi, addr, size) || WhollyOutside(lo, hi, addr, size)
  {
    assert Hits(lo, hi, addr, size, 4) == 0;
    InOneGranule(addr, size);
  }

  lemma InOneGranule(addr: nat, size: nat)
    requires (size == 1 || size == 2 || size == 4) && addr % size == 0
    ensures addr + size <= addr / 4 * 4 + 4
  {
  }

  /** The encoded region as the test program checks it: an aligned access is accepted exactly if it lies
      in the range asked for, or clear of it. */
  lemma NapotAcceptsExactly(base: nat, k: nat, addr: nat, s: nat, xlen: nat)
    requires Encodable(base, k, xlen) && base + Pow2(k) < Pow2(xlen) && addr % Pow2(s) == 0
    ensures var (lo, hi) := Region(SetPmpNapot(base, Pow2(k), xlen), xlen);
            Accepts(lo, hi, addr, Pow2(s)) <==>
              WhollyInside(base, base + Pow2(k), addr, Pow2(s)) || WhollyOutside(base, base + Pow2(k), addr, Pow2(s))
  {
    hide Region, SetPmpNapot, Accepts, Pow2, WhollyInside, WhollyOutside;
    NapotRoundTrip(base, k, xlen);
    MultipleOfFour(base, k);
    EndMultiple(base, Pow2(k), Pow2(k - 2));
    AlignedAccess(base, base + Pow2(k), addr, s);
  }

  /** The decoder's answer on a region read as `(lo, hi)` is the right one for the region from `base` to
      `end`. */
  predicate Right(lo: nat, hi: nat, base: nat, end: nat, addr: nat, size: nat) {
    Accepts(lo, hi, addr, size) <==> WhollyInside(base, end, addr, size) || WhollyOutside(base, end, addr, size)
  }

  /** The access begins below `base` and ends above. */
  predicate Straddles(base: nat, addr: nat, size: nat) { addr < base < addr + size }

  lemma RightIff(base: nat, end: nat, addr: nat, s: nat, xlen: nat)
    requires base % GRANULE == end % GRANULE == 0 && base < end <= Pow2(xlen)
    requires addr % Pow2(s) == 0 && addr + Pow2(s) <= Pow2(xlen)
    ensures Right(base, Wrap(end, xlen), base, end, addr, Pow2(s)) <==>
              end < Pow2(xlen) || !Straddles(base, addr, Pow2(s))
  {
    hide Pow2, Wrap, Accepts;
    WrapTop(end, xlen);
    if end < Pow2(xlen) {
      AlignedAccess(base, end, addr, s);
    } else {
      AcceptsAll(base, addr, Pow2(s));
    }
  }

  lemma AcceptsAll(lo: nat, addr: nat, size: nat)
    ensures Accepts(lo, 0, addr, size)
  {
    NoHits(lo, addr, size, 0);
  }

  /** For every region and every aligned access in the address space, the encoding gives the right answer
      unless the region ends at the top and the access straddles its base. */
  lemma NapotRightIff(base: nat, k: nat, addr: nat, s: nat, xlen: nat)
    requires Encodable(base, k, xlen) && addr % Pow2(s) == 0 && addr + Pow2(s) <= Pow2(xlen)
    ensures var (lo, hi) := Region(SetPmpNapot(base, Pow2(k), xlen), xlen);
            Right(lo, hi, base, base + Pow2(k), addr, Pow2(s)) <==>
              base + Pow2(k) < Pow2(xlen) || !Straddles(base, addr, Pow2(s))
  {
    hide Region, SetPmpNapot, Right, Straddles, Pow2, Wrap;
    NapotDecoded(base, k, xlen);
    MultipleOfFour(base, k);
    EndMultiple(base, Pow2(k), Pow2(k - 2));
    RightIff(base, base + Pow2(k), addr, s, xlen);
  }

  /** The same for a region given by its two ends. */
  lemma TorRightIff(base: nat, range: nat, addr: nat, s: nat, xlen: nat)
    requires TorEncodable(base, range, xlen) && addr % Pow2(s) == 0 && addr + Pow2(s) <= Pow2(xlen)
    ensures var (lo, hi) := Region(SetPmpRange(base, range, xlen), xlen);
            Right(lo, hi, base, base + range, addr, Pow2(s)) <==>
              base + range < Pow2(xlen) || !Straddles(base, addr, Pow2(s))
  {
    hide Region, SetPmpRange, Right, Straddles, Pow2, Wrap;
    TorDecoded(base, range, xlen);
    RightIff(base, base + range, addr, s, xlen);
  }

  lemma TopIsMultiple(xlen: nat)
    requires xlen >= 3
    ensures Pow2(2) == 4 && Pow2(3) == 8
    ensures Pow2(xlen) >= 8 && Pow2(xlen) % 8 == 0
  {
    Pow2Add(3, xlen - 3);
    assert Pow2(2) == 2 * Pow2(1) == 4 * Pow2(0) && Pow2(3) == 2 * Pow2(2);
    hide Pow2;
    DivIs(Pow2(xlen), 8, Pow2(xlen - 3), 0);
  }

  lemma LastEight(top: nat)
    requires top >= 8 && top % 8 == 0
    ensures (top - 8) % 8 == 0 && (top - 4) % 4 == 0 && Straddles(top - 4, top - 8, 8)
  {
  }

  /** An access that the NAPOT encoding wrongly accepts: eight bytes, of which the last four are the region
      and the last of the address space. */
  lemma NapotStraddler(xlen: nat)
    requires xlen >= 3
    ensures var top := Pow2(xlen);
      && top >= 8 && Encodable(top - 4, 2, xlen) && (top - 8) % 8 == 0
      && var (lo, hi) := Region(SetPmpNapot(top - 4, 4, xlen), xlen); !Right(lo, hi, top - 4, top, top - 8, 8)
  {
    TopIsMultiple(xlen);
    hide Pow2, Region, SetPmpNapot, Right, Straddles;
    var top := Pow2(xlen);
    LastEight(top);
    NapotRightIff(top - 4, 2, top - 8, 3, xlen);
  }

  /** The same access, and the region given by its two ends. */
  lemma TorStraddler(xlen: nat)
    requires xlen >= 3
    ensures var top := Pow2(xlen);
      && top >= 8 && TorEncodable(top - 4, 4, xlen) && (top - 8) % 8 == 0
      && var (lo, hi) := Region(SetPmpRange(top - 4, 4, xlen), xlen); !Right(lo, hi, top - 4, top, top - 8, 8)
  {
    TopIsMultiple(xlen);
    hide Pow2, Region, SetPmpRange, Right, Straddles;
    var top := Pow2(xlen);
    LastEight(top);
    TorRightIff(top - 4, 4, top - 8, 3, xlen);
  }

  lemma EndMultiple(base: nat, size: nat, q: nat)
    requires base % 4 == 0 && size == 4 * q && q > 0
    ensures (base + size) % 4 == 0 && size > 0
  {
  }
}
