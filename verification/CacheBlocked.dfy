/** The cache-blocked path: pack the blocks of all three matrices, multiply block by block, treat the edges
    in place, and unpack. Loop counters count blocks. */
module CacheBlocked {
  import opened Numbers
  import opened Matrix
  import opened MatMul
  import opened Packing

  function Min(x: int, y: int): int { if x < y then x else y }

  // -------- what the packed result holds --------

  /** Packed block `k` holds the elements of `c` from `(r0, c0)` on, with `depth` terms added. */
  ghost predicate BlockSum(d: seq<T>, k: int, c: View, a: View, b: View, r0: int, c0: int, depth: int) {
    forall r, s | 0 <= r < CBM && 0 <= s < CBN ::
      At(Block(d, k, CBM, CBN), r, s) == At(c, r0 + r, c0 + s) + Sum(a, b, r0 + r, c0 + s, depth)
  }

  function DepthOf(k: int, cur: int, depth: int, full: int): int {
    if k < cur then full else if k == cur then depth else 0
  }

  /** All packed blocks: those before `cur` are complete, `cur` itself has `depth` terms. */
  ghost predicate Blocks(d: seq<T>, nj: int, total: int, c: View, a: View, b: View, cur: int, depth: int, full: int) {
    nj > 0 ==>
      && Blk(total, CBM, CBN) <= |d|
      && forall k | 0 <= k < total ::
           BlockSum(d, k, c, a, b, k / nj * CBM, k % nj * CBN, DepthOf(k, cur, depth, full))
  }

  lemma BlocksStart(d: seq<T>, nj: int, total: int, c: View, a: View, b: View, full: int)
    requires Packed(d, nj, CBM, CBN, c, total) && Blk(total, CBM, CBN) <= |d|
    ensures Blocks(d, nj, total, c, a, b, 0, 0, full)
  {
    hide At;
    if nj > 0 {
      forall k | 0 <= k < total
        ensures BlockSum(d, k, c, a, b, k / nj * CBM, k % nj * CBN, DepthOf(k, 0, 0, full))
      {
        assert BlockIs(d, k, CBM, CBN, c, k / nj * CBM, k % nj * CBN);
      }
    }
  }

  lemma BlocksNext(d: seq<T>, nj: int, total: int, c: View, a: View, b: View, cur: int, full: int)
    requires Blocks(d, nj, total, c, a, b, cur, full, full)
    ensures Blocks(d, nj, total, c, a, b, cur + 1, 0, full)
  {
    hide BlockSum;
    if nj > 0 {
      forall k | 0 <= k < total
        ensures BlockSum(d, k, c, a, b, k / nj * CBM, k % nj * CBN, DepthOf(k, cur + 1, 0, full))
      {
        assert DepthOf(k, cur, full, full) == DepthOf(k, cur + 1, 0, full);
        BlockOf(d, nj, total, c, a, b, cur, full, full, k);
      }
    }
  }

  /** The product of `a'` and `b'` is the next `dk` terms of the block at `(r0, c0)`. */
  ghost predicate Gains(a': View, b': View, a: View, b: View, r0: int, c0: int, k: int, dk: int) {
    forall r, s | 0 <= r < CBM && 0 <= s < CBN ::
      Sum(a', b', r, s, dk) == Sum(Sub(a, r0, k), Sub(b, k, c0), r, s, dk)
  }

  lemma GainStep(d: seq<T>, d': seq<T>, nj: int, total: int, c: View, a: View, b: View, i: int, j: int, k: int,
                 full: int, a': View, b': View, dk: int)
    requires 0 <= i && 0 <= j < nj && 0 <= nj * i + j < total && k >= 0 && dk >= 0
    requires Blocks(d, nj, total, c, a, b, nj * i + j, k, full)
    requires Adds(d, d', Blk(nj * i + j, CBM, CBN), CBN, CBM, CBN, a', b', dk)
    requires Gains(a', b', a, b, i * CBM, j * CBN, k, dk)
    ensures Blocks(d', nj, total, c, a, b, nj * i + j, k + dk, full)
  {
    var cur := nj * i + j;
    DivIs(cur, nj, i, j);
    BlkOrder(cur + 1, total, CBM, CBN);
    forall x | 0 <= x < total
      ensures BlockSum(d', x, c, a, b, x / nj * CBM, x % nj * CBN, DepthOf(x, cur, k + dk, full))
    {
      hide Inside, Row, Col, Blk, Pos, Sub, Sum, Blocks, Gains;
      assert BlockSum(d, x, c, a, b, x / nj * CBM, x % nj * CBN, DepthOf(x, cur, k, full)) by {
        hide BlockSum;
        BlockOf(d, nj, total, c, a, b, cur, k, full, x);
      }
      if x == cur {
        GainHere(d, d', c, a, b, i, j, cur, k, a', b', dk);
      } else {
        GainElsewhere(d, d', cur, x, c, a, b, x / nj * CBM, x % nj * CBN, DepthOf(x, cur, k, full), a', b', dk);
      }
    }
  }

  lemma BlockOf(d: seq<T>, nj: int, total: int, c: View, a: View, b: View, cur: int, depth: int, full: int, x: int)
    requires Blocks(d, nj, total, c, a, b, cur, depth, full) && nj > 0 && 0 <= x < total
    ensures BlockSum(d, x, c, a, b, x / nj * CBM, x % nj * CBN, DepthOf(x, cur, depth, full))
    ensures Blk(total, CBM, CBN) <= |d|
  {
    hide BlockSum;
  }

  lemma GainHere(d: seq<T>, d': seq<T>, c: View, a: View, b: View, i: int, j: int, cur: int, k: int, a': View,
                 b': View, dk: int)
    requires cur >= 0 && k >= 0 && dk >= 0 && Blk(cur + 1, CBM, CBN) <= |d|
    requires BlockSum(d, cur, c, a, b, i * CBM, j * CBN, k)
    requires Adds(d, d', Blk(cur, CBM, CBN), CBN, CBM, CBN, a', b', dk)
    requires Gains(a', b', a, b, i * CBM, j * CBN, k, dk)
    ensures BlockSum(d', cur, c, a, b, i * CBM, j * CBN, k + dk)
  {
    hide Inside, Row, Col, Blk, Pos, Sub, Sum, At;
    forall r, s | 0 <= r < CBM && 0 <= s < CBN
      ensures At(Block(d', cur, CBM, CBN), r, s) ==
                At(c, i * CBM + r, j * CBN + s) + Sum(a, b, i * CBM + r, j * CBN + s, k + dk)
    {
      ThisBlock(d, cur, CBM, CBN, r, s);
      ThisBlock(d', cur, CBM, CBN, r, s);
      SumSub(a, b, i * CBM, j * CBN, k, r, s, dk);
    }
  }

  lemma GainElsewhere(d: seq<T>, d': seq<T>, cur: int, x: int, c: View, a: View, b: View, r0: int, c0: int, depth: int,
                      a': View, b': View, dk: int)
    requires x != cur && BlockSum(d, x, c, a, b, r0, c0, depth)
    requires Adds(d, d', Blk(cur, CBM, CBN), CBN, CBM, CBN, a', b', dk)
    ensures BlockSum(d', x, c, a, b, r0, c0, depth)
  {
    hide Inside, Row, Col, Blk, Pos, Sum, At;
    forall r, s | 0 <= r < CBM && 0 <= s < CBN
      ensures At(Block(d', x, CBM, CBN), r, s) == At(Block(d, x, CBM, CBN), r, s)
    {
      OtherBlock(d, d', cur, x, CBM, CBN, r, s);
    }
  }

  /** Packed blocks of the factors stand for the windows they were packed from. */
  lemma PackedGain(a1: seq<T>, b1: seq<T>, a: View, b: View, ni: int, nk: int, nj: int, i: int, kk: int, j: int)
    requires 0 <= i < ni && 0 <= kk < nk && 0 <= j < nj
    requires Packed(a1, nk, CBM, CBK, a, nk * ni) && Packed(b1, nj, CBK, CBN, b, nj * nk)
    ensures Gains(Block(a1, nk * i + kk, CBM, CBK), Block(b1, nj * kk + j, CBK, CBN), a, b,
                  i * CBM, j * CBN, kk * CBK, CBK)
  {
    var a', b' := Block(a1, nk * i + kk, CBM, CBK), Block(b1, nj * kk + j, CBK, CBN);
    SmallerBlock(ni, nk, i, kk, CBM, CBK);
    SmallerBlock(nk, nj, kk, j, CBK, CBN);
    DivIs(nk * i + kk, nk, i, kk);
    DivIs(nj * kk + j, nj, kk, j);
    assert BlockIs(a1, nk * i + kk, CBM, CBK, a, i * CBM, kk * CBK);
    assert BlockIs(b1, nj * kk + j, CBK, CBN, b, kk * CBK, j * CBN);
    hide At, Sum, Sub, Block, Packed;
    forall r, s | 0 <= r < CBM && 0 <= s < CBN
      ensures Sum(a', b', r, s, CBK) == Sum(Sub(a, i * CBM, kk * CBK), Sub(b, kk * CBK, j * CBN), r, s, CBK)
    {
      forall x | 0 <= x < CBK
        ensures At(a', r, x) == At(Sub(a, i * CBM, kk * CBK), r, x)
        ensures At(b', x, s) == At(Sub(b, kk * CBK, j * CBN), x, s)
      {
        SubAt(a, i * CBM, kk * CBK, r, x);
        SubAt(b, kk * CBK, j * CBN, x, s);
      }
      SumEqual(a', b', r, s, Sub(a, i * CBM, kk * CBK), Sub(b, kk * CBK, j * CBN), r, s, CBK);
    }
  }

  lemma SameGain(a: View, b: View, r0: int, c0: int, k: int, dk: int)
    ensures Gains(Sub(a, r0, k), Sub(b, k, c0), a, b, r0, c0, k, dk)
  {
  }

  // -------- the parts of the computation --------

  /** Block `(i, j)` of the packed result, from the packed factors and what is left over in depth. */
  method MainBlock(i: int, j: int, p: int, nmb: int, nnb: int, npb: int, a1: array<T>, b1: array<T>, c1: array<T>,
                   a: array<T>, ap: int, lda: int, b: array<T>, bp: int, ldb: int,
                   ghost m: int, ghost n: int, ghost c: View)
    requires a1 != c1 && b1 != c1 && a != c1 && b != c1 && 0 <= i < nmb && 0 <= j < nnb && npb == p / CBK && p >= 0
    requires Legal(a.Length, ap, lda, m, p) && Legal(b.Length, bp, ldb, p, n) && nmb * CBM <= m && nnb * CBN <= n
    requires Packed(a1[..], npb, CBM, CBK, View(a[..], ap, lda), npb * nmb) && Blk(npb * nmb, CBM, CBK) <= a1.Length
    requires Packed(b1[..], nnb, CBK, CBN, View(b[..], bp, ldb), nnb * npb) && Blk(nnb * npb, CBK, CBN) <= b1.Length
    requires Blk(nnb * nmb, CBM, CBN) <= c1.Length
    requires Blocks(c1[..], nnb, nnb * nmb, c, View(a[..], ap, lda), View(b[..], bp, ldb), nnb * i + j, 0, p)
    modifies c1
    ensures Blocks(c1[..], nnb, nnb * nmb, c, View(a[..], ap, lda), View(b[..], bp, ldb), nnb * i + j + 1, 0, p)
  {
    hide At, Sum, Adds, Legal, Packed, Blocks, Gains, Blk, Pos;
    ghost var va, vb := View(a[..], ap, lda), View(b[..], bp, ldb);
    ghost var s1, s2, total, cur := a1[..], b1[..], nnb * nmb, nnb * i + j;
    SmallerBlock(nmb, nnb, i, j, CBM, CBN);
    BlockLegal(c1.Length, nnb * i + j, CBM, CBN);
    var kk := 0;
    while kk < npb
      invariant 0 <= kk <= npb && va.s == a[..] && vb.s == b[..] && s1 == a1[..] && s2 == b1[..]
      invariant Blocks(c1[..], nnb, total, c, va, vb, cur, kk * CBK, p)
    {
      ghost var d := c1[..];
      SmallerBlock(nmb, npb, i, kk, CBM, CBK);
      BlockLegal(a1.Length, npb * i + kk, CBM, CBK);
      SmallerBlock(npb, nnb, kk, j, CBK, CBN);
      BlockLegal(b1.Length, nnb * kk + j, CBK, CBN);
      PackedGain(s1, s2, va, vb, nmb, npb, nnb, i, kk, j);
      MmRb(CBM, CBN, CBK, a1, Blk(npb * i + kk, CBM, CBK), CBK, b1, Blk(nnb * kk + j, CBK, CBN), CBN,
           c1, Blk(nnb * i + j, CBM, CBN), CBN);
      GainStep(d, c1[..], nnb, total, c, va, vb, i, j, kk * CBK, p,
               Block(s1, npb * i + kk, CBM, CBK), Block(s2, nnb * kk + j, CBK, CBN), CBK);
      kk := kk + 1;
    }
    var pb := npb * CBK;
    if pb < p {
      ghost var d := c1[..];
      LegalSub(a.Length, ap, lda, m, p, i * CBM, pb, CBM, p - pb);
      LegalSub(b.Length, bp, ldb, p, n, pb, j * CBN, p - pb, CBN);
      MmRb(CBM, CBN, p - pb, a, Pos(ap, lda, i * CBM, pb), lda, b, Pos(bp, ldb, pb, j * CBN), ldb,
           c1, Blk(nnb * i + j, CBM, CBN), CBN);
      SameGain(va, vb, i * CBM, j * CBN, pb, p - pb);
      GainStep(d, c1[..], nnb, total, c, va, vb, i, j, pb, p, Sub(va, i * CBM, pb), Sub(vb, pb, j * CBN), p - pb);
    }
    BlocksNext(c1[..], nnb, total, c, va, vb, cur, p);
  }

  /** One tile of the result in place, in steps of `CBK` terms. */
  method EdgeTile(h: int, w: int, p: int, a: array<T>, ap: int, lda: int, b: array<T>, bp: int, ldb: int,
                  c: array<T>, cp: int, ldc: int)
    requires a != c && b != c && p >= 0
    requires Legal(a.Length, ap, lda, h, p) && Legal(b.Length, bp, ldb, p, w) && Legal(c.Length, cp, ldc, h, w)
    modifies c
    ensures Adds(old(c[..]), c[..], cp, ldc, h, w, View(a[..], ap, lda), View(b[..], bp, ldb), p)
  {
    hide At, Sum, Adds, Progress, Pos;
    ghost var va, vb, s := View(a[..], ap, lda), View(b[..], bp, ldb), c[..];
    assert h >= 0 && 0 <= w <= ldc;
    hide Legal;
    Begin(s, cp, ldc, w, va, vb, h, w, p);
    var k := 0;
    while k < p
      invariant 0 <= k <= p && va.s == a[..] && vb.s == b[..]
      invariant Progress(s, c[..], cp, ldc, w, va, vb, Plan(0, h, 0, w, k, p))
    {
      ghost var t := c[..];
      var dk := Min(p - k, CBK);
      LegalSub(a.Length, ap, lda, h, p, 0, k, h, dk);
      LegalSub(b.Length, bp, ldb, p, w, k, 0, dk, w);
      LegalSub(c.Length, cp, ldc, h, w, 0, 0, h, w);
      MmRb(h, w, dk, a, Pos(ap, lda, 0, k), lda, b, Pos(bp, ldb, k, 0), ldb, c, Pos(cp, ldc, 0, 0), ldc);
      TileStep(s, t, c[..], cp, ldc, w, va, vb, Plan(0, h, 0, w, k, p), dk);
      k := k + dk;
    }
    NextTile(s, c[..], cp, ldc, w, va, vb, Plan(0, h, 0, w, k, p), 0);
    Finish(s, c[..], cp, ldc, w, va, vb, Plan(0, h, w, 0, 0, p));
  }

  /** The rows behind the last full block. */
  method BottomEdge(h: int, n: int, p: int, a: array<T>, ap: int, lda: int, b: array<T>, bp: int, ldb: int,
                    c: array<T>, cp: int, ldc: int)
    requires a != c && b != c && p >= 0
    requires Legal(a.Length, ap, lda, h, p) && Legal(b.Length, bp, ldb, p, n) && Legal(c.Length, cp, ldc, h, n)
    modifies c
    ensures Adds(old(c[..]), c[..], cp, ldc, h, n, View(a[..], ap, lda), View(b[..], bp, ldb), p)
  {
    hide At, Sum, Adds, Progress, Pos;
    ghost var va, vb, s := View(a[..], ap, lda), View(b[..], bp, ldb), c[..];
    assert h >= 0 && 0 <= n <= ldc;
    hide Legal;
    Begin(s, cp, ldc, n, va, vb, h, 0, p);
    var j := 0;
    while j < n
      invariant 0 <= j <= n && va.s == a[..] && vb.s == b[..]
      invariant Progress(s, c[..], cp, ldc, n, va, vb, Plan(0, h, j, 0, 0, p))
    {
      ghost var t := c[..];
      var w := Min(n - j, CBN);
      Regard(s, t, cp, ldc, n, va, vb, Plan(0, h, j, 0, 0, p), Plan(0, h, j, w, 0, p));
      LegalSub(a.Length, ap, lda, h, p, 0, 0, h, p);
      LegalSub(b.Length, bp, ldb, p, n, 0, j, p, w);
      LegalSub(c.Length, cp, ldc, h, n, 0, j, h, w);
      EdgeTile(h, w, p, a, Pos(ap, lda, 0, 0), lda, b, Pos(bp, ldb, 0, j), ldb, c, Pos(cp, ldc, 0, j), ldc);
      TileStep(s, t, c[..], cp, ldc, n, va, vb, Plan(0, h, j, w, 0, p), p);
      NextTile(s, c[..], cp, ldc, n, va, vb, Plan(0, h, j, w, p, p), 0);
      j := j + w;
    }
    Finish(s, c[..], cp, ldc, n, va, vb, Plan(0, h, j, 0, 0, p));
  }

  // -------- unpacking --------

  /** Copying a finished block back is adding the product, as long as the window still holds the old
      elements. */
  lemma CopyIsAdd(s0: seq<T>, s: seq<T>, t: seq<T>, u: seq<T>, p: int, ld: int, nb: int, d: seq<T>, a: View, b: View,
                  i: int, j: int, k: int, full: int)
    requires full >= 0 && 0 <= i && 0 <= j && (j + 1) * CBN <= nb <= ld && |s0| == |s|
    requires Progress(s, t, p, ld, nb, a, b, Plan(i * CBM, CBM, j * CBN, CBN, 0, full))
    requires BlockSum(d, k, View(s0, p, ld), a, b, i * CBM, j * CBN, full)
    requires Copied(t, u, Pos(p, ld, i * CBM, j * CBN), ld, CBM, CBN, Block(d, k, CBM, CBN))
    requires forall q | 0 <= q < |s| && 0 <= Row(p, ld, q) < (i + 1) * CBM && 0 <= Col(p, ld, q) < nb ::
               s[q] == s0[q]
    ensures Adds(t, u, Pos(p, ld, i * CBM, j * CBN), ld, CBM, CBN, Sub(a, i * CBM, 0), Sub(b, 0, j * CBN), full)
  {
    var p' := Pos(p, ld, i * CBM, j * CBN);
    hide Sum, Sub, BlockSum;
    forall q | 0 <= q < |t|
      ensures u[q] == if Inside(p', ld, CBM, CBN, q)
                      then t[q] + Sum(Sub(a, i * CBM, 0), Sub(b, 0, j * CBN), Row(p', ld, q), Col(p', ld, q), full)
                      else t[q]
    {
      InsideSub(p, ld, i * CBM, j * CBN, CBM, CBN, q);
      if Inside(p', ld, CBM, CBN, q) {
        var r, c := Row(p', ld, q), Col(p', ld, q);
        SumSub(a, b, i * CBM, j * CBN, 0, r, c, full);
        SumNext(a, b, i * CBM + r, j * CBN + c, 0);
        FinishedElement(s0, p, ld, q, d, k, a, b, i, j, r, c, full);
        hide Row, Col, At, Pos;
      }
    }
  }

  lemma FinishedElement(s0: seq<T>, p: int, ld: int, q: int, d: seq<T>, k: int, a: View, b: View, i: int, j: int,
                        r: int, c: int, full: int)
    requires BlockSum(d, k, View(s0, p, ld), a, b, i * CBM, j * CBN, full) && 0 <= r < CBM && 0 <= c < CBN && ld > 0
    requires 0 <= q < |s0| && Row(p, ld, q) == i * CBM + r && Col(p, ld, q) == j * CBN + c
    ensures At(Block(d, k, CBM, CBN), r, c) == s0[q] + Sum(a, b, i * CBM + r, j * CBN + c, full)
  {
    PosOf(p, ld, q);
    hide Row, Col, Sum, Block;
  }

  /** Inside the fully blocked part `s` still holds what `s0` held. */
  ghost predicate MainSame(s0: seq<T>, s: seq<T>, p: int, ld: int, m: int, n: int) {
    |s0| == |s| && forall q | 0 <= q < |s| && Inside(p, ld, m, n, q) :: s[q] == s0[q]
  }

  lemma CopyIsTile(s0: seq<T>, s: seq<T>, t: seq<T>, u: seq<T>, p: int, ld: int, ni: int, nj: int, d: seq<T>,
                   a: View, b: View, i: int, j: int, full: int)
    requires full >= 0 && 0 <= i < ni && 0 <= j < nj && nj * CBN <= ld
    requires MainSame(s0, s, p, ld, ni * CBM, nj * CBN)
    requires Progress(s, t, p, ld, nj * CBN, a, b, Plan(i * CBM, CBM, j * CBN, CBN, 0, full))
    requires Blocks(d, nj, nj * ni, View(s0, p, ld), a, b, nj * ni, 0, full)
    requires Copied(t, u, Pos(p, ld, i * CBM, j * CBN), ld, CBM, CBN, Block(d, nj * i + j, CBM, CBN))
    ensures Adds(t, u, Pos(p, ld, i * CBM, j * CBN), ld, CBM, CBN, Sub(a, i * CBM, 0), Sub(b, 0, j * CBN), full)
  {
    hide Sum, Row, Col, Progress, Copied, Adds, BlockSum, Blocks;
    SmallerBlock(ni, nj, i, j, CBM, CBN);
    DivIs(nj * i + j, nj, i, j);
    BlockOf(d, nj, nj * ni, View(s0, p, ld), a, b, nj * ni, 0, full, nj * i + j);
    CopyIsAdd(s0, s, t, u, p, ld, nj * CBN, d, a, b, i, j, nj * i + j, full);
  }

  method Unpack(c: array<T>, cp: int, ldc: int, c1: array<T>, nmb: int, nnb: int, p: int,
                ghost s0: seq<T>, ghost a: View, ghost b: View)
    requires c != c1 && nmb >= 0 && nnb >= 0 && p >= 0 && Legal(c.Length, cp, ldc, nmb * CBM, nnb * CBN)
    requires MainSame(s0, c[..], cp, ldc, nmb * CBM, nnb * CBN) && Blk(nnb * nmb, CBM, CBN) <= c1.Length
    requires Blocks(c1[..], nnb, nnb * nmb, View(s0, cp, ldc), a, b, nnb * nmb, 0, p)
    modifies c
    ensures Adds(old(c[..]), c[..], cp, ldc, nmb * CBM, nnb * CBN, a, b, p)
  {
    hide At, Sum, Adds, Progress, Pos, MainSame, Blocks, Copied, Blk;
    ghost var s, d := c[..], c1[..];
    var nb := nnb * CBN;
    assert nb <= ldc;
    hide Legal;
    Begin(s, cp, ldc, nb, a, b, CBM, CBN, p);
    var i := 0;
    while i < nmb
      invariant 0 <= i <= nmb && d == c1[..]
      invariant Progress(s, c[..], cp, ldc, nb, a, b, Plan(i * CBM, CBM, 0, CBN, 0, p))
    {
      var j := 0;
      while j < nnb
        invariant 0 <= j <= nnb && d == c1[..]
        invariant Progress(s, c[..], cp, ldc, nb, a, b, Plan(i * CBM, CBM, j * CBN, CBN, 0, p))
      {
        ghost var t, g := c[..], Plan(i * CBM, CBM, j * CBN, CBN, 0, p);
        SmallerBlock(nmb, nnb, i, j, CBM, CBN);
        BlockLegal(c1.Length, nnb * i + j, CBM, CBN);
        LegalSub(c.Length, cp, ldc, nmb * CBM, nb, i * CBM, j * CBN, CBM, CBN);
        Repack(c, Pos(cp, ldc, i * CBM, j * CBN), ldc, c1, Blk(nnb * i + j, CBM, CBN), CBN, CBM, CBN);
        CopyIsTile(s0, s, t, c[..], cp, ldc, nmb, nnb, d, a, b, i, j, p);
        TileStep(s, t, c[..], cp, ldc, nb, a, b, g, p);
        NextTile(s, c[..], cp, ldc, nb, a, b, g.(k := p), CBN);
        j := j + 1;
      }
      NextRows(s, c[..], cp, ldc, nb, a, b, Plan(i * CBM, CBM, j * CBN, CBN, 0, p), CBM, CBN);
      i := i + 1;
    }
    AllRows(s, c[..], cp, ldc, nb, a, b, Plan(i * CBM, CBM, 0, CBN, 0, p));
  }

  // -------- the whole --------

  lemma NothingAdded(s: seq<T>, p: int, ld: int, n: int, a: View, b: View, k: int)
    ensures Adds(s, s, p, ld, 0, n, a, b, k)
  {
  }

  /** The edges do not touch the fully blocked part. */
  lemma EdgesLeaveMain(s0: seq<T>, s1: seq<T>, s2: seq<T>, p: int, ld: int, m: int, n: int, mb: int, nb: int,
                       a: View, b: View, k: int)
    requires 0 <= mb <= m && 0 <= nb <= n <= ld
    requires Adds(s0, s1, Pos(p, ld, 0, nb), ld, mb, n - nb, a, Sub(b, 0, nb), k)
    requires Adds(s1, s2, Pos(p, ld, mb, 0), ld, m - mb, n, Sub(a, mb, 0), b, k)
    ensures MainSame(s0, s2, p, ld, mb, nb)
  {
    forall q | 0 <= q < |s2| && Inside(p, ld, mb, nb, q) ensures s2[q] == s0[q] {
      InsideSub(p, ld, 0, nb, mb, n - nb, q);
      InsideSub(p, ld, mb, 0, m - mb, n, q);
      hide Row, Col, Pos, Sum;
    }
  }

  /** Blocked part, right edge and bottom edge make up the window. */
  lemma PartsMakeWhole(s0: seq<T>, s1: seq<T>, s2: seq<T>, s3: seq<T>, p: int, ld: int, m: int, n: int,
                       mb: int, nb: int, a: View, b: View, k: int)
    requires 0 <= mb <= m && 0 <= nb <= n <= ld && k >= 0
    requires Adds(s0, s1, Pos(p, ld, 0, nb), ld, mb, n - nb, a, Sub(b, 0, nb), k)
    requires Adds(s1, s2, Pos(p, ld, mb, 0), ld, m - mb, n, Sub(a, mb, 0), b, k)
    requires Adds(s2, s3, p, ld, mb, nb, a, b, k)
    ensures Adds(s0, s3, p, ld, m, n, a, b, k)
  {
    forall q | 0 <= q < |s0|
      ensures s3[q] == if Inside(p, ld, m, n, q) then s0[q] + Sum(a, b, Row(p, ld, q), Col(p, ld, q), k) else s0[q]
    {
      InsideSub(p, ld, 0, nb, mb, n - nb, q);
      InsideSub(p, ld, mb, 0, m - mb, n, q);
      var r, c := Row(p, ld, q), Col(p, ld, q);
      SumSub(a, b, 0, nb, 0, r, c - nb, k);
      SumSub(a, b, mb, 0, 0, r - mb, c, k);
      SumNext(a, b, r, c, 0);
      SubSelf(a, b);
      hide Row, Col, Pos, Sum, Sub;
    }
  }

  lemma SubSelf(a: View, b: View)
    ensures Sub(a, 0, 0) == a && Sub(b, 0, 0) == b
  {
  }

  lemma Sizes(x: int, y: int, bm: int, bn: int)
    ensures (x * bm) * (y * bn) == Blk(y * x, bm, bn)
  {
    assert (x * bm) * (y * bn) == x * (bm * (y * bn));
    assert bm * (y * bn) == y * (bm * bn);
    assert x * (y * (bm * bn)) == (y * x) * (bm * bn);
  }

  lemma LegalPrefix(len: int, p: int, ld: int, m: int, n: int, m': int, n': int)
    requires Legal(len, p, ld, m, n) && 0 <= m' <= m && 0 <= n' <= n
    ensures Legal(len, p, ld, m', n')
  {
    LegalSub(len, p, ld, m, n, 0, 0, m', n');
  }

  lemma EdgePointers(a: View, b: View, cp: int, ldc: int, i: int, nb: int)
    ensures Pos(Pos(cp, ldc, 0, nb), ldc, i, 0) == Pos(cp, ldc, i, nb)
    ensures Sub(Sub(b, 0, nb), 0, 0) == View(b.s, Pos(b.p, b.ld, 0, nb), b.ld)
    ensures Sub(a, i, 0) == View(a.s, Pos(a.p, a.ld, i, 0), a.ld)
  {
  }

  /** The rows of full blocks: their packed results, and in place the columns behind the last full block. */
  method BlockRows(nmb: int, nnb: int, npb: int, m: int, n: int, p: int, a1: array<T>, b1: array<T>, c1: array<T>,
                   a: array<T>, ap: int, lda: int, b: array<T>, bp: int, ldb: int,
                   c: array<T>, cp: int, ldc: int, ghost vc: View)
    requires a1 != c1 && b1 != c1 && a != c1 && b != c1 && c != c1 && c != a1 && c != b1 && a != c && b != c
    requires nmb == m / CBM && nnb == n / CBN && npb == p / CBK && p >= 0 && m >= 0 && 0 <= n <= ldc
    requires Legal(a.Length, ap, lda, m, p) && Legal(b.Length, bp, ldb, p, n) && Legal(c.Length, cp, ldc, m, n)
    requires Packed(a1[..], npb, CBM, CBK, View(a[..], ap, lda), npb * nmb) && Blk(npb * nmb, CBM, CBK) <= a1.Length
    requires Packed(b1[..], nnb, CBK, CBN, View(b[..], bp, ldb), nnb * npb) && Blk(nnb * npb, CBK, CBN) <= b1.Length
    requires Blk(nnb * nmb, CBM, CBN) <= c1.Length
    requires Blocks(c1[..], nnb, nnb * nmb, vc, View(a[..], ap, lda), View(b[..], bp, ldb), 0, 0, p)
    modifies c, c1
    ensures Blocks(c1[..], nnb, nnb * nmb, vc, View(a[..], ap, lda), View(b[..], bp, ldb), nnb * nmb, 0, p)
    ensures Adds(old(c[..]), c[..], Pos(cp, ldc, 0, nnb * CBN), ldc, nmb * CBM, n - nnb * CBN,
                 View(a[..], ap, lda), Sub(View(b[..], bp, ldb), 0, nnb * CBN), p)
  {
    hide At, Sum, Adds, Progress, Pos, Legal, Packed, Blocks, Blk, Sub;
    ghost var va, vb, s, s1, s2 := View(a[..], ap, lda), View(b[..], bp, ldb), c[..], a1[..], b1[..];
    var nb := nnb * CBN;
    var w := n - nb;
    ghost var vr, pr := Sub(vb, 0, nb), Pos(cp, ldc, 0, nb);
    Begin(s, pr, ldc, w, va, vr, CBM, w, p);
    var i := 0;
    while i < nmb
      invariant 0 <= i <= nmb && va.s == a[..] && vb.s == b[..] && s1 == a1[..] && s2 == b1[..]
      invariant Blocks(c1[..], nnb, nnb * nmb, vc, va, vb, nnb * i, 0, p)
      invariant Progress(s, c[..], pr, ldc, w, va, vr, Plan(i * CBM, CBM, 0, w, 0, p))
    {
      ghost var t := c[..];
      var j := 0;
      while j < nnb
        invariant 0 <= j <= nnb && va.s == a[..] && vb.s == b[..] && s1 == a1[..] && s2 == b1[..] && t == c[..]
        invariant Blocks(c1[..], nnb, nnb * nmb, vc, va, vb, nnb * i + j, 0, p)
      {
        MainBlock(i, j, p, nmb, nnb, npb, a1, b1, c1, a, ap, lda, b, bp, ldb, m, n, vc);
        j := j + 1;
      }
      if nb < n {
        LegalSub(a.Length, ap, lda, m, p, i * CBM, 0, CBM, p);
        LegalSub(b.Length, bp, ldb, p, n, 0, nb, p, w);
        LegalSub(c.Length, cp, ldc, m, n, i * CBM, nb, CBM, w);
        EdgeTile(CBM, w, p, a, Pos(ap, lda, i * CBM, 0), lda, b, Pos(bp, ldb, 0, nb), ldb,
                 c, Pos(cp, ldc, i * CBM, nb), ldc);
        EdgePointers(va, vb, cp, ldc, i * CBM, nb);
        TileStep(s, t, c[..], pr, ldc, w, va, vr, Plan(i * CBM, CBM, 0, w, 0, p), p);
        NextTile(s, c[..], pr, ldc, w, va, vr, Plan(i * CBM, CBM, 0, w, p, p), w);
        NextRows(s, c[..], pr, ldc, w, va, vr, Plan(i * CBM, CBM, w, w, 0, p), CBM, w);
      } else {
        NextRows(s, c[..], pr, ldc, w, va, vr, Plan(i * CBM, CBM, 0, w, 0, p), CBM, w);
      }
      assert nnb * (i + 1) == nnb * i + nnb;
      i := i + 1;
    }
    AllRows(s, c[..], pr, ldc, w, va, vr, Plan(i * CBM, CBM, 0, w, 0, p));
  }

  method MmCb(m: int, n: int, p: int, a: array<T>, ap: int, lda: int, b: array<T>, bp: int, ldb: int,
              c: array<T>, cp: int, ldc: int)
    requires a != c && b != c && p >= 0
    requires Legal(a.Length, ap, lda, m, p) && Legal(b.Length, bp, ldb, p, n) && Legal(c.Length, cp, ldc, m, n)
    modifies c
    ensures Adds(old(c[..]), c[..], cp, ldc, m, n, View(a[..], ap, lda), View(b[..], bp, ldb), p)
  {
    hide At, Sum, Adds, Progress, Pos, Packed, Blocks, MainSame, Blk;
    assert m >= 0 && 0 <= n <= ldc;
    hide Legal;
    ghost var va, vb, s0 := View(a[..], ap, lda), View(b[..], bp, ldb), c[..];
    var nmb, nnb, npb := m / CBM, n / CBN, p / CBK;
    var mb, nb, pb := nmb * CBM, nnb * CBN, npb * CBK;
    Sizes(nmb, npb, CBM, CBK);
    Sizes(npb, nnb, CBK, CBN);
    Sizes(nmb, nnb, CBM, CBN);
    var a1, b1, c1 := new T[mb * pb], new T[pb * nb], new T[mb * nb];
    LegalPrefix(a.Length, ap, lda, m, p, mb, pb);
    LegalPrefix(b.Length, bp, ldb, p, n, pb, nb);
    LegalPrefix(c.Length, cp, ldc, m, n, mb, nb);
    PackBlocks(a1, a, ap, lda, nmb, npb, CBM, CBK);
    PackBlocks(b1, b, bp, ldb, npb, nnb, CBK, CBN);
    PackBlocks(c1, c, cp, ldc, nmb, nnb, CBM, CBN);
    ghost var vc := View(s0, cp, ldc);
    assert c[..] == s0;
    BlocksStart(c1[..], nnb, nnb * nmb, vc, va, vb, p);
    BlockRows(nmb, nnb, npb, m, n, p, a1, b1, c1, a, ap, lda, b, bp, ldb, c, cp, ldc, vc);
    ghost var s1 := c[..];
    if mb < m {
      LegalSub(a.Length, ap, lda, m, p, mb, 0, m - mb, p);
      LegalSub(c.Length, cp, ldc, m, n, mb, 0, m - mb, n);
      BottomEdge(m - mb, n, p, a, Pos(ap, lda, mb, 0), lda, b, bp, ldb, c, Pos(cp, ldc, mb, 0), ldc);
    } else {
      NothingAdded(s1, Pos(cp, ldc, mb, 0), ldc, n, Sub(va, mb, 0), vb, p);
    }
    ghost var s2 := c[..];
    EdgesLeaveMain(s0, s1, s2, cp, ldc, m, n, mb, nb, va, vb, p);
    Unpack(c, cp, ldc, c1, nmb, nnb, p, s0, va, vb);
    PartsMakeWhole(s0, s1, s2, c[..], cp, ldc, m, n, mb, nb, va, vb, p);
  }

  /** `C := C + A * B` in the window, and nothing else changes, whichever path is taken. */
  method Mm(m: int, n: int, p: int, a: array<T>, ap: int, lda: int, b: array<T>, bp: int, ldb: int,
            c: array<T>, cp: int, ldc: int)
    requires a != c && b != c && p >= 0
    requires Legal(a.Length, ap, lda, m, p) && Legal(b.Length, bp, ldb, p, n) && Legal(c.Length, cp, ldc, m, n)
    modifies c
    ensures Adds(old(c[..]), c[..], cp, ldc, m, n, View(a[..], ap, lda), View(b[..], bp, ldb), p)
  {
    if m <= 2 * CBM && n <= 2 * CBN && p <= 2 * CBK {
      MmRb(m, n, p, a, ap, lda, b, bp, ldb, c, cp, ldc);
    } else {
      MmCb(m, n, p, a, ap, lda, b, bp, ldb, c, cp, ldc);
    }
  }

  /** What the window holds afterwards, element by element. */
  lemma AddsIsTheProduct(s: seq<T>, t: seq<T>, p: int, ld: int, m: int, n: int, a: View, b: View, k: int,
                         i: int, j: int)
    requires Adds(s, t, p, ld, m, n, a, b, k) && Legal(|s|, p, ld, m, n) && 0 <= i < m && 0 <= j < n
    ensures At(View(t, p, ld), i, j) == At(View(s, p, ld), i, j) + Sum(a, b, i, j, k)
  {
    LegalPos(|s|, p, ld, m, n, i, j);
    RowCol(p, ld, i, j);
    hide Sum, Row, Col;
  }
}
