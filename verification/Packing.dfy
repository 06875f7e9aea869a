/** Copying windows, and packing a matrix block by block into consecutive storage. */
module Packing {
  import opened Numbers
  import opened Matrix
  import MatMul

  /** `t` is `s` with the window overwritten by the elements of `v`. */
  ghost predicate Copied(s: seq<T>, t: seq<T>, p: int, ld: int, m: int, n: int, v: View) {
    && |t| == |s|
    && forall q | 0 <= q < |s| ::
         t[q] == if Inside(p, ld, m, n, q) then At(v, Row(p, ld, q), Col(p, ld, q)) else s[q]
  }

  predicate Before(i: int, j: int, n: int, r: int, c: int) {
    0 <= c < n && (0 <= r < i || (r == i && c < j))
  }

  ghost predicate CopiedTo(s: seq<T>, t: seq<T>, p: int, ld: int, n: int, v: View, i: int, j: int) {
    && |t| == |s|
    && forall q | 0 <= q < |s| ::
         t[q] == if Before(i, j, n, Row(p, ld, q), Col(p, ld, q)) then At(v, Row(p, ld, q), Col(p, ld, q)) else s[q]
  }

  lemma CopyStart(s: seq<T>, p: int, ld: int, n: int, v: View)
    ensures CopiedTo(s, s, p, ld, n, v, 0, 0)
  {
  }

  lemma CopyStep(s: seq<T>, t: seq<T>, p: int, ld: int, n: int, v: View, i: int, j: int)
    requires CopiedTo(s, t, p, ld, n, v, i, j) && 0 <= i && 0 <= j < n <= ld && 0 <= Pos(p, ld, i, j) < |s|
    ensures CopiedTo(s, t[Pos(p, ld, i, j) := At(v, i, j)], p, ld, n, v, i, j + 1)
  {
    var at := Pos(p, ld, i, j);
    RowCol(p, ld, i, j);
    hide At;
    forall q | 0 <= q < |s|
      ensures t[at := At(v, i, j)][q] ==
                if Before(i, j + 1, n, Row(p, ld, q), Col(p, ld, q)) then At(v, Row(p, ld, q), Col(p, ld, q)) else s[q]
    {
      PosOf(p, ld, q);
      hide Row, Col;
    }
  }

  lemma CopyRow(s: seq<T>, t: seq<T>, p: int, ld: int, n: int, v: View, i: int)
    requires i >= 0 && CopiedTo(s, t, p, ld, n, v, i, n)
    ensures CopiedTo(s, t, p, ld, n, v, i + 1, 0)
  {
    hide Row, Col, At;
  }

  lemma CopyEnd(s: seq<T>, t: seq<T>, p: int, ld: int, n: int, v: View, m: int)
    requires CopiedTo(s, t, p, ld, n, v, m, 0)
    ensures Copied(s, t, p, ld, m, n, v)
  {
    hide Row, Col, At;
  }

  method CopyCell(x: T, dst: array<T>, dp: int, ldd: int, i: int, j: int,
                  ghost s: seq<T>, ghost m: int, ghost n: int, ghost v: View)
    requires Legal(dst.Length, dp, ldd, m, n) && 0 <= i < m && 0 <= j < n && x == At(v, i, j) && |s| == dst.Length
    requires CopiedTo(s, dst[..], dp, ldd, n, v, i, j)
    modifies dst
    ensures CopiedTo(s, dst[..], dp, ldd, n, v, i, j + 1)
  {
    LegalPos(dst.Length, dp, ldd, m, n, i, j);
    CopyStep(s, dst[..], dp, ldd, n, v, i, j);
    hide CopiedTo, At, Legal, Pos;
    dst[Pos(dp, ldd, i, j)] := x;
  }

  /** Eight elements are read before they are written. */
  method CopyEight(dst: array<T>, dp: int, ldd: int, src: array<T>, sp: int, lds: int, i: int, j: int,
                   ghost s: seq<T>, ghost m: int, ghost n: int)
    requires dst != src && Legal(dst.Length, dp, ldd, m, n) && Legal(src.Length, sp, lds, m, n) && |s| == dst.Length
    requires 0 <= i < m && 0 <= j && j + 8 <= n
    requires CopiedTo(s, dst[..], dp, ldd, n, View(src[..], sp, lds), i, j)
    modifies dst
    ensures CopiedTo(s, dst[..], dp, ldd, n, View(src[..], sp, lds), i, j + 8)
  {
    hide CopiedTo, At, Legal;
    ghost var v := View(src[..], sp, lds);
    var t0 := MatMul.Load(src, sp, lds, i, j, m, n);
    var t1 := MatMul.Load(src, sp, lds, i, j + 1, m, n);
    var t2 := MatMul.Load(src, sp, lds, i, j + 2, m, n);
    var t3 := MatMul.Load(src, sp, lds, i, j + 3, m, n);
    var t4 := MatMul.Load(src, sp, lds, i, j + 4, m, n);
    var t5 := MatMul.Load(src, sp, lds, i, j + 5, m, n);
    var t6 := MatMul.Load(src, sp, lds, i, j + 6, m, n);
    var t7 := MatMul.Load(src, sp, lds, i, j + 7, m, n);
    CopyCell(t0, dst, dp, ldd, i, j, s, m, n, v);
    CopyCell(t1, dst, dp, ldd, i, j + 1, s, m, n, v);
    CopyCell(t2, dst, dp, ldd, i, j + 2, s, m, n, v);
    CopyCell(t3, dst, dp, ldd, i, j + 3, s, m, n, v);
    CopyCell(t4, dst, dp, ldd, i, j + 4, s, m, n, v);
    CopyCell(t5, dst, dp, ldd, i, j + 5, s, m, n, v);
    CopyCell(t6, dst, dp, ldd, i, j + 6, s, m, n, v);
    CopyCell(t7, dst, dp, ldd, i, j + 7, s, m, n, v);
    assert v.s == src[..];
  }

  method Repack(dst: array<T>, dp: int, ldd: int, src: array<T>, sp: int, lds: int, m: int, n: int)
    requires dst != src && Legal(dst.Length, dp, ldd, m, n) && Legal(src.Length, sp, lds, m, n)
    modifies dst
    ensures Copied(old(dst[..]), dst[..], dp, ldd, m, n, View(src[..], sp, lds))
  {
    ghost var s, v := dst[..], View(src[..], sp, lds);
    CopyStart(s, dp, ldd, n, v);
    assert m >= 0 && n >= 0;
    hide CopiedTo, At, Legal, Copied;
    var i := 0;
    while i < m
      invariant 0 <= i <= m && v.s == src[..] && CopiedTo(s, dst[..], dp, ldd, n, v, i, 0)
    {
      var j := 0;
      while j < n / 8 * 8
        invariant 0 <= j <= n / 8 * 8 && j % 8 == 0 && v.s == src[..] && CopiedTo(s, dst[..], dp, ldd, n, v, i, j)
      {
        CopyEight(dst, dp, ldd, src, sp, lds, i, j, s, m, n);
        j := j + 8;
      }
      while j < n
        invariant 0 <= j <= n && v.s == src[..] && CopiedTo(s, dst[..], dp, ldd, n, v, i, j)
      {
        var x := MatMul.Load(src, sp, lds, i, j, m, n);
        CopyCell(x, dst, dp, ldd, i, j, s, m, n, v);
        j := j + 1;
      }
      CopyRow(s, dst[..], dp, ldd, n, v, i);
      i := i + 1;
    }
    CopyEnd(s, dst[..], dp, ldd, n, v, m);
  }

  // -------- consecutive blocks --------

  /** Block `k` of blocks of `bm` rows and `bn` columns. */
  function Blk(k: int, bm: int, bn: int): int { k * (bm * bn) }

  function Block(d: seq<T>, k: int, bm: int, bn: int): View { View(d, Blk(k, bm, bn), bn) }

  lemma BlockPos(k: int, bm: int, bn: int, r: int, c: int)
    requires 0 <= r < bm && 0 <= c < bn
    ensures Blk(k, bm, bn) <= Pos(Blk(k, bm, bn), bn, r, c) < Blk(k + 1, bm, bn)
  {
    MulOrder(0, r, bn);
    MulStep(r, bm, bn);
    NextBlk(k, bm, bn);
  }

  lemma NextBlk(k: int, bm: int, bn: int)
    ensures Blk(k + 1, bm, bn) == Blk(k, bm, bn) + bm * bn
  {
    var z := bm * bn;
    assert (k + 1) * z == k * z + z;
  }

  lemma BlkOrder(k: int, k': int, bm: int, bn: int)
    requires k <= k' && bm > 0 && bn > 0
    ensures Blk(k, bm, bn) <= Blk(k', bm, bn)
  {
    MulOrder(0, bm, bn);
    MulOrder(k, k', bm * bn);
  }

  /** A block's window is all of its storage and nothing else. */
  lemma BlockInside(k: int, bm: int, bn: int, q: int)
    requires bm > 0 && bn > 0
    ensures Inside(Blk(k, bm, bn), bn, bm, bn, q) <==> Blk(k, bm, bn) <= q < Blk(k + 1, bm, bn)
  {
    var p := Blk(k, bm, bn);
    NextBlk(k, bm, bn);
    PosOf(p, bn, q);
    var r, c := Row(p, bn, q), Col(p, bn, q);
    hide Row, Col, Blk;
    if 0 <= r < bm {
      MulOrder(0, r, bn);
      MulStep(r, bm, bn);
    } else if r < 0 {
      MulOrder(r, -1, bn);
    } else {
      MulOrder(bm, r, bn);
    }
  }

  lemma BlockLegal(len: int, k: int, bm: int, bn: int)
    requires bm > 0 && bn > 0 && k >= 0 && Blk(k + 1, bm, bn) <= len
    ensures Legal(len, Blk(k, bm, bn), bn, bm, bn)
  {
    BlkOrder(0, k, bm, bn);
    BlockPos(k, bm, bn, bm - 1, bn - 1);
  }

  /** Element of block `k` after a change that stays inside block `k0`. */
  lemma OtherBlock(s: seq<T>, t: seq<T>, k0: int, k: int, bm: int, bn: int, r: int, c: int)
    requires bm > 0 && bn > 0 && k != k0 && 0 <= r < bm && 0 <= c < bn && |t| == |s|
    requires forall q | 0 <= q < |s| && !Inside(Blk(k0, bm, bn), bn, bm, bn, q) :: t[q] == s[q]
    ensures At(Block(t, k, bm, bn), r, c) == At(Block(s, k, bm, bn), r, c)
  {
    var q := Pos(Blk(k, bm, bn), bn, r, c);
    BlockPos(k, bm, bn, r, c);
    BlockInside(k0, bm, bn, q);
    if k < k0 {
      BlkOrder(k + 1, k0, bm, bn);
    } else {
      BlkOrder(k0 + 1, k, bm, bn);
    }
    hide Inside, Blk, Pos;
  }

  /** Element of the changed block itself. */
  lemma ThisBlock(d: seq<T>, k: int, bm: int, bn: int, r: int, c: int)
    requires 0 <= k && 0 <= r < bm && 0 <= c < bn && Blk(k + 1, bm, bn) <= |d|
    ensures var q := Pos(Blk(k, bm, bn), bn, r, c);
            && 0 <= q < |d| && At(Block(d, k, bm, bn), r, c) == d[q]
            && Inside(Blk(k, bm, bn), bn, bm, bn, q)
            && Row(Blk(k, bm, bn), bn, q) == r && Col(Blk(k, bm, bn), bn, q) == c
  {
    BlockPos(k, bm, bn, r, c);
    BlkOrder(0, k, bm, bn);
    RowCol(Blk(k, bm, bn), bn, r, c);
    hide Row, Col;
  }

  /** Block `k` holds the elements of `v` from row `r0` and column `c0` on. */
  ghost predicate BlockIs(d: seq<T>, k: int, bm: int, bn: int, v: View, r0: int, c0: int) {
    forall r, c | 0 <= r < bm && 0 <= c < bn :: At(Block(d, k, bm, bn), r, c) == At(v, r0 + r, c0 + c)
  }

  /** The first `count` blocks, in rows of `nj`, are packed. */
  ghost predicate Packed(d: seq<T>, nj: int, bm: int, bn: int, v: View, count: int) {
    nj > 0 ==> forall k | 0 <= k < count :: BlockIs(d, k, bm, bn, v, k / nj * bm, k % nj * bn)
  }

  lemma PackStep(s: seq<T>, t: seq<T>, nj: int, bm: int, bn: int, v: View, i: int, j: int)
    requires 0 <= i && 0 <= j < nj && bm > 0 && bn > 0
    requires Packed(s, nj, bm, bn, v, nj * i + j) && Blk(nj * i + j + 1, bm, bn) <= |s|
    requires Copied(s, t, Blk(nj * i + j, bm, bn), bn, bm, bn, Sub(v, i * bm, j * bn))
    ensures Packed(t, nj, bm, bn, v, nj * i + j + 1)
  {
    var k0 := nj * i + j;
    MulOrder(0, i, nj);
    DivIs(k0, nj, i, j);
    forall k | 0 <= k <= k0 ensures BlockIs(t, k, bm, bn, v, k / nj * bm, k % nj * bn) {
      forall r, c | 0 <= r < bm && 0 <= c < bn
        ensures At(Block(t, k, bm, bn), r, c) == At(v, k / nj * bm + r, k % nj * bn + c)
      {
        hide Inside, Row, Col, At, Blk, Pos, Sub;
        if k == k0 {
          ThisBlock(t, k0, bm, bn, r, c);
          SubAt(v, i * bm, j * bn, r, c);
        } else {
          OtherBlock(s, t, k0, k, bm, bn, r, c);
          assert BlockIs(s, k, bm, bn, v, k / nj * bm, k % nj * bn);
        }
      }
    }
  }

  lemma SmallerBlock(ni: int, nj: int, i: int, j: int, bm: int, bn: int)
    requires 0 <= i < ni && 0 <= j < nj && bm > 0 && bn > 0
    ensures 0 <= nj * i + j < nj * ni && Blk(nj * i + j + 1, bm, bn) <= Blk(nj * ni, bm, bn)
    ensures 0 <= i * bm && i * bm + bm <= ni * bm && 0 <= j * bn && j * bn + bn <= nj * bn
  {
    MulOrder(0, i, nj);
    MulStep(i, ni, nj);
    assert nj * i == i * nj && nj * ni == ni * nj;
    BlkOrder(nj * i + j + 1, nj * ni, bm, bn);
    MulOrder(0, i, bm);
    MulStep(i, ni, bm);
    MulOrder(0, j, bn);
    MulStep(j, nj, bn);
  }

  /** All blocks of an `ni * bm` by `nj * bn` matrix. */
  method PackBlocks(dst: array<T>, src: array<T>, sp: int, lds: int, ni: int, nj: int, bm: int, bn: int)
    requires dst != src && ni >= 0 && nj >= 0 && bm > 0 && bn > 0
    requires Legal(src.Length, sp, lds, ni * bm, nj * bn) && Blk(nj * ni, bm, bn) <= dst.Length
    modifies dst
    ensures Packed(dst[..], nj, bm, bn, View(src[..], sp, lds), nj * ni)
  {
    hide Packed, Copied, Legal, Blk;
    ghost var v := View(src[..], sp, lds);
    Nothing(dst[..], nj, bm, bn, v);
    var i := 0;
    while i < ni
      invariant 0 <= i <= ni && v.s == src[..] && Packed(dst[..], nj, bm, bn, v, nj * i)
    {
      var j := 0;
      while j < nj
        invariant 0 <= j <= nj && v.s == src[..] && Packed(dst[..], nj, bm, bn, v, nj * i + j)
      {
        ghost var s := dst[..];
        var k := nj * i + j;
        SmallerBlock(ni, nj, i, j, bm, bn);
        BlockLegal(dst.Length, k, bm, bn);
        LegalSub(src.Length, sp, lds, ni * bm, nj * bn, i * bm, j * bn, bm, bn);
        Repack(dst, Blk(k, bm, bn), bn, src, Pos(sp, lds, i * bm, j * bn), lds, bm, bn);
        PackStep(s, dst[..], nj, bm, bn, v, i, j);
        j := j + 1;
      }
      assert nj * (i + 1) == nj * i + nj;
      i := i + 1;
    }
  }

  lemma Nothing(d: seq<T>, nj: int, bm: int, bn: int, v: View)
    ensures Packed(d, nj, bm, bn, v, nj * 0)
  {
  }
}
