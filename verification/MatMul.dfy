/** Matrix multiplication: the naive kernel, the register-blocked one, and the cache-blocked one that packs
    its blocks first. */
module MatMul {
  import opened Numbers
  import opened Matrix

  const RBM := 4
  const RBN := 5
  const RBK := 6
  const CBM := 24
  const CBN := 25
  const CBK := 24

  lemma SumNext(a: View, b: View, i: int, j: int, k: int)
    requires k >= 0
    ensures Sum(a, b, i, j, 0) == 0.0
    ensures Sum(a, b, i, j, k + 1) == Sum(a, b, i, j, k) + Times(At(a, i, k), At(b, k, j))
  {
  }

  method Load(arr: array<T>, p: int, ld: int, i: int, j: int, ghost m: int, ghost n: int) returns (x: T)
    requires Legal(arr.Length, p, ld, m, n) && 0 <= i < m && 0 <= j < n
    ensures x == At(View(arr[..], p, ld), i, j)
  {
    LegalPos(arr.Length, p, ld, m, n, i, j);
    x := arr[Pos(p, ld, i, j)];
  }

  /** One element: four partial sums, then the terms that are left over. */
  method Inner(c0: T, i: int, j: int, p: int, a: array<T>, ap: int, lda: int, b: array<T>, bp: int, ldb: int,
               ghost m: int, ghost n: int)
    returns (v: T)
    requires 0 <= i < m && 0 <= j < n && 0 <= p
    requires Legal(a.Length, ap, lda, m, p) && Legal(b.Length, bp, ldb, p, n)
    ensures v == c0 + Sum(View(a[..], ap, lda), View(b[..], bp, ldb), i, j, p)
  {
    hide At, Sum, Times, Legal;
    ghost var va, vb := View(a[..], ap, lda), View(b[..], bp, ldb);
    var s0, s1, s2, s3 := c0, 0.0, 0.0, 0.0;
    var k := 0;
    SumNext(va, vb, i, j, 0);
    while k < p / 4 * 4
      invariant 0 <= k <= p / 4 * 4 && k % 4 == 0
      invariant s0 + s1 + s2 + s3 == c0 + Sum(va, vb, i, j, k)
    {
      s0 := Term(s0, i, j, k, p, a, ap, lda, b, bp, ldb, m, n);
      s1 := Term(s1, i, j, k + 1, p, a, ap, lda, b, bp, ldb, m, n);
      s2 := Term(s2, i, j, k + 2, p, a, ap, lda, b, bp, ldb, m, n);
      s3 := Term(s3, i, j, k + 3, p, a, ap, lda, b, bp, ldb, m, n);
      k := k + 4;
    }
    k := p / 4 * 4;
    while k < p
      invariant p / 4 * 4 <= k <= p
      invariant s0 + s1 + s2 + s3 == c0 + Sum(va, vb, i, j, k)
    {
      s0 := Term(s0, i, j, k, p, a, ap, lda, b, bp, ldb, m, n);
      k := k + 1;
    }
    v := (s0 + s1) + (s2 + s3);
  }

  method Term(s: T, i: int, j: int, k: int, ghost p: int, a: array<T>, ap: int, lda: int,
              b: array<T>, bp: int, ldb: int, ghost m: int, ghost n: int)
    returns (s': T)
    requires 0 <= i < m && 0 <= j < n && 0 <= k < p
    requires Legal(a.Length, ap, lda, m, p) && Legal(b.Length, bp, ldb, p, n)
    ensures var va, vb := View(a[..], ap, lda), View(b[..], bp, ldb);
            s' - s == Sum(va, vb, i, j, k + 1) - Sum(va, vb, i, j, k)
  {
    hide At, Sum, Times, Legal;
    SumNext(View(a[..], ap, lda), View(b[..], bp, ldb), i, j, k);
    var x := Load(a, ap, lda, i, k, m, p);
    var y := Load(b, bp, ldb, k, j, p, n);
    s' := Fma(x, y, s);
  }

  method MmNaive(m: int, n: int, p: int, a: array<T>, ap: int, lda: int, b: array<T>, bp: int, ldb: int,
                 c: array<T>, cp: int, ldc: int)
    requires a != c && b != c && p >= 0
    requires Legal(a.Length, ap, lda, m, p) && Legal(b.Length, bp, ldb, p, n) && Legal(c.Length, cp, ldc, m, n)
    modifies c
    ensures Adds(old(c[..]), c[..], cp, ldc, m, n, View(a[..], ap, lda), View(b[..], bp, ldb), p)
  {
    hide At, Sum, Pos, Adds, Progress;
    ghost var va, vb, s := View(a[..], ap, lda), View(b[..], bp, ldb), c[..];
    assert m >= 0 && 0 <= n <= ldc;
    Begin(s, cp, ldc, n, va, vb, 1, 1, p);
    hide Legal;
    var i := 0;
    while i < m
      invariant 0 <= i <= m && va.s == a[..] && vb.s == b[..]
      invariant Progress(s, c[..], cp, ldc, n, va, vb, Plan(i, 1, 0, 1, 0, p))
    {
      var j := 0;
      while j < n
        invariant 0 <= j <= n && va.s == a[..] && vb.s == b[..]
        invariant Progress(s, c[..], cp, ldc, n, va, vb, Plan(i, 1, j, 1, 0, p))
      {
        ghost var t, g := c[..], Plan(i, 1, j, 1, 0, p);
        LegalPos(c.Length, cp, ldc, m, n, i, j);
        var at := Pos(cp, ldc, i, j);
        var v := Inner(c[at], i, j, p, a, ap, lda, b, bp, ldb, m, n);
        CellOf(va, vb, i, j, p);
        CellAdds(t, at, ldc, Sub(va, i, 0), Sub(vb, 0, j), p, v);
        c[at] := v;
        TileStep(s, t, c[..], cp, ldc, n, va, vb, g, p);
        NextTile(s, c[..], cp, ldc, n, va, vb, g.(k := p), 1);
        j := j + 1;
      }
      NextRows(s, c[..], cp, ldc, n, va, vb, Plan(i, 1, j, 1, 0, p), 1, 1);
      i := i + 1;
    }
    AllRows(s, c[..], cp, ldc, n, va, vb, Plan(i, 1, 0, 1, 0, p));
  }

  lemma CellOf(a: View, b: View, i: int, j: int, k: int)
    requires k >= 0
    ensures Sum(Sub(a, i, 0), Sub(b, 0, j), 0, 0, k) == Sum(a, b, i, j, k)
  {
    SumSub(a, b, i, j, 0, 0, 0, k);
  }

  // -------- the register block --------

  /** The twenty accumulators. */
  datatype Lanes = Lanes(c0: T, c1: T, c2: T, c3: T, c4: T)

  datatype Tile = Tile(r0: Lanes, r1: Lanes, r2: Lanes, r3: Lanes)

  function Lane(r: Lanes, j: int): T {
    if j == 0 then r.c0 else if j == 1 then r.c1 else if j == 2 then r.c2 else if j == 3 then r.c3 else r.c4
  }

  /** Row `i` of the block has the first `k` terms. */
  predicate LanesAt(r: Lanes, c: View, a: View, b: View, i: int, k: int) {
    forall j | 0 <= j < RBN :: Lane(r, j) == At(c, i, j) + Sum(a, b, i, j, k)
  }

  predicate TileAt(t: Tile, c: View, a: View, b: View, k: int) {
    && LanesAt(t.r0, c, a, b, 0, k) && LanesAt(t.r1, c, a, b, 1, k)
    && LanesAt(t.r2, c, a, b, 2, k) && LanesAt(t.r3, c, a, b, 3, k)
  }

  method LoadLanes(c: array<T>, cp: int, ldc: int, i: int, ghost a: View, ghost b: View) returns (r: Lanes)
    requires Legal(c.Length, cp, ldc, RBM, RBN) && 0 <= i < RBM
    ensures LanesAt(r, View(c[..], cp, ldc), a, b, i, 0)
  {
    hide At, Times, Legal;
    var x0 := Load(c, cp, ldc, i, 0, RBM, RBN);
    var x1 := Load(c, cp, ldc, i, 1, RBM, RBN);
    var x2 := Load(c, cp, ldc, i, 2, RBM, RBN);
    var x3 := Load(c, cp, ldc, i, 3, RBM, RBN);
    var x4 := Load(c, cp, ldc, i, 4, RBM, RBN);
    r := Lanes(x0, x1, x2, x3, x4);
  }

  lemma LanesNext(r: Lanes, r': Lanes, c: View, a: View, b: View, i: int, k: int)
    requires k >= 0 && LanesAt(r, c, a, b, i, k)
    requires forall j | 0 <= j < RBN :: Lane(r', j) == Fma(At(a, i, k), At(b, k, j), Lane(r, j))
    ensures LanesAt(r', c, a, b, i, k + 1)
  {
    forall j | 0 <= j < RBN ensures Lane(r', j) == At(c, i, j) + Sum(a, b, i, j, k + 1) {
      SumNext(a, b, i, j, k);
    }
  }

  /** One term for the five elements of a row. */
  method UpdateLanes(r: Lanes, i: int, k: int, ghost p: int, a: array<T>, ap: int, lda: int,
                     b: array<T>, bp: int, ldb: int, ghost c: View)
    returns (r': Lanes)
    requires 0 <= i < RBM && 0 <= k < p && Legal(a.Length, ap, lda, RBM, p) && Legal(b.Length, bp, ldb, p, RBN)
    requires LanesAt(r, c, View(a[..], ap, lda), View(b[..], bp, ldb), i, k)
    ensures LanesAt(r', c, View(a[..], ap, lda), View(b[..], bp, ldb), i, k + 1)
  {
    hide At, Times, Sum, Legal, LanesAt, Fma;
    var x := Load(a, ap, lda, i, k, RBM, p);
    var y0 := Load(b, bp, ldb, k, 0, p, RBN);
    var y1 := Load(b, bp, ldb, k, 1, p, RBN);
    var y2 := Load(b, bp, ldb, k, 2, p, RBN);
    var y3 := Load(b, bp, ldb, k, 3, p, RBN);
    var y4 := Load(b, bp, ldb, k, 4, p, RBN);
    r' := Lanes(Fma(x, y0, r.c0), Fma(x, y1, r.c1), Fma(x, y2, r.c2), Fma(x, y3, r.c3), Fma(x, y4, r.c4));
    LanesNext(r, r', c, View(a[..], ap, lda), View(b[..], bp, ldb), i, k);
  }

  method UpdateTile(t: Tile, k: int, ghost p: int, a: array<T>, ap: int, lda: int,
                    b: array<T>, bp: int, ldb: int, ghost c: View)
    returns (t': Tile)
    requires 0 <= k < p && Legal(a.Length, ap, lda, RBM, p) && Legal(b.Length, bp, ldb, p, RBN)
    requires TileAt(t, c, View(a[..], ap, lda), View(b[..], bp, ldb), k)
    ensures TileAt(t', c, View(a[..], ap, lda), View(b[..], bp, ldb), k + 1)
  {
    hide LanesAt, Legal;
    var r0 := UpdateLanes(t.r0, 0, k, p, a, ap, lda, b, bp, ldb, c);
    var r1 := UpdateLanes(t.r1, 1, k, p, a, ap, lda, b, bp, ldb, c);
    var r2 := UpdateLanes(t.r2, 2, k, p, a, ap, lda, b, bp, ldb, c);
    var r3 := UpdateLanes(t.r3, 3, k, p, a, ap, lda, b, bp, ldb, c);
    t' := Tile(r0, r1, r2, r3);
  }

  lemma Untouched(s: seq<T>, t: seq<T>, p: int, ld: int, n: int, a: View, b: View, i: int, j: int, full: int)
    requires Progress(s, t, p, ld, n, a, b, Plan(i, 1, j, 1, 0, full)) && 0 <= j < n <= ld
    requires 0 <= Pos(p, ld, i, j) < |s|
    ensures |t| == |s| && t[Pos(p, ld, i, j)] == s[Pos(p, ld, i, j)]
  {
    RowCol(p, ld, i, j);
    hide Row, Col, Pos;
    SumNext(a, b, i, j, 0);
  }

  /** Element `(i, j)` of the block gets its final value. */
  method StoreLane(v: T, i: int, j: int, p: int, c: array<T>, cp: int, ldc: int,
                   ghost s: seq<T>, ghost a: View, ghost b: View)
    requires 0 <= i < RBM && 0 <= j < RBN && p >= 0 && Legal(c.Length, cp, ldc, RBM, RBN)
    requires |s| == c.Length && v == At(View(s, cp, ldc), i, j) + Sum(a, b, i, j, p)
    requires Progress(s, c[..], cp, ldc, RBN, a, b, Plan(i, 1, j, 1, 0, p))
    modifies c
    ensures Progress(s, c[..], cp, ldc, RBN, a, b, Plan(i, 1, j + 1, 1, 0, p))
  {
    assert RBN <= ldc;
    hide Sum, Pos, Adds, Progress;
    ghost var t, g := c[..], Plan(i, 1, j, 1, 0, p);
    LegalPos(c.Length, cp, ldc, RBM, RBN, i, j);
    hide Legal;
    var at := Pos(cp, ldc, i, j);
    Untouched(s, t, cp, ldc, RBN, a, b, i, j, p);
    CellOf(a, b, i, j, p);
    CellAdds(t, at, ldc, Sub(a, i, 0), Sub(b, 0, j), p, v);
    c[at] := v;
    TileStep(s, t, c[..], cp, ldc, RBN, a, b, g, p);
    NextTile(s, c[..], cp, ldc, RBN, a, b, g.(k := p), 1);
  }

  method StoreLanes(r: Lanes, i: int, p: int, c: array<T>, cp: int, ldc: int,
                    ghost s: seq<T>, ghost a: View, ghost b: View)
    requires 0 <= i < RBM && p >= 0 && Legal(c.Length, cp, ldc, RBM, RBN) && |s| == c.Length
    requires LanesAt(r, View(s, cp, ldc), a, b, i, p)
    requires Progress(s, c[..], cp, ldc, RBN, a, b, Plan(i, 1, 0, 1, 0, p))
    modifies c
    ensures Progress(s, c[..], cp, ldc, RBN, a, b, Plan(i + 1, 1, 0, 1, 0, p))
  {
    hide At, Sum, Progress, Legal;
    StoreLane(Lane(r, 0), i, 0, p, c, cp, ldc, s, a, b);
    StoreLane(Lane(r, 1), i, 1, p, c, cp, ldc, s, a, b);
    StoreLane(Lane(r, 2), i, 2, p, c, cp, ldc, s, a, b);
    StoreLane(Lane(r, 3), i, 3, p, c, cp, ldc, s, a, b);
    StoreLane(Lane(r, 4), i, 4, p, c, cp, ldc, s, a, b);
    NextRows(s, c[..], cp, ldc, RBN, a, b, Plan(i, 1, RBN, 1, 0, p), 1, 1);
  }

  /** The register-blocked kernel: six terms at a time, then one at a time. */
  method Kloop(p: int, a: array<T>, ap: int, lda: int, b: array<T>, bp: int, ldb: int, c: array<T>, cp: int, ldc: int)
    requires a != c && b != c && p >= 0
    requires Legal(a.Length, ap, lda, RBM, p) && Legal(b.Length, bp, ldb, p, RBN) && Legal(c.Length, cp, ldc, RBM, RBN)
    modifies c
    ensures Adds(old(c[..]), c[..], cp, ldc, RBM, RBN, View(a[..], ap, lda), View(b[..], bp, ldb), p)
  {
    hide At, Sum, Adds, Progress, Legal, LanesAt;
    ghost var va, vb, s := View(a[..], ap, lda), View(b[..], bp, ldb), c[..];
    ghost var vc := View(s, cp, ldc);
    var r0 := LoadLanes(c, cp, ldc, 0, va, vb);
    var r1 := LoadLanes(c, cp, ldc, 1, va, vb);
    var r2 := LoadLanes(c, cp, ldc, 2, va, vb);
    var r3 := LoadLanes(c, cp, ldc, 3, va, vb);
    var t := Tile(r0, r1, r2, r3);
    var k := 0;
    while k < p / RBK * RBK
      invariant 0 <= k <= p / RBK * RBK && k % RBK == 0 && s == c[..] && TileAt(t, vc, va, vb, k)
    {
      t := UpdateTile(t, k, p, a, ap, lda, b, bp, ldb, vc);
      t := UpdateTile(t, k + 1, p, a, ap, lda, b, bp, ldb, vc);
      t := UpdateTile(t, k + 2, p, a, ap, lda, b, bp, ldb, vc);
      t := UpdateTile(t, k + 3, p, a, ap, lda, b, bp, ldb, vc);
      t := UpdateTile(t, k + 4, p, a, ap, lda, b, bp, ldb, vc);
      t := UpdateTile(t, k + 5, p, a, ap, lda, b, bp, ldb, vc);
      k := k + RBK;
    }
    while k < p
      invariant p / RBK * RBK <= k <= p && s == c[..] && TileAt(t, vc, va, vb, k)
    {
      t := UpdateTile(t, k, p, a, ap, lda, b, bp, ldb, vc);
      k := k + 1;
    }
    Begin(s, cp, ldc, RBN, va, vb, 1, 1, p);
    StoreLanes(t.r0, 0, p, c, cp, ldc, s, va, vb);
    StoreLanes(t.r1, 1, p, c, cp, ldc, s, va, vb);
    StoreLanes(t.r2, 2, p, c, cp, ldc, s, va, vb);
    StoreLanes(t.r3, 3, p, c, cp, ldc, s, va, vb);
    AllRows(s, c[..], cp, ldc, RBN, va, vb, Plan(RBM, 1, 0, 1, 0, p));
  }

  // -------- register blocking --------

  method MmRb(m: int, n: int, p: int, a: array<T>, ap: int, lda: int, b: array<T>, bp: int, ldb: int,
              c: array<T>, cp: int, ldc: int)
    requires a != c && b != c && p >= 0
    requires Legal(a.Length, ap, lda, m, p) && Legal(b.Length, bp, ldb, p, n) && Legal(c.Length, cp, ldc, m, n)
    modifies c
    ensures Adds(old(c[..]), c[..], cp, ldc, m, n, View(a[..], ap, lda), View(b[..], bp, ldb), p)
  {
    hide At, Sum, Pos, Adds, Progress;
    ghost var va, vb, s := View(a[..], ap, lda), View(b[..], bp, ldb), c[..];
    assert m >= 0 && 0 <= n <= ldc;
    hide Legal;
    var mb, nb := m / RBM * RBM, n / RBN * RBN;
    Begin(s, cp, ldc, n, va, vb, RBM, RBN, p);
    var i := 0;
    while i < mb
      invariant 0 <= i <= mb && i % RBM == 0 && va.s == a[..] && vb.s == b[..]
      invariant Progress(s, c[..], cp, ldc, n, va, vb, Plan(i, RBM, 0, RBN, 0, p))
    {
      LegalSub(a.Length, ap, lda, m, p, i, 0, RBM, p);
      var j := 0;
      while j < nb
        invariant 0 <= j <= nb && j % RBN == 0 && va.s == a[..] && vb.s == b[..]
        invariant Progress(s, c[..], cp, ldc, n, va, vb, Plan(i, RBM, j, RBN, 0, p))
      {
        ghost var t, g := c[..], Plan(i, RBM, j, RBN, 0, p);
        LegalSub(b.Length, bp, ldb, p, n, 0, j, p, RBN);
        LegalSub(c.Length, cp, ldc, m, n, i, j, RBM, RBN);
        Kloop(p, a, Pos(ap, lda, i, 0), lda, b, Pos(bp, ldb, 0, j), ldb, c, Pos(cp, ldc, i, j), ldc);
        TileStep(s, t, c[..], cp, ldc, n, va, vb, g, p);
        NextTile(s, c[..], cp, ldc, n, va, vb, g.(k := p), RBN);
        j := j + RBN;
      }
      ghost var t, g := c[..], Plan(i, RBM, nb, n - nb, 0, p);
      Regard(s, t, cp, ldc, n, va, vb, Plan(i, RBM, nb, RBN, 0, p), g);
      LegalSub(b.Length, bp, ldb, p, n, 0, nb, p, n - nb);
      LegalSub(c.Length, cp, ldc, m, n, i, nb, RBM, n - nb);
      MmNaive(RBM, n - nb, p, a, Pos(ap, lda, i, 0), lda, b, Pos(bp, ldb, 0, nb), ldb, c, Pos(cp, ldc, i, nb), ldc);
      TileStep(s, t, c[..], cp, ldc, n, va, vb, g, p);
      NextTile(s, c[..], cp, ldc, n, va, vb, g.(k := p), 0);
      NextRows(s, c[..], cp, ldc, n, va, vb, Plan(i, RBM, n, 0, 0, p), RBM, RBN);
      i := i + RBM;
    }
    ghost var t, g := c[..], Plan(mb, m - mb, 0, n, 0, p);
    Regard(s, t, cp, ldc, n, va, vb, Plan(mb, RBM, 0, RBN, 0, p), g);
    LegalSub(a.Length, ap, lda, m, p, mb, 0, m - mb, p);
    LegalSub(b.Length, bp, ldb, p, n, 0, 0, p, n);
    LegalSub(c.Length, cp, ldc, m, n, mb, 0, m - mb, n);
    MmNaive(m - mb, n, p, a, Pos(ap, lda, mb, 0), lda, b, Pos(bp, ldb, 0, 0), ldb, c, Pos(cp, ldc, mb, 0), ldc);
    TileStep(s, t, c[..], cp, ldc, n, va, vb, g, p);
    NextTile(s, c[..], cp, ldc, n, va, vb, g.(k := p), 0);
    Finish(s, c[..], cp, ldc, n, va, vb, Plan(mb, m - mb, n, 0, 0, p));
  }
}
