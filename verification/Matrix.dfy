/** Matrices as windows into flat arrays, and what it means to add a product to one. Elements are exact
    reals. */
module Matrix {
  import opened Numbers

  type T = real

  function Times(x: T, y: T): T { x * y }

  function Fma(x: T, y: T, z: T): T { Times(x, y) + z }

  /** Where element `(i, j)` is, behind pointer `p` with `ld` elements from row to row. */
  function Pos(p: int, ld: int, i: int, j: int): int { p + i * ld + j }

  datatype View = View(s: seq<T>, p: int, ld: int)

  function At(v: View, i: int, j: int): T {
    var q := Pos(v.p, v.ld, i, j);
    if 0 <= q < |v.s| then v.s[q] else 0.0
  }

  /** The window behind a pointer moved by `i` rows and `j` columns. */
  function Sub(v: View, i: int, j: int): View { View(v.s, Pos(v.p, v.ld, i, j), v.ld) }

  /** The first `k` terms of element `(i, j)` of the product. */
  function Sum(a: View, b: View, i: int, j: int, k: int): T
    decreases k
  {
    if k <= 0 then 0.0 else Sum(a, b, i, j, k - 1) + Times(At(a, i, k - 1), At(b, k - 1, j))
  }

  /** All of an `m` by `n` window lies in an array of `len` elements, and its rows do not overlap. */
  predicate Legal(len: int, p: int, ld: int, m: int, n: int) {
    && 0 <= p && 0 <= m && 0 <= n <= ld
    && (m > 0 && n > 0 ==> Pos(p, ld, m - 1, n - 1) < len)
  }

  lemma PosMoved(p: int, ld: int, i0: int, j0: int, i: int, j: int)
    ensures Pos(Pos(p, ld, i0, j0), ld, i, j) == Pos(p, ld, i0 + i, j0 + j)
  {
    assert (i0 + i) * ld == i0 * ld + i * ld;
  }

  lemma LegalPos(len: int, p: int, ld: int, m: int, n: int, i: int, j: int)
    requires Legal(len, p, ld, m, n) && 0 <= i < m && 0 <= j < n
    ensures 0 <= Pos(p, ld, i, j) < len
  {
    MulOrder(i, m - 1, ld);
    MulOrder(0, i, ld);
  }

  lemma LegalSub(len: int, p: int, ld: int, m: int, n: int, i: int, j: int, m': int, n': int)
    requires Legal(len, p, ld, m, n) && 0 <= i && 0 <= j && 0 <= m' && 0 <= n' && i + m' <= m && j + n' <= n
    ensures Legal(len, Pos(p, ld, i, j), ld, m', n')
  {
    MulOrder(0, i, ld);
    if m' > 0 && n' > 0 {
      PosMoved(p, ld, i, j, m' - 1, n' - 1);
      LegalPos(len, p, ld, m, n, i + m' - 1, j + n' - 1);
    }
  }

  lemma SubAt(v: View, i0: int, j0: int, i: int, j: int)
    ensures At(Sub(v, i0, j0), i, j) == At(v, i0 + i, j0 + j)
  {
    PosMoved(v.p, v.ld, i0, j0, i, j);
  }

  /** The terms of a moved pair of windows are the later terms of the sum. */
  lemma {:induction false} SumSub(a: View, b: View, i0: int, j0: int, k0: int, i: int, j: int, k: int)
    requires k0 >= 0 && k >= 0
    ensures Sum(a, b, i0 + i, j0 + j, k0 + k) ==
              Sum(a, b, i0 + i, j0 + j, k0) + Sum(Sub(a, i0, k0), Sub(b, k0, j0), i, j, k)
    decreases k
  {
    if k > 0 {
      SumSub(a, b, i0, j0, k0, i, j, k - 1);
      SubAt(a, i0, k0, i, k - 1);
      SubAt(b, k0, j0, k - 1, j);
      hide At, Sub, Times;
    }
  }

  /** Sums are equal if their factors are. */
  lemma {:induction false} SumEqual(a: View, b: View, i: int, j: int, a': View, b': View, i': int, j': int, k: int)
    requires forall r | 0 <= r < k :: At(a, i, r) == At(a', i', r) && At(b, r, j) == At(b', r, j')
    ensures Sum(a, b, i, j, k) == Sum(a', b', i', j', k)
    decreases k
  {
    if k > 0 {
      SumEqual(a, b, i, j, a', b', i', j', k - 1);
      hide At;
    }
  }

  // -------- rows and columns of a position --------

  function Row(p: int, ld: int, q: int): int { if ld <= 0 then -1 else (q - p) / ld }

  function Col(p: int, ld: int, q: int): int { if ld <= 0 then -1 else (q - p) % ld }

  predicate Inside(p: int, ld: int, m: int, n: int, q: int) {
    0 <= Row(p, ld, q) < m && 0 <= Col(p, ld, q) < n
  }

  lemma RowCol(p: int, ld: int, i: int, j: int)
    requires 0 <= j < ld
    ensures Row(p, ld, Pos(p, ld, i, j)) == i && Col(p, ld, Pos(p, ld, i, j)) == j
  {
    DivIs(i * ld + j, ld, i, j);
  }

  lemma PosOf(p: int, ld: int, q: int)
    requires ld > 0
    ensures q == Pos(p, ld, Row(p, ld, q), Col(p, ld, q)) && 0 <= Col(p, ld, q) < ld
  {
    var r: int := (q - p) / ld;
    assert q - p == r * ld + (q - p) % ld;
  }

  /** A position inside a window of a window. */
  lemma InsideSub(p: int, ld: int, i0: int, j0: int, m: int, n: int, q: int)
    requires 0 <= j0 && j0 + n <= ld && n >= 0
    ensures Inside(Pos(p, ld, i0, j0), ld, m, n, q) <==>
              i0 <= Row(p, ld, q) < i0 + m && j0 <= Col(p, ld, q) < j0 + n
    ensures Inside(Pos(p, ld, i0, j0), ld, m, n, q) ==>
              && Row(Pos(p, ld, i0, j0), ld, q) == Row(p, ld, q) - i0
              && Col(Pos(p, ld, i0, j0), ld, q) == Col(p, ld, q) - j0
  {
    if ld > 0 {
      var p', r, c := Pos(p, ld, i0, j0), Row(p, ld, q), Col(p, ld, q);
      PosOf(p, ld, q);
      if c >= j0 {
        PosMoved(p, ld, i0, j0, r - i0, c - j0);
        RowCol(p', ld, r - i0, c - j0);
      } else {
        PosMoved(p, ld, i0, j0, r - i0 - 1, c - j0 + ld);
        NextRow(p, ld, r, c);
        RowCol(p', ld, r - i0 - 1, c - j0 + ld);
      }
      hide Pos, Row, Col;
    }
  }

  lemma NextRow(p: int, ld: int, r: int, c: int)
    ensures Pos(p, ld, r - 1, c + ld) == Pos(p, ld, r, c)
  {
    assert (r - 1) * ld == r * ld - ld;
  }

  // -------- adding a product --------

  /** `t` is `s` with the first `k` terms of the product added in the `m` by `n` window, and nothing else
      changed. */
  ghost predicate Adds(s: seq<T>, t: seq<T>, p: int, ld: int, m: int, n: int, a: View, b: View, k: int) {
    && |t| == |s|
    && forall q | 0 <= q < |s| ::
         t[q] == if Inside(p, ld, m, n, q) then s[q] + Sum(a, b, Row(p, ld, q), Col(p, ld, q), k) else s[q]
  }

  /** How far a blocked loop is: the rows before `i` have all `full` terms; of the next `h` rows the columns
      before `j` have them, and the next `w` columns have `k`. */
  datatype Plan = Plan(i: int, h: int, j: int, w: int, k: int, full: int)

  function Depth(g: Plan, n: int, r: int, c: int): int {
    if r < 0 || c < 0 || c >= n then 0
    else if r < g.i then g.full
    else if r >= g.i + g.h then 0
    else if c < g.j then g.full
    else if c < g.j + g.w then g.k
    else 0
  }

  ghost predicate Progress(s: seq<T>, t: seq<T>, p: int, ld: int, n: int, a: View, b: View, g: Plan) {
    && |t| == |s|
    && forall q | 0 <= q < |s| ::
         t[q] == s[q] + Sum(a, b, Row(p, ld, q), Col(p, ld, q), Depth(g, n, Row(p, ld, q), Col(p, ld, q)))
  }

  lemma Begin(s: seq<T>, p: int, ld: int, n: int, a: View, b: View, h: int, w: int, full: int)
    ensures Progress(s, s, p, ld, n, a, b, Plan(0, h, 0, w, 0, full))
  {
  }

  lemma Finish(s: seq<T>, t: seq<T>, p: int, ld: int, n: int, a: View, b: View, g: Plan)
    requires Progress(s, t, p, ld, n, a, b, g) && (g.h == 0 || g.j >= n) && g.h >= 0 && g.w >= 0
    ensures Adds(s, t, p, ld, g.i + g.h, n, a, b, g.full)
  {
    forall q | 0 <= q < |s|
      ensures t[q] == if Inside(p, ld, g.i + g.h, n, q)
                      then s[q] + Sum(a, b, Row(p, ld, q), Col(p, ld, q), g.full) else s[q]
    {
      assert t[q] == s[q] + Sum(a, b, Row(p, ld, q), Col(p, ld, q), Depth(g, n, Row(p, ld, q), Col(p, ld, q)));
      hide Row, Col;
    }
  }

  /** Two descriptions of the same stage. */
  lemma Regard(s: seq<T>, t: seq<T>, p: int, ld: int, n: int, a: View, b: View, g: Plan, g': Plan)
    requires Progress(s, t, p, ld, n, a, b, g)
    requires forall r, c :: Depth(g, n, r, c) == Depth(g', n, r, c)
    ensures Progress(s, t, p, ld, n, a, b, g')
  {
  }

  /** The tile is complete: on to the next one in these rows. */
  lemma NextTile(s: seq<T>, t: seq<T>, p: int, ld: int, n: int, a: View, b: View, g: Plan, w: int)
    requires Progress(s, t, p, ld, n, a, b, g) && g.k == g.full && g.w >= 0
    ensures Progress(s, t, p, ld, n, a, b, g.(j := g.j + g.w, w := w, k := 0))
  {
    Regard(s, t, p, ld, n, a, b, g, g.(j := g.j + g.w, w := w, k := 0));
  }

  /** These rows are complete: on to the next ones. */
  lemma NextRows(s: seq<T>, t: seq<T>, p: int, ld: int, n: int, a: View, b: View, g: Plan, h: int, w: int)
    requires Progress(s, t, p, ld, n, a, b, g) && g.j >= n && g.h >= 0
    ensures Progress(s, t, p, ld, n, a, b, Plan(g.i + g.h, h, 0, w, 0, g.full))
  {
    Regard(s, t, p, ld, n, a, b, g, Plan(g.i + g.h, h, 0, w, 0, g.full));
  }

  /** The loop has ended between rows. */
  lemma AllRows(s: seq<T>, t: seq<T>, p: int, ld: int, n: int, a: View, b: View, g: Plan)
    requires Progress(s, t, p, ld, n, a, b, g) && g.j == 0 && g.k == 0
    ensures Adds(s, t, p, ld, g.i, n, a, b, g.full)
  {
    Regard(s, t, p, ld, n, a, b, g, g.(h := 0));
    Finish(s, t, p, ld, n, a, b, g.(h := 0, w := 0));
  }

  /** A product added to the tile takes it `dk` terms further. */
  lemma TileStep(s: seq<T>, t: seq<T>, u: seq<T>, p: int, ld: int, n: int, a: View, b: View, g: Plan, dk: int)
    requires Progress(s, t, p, ld, n, a, b, g)
    requires 0 <= g.i && 0 <= g.j && 0 <= g.w && g.j + g.w <= n <= ld && g.k >= 0 && dk >= 0
    requires Adds(t, u, Pos(p, ld, g.i, g.j), ld, g.h, g.w, Sub(a, g.i, g.k), Sub(b, g.k, g.j), dk)
    ensures Progress(s, u, p, ld, n, a, b, g.(k := g.k + dk))
  {
    var p', g' := Pos(p, ld, g.i, g.j), g.(k := g.k + dk);
    hide Row, Col, Sum, Pos, Sub;
    forall q | 0 <= q < |s|
      ensures u[q] == s[q] + Sum(a, b, Row(p, ld, q), Col(p, ld, q), Depth(g', n, Row(p, ld, q), Col(p, ld, q)))
    {
      var r, c := Row(p, ld, q), Col(p, ld, q);
      InsideSub(p, ld, g.i, g.j, g.h, g.w, q);
      assert t[q] == s[q] + Sum(a, b, r, c, Depth(g, n, r, c));
      if Inside(p', ld, g.h, g.w, q) {
        SumSub(a, b, g.i, g.j, g.k, r - g.i, c - g.j, dk);
      }
    }
  }

  /** One element at a time. */
  lemma CellAdds(t: seq<T>, p: int, ld: int, a: View, b: View, k: int, v: T)
    requires 0 <= p < |t| && ld > 0 && v == t[p] + Sum(a, b, 0, 0, k)
    ensures Adds(t, t[p := v], p, ld, 1, 1, a, b, k)
  {
    RowCol(p, ld, 0, 0);
    forall q | 0 <= q < |t|
      ensures t[p := v][q] == if Inside(p, ld, 1, 1, q) then t[q] + Sum(a, b, Row(p, ld, q), Col(p, ld, q), k) else t[q]
    {
      PosOf(p, ld, q);
    }
  }
}
