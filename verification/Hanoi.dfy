/** Towers of Hanoi on linked lists whose nodes come from one pool. */
module Hanoi {
  import opened Numbers

  /** Take the first element of list `from` and put it in front of list `to`. */
  datatype Move = Move(from: nat, to: nat)

  type Lists = seq<seq<int>>

  predicate Possible(ls: Lists, m: Move) {
    m.from < |ls| && m.to < |ls| && m.from != m.to && ls[m.from] != []
  }

  function Apply(ls: Lists, m: Move): (r: Lists)
    ensures |r| == |ls|
  {
    if !Possible(ls, m) then ls
    else ls[m.from := ls[m.from][1..]][m.to := [ls[m.from][0]] + ls[m.to]]
  }

  // -------- the puzzle --------

  function ApplyAll(pegs: Lists, ms: seq<Move>): (r: Lists)
    ensures |r| == |pegs|
    decreases ms
  {
    if ms == [] then pegs else ApplyAll(Apply(pegs, ms[0]), ms[1..])
  }

  /** No larger disc is put on a smaller one. */
  predicate LegalMove(pegs: Lists, m: Move) {
    Possible(pegs, m) && (pegs[m.to] != [] ==> pegs[m.from][0] < pegs[m.to][0])
  }

  predicate AllLegal(pegs: Lists, ms: seq<Move>)
    decreases ms
  {
    ms == [] || (LegalMove(pegs, ms[0]) && AllLegal(Apply(pegs, ms[0]), ms[1..]))
  }

  /** The moves `towers_solve_h` makes. */
  function Moves(n: nat, start: nat, temp: nat, dest: nat): seq<Move>
    decreases n
  {
    if n == 0 then []
    else if n == 1 then [Move(start, dest)]
    else Moves(n - 1, start, dest, temp) + [Move(start, dest)] + Moves(n - 1, temp, start, dest)
  }

  predicate Ascending(s: seq<int>) { forall i, j | 0 <= i < j < |s| :: s[i] < s[j] }

  predicate Fits(top: seq<int>, peg: seq<int>) { top != [] && peg != [] ==> top[|top| - 1] < peg[0] }

  predicate Pegs(ls: Lists, start: nat, temp: nat, dest: nat) {
    |ls| == 3 && start < 3 && temp < 3 && dest < 3 && start != temp && temp != dest && start != dest
  }

  lemma {:induction false} ApplyConcat(pegs: Lists, ms: seq<Move>, ns: seq<Move>)
    ensures ApplyAll(pegs, ms + ns) == ApplyAll(ApplyAll(pegs, ms), ns)
    ensures AllLegal(pegs, ms + ns) <==> AllLegal(pegs, ms) && AllLegal(ApplyAll(pegs, ms), ns)
    decreases ms
  {
    if ms == [] {
      assert ms + ns == ns;
    } else {
      assert (ms + ns)[1..] == ms[1..] + ns;
      ApplyConcat(Apply(pegs, ms[0]), ms[1..], ns);
    }
  }

  /** The discs `top` have gone from peg to peg, leaving `rest`. */
  function Carried(pegs: Lists, start: nat, dest: nat, top: seq<int>, rest: seq<int>): (r: Lists)
    requires start < |pegs| && dest < |pegs|
    ensures |r| == |pegs|
  {
    pegs[start := rest][dest := top + pegs[dest]]
  }

  lemma OneMove(pegs: Lists, start: nat, dest: nat, top: seq<int>, rest: seq<int>)
    requires start < |pegs| && dest < |pegs| && start != dest && pegs[start] == top + rest && |top| == 1
    requires Fits(top, pegs[dest])
    ensures AllLegal(pegs, [Move(start, dest)])
    ensures ApplyAll(pegs, [Move(start, dest)]) == Carried(pegs, start, dest, top, rest)
  {
    var m := Move(start, dest);
    assert [m][1..] == [];
    assert pegs[start][1..] == rest && [pegs[start][0]] == top;
    assert Apply(pegs, m) == Carried(pegs, start, dest, top, rest);
    assert ApplyAll(Apply(pegs, m), []) == Apply(pegs, m);
  }

  /** All but the largest disc aside, the largest across, the others on top of it. */
  lemma ThreeSteps(pegs: Lists, start: nat, temp: nat, dest: nat, small: seq<int>, last: seq<int>, rest: seq<int>)
    requires Pegs(pegs, start, temp, dest) && pegs[start] == small + last + rest
    ensures var p1 := Carried(pegs, start, temp, small, last + rest);
            var p2 := Carried(p1, start, dest, last, rest);
            Carried(p2, temp, dest, small, pegs[temp]) == Carried(pegs, start, dest, small + last, rest)
  {
    assert small + (last + pegs[dest]) == small + last + pegs[dest];
    var p1 := Carried(pegs, start, temp, small, last + rest);
    var p2 := Carried(p1, start, dest, last, rest);
    var p3 := Carried(p2, temp, dest, small, pegs[temp]);
    forall k | 0 <= k < 3 ensures p3[k] == Carried(pegs, start, dest, small + last, rest)[k] {
    }
  }

  /** The `n` top discs go from one peg to another by legal moves, and nothing else changes. */
  lemma {:induction false} MovesCarryTower(pegs: Lists, n: nat, start: nat, temp: nat, dest: nat,
                                           top: seq<int>, rest: seq<int>)
    requires Pegs(pegs, start, temp, dest) && pegs[start] == top + rest && |top| == n
    requires Ascending(top) && Fits(top, rest) && Fits(top, pegs[temp]) && Fits(top, pegs[dest])
    ensures var ms := Moves(n, start, temp, dest);
            AllLegal(pegs, ms) && ApplyAll(pegs, ms) == Carried(pegs, start, dest, top, rest)
    decreases n
  {
    if n == 0 {
      assert top + rest == rest && top + pegs[dest] == pegs[dest];
      assert Carried(pegs, start, dest, top, rest) == pegs;
    } else if n == 1 {
      OneMove(pegs, start, dest, top, rest);
    } else {
      var small, last := top[..n - 1], top[n - 1..];
      assert small + last == top && small + (last + rest) == small + last + rest == pegs[start];
      hide AllLegal, ApplyAll;
      var p1 := Carried(pegs, start, temp, small, last + rest);
      var p2 := Carried(p1, start, dest, last, rest);
      var a, b, c := Moves(n - 1, start, dest, temp), [Move(start, dest)], Moves(n - 1, temp, start, dest);
      MovesCarryTower(pegs, n - 1, start, dest, temp, small, last + rest);
      OneMove(p1, start, dest, last, rest);
      assert p2[temp] == small + pegs[temp] && p2[start] == rest && p2[dest] == last + pegs[dest];
      MovesCarryTower(p2, n - 1, temp, start, dest, small, pegs[temp]);
      ThreeSteps(pegs, start, temp, dest, small, last, rest);
      ApplyConcat(pegs, a, b);
      ApplyConcat(pegs, a + b, c);
    }
  }

  lemma {:induction false} MoveCount(n: nat, start: nat, temp: nat, dest: nat)
    ensures |Moves(n, start, temp, dest)| == Pow2(n) - 1
    decreases n
  {
    if n > 1 {
      MoveCount(n - 1, start, dest, temp);
      MoveCount(n - 1, temp, start, dest);
    }
  }

  // -------- linked lists in a pool --------

  const NULL := -1
  const FREE: nat := 3

  /** The nodes reached from `head`. */
  predicate Linked(next: seq<int>, head: int, nodes: seq<int>) {
    if nodes == [] then head == NULL
    else
      && head == nodes[0]
      && (forall a | 0 <= a < |nodes| :: 0 <= nodes[a] < |next|)
      && (forall a | 0 <= a < |nodes| - 1 :: next[nodes[a]] == nodes[a + 1])
      && next[nodes[|nodes| - 1]] == NULL
  }

  /** No node is in two places: so the lists have no cycles. */
  predicate Apart(chains: Lists) {
    forall i, a, j, b | 0 <= i < |chains| && 0 <= a < |chains[i]| && 0 <= j < |chains| && 0 <= b < |chains[j]| ::
      chains[i][a] == chains[j][b] ==> i == j && a == b
  }

  function Total(chains: Lists): nat { if chains == [] then 0 else |chains[0]| + Total(chains[1..]) }

  /** The lists share out the whole pool. */
  predicate Partition(chains: Lists, pool: nat) {
    && Apart(chains) && Total(chains) == pool
    && (forall i, a | 0 <= i < |chains| && 0 <= a < |chains[i]| :: 0 <= chains[i][a] < pool)
  }

  predicate AllLinked(next: seq<int>, head: seq<int>, chains: Lists) {
    |head| == |chains| && forall i | 0 <= i < |chains| :: Linked(next, head[i], chains[i])
  }

  function ValuesOf(val: seq<int>, nodes: seq<int>): (r: seq<int>)
    ensures |r| == |nodes|
  {
    seq(|nodes|, a requires 0 <= a < |nodes| => if 0 <= nodes[a] < |val| then val[nodes[a]] else 0)
  }

  lemma {:induction false} TotalUpdate(chains: Lists, i: nat, c: seq<int>)
    requires i < |chains|
    ensures Total(chains[i := c]) == Total(chains) - |chains[i]| + |c|
  {
    if i == 0 {
      assert chains[i := c][1..] == chains[1..];
    } else {
      assert chains[i := c][1..] == chains[1..][i - 1 := c];
      TotalUpdate(chains[1..], i - 1, c);
    }
  }

  /** Moving a node from list to list keeps the pool shared out. */
  lemma PartitionKept(chains: Lists, m: Move, pool: nat)
    requires Partition(chains, pool) && Possible(chains, m)
    ensures Partition(Apply(chains, m), pool)
  {
    var r := Apply(chains, m);
    TotalUpdate(chains, m.from, chains[m.from][1..]);
    TotalUpdate(chains[m.from := chains[m.from][1..]], m.to, [chains[m.from][0]] + chains[m.to]);
    hide Total;
    forall i, a | 0 <= i < |r| && 0 <= a < |r[i]| ensures r[i][a] == Came(chains, m, i, a) {
    }
    forall i, a, j, b | 0 <= i < |r| && 0 <= a < |r[i]| && 0 <= j < |r| && 0 <= b < |r[j]| && r[i][a] == r[j][b]
      ensures i == j && a == b
    {
      assert Came(chains, m, i, a) == Came(chains, m, j, b);
    }
  }

  /** Where element `a` of list `i` was before the move. */
  function Came(chains: Lists, m: Move, i: nat, a: nat): int
    requires Possible(chains, m) && i < |chains| && a < |Apply(chains, m)[i]|
  {
    if i == m.from then chains[i][a + 1]
    else if i == m.to then (if a == 0 then chains[m.from][0] else chains[i][a - 1])
    else chains[i][a]
  }

  // -------- relinking --------

  /** Taking the head of one list and putting it in front of another. */
  lemma Relinked(next: seq<int>, head: seq<int>, chains: Lists, m: Move)
    requires AllLinked(next, head, chains) && Partition(chains, |next|) && Possible(chains, m)
    ensures 0 <= head[m.from] < |next|
    ensures var x := head[m.from];
            AllLinked(next[x := head[m.to]], head[m.from := next[x]][m.to := x], Apply(chains, m))
    ensures head[m.from] == chains[m.from][0]
  {
    var x := head[m.from];
    assert Linked(next, head[m.from], chains[m.from]) && Linked(next, head[m.to], chains[m.to]);
    var next', head', r := next[x := head[m.to]], head[m.from := next[x]][m.to := x], Apply(chains, m);
    forall i | 0 <= i < |r| ensures Linked(next', head'[i], r[i]) {
      assert Linked(next, head[i], chains[i]);
      if i == m.to {
        LinkedTo(next, head[i], chains[i], x, chains[m.from]);
      } else if i == m.from {
        LinkedFrom(next, x, chains[i], head[m.to]);
      } else {
        assert forall a | 0 <= a < |chains[i]| :: chains[i][a] != chains[m.from][0];
      }
    }
  }

  lemma LinkedTo(next: seq<int>, head: int, nodes: seq<int>, x: int, others: seq<int>)
    requires Linked(next, head, nodes) && 0 <= x < |next| && x !in nodes
    ensures Linked(next[x := head], x, [x] + nodes)
  {
  }

  lemma LinkedFrom(next: seq<int>, x: int, nodes: seq<int>, to: int)
    requires Linked(next, x, nodes) && nodes != [] && (forall a | 0 < a < |nodes| :: nodes[a] != x)
    ensures Linked(next[x := to], next[x], nodes[1..])
  {
  }

  /** The values along the lists after a move that stores `v` in the node. */
  lemma Revalued(val: seq<int>, chains: Lists, m: Move, v: int)
    requires Partition(chains, |val|) && Possible(chains, m)
    ensures var x := chains[m.from][0];
            var val', r := val[x := v], Apply(chains, m);
            && ValuesOf(val', r[m.to]) == [v] + ValuesOf(val, chains[m.to])
            && ValuesOf(val', r[m.from]) == ValuesOf(val, chains[m.from])[1..]
            && (forall i | 0 <= i < |chains| && i != m.to && i != m.from ::
                  ValuesOf(val', r[i]) == ValuesOf(val, chains[i]))
  {
    var x := chains[m.from][0];
    assert forall i, a | 0 <= i < |chains| && 0 <= a < |chains[i]| && (i != m.from || a != 0) :: chains[i][a] != x;
  }

  // -------- the discs at the start --------

  /** The discs from `lo` to `n`, smallest first. */
  function From(lo: int, n: int): (s: seq<int>)
    ensures |s| == if lo <= n then n - lo + 1 else 0
    ensures forall i | 0 <= i < |s| :: s[i] == lo + i
    decreases n - lo
  {
    if lo > n then [] else [lo] + From(lo + 1, n)
  }

  lemma TotalOfFour(chains: Lists)
    requires |chains| == 4
    ensures Total(chains) == |chains[0]| + |chains[1]| + |chains[2]| + |chains[3]|
  {
    var c1, c2, c3 := chains[1..], chains[2..], chains[3..];
    assert c1[1..] == c2 && c2[1..] == c3 && c3[1..] == [];
    assert Total(c3) == |chains[3]| && Total(c2) == |chains[2]| + Total(c3) && Total(c1) == |chains[1]| + Total(c2);
  }

  lemma FreeIsRest(chains: Lists, pool: nat)
    requires Partition(chains, pool) && |chains| == 4 && chains[0] == chains[1] == chains[2] == []
    ensures |chains[FREE]| == pool
  {
    TotalOfFour(chains);
  }

  function Upto(n: nat): (r: seq<int>)
    ensures |r| == n && forall k | 0 <= k < n :: r[k] == k
  {
    seq(n, k => k)
  }

  /** Every node of the pool points to the next one. */
  method LinkPool(next: array<int>, val: array<int>)
    requires next != val && next.Length == val.Length > 0
    modifies next, val
    ensures Linked(next[..], 0, Upto(next.Length))
  {
    var n := next.Length;
    next[n - 1] := NULL;
    val[n - 1] := 99;
    var i := 0;
    while i < n - 1
      invariant 0 <= i <= n - 1
      invariant next[n - 1] == NULL && forall k | 0 <= k < i :: next[k] == k + 1
    {
      next[i] := i + 1;
      val[i] := i;
      i := i + 1;
    }
  }

  lemma WholePoolFree(n: nat, next: seq<int>)
    requires n > 0 && |next| == n && Linked(next, 0, Upto(n))
    ensures Partition([[], [], [], Upto(n)], n)
    ensures Linked(next, NULL, [])
  {
    TotalOfFour([[], [], [], Upto(n)]);
  }

  /** The pegs when the `i` largest of `n` discs are on peg A. */
  function Start(i: int, n: int): (r: Lists)
    ensures |r| == 3
  {
    [From(n - i + 1, n), [], []]
  }

  lemma StartStep(i: int, n: int)
    requires 0 <= i < n
    ensures Start(i, n)[0 := [n - i] + Start(i, n)[0]] == Start(i + 1, n)
  {
  }

  lemma EmptyValues(val: seq<int>, n: nat)
    ensures [ValuesOf(val, []), ValuesOf(val, []), ValuesOf(val, [])] == Start(0, n)
  {
  }

  lemma SolutionIsLegal(n: nat)
    requires n > 0
    ensures AllLegal(Start(n, n), Moves(n, 0, 1, 2))
    ensures ApplyAll(Start(n, n), Moves(n, 0, 1, 2)) == [[], [], From(1, n)]
  {
    var top := From(1, n);
    assert top + [] == top;
    hide AllLegal, ApplyAll, Moves;
    MovesCarryTower(Start(n, n), n, 0, 1, 2, top, []);
  }

  lemma SplitMoves(pegs: Lists, n: nat, start: nat, temp: nat, dest: nat)
    requires n > 1 && AllLegal(pegs, Moves(n, start, temp, dest))
    ensures AllLegal(pegs, Moves(n - 1, start, dest, temp))
    ensures var p1 := ApplyAll(pegs, Moves(n - 1, start, dest, temp));
            var p2 := ApplyAll(p1, Moves(1, start, temp, dest));
            && AllLegal(p1, Moves(1, start, temp, dest))
            && AllLegal(p2, Moves(n - 1, temp, start, dest))
            && ApplyAll(p2, Moves(n - 1, temp, start, dest)) == ApplyAll(pegs, Moves(n, start, temp, dest))
    ensures Moves(n, start, temp, dest) ==
              Moves(n - 1, start, dest, temp) + Moves(1, start, temp, dest) + Moves(n - 1, temp, start, dest)
  {
    hide AllLegal, ApplyAll;
    var a, b, c := Moves(n - 1, start, dest, temp), [Move(start, dest)], Moves(n - 1, temp, start, dest);
    assert Moves(1, start, temp, dest) == b;
    ApplyConcat(pegs, a, b);
    ApplyConcat(pegs, a + b, c);
  }

  lemma FirstMove(pegs: Lists, start: nat, temp: nat, dest: nat)
    requires AllLegal(pegs, Moves(1, start, temp, dest))
    ensures var m := Move(start, dest);
            Moves(1, start, temp, dest) == [m] && Possible(pegs, m) && ApplyAll(pegs, [m]) == Apply(pegs, m)
  {
    var m := Move(start, dest);
    assert [m][1..] == [];
    assert ApplyAll(Apply(pegs, m), []) == Apply(pegs, m);
  }

  // -------- the towers --------

  /** List 0, 1 and 2 are the pegs A, B and C, list 3 is the free list. */
  class Towers {
    const pool: nat
    const val: array<int>
    const next: array<int>
    const head: array<int>
    const size: array<int>
    var numDiscs: int
    var numMoves: int
    ghost var chains: Lists
    ghost var moves: seq<Move>

    ghost predicate Valid()
      reads this, val, next, head, size
    {
      && val != next && val != head && val != size && next != head && next != size && head != size
      && val.Length == next.Length == pool && head.Length == 4 && size.Length == 3
      && Partition(chains, pool) && |chains| == 4
      && AllLinked(next[..], head[..], chains)
      && (forall k | 0 <= k < 3 :: size[k] == |chains[k]|)
    }

    ghost function Pegs(): (r: Lists)
      reads this, val
      requires |chains| == 4
      ensures |r| == 3
    {
      [ValuesOf(val[..], chains[0]), ValuesOf(val[..], chains[1]), ValuesOf(val[..], chains[2])]
    }

    method Push(list: nat, v: int)
      requires Valid() && list < 3 && chains[FREE] != []
      modifies this`chains, val, next, head, size
      ensures Valid() && chains == Apply(old(chains), Move(FREE, list))
      ensures Pegs() == old(Pegs())[list := [v] + old(Pegs())[list]]
    {
      hide Partition, AllLinked, ValuesOf;
      ghost var m := Move(FREE, list);
      PartitionKept(chains, m, pool);
      Relinked(next[..], head[..], chains, m);
      Revalued(val[..], chains, m, v);
      var newNode := head[FREE];
      head[FREE] := next[newNode];
      next[newNode] := head[list];
      head[list] := newNode;
      val[newNode] := v;
      size[list] := size[list] + 1;
      chains := Apply(chains, m);
    }

    method Pop(list: nat) returns (v: int)
      requires Valid() && list < 3 && chains[list] != []
      modifies this`chains, next, head, size
      ensures Valid() && chains == Apply(old(chains), Move(list, FREE))
      ensures old(Pegs())[list] != [] && v == old(Pegs())[list][0]
      ensures Pegs() == old(Pegs())[list := old(Pegs())[list][1..]]
    {
      hide Partition, AllLinked;
      ghost var m := Move(list, FREE);
      PartitionKept(chains, m, pool);
      Relinked(next[..], head[..], chains, m);
      assert val[..][chains[list][0] := val[chains[list][0]]] == val[..];
      Revalued(val[..], chains, m, val[chains[list][0]]);
      v := val[head[list]];
      var freedNode := head[list];
      head[list] := next[head[list]];
      next[freedNode] := head[FREE];
      head[FREE] := freedNode;
      size[list] := size[list] - 1;
      chains := Apply(chains, m);
    }

    ghost predicate PegsEmpty()
      reads this
    {
      |chains| == 4 && chains[0] == chains[1] == chains[2] == []
    }

    /** The pool with all nodes on the free list, and no disc on any peg. */
    constructor (n: nat)
      requires n > 0
      ensures Valid() && PegsEmpty() && pool == n && numDiscs == numMoves == 0
      ensures fresh(val) && fresh(next) && fresh(head) && fresh(size)
    {
      pool := n;
      val := new int[n];
      next := new int[n];
      head := new int[4];
      size := new int[3];
      numDiscs, numMoves := 0, 0;
      new;
      LinkPool(next, val);
      head[0], head[1], head[2], head[FREE] := NULL, NULL, NULL, 0;
      size[0], size[1], size[2] := 0, 0, 0;
      chains := [[], [], [], Upto(n)];
      moves := [];
      WholePoolFree(n, next[..]);
      hide Partition, Linked, Upto;
      assert AllLinked(next[..], head[..], chains);
    }

    /** Emptying a list that has no nodes. */
    method ListInit(list: nat)
      requires Valid() && list < 3 && chains[list] == []
      modifies head, size
      ensures Valid() && Pegs() == old(Pegs())
    {
      assert Linked(next[..], head[..][list], chains[list]);
      hide AllLinked, Partition, ValuesOf;
      size[list] := 0;
      head[list] := NULL;
      assert head[..] == old(head[..]);
    }

    method Init(n: nat)
      requires Valid() && PegsEmpty() && n <= pool
      modifies this, val, next, head, size
      ensures Valid() && Pegs() == Start(n, n)
      ensures numDiscs == n && numMoves == 0 && moves == []
    {
      hide AllLinked, Partition, ValuesOf, Start;
      numDiscs, numMoves, moves := n, 0, [];
      ListInit(0);
      ListInit(1);
      ListInit(2);
      FreeIsRest(chains, pool);
      EmptyValues(val[..], n);
      var i := 0;
      while i < n
        invariant 0 <= i <= n && Valid() && |chains[FREE]| == pool - i
        invariant Pegs() == Start(i, n)
        invariant numDiscs == n && numMoves == 0 && moves == []
      {
        StartStep(i, n);
        Push(0, n - i);
        i := i + 1;
      }
    }

    /** Moves `n` discs from peg to peg, as the specification function says. */
    method SolveH(n: nat, start: nat, temp: nat, dest: nat)
      requires Valid() && n > 0 && start < 3 && temp < 3 && dest < 3
      requires AllLegal(Pegs(), Moves(n, start, temp, dest))
      modifies this`chains, this`numMoves, this`moves, val, next, head, size
      ensures Valid() && Pegs() == ApplyAll(old(Pegs()), Moves(n, start, temp, dest))
      ensures numMoves == old(numMoves) + |Moves(n, start, temp, dest)|
      ensures moves == old(moves) + Moves(n, start, temp, dest)
      decreases n
    {
      hide Partition, AllLinked, ValuesOf, AllLegal, ApplyAll, Moves;
      ghost var pegs := Pegs();
      if n == 1 {
        ghost var m := Move(start, dest);
        FirstMove(pegs, start, temp, dest);
        var v := Pop(start);
        Push(dest, v);
        numMoves := numMoves + 1;
        moves := moves + [m];
      } else {
        SplitMoves(pegs, n, start, temp, dest);
        SolveH(n - 1, start, dest, temp);
        SolveH(1, start, temp, dest);
        SolveH(n - 1, temp, start, dest);
      }
    }

    method Solve()
      requires Valid() && numDiscs > 0 && Pegs() == Start(numDiscs, numDiscs)
      modifies this`chains, this`numMoves, this`moves, val, next, head, size
      ensures Valid() && Pegs() == [[], [], From(1, numDiscs)]
      ensures numMoves == old(numMoves) + Pow2(numDiscs) - 1
      ensures moves == old(moves) + Moves(numDiscs, 0, 1, 2)
      ensures AllLegal(old(Pegs()), Moves(numDiscs, 0, 1, 2))
    {
      hide Partition, AllLinked, ValuesOf, AllLegal, ApplyAll, Moves, Pow2;
      SolutionIsLegal(numDiscs);
      MoveCount(numDiscs, 0, 1, 2);
      SolveH(numDiscs, 0, 1, 2);
    }

    method ListClear(list: nat)
      requires Valid() && list < 3
      modifies this`chains, next, head, size
      ensures Valid() && chains[list] == []
      ensures forall k | 0 <= k < 3 && k != list :: chains[k] == old(chains[k])
    {
      hide Partition, AllLinked, ValuesOf;
      while size[list] > 0
        invariant Valid()
        invariant forall k | 0 <= k < 3 && k != list :: chains[k] == old(chains[k])
        decreases |chains[list]|
      {
        var _ := Pop(list);
      }
    }

    method Clear()
      requires Valid() && 0 <= numDiscs <= pool
      modifies this, val, next, head, size
      ensures Valid() && Pegs() == Start(numDiscs, numDiscs)
      ensures numDiscs == old(numDiscs) && numMoves == 0 && moves == []
    {
      hide Partition, AllLinked, ValuesOf, Start;
      ListClear(0);
      ListClear(1);
      ListClear(2);
      Init(numDiscs);
    }

    /** Zero exactly if all discs stand on peg C in order and the moves were counted right. */
    method Verify() returns (r: nat)
      requires Valid() && 0 <= numDiscs <= 30
      ensures r == 0 <==> Pegs() == [[], [], From(1, numDiscs)] && numMoves == Pow2(numDiscs) - 1
      ensures r == 2 <==> Pegs()[0] != []
      ensures r == 3 <==> Pegs()[0] == [] && Pegs()[1] != []
    {
      hide Partition, Pow2;
      ghost var c := chains[2];
      assert Linked(next[..], head[..][2], c);
      if size[0] != 0 { return 2; }
      if size[1] != 0 { return 3; }
      if size[2] != numDiscs { return 4; }
      var ptr := head[2];
      var discs := 0;
      while ptr != NULL
        invariant 0 <= discs <= |c| && ptr == (if discs < |c| then c[discs] else NULL)
        invariant forall k | 0 <= k < discs :: val[c[k]] == k + 1
        decreases |c| - discs
      {
        discs := discs + 1;
        if val[ptr] != discs {
          assert Pegs()[2][discs - 1] != From(1, numDiscs)[discs - 1];
          return 5;
        }
        ptr := next[ptr];
      }
      assert Pegs()[2] == From(1, numDiscs);
      if numMoves != Pow2(numDiscs) - 1 { return 6; }
      return 0;
    }
  }

  /** The whole benchmark, with or without the warm-up solution, succeeds for every number of discs whose
      move count fits the counter. */
  method Benchmark(n: nat, preallocate: bool) returns (r: nat)
    requires 1 <= n <= 30
    ensures r == 0
  {
    hide Pow2, Start, ValuesOf, Partition, AllLinked;
    var towers := new Towers(n);
    towers.Init(n);
    if preallocate {
      towers.Solve();
    }
    towers.Clear();
    towers.Solve();
    r := towers.Verify();
  }
}
