/** The integer ALU at every width of `2^n` bits: one adder for sums and differences, one comparator for
    both orders, one right shifter for all shifts. Bits stand least significant first. */
module Alu {
  import opened Numbers

  type Bits = seq<bool>

  const FNADD := 0
  const FNSL := 1
  const FNSEQ := 2
  const FNSNE := 3
  const FNXOR := 4
  const FNSR := 5
  const FNOR := 6
  const FNAND := 7
  const FNSUB := 10
  const FNSRA := 11
  const FNSLT := 12
  const FNSGE := 13
  const FNSLTU := 14
  const FNSGEU := 15

  // -------- numbers and bits --------

  function Bit(b: bool): nat { if b then 1 else 0 }

  function Val(x: Bits): nat { if x == [] then 0 else Bit(x[0]) + 2 * Val(x[1..]) }

  function Of(v: int, w: nat): (x: Bits)
    ensures |x| == w
    decreases w
  {
    if w == 0 then [] else [v % 2 == 1] + Of(v / 2, w - 1)
  }

  /** The value as a two's-complement number. */
  function Signed(x: Bits): int {
    if x != [] && x[|x| - 1] then Val(x) - Pow2(|x|) else Val(x)
  }

  function Fill(b: bool, w: nat): (r: Bits)
    ensures |r| == w && forall i | 0 <= i < w :: r[i] == b
  {
    seq(w, _ => b)
  }

  function Reverse(x: Bits): (r: Bits)
    ensures |r| == |x| && forall i | 0 <= i < |x| :: r[i] == x[|x| - 1 - i]
  {
    seq(|x|, i requires 0 <= i < |x| => x[|x| - 1 - i])
  }

  function Xor(x: Bits, y: Bits): (r: Bits)
    requires |x| == |y|
    ensures |r| == |x| && forall i | 0 <= i < |x| :: r[i] == (x[i] != y[i])
  {
    seq(|x|, i requires 0 <= i < |x| => x[i] != y[i])
  }

  function SignExtend(x: Bits, w: nat): Bits
    requires 0 < |x| <= w
  {
    x + Fill(x[|x| - 1], w - |x|)
  }

  // -------- the circuit --------

  /** Bit `i` of the function code. */
  function Fn(fn: nat, i: nat): bool { fn / Pow2(i) % 2 == 1 }

  function Adder(fn: nat, op1: Bits, op2: Bits): (r: Bits)
    requires |op1| == |op2|
    ensures |r| == |op1|
  {
    var inv := Xor([false] + op2, Fill(Fn(fn, 1), |op2| + 1));
    Of(Val([true] + op1) + Val(inv), |op1| + 1)[1..]
  }

  function Less(fn: nat, op1: Bits, op2: Bits): bool
    requires |op1| == |op2| > 0
  {
    var sign := !Fn(fn, 1);
    Signed(op1 + [sign && op1[|op1| - 1]]) < Signed(op2 + [sign && op2[|op2| - 1]])
  }

  function Taken(fn: nat, op1: Bits, op2: Bits): bool
    requires |op1| == |op2| > 0
  {
    var zero := Xor(op1, op2) == Fill(false, |op1|);
    if fn == FNSEQ then zero
    else if fn == FNSNE then !zero
    else if fn == FNSLT || fn == FNSLTU then Less(fn, op1, op2)
    else !Less(fn, op1, op2)
  }

  /** The right shifter, one bit wider than its operand. */
  function ShiftRight(x: Bits, amount: nat, top: bool): (r: Bits)
    requires amount <= |x|
    ensures |r| == |x|
  {
    x[amount..] + Fill(top, amount)
  }

  /** One right shift serves all: the operand goes in reversed for a left shift, and the result comes out
      both ways. */
  function ShiftBoth(fn: nat, x: Bits, amount: nat): (r: (Bits, Bits))
    requires amount <= |x| && x != []
    ensures |r.0| == |r.1| == |x|
  {
    var shin := if fn == FNSR || fn == FNSRA then x else Reverse(x);
    var r := ShiftRight(shin, amount, Fn(fn, 3) && shin[|shin| - 1]);
    (r, Reverse(r))
  }

  /** The operand of a word form: the low half, extended by zeros or by its sign. */
  function WordOperand(fn: nat, low: Bits): (r: Bits)
    requires low != []
    ensures |r| == 2 * |low|
  {
    low + Fill(Fn(fn, 3) && low[|low| - 1], |low|)
  }

  /** The amount is the low `n` bits, one fewer for a word form. */
  function ShiftAmount(n: nat, op2: Bits, word: bool): (s: nat)
    requires |op2| == Pow2(n) && (word ==> n > 0)
    ensures s < |op2| && (word ==> |op2| == 2 * (|op2| / 2))
  {
    AmountFits(n, op2, word);
    Val(op2[..if word then n - 1 else n])
  }

  /** Operands have `2^n` bits. */
  function Shifted(n: nat, fn: nat, op1: Bits, op2: Bits, word: bool): (r: (Bits, Bits))
    requires |op1| == |op2| == Pow2(n) && (word ==> n > 0)
    ensures |r.0| == |r.1| == |op1|
  {
    var s := ShiftAmount(n, op2, word);
    ShiftBoth(fn, if word then WordOperand(fn, op1[..|op1| / 2]) else op1, s)
  }

  function Output(n: nat, fn: nat, op1: Bits, op2: Bits, word: bool): (r: Bits)
    requires |op1| == |op2| == Pow2(n) && (word ==> n > 0)
    ensures |r| == |op1|
  {
    var (right, left) := Shifted(n, fn, op1, op2, word);
    if fn == FNADD || fn == FNSUB then Adder(fn, op1, op2)
    else if fn == FNSLT || fn == FNSGE || fn == FNSLTU || fn == FNSGEU then
      [Less(fn, op1, op2)] + Fill(false, |op1| - 1)
    else if fn == FNSR || fn == FNSRA then right
    else if fn == FNSL then left
    else if fn == FNOR then seq(|op1|, i requires 0 <= i < |op1| => op1[i] || op2[i])
    else if fn == FNAND then seq(|op1|, i requires 0 <= i < |op1| => op1[i] && op2[i])
    else Xor(op1, op2)
  }

  function FnAlu(n: nat, fn: nat, op1: Bits, op2: Bits, word: bool): (r: Bits)
    requires |op1| == |op2| == Pow2(n) && (word ==> n > 0)
    ensures |r| == |op1|
  {
    var r := Output(n, fn, op1, op2, word);
    if word then SignExtend(r[..|r| / 2], |r|) else r
  }

  // -------- values of bit strings --------

  lemma {:induction false} ValBound(x: Bits)
    ensures Val(x) < Pow2(|x|)
  {
    if x != [] {
      ValBound(x[1..]);
    }
  }

  lemma {:induction false} ValOf(v: int, w: nat)
    ensures Val(Of(v, w)) == v % Pow2(w)
    decreases w
  {
    if w != 0 {
      ValOf(v / 2, w - 1);
      DivDiv(v, 2, Pow2(w - 1));
      assert Of(v, w)[1..] == Of(v / 2, w - 1);
    }
  }

  lemma DoubleTimes(a: int, b: int)
    ensures 2 * (a * b) == (2 * a) * b
  {
  }

  lemma {:induction false} ValConcat(x: Bits, y: Bits)
    ensures Val(x + y) == Val(x) + Pow2(|x|) * Val(y)
  {
    if x == [] {
      assert x + y == y;
    } else {
      assert (x + y)[1..] == x[1..] + y && (x + y)[0] == x[0];
      ValConcat(x[1..], y);
      DoubleTimes(Pow2(|x| - 1), Val(y));
      assert Val(x + y) == Bit(x[0]) + 2 * Val(x[1..] + y);
      hide Val;
    }
  }

  lemma {:induction false} ValZeros(w: nat)
    ensures Val(Fill(false, w)) == 0
  {
    if w != 0 {
      assert Fill(false, w)[1..] == Fill(false, w - 1);
      ValZeros(w - 1);
    }
  }

  lemma {:induction false} ValOnes(w: nat)
    ensures Val(Fill(true, w)) == Pow2(w) - 1
  {
    if w != 0 {
      assert Fill(true, w)[1..] == Fill(true, w - 1);
      ValOnes(w - 1);
    }
  }

  lemma {:induction false} ValInjective(x: Bits, y: Bits)
    requires |x| == |y| && Val(x) == Val(y)
    ensures x == y
  {
    if x != [] {
      ValInjective(x[1..], y[1..]);
      assert x == [x[0]] + x[1..] && y == [y[0]] + y[1..];
    }
  }

  lemma {:induction false} ValXor(x: Bits, b: bool)
    ensures Val(Xor(x, Fill(b, |x|))) == if b then Pow2(|x|) - 1 - Val(x) else Val(x)
  {
    if x != [] {
      ValXor(x[1..], b);
      assert Xor(x, Fill(b, |x|))[1..] == Xor(x[1..], Fill(b, |x| - 1));
    }
  }

  lemma AmountFits(n: nat, op2: Bits, word: bool)
    requires |op2| == Pow2(n) && (word ==> n > 0)
    ensures n < |op2|
    ensures var bits := if word then n - 1 else n; Val(op2[..bits]) < Pow2(bits) <= Pow2(n)
    ensures word ==> |op2| == 2 * Pow2(n - 1)
  {
    var bits := if word then n - 1 else n;
    SmallerThanPow2(n);
    ValBound(op2[..bits]);
  }

  lemma {:induction false} SmallerThanPow2(n: nat)
    ensures n < Pow2(n)
  {
    if n != 0 {
      SmallerThanPow2(n - 1);
    }
  }

  /** The low bits are the remainder, the high bits the quotient. */
  lemma SplitVal(x: Bits, k: nat)
    requires k <= |x|
    ensures Val(x[..k]) == Val(x) % Pow2(k) && Val(x[k..]) == Val(x) / Pow2(k)
  {
    hide Val, Pow2;
    ValConcat(x[..k], x[k..]);
    assert x == x[..k] + x[k..];
    ValBound(x[..k]);
    assert Val(x) == Val(x[k..]) * Pow2(k) + Val(x[..k]);
    DivIs(Val(x), Pow2(k), Val(x[k..]), Val(x[..k]));
  }

  // -------- the adder --------

  lemma ValCons(b: bool, x: Bits)
    ensures Val([b] + x) == Bit(b) + 2 * Val(x)
  {
    assert ([b] + x)[1..] == x;
  }

  function Wanted(b: bool, op1: Bits, op2: Bits): int {
    if b then Val(op1) - Val(op2) + Pow2(|op1|) else Val(op1) + Val(op2)
  }

  /** The extra low bit carries the one that turns the inverted operand into its negative. */
  lemma AdderTotal(b: bool, op1: Bits, op2: Bits)
    requires |op1| == |op2|
    ensures Val([true] + op1) + Val(Xor([false] + op2, Fill(b, |op2| + 1))) ==
              2 * Wanted(b, op1, op2) + 1 - Bit(b)
  {
    ValXor([false] + op2, b);
    ValCons(true, op1);
    ValCons(false, op2);
    assert |[false] + op2| == |op2| + 1;
    assert Pow2(|op2| + 1) == 2 * Pow2(|op2|);
    hide Val, Xor, Pow2, Fill;
  }

  lemma OfTail(t: int, v: int, w: nat)
    requires t / 2 == v
    ensures Of(t, w + 1)[1..] == Of(v, w)
  {
  }

  /** One adder: with bit 1 of the code clear it adds, with that bit set it subtracts. */
  lemma AdderAddsAndSubtracts(fn: nat, op1: Bits, op2: Bits)
    requires |op1| == |op2|
    ensures Val(Adder(fn, op1, op2)) ==
              (if Fn(fn, 1) then Val(op1) - Val(op2) else Val(op1) + Val(op2)) % Pow2(|op1|)
  {
    hide Val, Xor, Pow2, Fill, Of, Fn;
    var w, b := |op1|, Fn(fn, 1);
    var v := Wanted(b, op1, op2);
    AdderTotal(b, op1, op2);
    OfTail(2 * v + 1 - Bit(b), v, w);
    ValOf(v, w);
    ModAdd(Val(op1) - Val(op2), 1, Pow2(w));
  }

  // -------- the comparator --------

  /** One comparator: signed order with bit 1 of the code clear, unsigned with it set. */
  lemma LessIsTheOrder(fn: nat, op1: Bits, op2: Bits)
    requires |op1| == |op2| > 0
    ensures Less(fn, op1, op2) == if Fn(fn, 1) then Val(op1) < Val(op2) else Signed(op1) < Signed(op2)
  {
    Widened(op1, !Fn(fn, 1));
    Widened(op2, !Fn(fn, 1));
  }

  lemma ValSnoc(x: Bits, b: bool)
    ensures Val(x + [b]) == Val(x) + if b then Pow2(|x|) else 0
  {
    hide Val, Pow2;
    ValConcat(x, [b]);
    ValOne(b);
    TimesBit(Pow2(|x|), b);
  }

  lemma ValOne(b: bool)
    ensures Val([b]) == Bit(b)
  {
    assert [b][1..] == [];
  }

  lemma TimesBit(p: int, b: bool)
    ensures p * Bit(b) == if b then p else 0
  {
  }

  lemma Widened(x: Bits, sign: bool)
    requires x != []
    ensures Signed(x + [sign && x[|x| - 1]]) == if sign then Signed(x) else Val(x)
  {
    var top := sign && x[|x| - 1];
    ValSnoc(x, top);
    assert Pow2(|x| + 1) == 2 * Pow2(|x|);
    hide Val, Pow2;
    assert (x + [top])[|x|] == top;
  }

  lemma OrderBit(fn: nat)
    ensures FNSLT <= fn <= FNSGEU ==> (Fn(fn, 1) <==> fn >= FNSLTU)
    ensures fn == FNADD ==> !Fn(fn, 1)
    ensures fn == FNSUB ==> Fn(fn, 1)
    ensures fn == FNSR || fn == FNSL ==> !Fn(fn, 3)
    ensures fn == FNSRA ==> Fn(fn, 3)
  {
    assert Pow2(0) == 1 && Pow2(1) == 2 && Pow2(2) == 4 && Pow2(3) == 8;
  }

  lemma TakenIsTheCondition(fn: nat, op1: Bits, op2: Bits)
    requires |op1| == |op2| > 0 && (fn == FNSEQ || fn == FNSNE || FNSLT <= fn <= FNSGEU)
    ensures Taken(fn, op1, op2) ==
              if fn == FNSEQ then Val(op1) == Val(op2)
              else if fn == FNSNE then Val(op1) != Val(op2)
              else if fn == FNSLT then Signed(op1) < Signed(op2)
              else if fn == FNSGE then Signed(op1) >= Signed(op2)
              else if fn == FNSLTU then Val(op1) < Val(op2)
              else Val(op1) >= Val(op2)
  {
    LessIsTheOrder(fn, op1, op2);
    EqualByXor(op1, op2);
    OrderBit(fn);
    hide Less, Val, Signed, Fn, Xor;
  }

  lemma EqualByXor(x: Bits, y: Bits)
    requires |x| == |y|
    ensures (Xor(x, y) == Fill(false, |x|)) == (Val(x) == Val(y))
  {
    if Val(x) == Val(y) {
      ValInjective(x, y);
    }
    assert Xor(x, y) == Fill(false, |x|) ==> x == y by {
      assert forall i | 0 <= i < |x| :: Xor(x, y)[i] == Fill(false, |x|)[i] ==> x[i] == y[i];
    }
  }

  // -------- the shifter --------

  lemma LogicalRight(x: Bits, s: nat)
    requires s <= |x|
    ensures Val(ShiftRight(x, s, false)) == Val(x) / Pow2(s)
  {
    SplitVal(x, s);
    ValConcat(x[s..], Fill(false, s));
    ValZeros(s);
  }

  /** Division rounding down, of the two's-complement value. */
  lemma ArithmeticRight(x: Bits, s: nat)
    requires s < |x|
    ensures Signed(ShiftRight(x, s, x[|x| - 1])) == Signed(x) / Pow2(s)
  {
    hide Val, Pow2, Fill;
    var top := x[|x| - 1];
    var r := ShiftRight(x, s, top);
    var p: int, q: int := Pow2(|x| - s), Pow2(s);
    SplitVal(x, s);
    ValConcat(x[s..], Fill(top, s));
    ValZeros(s);
    ValOnes(s);
    Pow2Add(|x| - s, s);
    Distribute(p, q);
    ModAdd(Val(x), -p, q);
    assert r[|r| - 1] == top;
  }

  lemma Distribute(a: int, b: int)
    ensures a * (b - 1) == a * b - a && (-a) * b == -(a * b)
  {
  }

  lemma ShiftRightAt(y: Bits, s: nat, j: nat)
    requires s <= |y| && j < |y|
    ensures ShiftRight(y, s, false)[j] == if j + s < |y| then y[j + s] else false
  {
    hide Fill;
  }

  lemma UpAt(x: Bits, s: nat, i: nat)
    requires s <= |x| && i < |x|
    ensures (Fill(false, s) + x[..|x| - s])[i] == if i >= s then x[i - s] else false
  {
    hide Fill;
  }

  lemma ShiftedAt(x: Bits, s: nat, i: nat)
    requires s <= |x| && i < |x|
    ensures Reverse(ShiftRight(Reverse(x), s, false))[i] == if i >= s then x[i - s] else false
  {
    hide Reverse, Fill, ShiftRight;
    ShiftRightAt(Reverse(x), s, |x| - 1 - i);
  }

  /** Reversing, shifting right and reversing again moves every bit up. */
  lemma ShiftBetweenReverses(x: Bits, s: nat)
    requires s <= |x|
    ensures Reverse(ShiftRight(Reverse(x), s, false)) == Fill(false, s) + x[..|x| - s]
  {
    hide Reverse, Fill, ShiftRight;
    var r, up := Reverse(ShiftRight(Reverse(x), s, false)), Fill(false, s) + x[..|x| - s];
    forall i | 0 <= i < |x| ensures r[i] == up[i] {
      ShiftedAt(x, s, i);
      UpAt(x, s, i);
    }
    SameBits(r, up);
  }

  lemma SameBits(r: Bits, s: Bits)
    requires |r| == |s| && forall i | 0 <= i < |r| :: r[i] == s[i]
    ensures r == s
  {
  }

  lemma LeftByReverse(x: Bits, s: nat)
    requires s <= |x|
    ensures Val(Reverse(ShiftRight(Reverse(x), s, false))) == Val(x) * Pow2(s) % Pow2(|x|)
  {
    hide Val, Pow2, Reverse, ShiftRight, Fill;
    ShiftBetweenReverses(x, s);
    var k := |x| - s;
    ValConcat(Fill(false, s), x[..k]);
    ValZeros(s);
    SplitVal(x, k);
    Pow2Add(k, s);
    MulMod(Val(x), Pow2(k), Pow2(s));
  }

  lemma MulMod(x: int, a: int, b: int)
    requires a > 0 && b > 0
    ensures a * b > 0 && x * b % (a * b) == b * (x % a)
  {
    MulOrder(1, a, b);
    var q, r := x / a, x % a;
    calc {
      x * b;
      (q * a + r) * b;
      q * a * b + r * b;
      { assert q * a * b == q * (a * b); }
      q * (a * b) + b * r;
    }
    MulOrder(r, a - 1, b);
    assert (a - 1) * b == a * b - b;
    MulOrder(0, r, b);
    DivIs(x * b, a * b, q, b * r);
  }

  // -------- the whole unit --------

  function Amount(n: nat, op2: Bits): nat { Val(op2) % Pow2(n) }

  lemma AmountIs(n: nat, op2: Bits)
    requires |op2| == Pow2(n)
    ensures n < |op2| && Val(op2[..n]) == Amount(n, op2) < |op2|
  {
    AmountFits(n, op2, false);
    SplitVal(op2, n);
  }

  lemma ShiftsAre(fn: nat, x: Bits, s: nat)
    requires s <= |x| && x != []
    ensures var (right, left) := ShiftBoth(fn, x, s);
            && (fn == FNSR ==> right == ShiftRight(x, s, false))
            && (fn == FNSRA ==> right == ShiftRight(x, s, x[|x| - 1]))
            && (fn == FNSL ==> left == Reverse(ShiftRight(Reverse(x), s, false)))
  {
    hide Fill, Fn, Reverse, ShiftRight;
    OrderBit(fn);
  }

  lemma ValLess(b: bool, w: nat)
    ensures Val([b] + Fill(false, w)) == Bit(b)
  {
    ValCons(b, Fill(false, w));
    ValZeros(w);
  }

  /** The bitwise codes, and the two equality codes, whose result nothing uses. */
  lemma AluBits(n: nat, fn: nat, op1: Bits, op2: Bits, i: nat)
    requires |op1| == |op2| == Pow2(n) && i < |op1|
    ensures var bit := FnAlu(n, fn, op1, op2, false)[i];
      && (fn == FNXOR || fn == FNSEQ || fn == FNSNE ==> (bit <==> op1[i] != op2[i]))
      && (fn == FNOR ==> (bit <==> op1[i] || op2[i]))
      && (fn == FNAND ==> (bit <==> op1[i] && op2[i]))
  {
    hide Pow2, Fill, Adder, Less, Shifted;
  }

  /** Every code with a number for its result computes what the instruction set asks for: sums and
      differences modulo the width, both orders, multiplication and division by powers of two. The codes of
      the two reversed comparisons give the order itself; only branches reverse it. */
  lemma AluComputes(n: nat, fn: nat, op1: Bits, op2: Bits)
    requires |op1| == |op2| == Pow2(n)
    ensures var r := FnAlu(n, fn, op1, op2, false);
            var a, b, s := Val(op1), Val(op2), Amount(n, op2);
      && (fn == FNADD ==> Val(r) == (a + b) % Pow2(Pow2(n)))
      && (fn == FNSUB ==> Val(r) == (a - b) % Pow2(Pow2(n)))
      && (fn == FNSLT || fn == FNSGE ==> Val(r) == Bit(Signed(op1) < Signed(op2)))
      && (fn == FNSLTU || fn == FNSGEU ==> Val(r) == Bit(a < b))
      && (fn == FNSL ==> Val(r) == a * Pow2(s) % Pow2(Pow2(n)))
      && (fn == FNSR ==> Val(r) == a / Pow2(s))
      && (fn == FNSRA ==> Signed(r) == Signed(op1) / Pow2(s))
  {
    hide Val, Pow2, Fill, Fn, Reverse, ShiftRight, Adder, Less, Signed;
    AdderAddsAndSubtracts(fn, op1, op2);
    LessIsTheOrder(fn, op1, op2);
    OrderBit(fn);
    ValLess(Less(fn, op1, op2), |op1| - 1);
    AmountIs(n, op2);
    var s := Amount(n, op2);
    assert Shifted(n, fn, op1, op2, false) == ShiftBoth(fn, op1, s);
    hide Shifted, ShiftBoth;
    ShiftsAre(fn, op1, s);
    LogicalRight(op1, s);
    ArithmeticRight(op1, s);
    LeftByReverse(op1, s);
  }

  // -------- word forms --------

  lemma ModMod(x: int, a: int, b: int)
    requires a > 0 && b > 0
    ensures a * b > 0 && x % (a * b) % a == x % a
  {
    DivDiv(x, a, b);
    var k: int := x / a % b;
    assert a * k == k * a;
    DivIs(x % (a * b), a, k, x % a);
  }

  lemma ModSum(x: int, y: int, d: int)
    requires d > 0
    ensures (x % d + y % d) % d == (x + y) % d && (x % d - y % d) % d == (x - y) % d
  {
    var r, i, s, j := x % d, x / d, y % d, y / d;
    DivMod(x, d);
    DivMod(y, d);
    assert x == r + i * d && y == s + j * d;
    ModSums(r, i, s, j, d);
  }

  lemma DivMod(x: int, d: int)
    requires d > 0
    ensures x == x % d + x / d * d
  {
  }

  lemma ModSums(r: int, i: int, s: int, j: int, d: int)
    requires d > 0
    ensures ((r + i * d) + (s + j * d)) % d == (r + s) % d && ((r + i * d) - (s + j * d)) % d == (r - s) % d
  {
    SumTimes(i, j, d);
    ModAdd(r + s, i + j, d);
    ModAdd(r - s, i - j, d);
  }

  lemma SumTimes(i: int, j: int, d: int)
    ensures (i + j) * d == i * d + j * d && (i - j) * d == i * d - j * d
  {
  }

  lemma LowAdder(fn: nat, op1: Bits, op2: Bits, h: nat)
    requires |op1| == |op2| && h <= |op1|
    ensures Adder(fn, op1, op2)[..h] == Adder(fn, op1[..h], op2[..h])
  {
    hide Val, Pow2, Adder, Fn;
    var r, low := Adder(fn, op1, op2), Adder(fn, op1[..h], op2[..h]);
    AdderAddsAndSubtracts(fn, op1, op2);
    AdderAddsAndSubtracts(fn, op1[..h], op2[..h]);
    SplitVal(r, h);
    SplitVal(op1, h);
    SplitVal(op2, h);
    Pow2Add(h, |op1| - h);
    var v := if Fn(fn, 1) then Val(op1) - Val(op2) else Val(op1) + Val(op2);
    ModMod(v, Pow2(h), Pow2(|op1| - h));
    ModSum(Val(op1), Val(op2), Pow2(h));
    ValInjective(r[..h], low);
  }

  lemma LowRight(x: Bits, s: nat, top: bool)
    requires s <= |x|
    ensures ShiftRight(x + Fill(top, |x|), s, top)[..|x|] == ShiftRight(x, s, top)
  {
    hide Fill;
  }

  lemma TakeBehind(z: Bits, x: Bits, y: Bits)
    requires |z| <= |x|
    ensures (z + (x + y)[..|x + y| - |z|])[..|x|] == z + x[..|x| - |z|]
  {
  }

  lemma LowLeft(x: Bits, y: Bits, s: nat)
    requires s <= |x| && |y| == |x|
    ensures Reverse(ShiftRight(Reverse(x + y), s, false))[..|x|] == Reverse(ShiftRight(Reverse(x), s, false))
  {
    hide Fill, Reverse, ShiftRight;
    ShiftBetweenReverses(x, s);
    ShiftBetweenReverses(x + y, s);
    TakeBehind(Fill(false, s), x, y);
  }

  /** The low half of a shifted word operand is the shifted low half. */
  lemma LowShifts(fn: nat, x: Bits, s: nat)
    requires s <= |x| && x != []
    ensures var wide, low := ShiftBoth(fn, WordOperand(fn, x), s), ShiftBoth(fn, x, s);
            && (fn == FNSR || fn == FNSRA ==> wide.0[..|x|] == low.0)
            && (fn == FNSL ==> wide.1[..|x|] == low.1)
  {
    hide Fill, Fn, Reverse, ShiftRight, ShiftBoth;
    OrderBit(fn);
    var top := Fn(fn, 3) && x[|x| - 1];
    var y := Fill(top, |x|);
    assert WordOperand(fn, x) == x + y;
    ShiftsAre(fn, x, s);
    ShiftsAre(fn, x + y, s);
    LowRight(x, s, top);
    LowLeft(x, y, s);
    assert fn == FNSRA ==> (x + y)[|x + y| - 1] == top;
  }

  lemma LowOutput(n: nat, fn: nat, op1: Bits, op2: Bits)
    requires n > 0 && |op1| == |op2| == Pow2(n) == 2 * Pow2(n - 1)
    requires fn == FNADD || fn == FNSUB || fn == FNSL || fn == FNSR || fn == FNSRA
    ensures var h := Pow2(n - 1);
            Output(n, fn, op1, op2, true)[..h] == Output(n - 1, fn, op1[..h], op2[..h], false)
  {
    hide Val, Pow2, Fill, Fn, Reverse, ShiftRight, Adder, Less, ShiftBoth;
    var h := Pow2(n - 1);
    LowAdder(fn, op1, op2, h);
    AmountIs(n - 1, op2[..h]);
    var s := Val(op2[..n - 1]);
    assert op2[..h][..n - 1] == op2[..n - 1];
    LowShifts(fn, op1[..h], s);
    assert Shifted(n, fn, op1, op2, true) == ShiftBoth(fn, WordOperand(fn, op1[..h]), s);
    assert Shifted(n - 1, fn, op1[..h], op2[..h], false) == ShiftBoth(fn, op1[..h], s);
    hide Shifted, WordOperand;
  }

  lemma HalfPower(n: nat)
    requires n > 0
    ensures Pow2(n) == 2 * Pow2(n - 1)
  {
  }

  lemma WordFormOf(n: nat, fn: nat, op1: Bits, op2: Bits, h: nat, low: Bits)
    requires n > 0 && |op1| == |op2| == Pow2(n) == 2 * h
    requires Output(n, fn, op1, op2, true)[..h] == low
    ensures FnAlu(n, fn, op1, op2, true) == SignExtend(low, 2 * h)
  {
    hide Pow2, Output, SignExtend;
  }

  /** A word form is the half-width form, sign-extended. */
  lemma WordFormIsHalfWidth(n: nat, fn: nat, op1: Bits, op2: Bits)
    requires n > 0 && |op1| == |op2| == Pow2(n)
    requires fn == FNADD || fn == FNSUB || fn == FNSL || fn == FNSR || fn == FNSRA
    ensures Pow2(n) == 2 * Pow2(n - 1)
    ensures var h := Pow2(n - 1);
            FnAlu(n, fn, op1, op2, true) ==
              SignExtend(FnAlu(n - 1, fn, op1[..h], op2[..h], false), Pow2(n))
  {
    hide Pow2, Output, SignExtend;
    HalfPower(n);
    LowOutput(n, fn, op1, op2);
    var h := Pow2(n - 1);
    var low := FnAlu(n - 1, fn, op1[..h], op2[..h], false);
    assert low == Output(n - 1, fn, op1[..h], op2[..h], false);
    hide FnAlu;
    WordFormOf(n, fn, op1, op2, h, low);
  }
}
