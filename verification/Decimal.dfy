/** Printing a number digit by digit, and reading a decimal number back. Characters are their codes, and
    `putch` appends to the output. */
module Decimal {
  import opened Numbers

  const SPACE := 32
  const PLUS := 43
  const MINUS := 45
  const ZERO := 48
  const LETTER_A := 97

  /** Digits in a 64-bit number written in base two. */
  const BUFFER := 64

  type U64 = x: int | 0 <= x < 0x1_0000_0000_0000_0000

  // -------- digits --------

  function Digits(num: nat, base: nat): (ds: seq<nat>)
    requires base >= 2
    ensures ds != [] && forall d <- ds :: d < base
    decreases num
  {
    if num < base then [num]
    else
      Smaller(num, base);
      Digits(num / base, base) + [num % base]
  }

  lemma Smaller(num: nat, base: nat)
    requires num > 0 && base >= 2
    ensures 0 <= num / base < num && 2 * (num / base) <= num
  {
    var q: int := num / base;
    assert num == q * base + num % base;
    if q < 0 {
      MulOrder(q, -1, base);
    } else {
      MulOrder(2, base, q);
    }
  }

  function Value(ds: seq<nat>, base: nat): nat {
    if ds == [] then 0 else Value(ds[..|ds| - 1], base) * base + ds[|ds| - 1]
  }

  lemma {:induction false} ValueOfDigits(num: nat, base: nat)
    requires base >= 2
    ensures Value(Digits(num, base), base) == num
    decreases num
  {
    if num < base {
      assert [num][..0] == [];
    } else {
      Smaller(num, base);
      ValueOfDigits(num / base, base);
      var ds := Digits(num / base, base);
      assert Digits(num, base) == ds + [num % base];
      hide Digits;
      ValueSnoc(ds, num % base, base);
    }
  }

  lemma ValueSnoc(ds: seq<nat>, d: nat, base: nat)
    ensures Value(ds + [d], base) == Value(ds, base) * base + d
  {
    assert (ds + [d])[..|ds|] == ds;
  }

  /** In any base, a number below `2^k` has at most `k` digits. */
  lemma {:induction false} DigitCount(num: nat, base: nat, k: nat)
    requires base >= 2 && num < Pow2(k) && k > 0
    ensures |Digits(num, base)| <= k
    decreases num
  {
    if num >= base {
      Smaller(num, base);
      assert k > 1 by {
        assert Pow2(1) == 2;
      }
      DigitCount(num / base, base, k - 1);
    }
  }

  function Char(d: nat): nat { if d >= 10 then d + LETTER_A - 10 else d + ZERO }

  function Chars(ds: seq<nat>): (s: seq<nat>)
    ensures |s| == |ds|
  {
    seq(|ds|, i requires 0 <= i < |ds| => Char(ds[i]))
  }

  function Repeat(c: nat, n: int): (s: seq<nat>)
    ensures |s| == if n > 0 then n else 0
    decreases n
  {
    if n <= 0 then [] else Repeat(c, n - 1) + [c]
  }

  /** Padding in front, then the digits. */
  function Printed(num: nat, base: nat, width: int, padc: nat): (s: seq<nat>)
    requires base >= 2
    ensures |s| == if width > |Digits(num, base)| then width else |Digits(num, base)|
  {
    Repeat(padc, width - |Digits(num, base)|) + Chars(Digits(num, base))
  }

  function Reverse(s: seq<nat>): (r: seq<nat>)
    ensures |r| == |s|
  {
    if s == [] then [] else Reverse(s[1..]) + [s[0]]
  }

  // -------- the printing loop --------

  /** Digits from the last one up, so that the buffer always has room. */
  method FillDigits(num0: U64, base: nat, digs: array<nat>) returns (pos: nat)
    requires base >= 2 && digs.Length == BUFFER
    modifies digs
    ensures pos == |Digits(num0, base)| <= BUFFER
    ensures forall i | 0 <= i < pos :: digs[i] == Digits(num0, base)[pos - 1 - i]
  {
    SixtyFourBits();
    DigitCount(num0, base, BUFFER);
    var num: nat := num0;
    pos := 0;
    ghost var all := Digits(num0, base);
    hide Digits;
    while true
      invariant |Digits(num, base)| + pos == |all| <= BUFFER
      invariant Digits(num, base) == all[..|all| - pos]
      invariant forall i | 0 <= i < pos :: digs[i] == all[|all| - 1 - i]
      decreases num
    {
      LastDigit(num, base);
      ghost var ds := Digits(num, base);
      assert ds[|ds| - 1] == all[|all| - 1 - pos];
      digs[pos] := num % base;
      pos := pos + 1;
      if num < base { break; }
      Smaller(num, base);
      num := num / base;
    }
  }

  lemma SixtyFourBits()
    ensures Pow2(BUFFER) == 0x1_0000_0000_0000_0000
  {
    assert Pow2(4) == 16;
    hide Pow2;
    Pow2Add(4, 4);
    Pow2Add(8, 8);
    Pow2Add(16, 16);
    Pow2Add(32, 32);
  }

  lemma LastDigit(num: nat, base: nat)
    requires base >= 2
    ensures var ds := Digits(num, base);
            && ds != [] && ds[|ds| - 1] == num % base
            && (num < base ==> |ds| == 1)
            && (num >= base ==> num / base >= 0 && ds[..|ds| - 1] == Digits(num / base, base))
  {
    if num < base {
      DivIs(num, base, 0, num);
    } else {
      Smaller(num, base);
    }
  }

  method Printnum(num: U64, base: nat, width0: int, padc: nat, out0: seq<nat>) returns (out: seq<nat>)
    requires base >= 2
    ensures out == out0 + Printed(num, base, width0, padc)
  {
    hide Digits, Chars, Repeat;
    ghost var all := Digits(num, base);
    var digs := new nat[BUFFER];
    var pos: int := FillDigits(num, base, digs);
    out := out0;
    var width := width0;
    RepeatNone(padc, width0 - pos);
    while width > pos
      invariant width <= width0 && (width >= pos || width == width0)
      invariant out == out0 + Repeat(padc, width0 - width)
      invariant forall i | 0 <= i < pos :: digs[i] == all[|all| - 1 - i]
      decreases width - pos
    {
      RepeatMore(padc, width0 - width);
      out := out + [padc];
      width := width - 1;
    }
    ghost var padded := out;
    assert padded == out0 + Repeat(padc, width0 - |all|);
    CharsNone(all);
    while pos > 0
      invariant 0 <= pos <= |all|
      invariant out == padded + Chars(all[..|all| - pos])
      invariant forall i | 0 <= i < pos :: digs[i] == all[|all| - 1 - i]
      decreases pos
    {
      pos := pos - 1;
      CharsMore(all, |all| - pos - 1);
      out := out + [digs[pos] + (if digs[pos] >= 10 then LETTER_A - 10 else ZERO)];
    }
    assert all[..|all|] == all;
  }

  lemma RepeatNone(c: nat, n: int)
    ensures Repeat(c, 0) == [] && (n <= 0 ==> Repeat(c, n) == [])
  {
  }

  lemma RepeatMore(c: nat, n: nat)
    ensures Repeat(c, n + 1) == Repeat(c, n) + [c]
  {
  }

  lemma CharsNone(ds: seq<nat>)
    ensures Chars(ds[..0]) == []
  {
  }

  lemma CharsMore(ds: seq<nat>, k: nat)
    requires k < |ds|
    ensures Chars(ds[..k + 1]) == Chars(ds[..k]) + [Char(ds[k])]
  {
  }

  // -------- the %d conversion --------

  /** What `%d` and `%ld` print. */
  function Shown(x: int): seq<nat> {
    if x < 0 then [MINUS] + Chars(Digits(-x, 10)) else Chars(Digits(x, 10))
  }

  /** The number goes through an unsigned 64-bit variable. */
  method SprintfD(x: int) returns (out: seq<nat>)
    requires -0x8000_0000_0000_0000 < x < 0x8000_0000_0000_0000
    ensures out == Shown(x) + [0]
  {
    var num: U64 := if x < 0 then x + 0x1_0000_0000_0000_0000 else x;
    out := [];
    if num >= 0x8000_0000_0000_0000 {
      out := out + [MINUS];
      num := 0x1_0000_0000_0000_0000 - num;
    }
    hide Digits, Chars;
    RepeatNone(SPACE, -1 - |Digits(num, 10)|);
    out := Printnum(num, 10, -1, SPACE, out);
    out := out + [0];
  }

  // -------- reading back --------

  /** Each character counts as its code less that of zero. */
  function Number(s: seq<nat>): int {
    if s == [] then 0 else Number(s[..|s| - 1]) * 10 + s[|s| - 1] - ZERO
  }

  function DropSpaces(s: seq<nat>): seq<nat> {
    if s != [] && s[0] == SPACE then DropSpaces(s[1..]) else s
  }

  function Read(s: seq<nat>): int {
    var t := DropSpaces(s);
    if t != [] && t[0] == MINUS then -Number(t[1..])
    else if t != [] && t[0] == PLUS then Number(t[1..])
    else Number(t)
  }

  predicate Terminated(str: seq<nat>) { str != [] && str[|str| - 1] == 0 && 0 !in str[..|str| - 1] }

  /** The text before the terminator, from position `p` on. */
  function Rest(str: seq<nat>, p: int): seq<nat>
    requires 0 <= p < |str|
  {
    str[p..|str| - 1]
  }

  lemma RestHead(str: seq<nat>, p: int)
    requires Terminated(str) && 0 <= p < |str|
    ensures str[p] == 0 <==> p == |str| - 1
    ensures p == |str| - 1 ==> Rest(str, p) == []
    ensures p < |str| - 1 ==> Rest(str, p) == [str[p]] + Rest(str, p + 1)
  {
    assert p < |str| - 1 ==> str[..|str| - 1][p] == str[p];
  }

  lemma DropHead(c: nat, s: seq<nat>)
    ensures DropSpaces([c] + s) == if c == SPACE then DropSpaces(s) else [c] + s
  {
    assert ([c] + s)[1..] == s;
  }

  lemma NumberSnoc(s: seq<nat>, c: nat)
    ensures Number(s + [c]) == Number(s) * 10 + c - ZERO
  {
    assert (s + [c])[..|s|] == s;
  }

  /** A signed 64-bit number. */
  predicate InLong(v: int) { -0x8000_0000_0000_0000 <= v < 0x8000_0000_0000_0000 }

  /** Reading `s`, the accumulator never leaves its 64 bits. */
  predicate StaysLong(s: seq<nat>) {
    s == [] ||
    (var init := s[..|s| - 1];
     StaysLong(init) && InLong(Number(init) * 10) && InLong(Number(s)))
  }

  lemma StaysLongSnoc(s: seq<nat>, c: nat)
    ensures StaysLong(s + [c]) <==> StaysLong(s) && InLong(Number(s) * 10) && InLong(Number(s + [c]))
  {
    assert (s + [c])[..|s|] == s;
    hide Number, InLong;
  }

  /** `fits` says whether the accumulator, unbounded here, has stayed inside the 64 bits it has. */
  method ReadDigits(str: seq<nat>, p0: nat) returns (res: int, ghost fits: bool)
    requires Terminated(str) && p0 < |str|
    ensures res == Number(Rest(str, p0)) && (fits <==> StaysLong(Rest(str, p0)))
  {
    assert StaysLong([]);
    hide Terminated, Number, StaysLong, InLong;
    res, fits := 0, true;
    var p := p0;
    ghost var done: seq<nat> := [];
    RestHead(str, p);
    assert Number([]) == 0 by { NoDigits(); }
    assert done + Rest(str, p) == Rest(str, p0);
    while str[p] != 0
      invariant p0 <= p < |str| && done + Rest(str, p) == Rest(str, p0) && res == Number(done)
      invariant fits <==> StaysLong(done)
      decreases |str| - p
    {
      RestHead(str, p);
      NumberSnoc(done, str[p]);
      StaysLongSnoc(done, str[p]);
      assert done + Rest(str, p) == (done + [str[p]]) + Rest(str, p + 1);
      done := done + [str[p]];
      res := res * 10;
      fits := fits && InLong(res);
      res := res + str[p] - ZERO;
      fits := fits && InLong(res);
      p := p + 1;
    }
    RestHead(str, p);
    assert done + [] == done;
  }

  lemma NoDigits()
    ensures Number([]) == 0
  {
  }

  /** The text behind spaces and sign. */
  function Unsigned(s: seq<nat>): seq<nat> {
    var t := DropSpaces(s);
    if t != [] && (t[0] == MINUS || t[0] == PLUS) then t[1..] else t
  }

  method Atol(str: seq<nat>) returns (r: int, ghost fits: bool)
    requires Terminated(str)
    ensures r == Read(str[..|str| - 1])
    ensures fits <==> StaysLong(Unsigned(str[..|str| - 1])) && InLong(r)
  {
    assert str != [];
    hide Terminated, Number, DropSpaces, StaysLong, InLong;
    var p := 0;
    RestHead(str, p);
    assert Rest(str, 0) == str[..|str| - 1];
    while str[p] == SPACE
      invariant 0 <= p < |str| && DropSpaces(Rest(str, p)) == DropSpaces(Rest(str, 0))
      decreases |str| - p
    {
      RestHead(str, p);
      DropHead(str[p], Rest(str, p + 1));
      p := p + 1;
    }
    RestHead(str, p);
    NothingToDrop(str, p);
    ghost var t := Rest(str, p);
    var sign := false;
    if str[p] == MINUS || str[p] == PLUS {
      assert t[0] == str[p] && t[1..] == Rest(str, p + 1);
      sign := str[p] == MINUS;
      p := p + 1;
    }
    var res;
    res, fits := ReadDigits(str, p);
    r := if sign then -res else res;
    fits := fits && InLong(r);
  }

  lemma NothingToDrop(str: seq<nat>, p: int)
    requires Terminated(str) && 0 <= p < |str| && str[p] != SPACE
    ensures DropSpaces(Rest(str, p)) == Rest(str, p)
  {
    RestHead(str, p);
  }

  lemma {:induction false} NumberOfChars(ds: seq<nat>)
    requires forall d <- ds :: d < 10
    ensures Number(Chars(ds)) == Value(ds, 10)
    decreases |ds|
  {
    if ds != [] {
      var n := |ds| - 1;
      assert forall d | d in ds[..n] :: d in ds;
      NumberOfChars(ds[..n]);
      assert Chars(ds)[..n] == Chars(ds[..n]);
      assert ds[n] in ds && Chars(ds)[n] == ds[n] + ZERO;
    }
  }

  /** Reading what was printed gives the number back. */
  lemma DecimalRoundTrip(x: int)
    ensures Read(Shown(x)) == x
  {
    var m := if x < 0 then -x else x;
    var ds := Digits(m, 10);
    NumberOfChars(ds);
    ValueOfDigits(m, 10);
    assert Chars(ds)[0] == Char(ds[0]) && ds[0] < 10 by { assert ds[0] in ds; }
    assert x < 0 ==> Shown(x)[1..] == Chars(ds);
  }

  lemma {:induction false} DigitsStayLong(s: seq<nat>)
    requires (forall c <- s :: c >= ZERO) && Number(s) < 0x8000_0000_0000_0000
    ensures Number(s) >= 0 && StaysLong(s)
    decreases |s|
  {
    if s != [] {
      var n := |s| - 1;
      assert forall c | c in s[..n] :: c in s;
      assert s[n] in s;
      NumberNotNegative(s[..n]);
      DigitsStayLong(s[..n]);
    }
  }

  lemma {:induction false} NumberNotNegative(s: seq<nat>)
    requires forall c <- s :: c >= ZERO
    ensures Number(s) >= 0
    decreases |s|
  {
    if s != [] {
      var n := |s| - 1;
      assert forall c | c in s[..n] :: c in s;
      assert s[n] in s;
      NumberNotNegative(s[..n]);
    }
  }

  /** Reading what was printed for a 64-bit number never overflows the accumulator. */
  lemma PrintedStaysLong(x: int)
    requires -0x8000_0000_0000_0000 < x < 0x8000_0000_0000_0000
    ensures StaysLong(Unsigned(Shown(x)))
  {
    var m := if x < 0 then -x else x;
    var ds := Digits(m, 10);
    NumberOfChars(ds);
    ValueOfDigits(m, 10);
    assert Chars(ds)[0] == Char(ds[0]) && ds[0] < 10 by { assert ds[0] in ds; }
    assert x < 0 ==> Shown(x)[1..] == Chars(ds);
    assert Unsigned(Shown(x)) == Chars(ds);
    DigitsStayLong(Chars(ds));
  }

  /** Printed text holds no terminator. */
  lemma NoTerminatorInside(x: int)
    ensures 0 !in Shown(x)
  {
  }

  /** The number comes back, and the accumulator has not overflowed on the way. */
  method PrintAndRead(x: int) returns (r: int, ghost fits: bool)
    requires -0x8000_0000_0000_0000 < x < 0x8000_0000_0000_0000
    ensures r == x && fits
  {
    var text := SprintfD(x);
    NoTerminatorInside(x);
    DecimalRoundTrip(x);
    PrintedStaysLong(x);
    assert text[..|text| - 1] == Shown(x);
    hide Shown, Read, Unsigned, StaysLong;
    r, fits := Atol(text);
  }
}
