/** Serialising a dirty cache line into a burst of writes, and keeping reads of that line back.

    Word and line sizes are powers of two. `done` and `log` are history. */
module WriteBurst {
  import opened Options
  import opened Numbers

  /** Two to the `wordLog` bytes in a word, two to the `blockLog` words in a line. */
  datatype Config = Config(wordLog: nat, blockLog: nat) {
    function Dwords(): nat { Pow2(wordLog) }

    function Dblocks(): nat { Pow2(blockLog) }

    function Bits(): nat { Pow2(wordLog) * 8 }

    /** How many values the shift register can hold: its width is just enough for a line's bits. */
    function ShiftRange(): nat { Bits() * Dblocks() }

    /** The burst counter has eight bits. */
    predicate Fits() { Dblocks() <= 256 }
  }

  /** A line to write back, or a single word. */
  datatype WriteReq = WriteReq(addr: nat, data: int, line: bool)

  datatype Event = Addr(addr: nat, len: nat) | Beat(data: int, last: bool) | Read(addr: nat) | Answered

  datatype Port = Port(
    count: nat, shift: nat, writing: Option<nat>, delayed: Option<nat>,
    pending: seq<WriteReq>, done: seq<WriteReq>, log: seq<Event>)

  function BurstLen(c: Config, r: WriteReq): nat { if r.line then c.Dblocks() - 1 else 0 }

  /** The line comparison of the read rule: both addresses shifted by the sum of the two sizes. */
  predicate Coarse(c: Config, a: nat, b: nat) {
    a / Pow2(c.Dwords() + c.Dblocks()) == b / Pow2(c.Dwords() + c.Dblocks())
  }

  predicate SameLine(c: Config, a: nat, b: nat) {
    a / (c.Dwords() * c.Dblocks()) == b / (c.Dwords() * c.Dblocks())
  }

  // -------- rules --------

  function ReadRequest(c: Config, p: Port, addr: nat): Port {
    if p.delayed.Some? then p
    else if p.writing.Some? && Coarse(c, p.writing.value, addr) then p.(delayed := Some(addr))
    else p.(log := p.log + [Read(addr)])
  }

  function DelayedRead(p: Port): Port {
    if p.delayed.None? || p.writing.Some? then p
    else p.(log := p.log + [Read(p.delayed.value)], delayed := None)
  }

  function WriteRequest(c: Config, p: Port): Port {
    if p.count != 0 || p.pending == [] then p else
    var r := p.pending[0];
    var len := BurstLen(c, r);
    var q := p.(log := p.log + [Addr(r.addr, len), Beat(r.data % Pow2(c.Bits()), len == 0)]);
    if len > 0 then q.(count := (p.count + 1) % 256, writing := Some(r.addr))
    else q.(pending := p.pending[1..], done := p.done + [r])
  }

  function BurstWrite(c: Config, p: Port): Port {
    if p.count == 0 || p.pending == [] then p else
    var r := p.pending[0];
    var last := p.count == c.Dblocks() - 1;
    var q := p.(log := p.log + [Beat(r.data / Pow2(p.shift) % Pow2(c.Bits()), last)]);
    if last then
      q.(count := 0, shift := c.Bits() % c.ShiftRange(), writing := None,
         pending := p.pending[1..], done := p.done + [r])
    else q.(count := (p.count + 1) % 256, shift := (p.shift + c.Bits()) % c.ShiftRange())
  }

  // -------- runs --------

  datatype Rule = Offer(req: WriteReq) | AskRead(addr: nat) | RetryRead | StartWrite | ContinueWrite | Response

  function Fire(c: Config, p: Port, r: Rule): Port {
    match r
    case Offer(req) => p.(pending := p.pending + [req])
    case AskRead(addr) => ReadRequest(c, p, addr)
    case RetryRead => DelayedRead(p)
    case StartWrite => WriteRequest(c, p)
    case ContinueWrite => BurstWrite(c, p)
    case Response => p.(log := p.log + [Answered])
  }

  function Reset(c: Config): Port {
    Port(0, c.Bits() % c.ShiftRange(), None, None, [], [], [])
  }

  function Run(c: Config, rules: seq<Rule>): Port {
    if rules == [] then Reset(c) else Fire(c, Run(c, rules[..|rules| - 1]), rules[|rules| - 1])
  }

  // -------- what should be sent --------

  function Offset(c: Config, k: nat): (bits: nat)
    ensures bits == k * c.Bits()
  {
    MulOrder(0, k, c.Bits());
    k * c.Bits()
  }

  /** The `k`-th word of a line. */
  function WordOf(c: Config, data: int, k: nat): int { data / Pow2(Offset(c, k)) % Pow2(c.Bits()) }

  /** The address and the first `n` beats of a request. */
  function Burst(c: Config, r: WriteReq, n: nat): seq<Event> {
    if n == 0 then [Addr(r.addr, BurstLen(c, r))]
    else Burst(c, r, n - 1) + [Beat(WordOf(c, r.data, n - 1), n - 1 == BurstLen(c, r))]
  }

  function Bursts(c: Config, rs: seq<WriteReq>): seq<Event> {
    if rs == [] then []
    else Bursts(c, rs[..|rs| - 1]) + Burst(c, rs[|rs| - 1], BurstLen(c, rs[|rs| - 1]) + 1)
  }

  /** What is on the write channels. */
  function Writes(log: seq<Event>): seq<Event> {
    if log == [] then []
    else
      var e := log[|log| - 1];
      Writes(log[..|log| - 1]) + (if e.Addr? || e.Beat? then [e] else [])
  }

  function Offered(rules: seq<Rule>): seq<WriteReq> {
    if rules == [] then []
    else Offered(rules[..|rules| - 1]) + (if rules[|rules| - 1].Offer? then [rules[|rules| - 1].req] else [])
  }

  /** The line whose burst has begun and has not had its last beat. */
  function Open(log: seq<Event>): Option<nat> {
    if log == [] then None
    else match log[|log| - 1]
      case Addr(addr, len) => Some(addr)
      case Beat(_, last) => if last then None else Open(log[..|log| - 1])
      case _ => Open(log[..|log| - 1])
  }

  predicate ReadsClear(c: Config, log: seq<Event>) {
    forall i | 0 <= i < |log| && log[i].Read? ::
      Open(log[..i]).Some? ==> !SameLine(c, Open(log[..i]).value, log[i].addr)
  }

  // -------- the lines compare --------

  lemma {:induction false} BelowPow2(n: nat)
    ensures n < Pow2(n)
  {
    if n != 0 {
      BelowPow2(n - 1);
    }
  }

  /** The coarse comparison never misses a read of the line being written. */
  lemma CoarseCoversLine(c: Config, a: nat, b: nat)
    requires SameLine(c, a, b)
    ensures Coarse(c, a, b)
  {
    var m, n := c.wordLog + c.blockLog, c.Dwords() + c.Dblocks();
    BelowPow2(c.wordLog);
    BelowPow2(c.blockLog);
    Pow2Add(c.wordLog, c.blockLog);
    Pow2Add(m, n - m);
    DivDiv(a, Pow2(m), Pow2(n - m));
    DivDiv(b, Pow2(m), Pow2(n - m));
  }

  // -------- the beats rebuild the line --------

  function Join(c: Config, words: seq<int>): int {
    if words == [] then 0 else words[0] + Pow2(c.Bits()) * Join(c, words[1..])
  }

  function Words(c: Config, data: int, n: nat): seq<int> {
    seq(n, k requires 0 <= k < n => WordOf(c, data, k))
  }

  lemma OffsetNext(c: Config, k: nat)
    ensures Offset(c, k + 1) == c.Bits() + Offset(c, k)
  {
    assert (k + 1) * c.Bits() == k * c.Bits() + c.Bits();
  }

  lemma WordShift(c: Config, data: int, k: nat)
    ensures WordOf(c, data, k + 1) == WordOf(c, data / Pow2(c.Bits()), k)
  {
    hide Offset, Pow2;
    OffsetNext(c, k);
    Pow2Add(c.Bits(), Offset(c, k));
    DivDiv(data, Pow2(c.Bits()), Pow2(Offset(c, k)));
  }

  /** The words of a line, put together again, are the line. */
  lemma {:induction false} BeatsRebuildLine(c: Config, data: int, n: nat)
    ensures Join(c, Words(c, data, n)) == data % Pow2(Offset(c, n))
    decreases n
  {
    if n == 0 {
      assert Offset(c, 0) == 0 && Pow2(0) == 1;
    } else {
      var rest := data / Pow2(c.Bits());
      WordsShift(c, data, n - 1);
      BeatsRebuildLine(c, rest, n - 1);
      hide Offset, Pow2, WordOf;
      OffsetNext(c, n - 1);
      Pow2Add(c.Bits(), Offset(c, n - 1));
      DivDiv(data, Pow2(c.Bits()), Pow2(Offset(c, n - 1)));
    }
  }

  lemma WordsShift(c: Config, data: int, n: nat)
    ensures Words(c, data, n + 1)[0] == data % Pow2(c.Bits())
    ensures Words(c, data, n + 1)[1..] == Words(c, data / Pow2(c.Bits()), n)
  {
    forall k | 0 <= k < n ensures Words(c, data, n + 1)[1..][k] == Words(c, data / Pow2(c.Bits()), n)[k] {
      WordShift(c, data, k);
    }
    assert Offset(c, 0) == 0 && Pow2(0) == 1;
  }

  // -------- the invariant --------

  predicate Serial(c: Config, p: Port) {
    && 0 <= p.count < c.Dblocks()
    && p.shift == (if p.count == 0 then c.Bits() else Offset(c, p.count)) % c.ShiftRange()
    && (p.count > 0 ==> p.pending != [] && p.pending[0].line && p.writing == Some(p.pending[0].addr))
    && (p.count == 0 ==> p.writing.None?)
  }

  predicate Sent(c: Config, p: Port) {
    Writes(p.log) == Bursts(c, p.done) +
      (if p.count > 0 && p.pending != [] then Burst(c, p.pending[0], p.count) else [])
  }

  predicate Inv(c: Config, p: Port) {
    Serial(c, p) && Sent(c, p) && Open(p.log) == p.writing && ReadsClear(c, p.log)
  }

  /** In the middle of a burst the shift register stands at the next word. */
  lemma ShiftIsExact(c: Config, p: Port)
    requires Serial(c, p) && p.count > 0
    ensures p.shift == Offset(c, p.count)
    ensures p.count + 1 < c.Dblocks() ==>
              (p.shift + c.Bits()) % c.ShiftRange() == Offset(c, p.count + 1) % c.ShiftRange()
  {
    Slot(p.count, c.Dblocks(), c.Bits());
    assert c.ShiftRange() == c.Dblocks() * c.Bits();
  }

  lemma OneMore(log: seq<Event>, e: Event)
    ensures Writes(log + [e]) == Writes(log) + (if e.Addr? || e.Beat? then [e] else [])
    ensures Open(log + [e]) == match e
                               case Addr(addr, len) => Some(addr)
                               case Beat(_, last) => if last then None else Open(log)
                               case _ => Open(log)
  {
    assert (log + [e])[..|log|] == log;
  }

  lemma ReadsStayClear(c: Config, log: seq<Event>, e: Event)
    requires ReadsClear(c, log)
    requires e.Read? && Open(log).Some? ==> !SameLine(c, Open(log).value, e.addr)
    ensures ReadsClear(c, log + [e])
  {
    forall i | 0 <= i <= |log| ensures (log + [e])[..i] == log[..i] {}
    assert log[..|log|] == log;
  }

  lemma ReadKeeps(c: Config, p: Port, addr: nat)
    requires Inv(c, p)
    ensures Inv(c, ReadRequest(c, p, addr)) && Inv(c, DelayedRead(p))
  {
    hide SameLine, Coarse, Writes, Open, Burst, Bursts;
    if p.writing.Some? && SameLine(c, p.writing.value, addr) {
      CoarseCoversLine(c, p.writing.value, addr);
    } else {
      ReadsStayClear(c, p.log, Read(addr));
    }
    OneMore(p.log, Read(addr));
    if p.delayed.Some? && p.writing.None? {
      ReadsStayClear(c, p.log, Read(p.delayed.value));
      OneMore(p.log, Read(p.delayed.value));
    }
  }

  lemma BurstsSnoc(c: Config, rs: seq<WriteReq>, r: WriteReq)
    ensures Bursts(c, rs + [r]) == Bursts(c, rs) + Burst(c, r, BurstLen(c, r) + 1)
  {
    assert (rs + [r])[..|rs|] == rs;
    hide Burst;
  }

  lemma FirstBeat(c: Config, r: WriteReq)
    ensures Burst(c, r, 1) == [Addr(r.addr, BurstLen(c, r))] + [Beat(r.data % Pow2(c.Bits()), BurstLen(c, r) == 0)]
  {
    assert Offset(c, 0) == 0 && Pow2(0) == 1;
    assert WordOf(c, r.data, 0) == r.data % Pow2(c.Bits());
    assert Burst(c, r, 0) == [Addr(r.addr, BurstLen(c, r))];
  }

  lemma NextBeat(c: Config, r: WriteReq, n: nat)
    ensures Burst(c, r, n + 1) == Burst(c, r, n) + [Beat(WordOf(c, r.data, n), n == BurstLen(c, r))]
  {
  }

  /** What the first beat does to the log. */
  lemma StartLog(c: Config, log: seq<Event>, r: WriteReq, log': seq<Event>)
    requires log' == log + [Addr(r.addr, BurstLen(c, r)), Beat(r.data % Pow2(c.Bits()), BurstLen(c, r) == 0)]
    requires ReadsClear(c, log)
    ensures Writes(log') == Writes(log) + Burst(c, r, 1) && ReadsClear(c, log')
    ensures Open(log') == if BurstLen(c, r) > 0 then Some(r.addr) else None
  {
    hide Writes, Open, ReadsClear, Burst, Pow2;
    var addr, beat := Addr(r.addr, BurstLen(c, r)), Beat(r.data % Pow2(c.Bits()), BurstLen(c, r) == 0);
    assert log' == (log + [addr]) + [beat];
    OneMore(log, addr);
    OneMore(log + [addr], beat);
    ReadsStayClear(c, log, addr);
    ReadsStayClear(c, log + [addr], beat);
    FirstBeat(c, r);
  }

  lemma StartSerial(c: Config, p: Port)
    requires Serial(c, p) && c.Fits()
    ensures Serial(c, WriteRequest(c, p))
  {
    hide Pow2;
    assert Offset(c, 1) == c.Bits();
    hide Offset;
  }

  lemma StartKeeps(c: Config, p: Port)
    requires Inv(c, p) && c.Fits()
    ensures Inv(c, WriteRequest(c, p))
  {
    hide Open, Writes, ReadsClear, Burst, Bursts, Pow2, Offset;
    StartSerial(c, p);
    if p.count == 0 && p.pending != [] {
      var r := p.pending[0];
      StartLog(c, p.log, r, WriteRequest(c, p).log);
      BurstsSnoc(c, p.done, r);
      hide Serial;
    }
  }

  lemma ContinueSerial(c: Config, p: Port)
    requires Serial(c, p) && c.Fits() && p.count > 0
    ensures Serial(c, BurstWrite(c, p)) && p.shift == Offset(c, p.count)
  {
    hide Pow2, Offset;
    ShiftIsExact(c, p);
  }

  /** What a later beat does to the log. */
  lemma ContinueLog(c: Config, log: seq<Event>, r: WriteReq, n: nat)
    requires ReadsClear(c, log)
    ensures var log' := log + [Beat(WordOf(c, r.data, n), n == BurstLen(c, r))];
            && Writes(log') == Writes(log) + [Beat(WordOf(c, r.data, n), n == BurstLen(c, r))] && ReadsClear(c, log')
            && Open(log') == if n == BurstLen(c, r) then None else Open(log)
  {
    hide Writes, Open, ReadsClear, WordOf;
    var beat := Beat(WordOf(c, r.data, n), n == BurstLen(c, r));
    OneMore(log, beat);
    ReadsStayClear(c, log, beat);
  }

  lemma ContinueKeeps(c: Config, p: Port)
    requires Inv(c, p) && c.Fits()
    ensures Inv(c, BurstWrite(c, p))
  {
    hide Open, Writes, ReadsClear, Burst, Bursts, Pow2, Offset;
    if p.count != 0 {
      var r := p.pending[0];
      ContinueSerial(c, p);
      ContinueLog(c, p.log, r, p.count);
      NextBeat(c, r, p.count);
      BurstsSnoc(c, p.done, r);
      assert p.pending[0].line;
      hide Serial;
    }
  }

  lemma OtherKeeps(c: Config, p: Port, r: Rule)
    requires Inv(c, p) && (r.Offer? || r.Response?)
    ensures Inv(c, Fire(c, p, r))
  {
    OneMore(p.log, Answered);
    ReadsStayClear(c, p.log, Answered);
    hide Bursts, Burst, Writes, Open, ReadsClear;
  }

  lemma FireKeeps(c: Config, p: Port, r: Rule)
    requires c.Fits() && Inv(c, p)
    ensures Inv(c, Fire(c, p, r))
  {
    hide Inv, ReadRequest, DelayedRead, WriteRequest, BurstWrite;
    match r {
      case Offer(req) => OtherKeeps(c, p, r);
      case AskRead(addr) => ReadKeeps(c, p, addr);
      case RetryRead => ReadKeeps(c, p, 0);
      case StartWrite => StartKeeps(c, p);
      case ContinueWrite => ContinueKeeps(c, p);
      case Response => OtherKeeps(c, p, r);
    }
  }

  lemma NoneLost(c: Config, p: Port, r: Rule)
    ensures var q := Fire(c, p, r);
            q.done + q.pending == p.done + p.pending + (if r.Offer? then [r.req] else [])
  {
  }

  lemma {:induction false} RunKeeps(c: Config, rules: seq<Rule>)
    requires c.Fits()
    ensures Inv(c, Run(c, rules))
    ensures var p := Run(c, rules); p.done + p.pending == Offered(rules)
    decreases |rules|
  {
    if rules != [] {
      var n := |rules| - 1;
      RunKeeps(c, rules[..n]);
      hide Inv, Fire;
      FireKeeps(c, Run(c, rules[..n]), rules[n]);
      NoneLost(c, Run(c, rules[..n]), rules[n]);
    }
  }

  // -------- what every run does --------

  /** The write channels carry the offered requests in order and whole: for a line exactly its words in
      order, the last one and no other marked last. The request under way has sent a prefix. */
  lemma BurstsAreWhole(c: Config, rules: seq<Rule>)
    requires c.Fits()
    ensures var p := Run(c, rules);
      && p.done <= Offered(rules)
      && (p.count == 0 ==> Writes(p.log) == Bursts(c, p.done))
      && (p.count > 0 ==> |p.done| < |Offered(rules)| &&
                          Writes(p.log) == Bursts(c, p.done) + Burst(c, Offered(rules)[|p.done|], p.count))
  {
    RunKeeps(c, rules);
  }

  /** No read of a line is issued between the first and the last beat of its burst. */
  lemma NoReadInsideBurst(c: Config, rules: seq<Rule>)
    requires c.Fits()
    ensures ReadsClear(c, Run(c, rules).log)
  {
    RunKeeps(c, rules);
  }

  // -------- reads and the answers to writes --------

  /** The writes begun and not yet answered, oldest first; an answer is for the oldest. */
  function Unanswered(log: seq<Event>): seq<nat> {
    if log == [] then []
    else
      var ws := Unanswered(log[..|log| - 1]);
      var e := log[|log| - 1];
      if e.Addr? then ws + [e.addr] else if e.Answered? && ws != [] then ws[1..] else ws
  }

  /** A write to the line of `addr` still waits for its answer. */
  predicate Awaited(c: Config, log: seq<Event>, addr: nat) {
    exists w <- Unanswered(log) :: SameLine(c, w, addr)
  }

  /** What the comment above the read rule promises: no read is issued for a line with an unanswered
      write. */
  predicate ReadsWait(c: Config, log: seq<Event>) {
    forall i | 0 <= i < |log| && log[i].Read? :: !Awaited(c, log[..i], log[i].addr)
  }

  /** The address that `r` would let out in `p`: the guards of the two read rules. */
  function LetsOut(c: Config, p: Port, r: Rule): Option<nat> {
    match r
    case AskRead(addr) =>
      if p.delayed.None? && (p.writing.None? || !Coarse(c, p.writing.value, addr)) then Some(addr) else None
    case RetryRead => if p.delayed.Some? && p.writing.None? then p.delayed else None
    case _ => None
  }

  /** `r` finds a read rule open for a line with an unanswered write. */
  predicate Passes(c: Config, p: Port, r: Rule) {
    LetsOut(c, p, r).Some? && Awaited(c, p.log, LetsOut(c, p, r).value)
  }

  lemma WaitSnoc(c: Config, log: seq<Event>, e: Event)
    ensures ReadsWait(c, log + [e]) <==> ReadsWait(c, log) && !(e.Read? && Awaited(c, log, e.addr))
  {
    hide Awaited;
    forall i | 0 <= i <= |log| ensures (log + [e])[..i] == log[..i] {}
    assert log[..|log|] == log;
    assert forall i | 0 <= i < |log| :: (log + [e])[i] == log[i];
    if ReadsWait(c, log + [e]) {
      assert (log + [e])[|log|] == e;
      forall i | 0 <= i < |log| && log[i].Read? ensures !Awaited(c, log[..i], log[i].addr) {
        assert (log + [e])[i] == log[i];
      }
    }
  }

  lemma UnansweredSnoc(log: seq<Event>, e: Event)
    ensures Unanswered(log + [e]) ==
              if e.Addr? then Unanswered(log) + [e.addr]
              else if e.Answered? && Unanswered(log) != [] then Unanswered(log)[1..]
              else Unanswered(log)
  {
    assert (log + [e])[..|log|] == log;
  }

  lemma FireWaits(c: Config, p: Port, r: Rule)
    ensures ReadsWait(c, Fire(c, p, r).log) <==> ReadsWait(c, p.log) && !Passes(c, p, r)
  {
    hide ReadsWait, Awaited, Coarse, Pow2;
    match r {
      case StartWrite =>
        if p.count == 0 && p.pending != [] {
          var w := p.pending[0];
          var first, beat := Addr(w.addr, BurstLen(c, w)), Beat(w.data % Pow2(c.Bits()), BurstLen(c, w) == 0);
          WaitSnoc(c, p.log, first);
          WaitSnoc(c, p.log + [first], beat);
          assert p.log + [first, beat] == (p.log + [first]) + [beat];
        }
      case ContinueWrite =>
        if p.count != 0 && p.pending != [] {
          var w := p.pending[0];
          WaitSnoc(c, p.log, Beat(w.data / Pow2(p.shift) % Pow2(c.Bits()), p.count == c.Dblocks() - 1));
        }
      case AskRead(addr) => WaitSnoc(c, p.log, Read(addr));
      case RetryRead => if p.delayed.Some? { WaitSnoc(c, p.log, Read(p.delayed.value)); }
      case Offer(_) =>
      case Response => WaitSnoc(c, p.log, Answered);
    }
  }

  /** In no state of the run is a read rule open for a line with an unanswered write. */
  predicate NonePasses(c: Config, rules: seq<Rule>) {
    forall n | 0 <= n < |rules| :: !Passes(c, Run(c, rules[..n]), rules[n])
  }

  lemma NonePassesSnoc(c: Config, rules: seq<Rule>, k: nat)
    requires |rules| == k + 1
    ensures NonePasses(c, rules) <==> NonePasses(c, rules[..k]) && !Passes(c, Run(c, rules[..k]), rules[k])
  {
    hide Run, Passes;
    forall n | 0 <= n < k ensures rules[..k][..n] == rules[..n] && rules[..k][n] == rules[n] {}
    if NonePasses(c, rules) {
      forall n | 0 <= n < k ensures !Passes(c, Run(c, rules[..k][..n]), rules[..k][n]) {
        assert !Passes(c, Run(c, rules[..n]), rules[n]);
      }
    }
    if NonePasses(c, rules[..k]) && !Passes(c, Run(c, rules[..k]), rules[k]) {
      forall n | 0 <= n <= k ensures !Passes(c, Run(c, rules[..n]), rules[n]) {
        assert n < k ==> !Passes(c, Run(c, rules[..k][..n]), rules[..k][n]);
      }
    }
  }

  /** Exactly when the code keeps the promise: the rules look at the burst that is being sent, and at no
      other write. */
  lemma {:induction false} ReadsWaitIff(c: Config, rules: seq<Rule>)
    ensures ReadsWait(c, Run(c, rules).log) <==> NonePasses(c, rules)
    decreases |rules|
  {
    hide Passes, Fire, NonePasses, ReadsWait;
    if rules == [] {
      NothingYet(c);
    } else {
      var k := |rules| - 1;
      ReadsWaitIff(c, rules[..k]);
      FireWaits(c, Run(c, rules[..k]), rules[k]);
      NonePassesSnoc(c, rules, k);
    }
  }

  lemma NothingYet(c: Config)
    ensures ReadsWait(c, Reset(c).log) && NonePasses(c, [])
  {
  }

  // -------- one write at a time --------

  /** Every write begins after the answer to the one before. */
  predicate OneAtATime(c: Config, rules: seq<Rule>) {
    forall n | 0 <= n < |rules| && rules[n].StartWrite? :: MayBegin(Run(c, rules[..n]))
  }

  predicate MayBegin(p: Port) { p.count == 0 && p.pending != [] ==> Unanswered(p.log) == [] }

  predicate OnlyTheBurst(p: Port) {
    p.writing.Some? ==> forall w <- Unanswered(p.log) :: w == p.writing.value
  }

  lemma FireOnlyTheBurst(c: Config, p: Port, r: Rule)
    requires c.Fits() && Serial(c, p) && OnlyTheBurst(p)
    requires r.StartWrite? ==> MayBegin(p)
    ensures OnlyTheBurst(Fire(c, p, r))
  {
    hide Unanswered, Pow2, Offset, Coarse;
    match r {
      case StartWrite =>
        if p.count == 0 && p.pending != [] {
          var w := p.pending[0];
          var first, beat := Addr(w.addr, BurstLen(c, w)), Beat(w.data % Pow2(c.Bits()), BurstLen(c, w) == 0);
          UnansweredSnoc(p.log, first);
          UnansweredSnoc(p.log + [first], beat);
          assert p.log + [first, beat] == (p.log + [first]) + [beat];
        }
      case ContinueWrite =>
        if p.count != 0 && p.pending != [] {
          var w := p.pending[0];
          UnansweredSnoc(p.log, Beat(w.data / Pow2(p.shift) % Pow2(c.Bits()), p.count == c.Dblocks() - 1));
        }
      case AskRead(addr) => UnansweredSnoc(p.log, Read(addr));
      case RetryRead => if p.delayed.Some? { UnansweredSnoc(p.log, Read(p.delayed.value)); }
      case Offer(_) =>
      case Response =>
        UnansweredSnoc(p.log, Answered);
        var ws := Unanswered(p.log);
        assert ws != [] ==> forall w <- ws[1..] :: w in ws;
    }
  }

  lemma OneAtATimeTake(c: Config, rules: seq<Rule>, k: nat)
    requires k <= |rules| && OneAtATime(c, rules)
    ensures OneAtATime(c, rules[..k])
  {
    hide Run, MayBegin;
    forall n | 0 <= n < k && rules[..k][n].StartWrite?
      ensures MayBegin(Run(c, rules[..k][..n]))
    {
      assert rules[..k][..n] == rules[..n] && rules[..k][n] == rules[n];
    }
  }

  lemma {:induction false} RunOnlyTheBurst(c: Config, rules: seq<Rule>)
    requires c.Fits() && OneAtATime(c, rules)
    ensures OnlyTheBurst(Run(c, rules))
    decreases |rules|
  {
    if rules != [] {
      hide Fire, OnlyTheBurst, MayBegin, Serial, Sent, ReadsClear, Open;
      var k := |rules| - 1;
      OneAtATimeTake(c, rules, k);
      assert rules[k].StartWrite? ==> MayBegin(Run(c, rules[..k]));
      RunOnlyTheBurst(c, rules[..k]);
      RunKeeps(c, rules[..k]);
      FireOnlyTheBurst(c, Run(c, rules[..k]), rules[k]);
    }
  }

  /** The read rules find no burst being sent, and are open for a line with an unanswered write. */
  predicate PassesIdle(c: Config, p: Port, r: Rule) { p.writing.None? && Passes(c, p, r) }

  lemma PassesOnlyIdle(c: Config, p: Port, r: Rule)
    requires OnlyTheBurst(p)
    ensures Passes(c, p, r) <==> PassesIdle(c, p, r)
  {
    hide Unanswered, SameLine, Coarse;
    if r.AskRead? && p.writing.Some? && SameLine(c, p.writing.value, r.addr) {
      CoarseCoversLine(c, p.writing.value, r.addr);
    }
  }

  /** With one write at a time the burst being sent is no danger, and what is left is a read asked for, or
      retried, after the last beat and before the answer. */
  lemma ReadsWaitIffIdle(c: Config, rules: seq<Rule>)
    requires c.Fits() && OneAtATime(c, rules)
    ensures ReadsWait(c, Run(c, rules).log) <==>
              forall n | 0 <= n < |rules| :: !PassesIdle(c, Run(c, rules[..n]), rules[n])
  {
    hide Run, Passes, PassesIdle, ReadsWait, OnlyTheBurst;
    ReadsWaitIff(c, rules);
    forall n | 0 <= n < |rules|
      ensures Passes(c, Run(c, rules[..n]), rules[n]) <==> PassesIdle(c, Run(c, rules[..n]), rules[n])
    {
      OneAtATimeTake(c, rules, n);
      RunOnlyTheBurst(c, rules[..n]);
      PassesOnlyIdle(c, Run(c, rules[..n]), rules[n]);
    }
  }

  // -------- where the promise is broken --------

  function Beats(n: nat): seq<Rule> { if n == 0 then [] else Beats(n - 1) + [ContinueWrite] }

  lemma RunSnoc(c: Config, rules: seq<Rule>, r: Rule)
    ensures Run(c, rules + [r]) == Fire(c, Run(c, rules), r)
  {
    assert (rules + [r])[..|rules|] == rules;
    hide Fire;
  }

  /** A line is offered and its first beat sent. */
  function Begun(addr: nat, data: int): seq<Rule> { [Offer(WriteReq(addr, data, true)), StartWrite] }

  /** `n` beats after the first one of the line at `addr`, with no answer so far. */
  predicate Sending(c: Config, p: Port, addr: nat, data: int, n: nat) {
    && Unanswered(p.log) == [addr]
    && if n + 1 < c.Dblocks() then
         p.count == n + 1 && p.pending == [WriteReq(addr, data, true)] && p.writing == Some(addr)
       else p.count == 0 && p.pending == [] && p.writing.None?
  }

  lemma BeginSends(c: Config, addr: nat, data: int)
    requires c.Fits()
    ensures var p := Run(c, Begun(addr, data)); Sending(c, p, addr, data, 0) && p.delayed.None?
  {
    hide Pow2, WriteRequest;
    var req := WriteReq(addr, data, true);
    RunSnoc(c, [], Offer(req));
    RunSnoc(c, [Offer(req)], StartWrite);
    assert [] + [Offer(req)] == [Offer(req)] && [Offer(req)] + [StartWrite] == Begun(addr, data);
    var p := Fire(c, Reset(c), Offer(req));
    assert p.pending == [req];
    hide Run, Reset, Fire;
    StartSends(c, p, req);
  }

  lemma StartSends(c: Config, p: Port, req: WriteReq)
    requires c.Fits() && p.count == 0 && p.writing.None? && p.pending == [req] && req.line && p.log == []
    ensures Sending(c, WriteRequest(c, p), req.addr, req.data, 0) && WriteRequest(c, p).delayed == p.delayed
  {
    hide Pow2, Unanswered;
    var first, beat := Addr(req.addr, BurstLen(c, req)), Beat(req.data % Pow2(c.Bits()), BurstLen(c, req) == 0);
    assert WriteRequest(c, p).log == ([] + [first]) + [beat];
    UnansweredSnoc([], first);
    UnansweredSnoc([] + [first], beat);
    assert Unanswered([]) == [] by { NothingUnanswered(); }
  }

  lemma NothingUnanswered()
    ensures Unanswered([]) == []
  {
  }

  lemma BeatSends(c: Config, p: Port, addr: nat, data: int, n: nat)
    requires c.Fits() && n + 1 < c.Dblocks() && Sending(c, p, addr, data, n)
    ensures var q := Fire(c, p, ContinueWrite); Sending(c, q, addr, data, n + 1) && q.delayed == p.delayed
  {
    hide Pow2, Unanswered;
    UnansweredSnoc(p.log, Beat(data / Pow2(p.shift) % Pow2(c.Bits()), p.count == c.Dblocks() - 1));
  }

  lemma {:induction false} BeatsSend(c: Config, rules: seq<Rule>, addr: nat, data: int, n: nat)
    requires c.Fits() && n < c.Dblocks() && Sending(c, Run(c, rules), addr, data, 0)
    ensures var p := Run(c, rules + Beats(n));
            Sending(c, p, addr, data, n) && p.delayed == Run(c, rules).delayed
    decreases n
  {
    hide Sending, Fire, Run, Pow2;
    if n == 0 {
      assert rules + Beats(0) == rules;
    } else {
      BeatsSend(c, rules, addr, data, n - 1);
      assert rules + Beats(n) == (rules + Beats(n - 1)) + [ContinueWrite];
      RunSnoc(c, rules + Beats(n - 1), ContinueWrite);
      BeatSends(c, Run(c, rules + Beats(n - 1)), addr, data, n - 1);
    }
  }

  /** The read of a line comes while the line is being sent, and is retried behind the last beat. */
  function AskDuring(c: Config, addr: nat, data: int): seq<Rule> {
    Begun(addr, data) + [AskRead(addr)] + Beats(c.Dblocks() - 1) + [RetryRead]
  }

  lemma AskHeldBack(c: Config, p: Port, addr: nat, data: int)
    requires Sending(c, p, addr, data, 0) && p.delayed.None?
    ensures var q := Fire(c, p, AskRead(addr));
      && Sending(c, q, addr, data, 0)
      && (if c.Dblocks() > 1 then q.delayed == Some(addr) else Passes(c, p, AskRead(addr)))
  {
    hide Unanswered, Coarse, Pow2;
    UnansweredSnoc(p.log, Read(addr));
    CoarseCoversLine(c, addr, addr);
    assert addr in [addr];
  }

  lemma RetryPasses(c: Config, p: Port, addr: nat, data: int)
    requires Sending(c, p, addr, data, c.Dblocks() - 1) && p.delayed == Some(addr)
    ensures Passes(c, p, RetryRead)
  {
    hide Unanswered, Pow2;
    assert addr in [addr];
  }

  lemma PassesBreaks(c: Config, rules: seq<Rule>, r: Rule, more: seq<Rule>)
    requires Passes(c, Run(c, rules), r)
    ensures !ReadsWait(c, Run(c, rules + [r] + more).log)
  {
    hide Run, Passes, ReadsWait;
    var all := rules + [r] + more;
    assert all[..|rules|] == rules && all[|rules|] == r;
    ReadsWaitIff(c, all);
  }

  /** The read is held back until the last beat only, not until the write has been answered: whatever the
      sizes, this run issues it although no answer has come. */
  lemma ReadMayPassTheAnswer(c: Config, addr: nat, data: int)
    requires c.Fits()
    ensures !ReadsWait(c, Run(c, AskDuring(c, addr, data)).log)
  {
    hide Run, Sending, Passes, ReadsWait, Pow2, Fire;
    var first, d := Begun(addr, data), c.Dblocks();
    BeginSends(c, addr, data);
    RunSnoc(c, first, AskRead(addr));
    AskHeldBack(c, Run(c, first), addr, data);
    BeatsSend(c, first + [AskRead(addr)], addr, data, d - 1);
    if d > 1 {
      RetryPasses(c, Run(c, first + [AskRead(addr)] + Beats(d - 1)), addr, data);
      PassesBreaks(c, first + [AskRead(addr)] + Beats(d - 1), RetryRead, []);
      assert AskDuring(c, addr, data) == first + [AskRead(addr)] + Beats(d - 1) + [RetryRead] + [];
    } else {
      PassesBreaks(c, first, AskRead(addr), Beats(d - 1) + [RetryRead]);
      assert AskDuring(c, addr, data) == first + [AskRead(addr)] + (Beats(d - 1) + [RetryRead]);
    }
  }

  /** A second line is being sent while the first is not answered yet; the first is read. */
  function AskOlder(c: Config, addr: nat, data: int, other: nat): seq<Rule> {
    Begun(addr, data) + Beats(c.Dblocks() - 1) + Begun(other, data) + [AskRead(addr)]
  }

  /** Even in the middle of a burst a read passes, when the unanswered write is an older one. */
  lemma OlderWriteIsForgotten(c: Config, addr: nat, data: int, other: nat)
    requires c.Fits() && c.Dblocks() > 1 && !Coarse(c, other, addr)
    ensures var before := Run(c, Begun(addr, data) + Beats(c.Dblocks() - 1) + Begun(other, data));
            before.writing == Some(other)
    ensures !ReadsWait(c, Run(c, AskOlder(c, addr, data, other)).log)
  {
    hide Run, Sending, Passes, ReadsWait, Pow2, Fire, Coarse;
    var sent := Begun(addr, data) + Beats(c.Dblocks() - 1);
    var req := WriteReq(other, data, true);
    BeginSends(c, addr, data);
    BeatsSend(c, Begun(addr, data), addr, data, c.Dblocks() - 1);
    RunSnoc(c, sent, Offer(req));
    RunSnoc(c, sent + [Offer(req)], StartWrite);
    assert sent + Begun(other, data) == sent + [Offer(req)] + [StartWrite];
    SecondBegins(c, Run(c, sent), addr, data, req);
    PassesBreaks(c, sent + Begun(other, data), AskRead(addr), []);
    assert AskOlder(c, addr, data, other) == sent + Begun(other, data) + [AskRead(addr)] + [];
  }

  lemma SecondBegins(c: Config, p: Port, addr: nat, data: int, req: WriteReq)
    requires c.Fits() && c.Dblocks() > 1 && Sending(c, p, addr, data, c.Dblocks() - 1) && p.delayed.None?
    requires req.line && !Coarse(c, req.addr, addr)
    ensures var q := Fire(c, Fire(c, p, Offer(req)), StartWrite);
            q.writing == Some(req.addr) && Passes(c, q, AskRead(addr))
  {
    hide Unanswered, Coarse, Pow2;
    var q := Fire(c, Fire(c, p, Offer(req)), StartWrite);
    var first, beat := Addr(req.addr, BurstLen(c, req)), Beat(req.data % Pow2(c.Bits()), BurstLen(c, req) == 0);
    assert q.log == (p.log + [first]) + [beat];
    UnansweredSnoc(p.log, first);
    UnansweredSnoc(p.log + [first], beat);
    assert addr in [addr] + [req.addr];
  }

  // -------- the registers --------

  class Serialiser {
    const c: Config
    var burstCount: nat
    var shiftAmount: nat
    var writeReq: Option<nat>
    var readLineReq: Option<nat>
    var pending: seq<WriteReq>
    var done: seq<WriteReq>
    var log: seq<Event>

    function Abs(): Port
      reads this
    {
      Port(burstCount, shiftAmount, writeReq, readLineReq, pending, done, log)
    }

    constructor (c: Config)
      ensures this.c == c && Abs() == Reset(c)
    {
      this.c := c;
      burstCount, shiftAmount, writeReq, readLineReq := 0, c.Bits() % c.ShiftRange(), None, None;
      pending, done, log := [], [], [];
    }

    method HandleDmemLineReadRequest(addr: nat)
      modifies this`readLineReq, this`log
      ensures Abs() == ReadRequest(c, old(Abs()), addr)
    {
      if readLineReq.Some? { return; }
      var performReq := true;
      if writeReq.Some? && Coarse(c, writeReq.value, addr) {
        performReq := false;
        readLineReq := Some(addr);
      }
      if performReq {
        log := log + [Read(addr)];
      }
    }

    method HandleDelayedRead()
      modifies this`readLineReq, this`log
      ensures Abs() == DelayedRead(old(Abs()))
    {
      if readLineReq.Some? && writeReq.None? {
        log := log + [Read(readLineReq.value)];
        readLineReq := None;
      }
    }

    method HandleDmemWriteRequest()
      modifies this`burstCount, this`writeReq, this`pending, this`done, this`log
      ensures Abs() == WriteRequest(c, old(Abs()))
    {
      if burstCount != 0 || pending == [] { return; }
      var req := pending[0];
      var len := BurstLen(c, req);
      if len > 0 {
        burstCount := (burstCount + 1) % 256;
      } else {
        pending := pending[1..];
        done := done + [req];
      }
      log := log + [Addr(req.addr, len), Beat(req.data % Pow2(c.Bits()), len == 0)];
      if len != 0 {
        writeReq := Some(req.addr);
      }
    }

    method DmemBurstWriteData()
      modifies this`burstCount, this`shiftAmount, this`writeReq, this`pending, this`done, this`log
      ensures Abs() == BurstWrite(c, old(Abs()))
    {
      if burstCount == 0 || pending == [] { return; }
      var last := burstCount == c.Dblocks() - 1;
      var req := pending[0];
      log := log + [Beat(req.data / Pow2(shiftAmount) % Pow2(c.Bits()), last)];
      if last {
        burstCount := 0;
        shiftAmount := c.Bits() % c.ShiftRange();
        writeReq := None;
        pending := pending[1..];
        done := done + [req];
      } else {
        shiftAmount := (shiftAmount + c.Bits()) % c.ShiftRange();
        burstCount := (burstCount + 1) % 256;
      }
    }

    method FireRule(r: Rule)
      modifies this
      ensures Abs() == Fire(c, old(Abs()), r)
    {
      hide ReadRequest, DelayedRead, WriteRequest, BurstWrite;
      match r {
        case Offer(req) => pending := pending + [req];
        case AskRead(addr) => HandleDmemLineReadRequest(addr);
        case RetryRead => HandleDelayedRead();
        case StartWrite => HandleDmemWriteRequest();
        case ContinueWrite => DmemBurstWriteData();
        case Response => log := log + [Answered];
      }
    }
  }

  /** Any run of the registers sends whole bursts in order, and reads no line in the middle of its burst. */
  method Simulate(c: Config, rules: seq<Rule>) returns (log: seq<Event>, done: seq<WriteReq>, busy: bool)
    requires c.Fits()
    ensures var p := Run(c, rules); log == p.log && done == p.done && busy == (p.count > 0)
    ensures ReadsClear(c, log) && done <= Offered(rules)
    ensures !busy ==> Writes(log) == Bursts(c, done)
  {
    hide Fire, ReadsClear, Writes, Bursts;
    var port := new Serialiser(c);
    var n := 0;
    while n < |rules|
      invariant 0 <= n <= |rules| && fresh(port) && port.c == c
      invariant port.Abs() == Run(c, rules[..n])
    {
      assert rules[..n + 1][..n] == rules[..n];
      port.FireRule(rules[n]);
      n := n + 1;
    }
    assert rules[..n] == rules;
    BurstsAreWhole(c, rules);
    NoReadInsideBurst(c, rules);
    log, done, busy := port.log, port.done, port.burstCount > 0;
  }
}
