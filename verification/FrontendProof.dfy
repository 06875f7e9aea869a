/** The realigner emits exactly the instructions of the fetched path. */
module FrontendProof {
  import opened Options
  import opened EpochTags
  import opened Frontend

  /** How a word's last halfword leaves off: at an instruction boundary, or inside a 32-bit
      instruction, which may be predicted taken. */
  datatype Carry = Clean | Straddle(target: Option<int>)

  function TargetOf(c: Carry): Option<int> { if c.Clean? then None else c.target }

  // -------- the path through a word, told from the code alone --------

  /** After the instruction that starts in the upper half of the word at `base`. */
  function AfterUpper(code: Code, base: int, b: Btb): (int, Carry) {
    var taken := b.hit && Taken(b, true);
    if Is32(code.half(base + 1)) then (base + 2, Straddle(if taken then Some(b.npc) else None))
    else (if taken then b.npc else base + 2, Clean)
  }

  function AfterWord(code: Code, r: Request, c: Carry): (int, Carry) {
    match c
    case Straddle(Some(target)) => (target, Clean)
    case Straddle(None) => AfterUpper(code, r.base, r.btb)
    case Clean =>
      if r.discard then AfterUpper(code, r.base, r.btb)
      else if r.btb.hit && Taken(r.btb, false) then (r.btb.npc, Clean)
      else if Is32(code.half(r.base)) then (r.base + 2, Clean)
      else AfterUpper(code, r.base, r.btb)
  }

  /** The predictor's promise: a miss predicts nothing, and a hit is about a control instruction that
      the path really meets at that halfword. */
  predicate HitOk(code: Code, base: int, discard: bool, c: Carry, b: Btb) {
    && (!b.hit ==> b.prediction <= 1)
    && (b.hit ==> code.control(base + (if b.hi then 1 else 0), b.npc))
    && (b.hit && TargetOf(c).None? ==>
          if b.hi then c.Straddle? || discard || !Is32(code.half(base)) else c.Clean? && !discard)
  }

  /** ... and names its true size. */
  predicate PredictorOk(code: Code, pc: int, c: Carry, p: Prediction) {
    && HitOk(code, Base(pc), pc % 2 == 1, c, p.btb)
    && (p.btb.hit && TargetOf(c).None? ==>
          p.instr16 == !Is32(code.half(Base(pc) + (if p.btb.hi then 1 else 0))))
  }

  predicate Matches(code: Code, r: Request, pc: int, c: Carry) {
    && r.base == Base(pc) && r.discard == (pc % 2 == 1)
    && (c.Straddle? ==> pc % 2 == 0)
    && HitOk(code, r.base, r.discard, c, r.btb)
  }

  predicate Chain(code: Code, rs: seq<Request>, pc: int, c: Carry)
    decreases rs
  {
    rs == [] ||
    (Matches(code, rs[0], pc, c) &&
     var (pc', c') := AfterWord(code, rs[0], c);
     Chain(code, rs[1..], pc', c'))
  }

  function ChainEnd(code: Code, rs: seq<Request>, pc: int, c: Carry): (int, Carry)
    decreases rs
  {
    if rs == [] then (pc, c)
    else
      var (pc', c') := AfterWord(code, rs[0], c);
      ChainEnd(code, rs[1..], pc', c')
  }

  lemma {:induction false} ChainSnoc(code: Code, rs: seq<Request>, r: Request, pc: int, c: Carry)
    requires Chain(code, rs, pc, c)
    requires var (pc', c') := ChainEnd(code, rs, pc, c); Matches(code, r, pc', c')
    ensures Chain(code, rs + [r], pc, c)
    ensures ChainEnd(code, rs + [r], pc, c) == AfterWord(code, r, ChainEnd(code, rs, pc, c).1)
    decreases rs
  {
    if rs == [] {
      assert [r][1..] == [];
    } else {
      assert (rs + [r])[1..] == rs[1..] + [r];
      var (pc', c') := AfterWord(code, rs[0], c);
      ChainSnoc(code, rs[1..], r, pc', c');
    }
  }

  // -------- the invariant --------

  /** The upper half saved from the previous word still awaits its turn. */
  predicate Pending(f: Fe) { f.checkPrev && f.prev.gen == f.gen }

  /** Where the first word not yet looked at has to be, and what it has to finish. */
  function Boundary(code: Code, f: Fe): (int, Carry) {
    if Pending(f) then AfterUpper(code, f.prev.base, f.prev.btb) else (f.next, Clean)
  }

  predicate PendingOk(code: Code, f: Fe) {
    Pending(f) ==>
      && f.next == f.prev.base + 1 && f.prev.base % 2 == 0
      && f.prev.half == code.half(f.next)
      && (!f.prev.btb.hit ==> f.prev.btb.prediction <= 1)
      && (f.prev.btb.hit && f.prev.btb.hi ==> code.control(f.next, f.prev.btb.npc))
  }

  predicate NearGen(g: Gen, current: Gen) { Near(g.e, current.e) && Near(g.w, current.w) }

  /** A generation no newer than the current one, and no older than the last emission allows. */
  predicate GenOk(g: Gen, f: Fe) {
    && NearGen(g, f.gen)
    && (f.emitted.e == f.gen.e ==> g.e == f.gen.e)
    && (f.emitted.w == f.gen.w ==> g.w == f.gen.w)
  }

  /** Every tag is at most one redirect old, and behind a current word everything is current. */
  ghost predicate QueueOk(rs: seq<Request>, f: Fe) {
    && (forall r <- rs :: r.tag == TagOf(r.gen) && GenOk(r.gen, f))
    && (forall i, j | 0 <= i < j < |rs| ::
          && (rs[i].gen.e == f.gen.e ==> rs[j].gen.e == f.gen.e)
          && (rs[i].gen.w == f.gen.w ==> rs[j].gen.w == f.gen.w))
  }

  ghost predicate EpochsOk(f: Fe) {
    && f.tag == TagOf(f.gen)
    && f.prev.tag == TagOf(f.prev.gen) && GenOk(f.prev.gen, f)
    && QueueOk(f.queue, f)
    && (Pending(f) ==> forall r <- f.queue :: r.gen == f.gen)
  }

  function Live(rs: seq<Request>, g: Gen): seq<Request> {
    if rs == [] then [] else (if rs[0].gen == g then [rs[0]] else []) + Live(rs[1..], g)
  }

  function LiveEnd(code: Code, f: Fe): (int, Carry) {
    var (pc, c) := Boundary(code, f);
    ChainEnd(code, Live(f.queue, f.gen), pc, c)
  }

  predicate PathOk(code: Code, f: Fe) {
    && PendingOk(code, f)
    && (var (pc, c) := Boundary(code, f); Chain(code, Live(f.queue, f.gen), pc, c))
    && (var (pc, c) := LiveEnd(code, f);
        pc == f.pc && TargetOf(c) == f.delayed && (c.Straddle? ==> pc % 2 == 0))
  }

  ghost predicate FeInv(code: Code, f: Fe) { EpochsOk(f) && PathOk(code, f) }

  lemma {:induction false} LiveConcat(rs: seq<Request>, qs: seq<Request>, g: Gen)
    ensures Live(rs + qs, g) == Live(rs, g) + Live(qs, g)
  {
    if rs == [] {
      assert rs + qs == qs;
    } else {
      assert (rs + qs)[1..] == rs[1..] + qs;
      LiveConcat(rs[1..], qs, g);
    }
  }

  lemma {:induction false} NoneLive(rs: seq<Request>, g: Gen)
    requires forall r <- rs :: r.gen != g
    ensures Live(rs, g) == []
  {
    if rs != [] {
      NoneLive(rs[1..], g);
    }
  }

  // -------- stage 0 --------

  /** Stage 0 asks for the word the path continues in, also across a straddling taken branch. */
  lemma NextPcFollowsPath(code: Code, f: Fe, c: Carry, p: Prediction)
    requires TargetOf(c) == f.delayed && (c.Straddle? ==> f.pc % 2 == 0)
    requires PredictorOk(code, f.pc, c, p)
    ensures var g := GenNextPc(f, p);
            var r := g.queue[|f.queue|];
            var (pc', c') := AfterWord(code, r, c);
            && Matches(code, r, f.pc, c)
            && g.pc == pc' && g.delayed == TargetOf(c') && (c'.Straddle? ==> pc' % 2 == 0)
  {
  }

  lemma RequestEpochs(f: Fe, r: Request, g: Fe)
    requires EpochsOk(f) && r.gen == f.gen && r.tag == f.tag
    requires g == f.(pc := g.pc, delayed := g.delayed, queue := f.queue + [r])
    ensures EpochsOk(g)
  {
    assert GenOk(r.gen, g);
    assert forall q | q in f.queue :: GenOk(q.gen, f);
  }

  lemma Stage0Keeps(code: Code, f: Fe, p: Prediction)
    requires FeInv(code, f) && PredictorOk(code, f.pc, LiveEnd(code, f).1, p)
    ensures FeInv(code, GenNextPc(f, p))
  {
    hide EpochsOk;
    var g := GenNextPc(f, p);
    var r := g.queue[|f.queue|];
    var (pc, c) := Boundary(code, f);
    NextPcFollowsPath(code, f, LiveEnd(code, f).1, p);
    hide PredictorOk, AfterWord, AfterUpper, Matches;
    assert g.queue == f.queue + [r];
    LiveConcat(f.queue, [r], f.gen);
    assert [r][1..] == [];
    ChainSnoc(code, Live(f.queue, f.gen), r, pc, c);
    assert Live(g.queue, g.gen) == Live(f.queue, f.gen) + [r];
    hide Live, Chain, ChainEnd;
    assert Boundary(code, g) == (pc, c);
    assert LiveEnd(code, g) == AfterWord(code, r, LiveEnd(code, f).1);
    assert PendingOk(code, g);
    RequestEpochs(f, r, g);
  }

  // -------- stage 1 --------

  /** A tag tells the current words from all others. */
  lemma TagsTell(f: Fe)
    requires EpochsOk(f)
    ensures f.prev.tag == f.tag <==> f.prev.gen == f.gen
    ensures f.queue != [] ==> (f.queue[0].tag == f.tag <==> f.queue[0].gen == f.gen)
    ensures f.queue != [] && f.queue[0].gen == f.gen ==> forall r <- f.queue :: r.gen == f.gen
    ensures Pending(f) && f.queue != [] ==> f.queue[0].gen == f.gen
  {
    assert f.queue != [] ==> f.queue[0] in f.queue;
    if f.queue != [] && f.queue[0].gen == f.gen {
      forall r | r in f.queue ensures r.gen == f.gen {
        var i :| 0 <= i < |f.queue| && f.queue[i] == r;
      }
    }
  }

  const FIRE := Input(true, None, false, false, 0)

  lemma ProcessEpochs(code: Code, f: Fe)
    requires EpochsOk(f) && f.queue != []
    ensures EpochsOk(Stage1(code, f, FIRE).0)
  {
    TagsTell(f);
    var (g, out) := Stage1(code, f, FIRE);
    assert GenOk(g.prev.gen, g);
    assert QueueOk(g.queue, g) by {
      assert forall r | r in f.queue :: GenOk(r.gen, f);
      assert forall i | 0 <= i < |f.queue| - 1 :: f.queue[1..][i] == f.queue[i + 1];
    }
  }

  /** The head word is current: the realigner hands on the instruction at `next` or waits for the word
      that completes it, and moves to where the code and the predictions say. */
  lemma HeadWord(code: Code, f: Fe)
    requires EpochsOk(f) && f.queue != [] && f.queue[0].gen == f.gen && PendingOk(code, f)
    requires var (pc, c) := Boundary(code, f); Matches(code, f.queue[0], pc, c)
    ensures var (g, out) := Stage1(code, f, FIRE);
            && PendingOk(code, g)
            && (out.Some? ==> InstrAt(code, f.next, out.value) && g.next == out.value.npc)
            && (out.None? ==> g.next == f.next)
            && ((g.queue == f.queue && Boundary(code, g) == Boundary(code, f)) ||
                (g.queue == f.queue[1..] && Boundary(code, g) == AfterWord(code, f.queue[0], Boundary(code, f).1)))
  {
    TagsTell(f);
    hide EpochsOk;
  }

  lemma StaleWord(code: Code, f: Fe)
    requires EpochsOk(f) && f.queue != [] && f.queue[0].gen != f.gen && PendingOk(code, f)
    ensures var (g, out) := Stage1(code, f, FIRE);
            && out.None? && !Pending(g) && g.queue == f.queue[1..] && Boundary(code, g) == Boundary(code, f)
  {
    TagsTell(f);
  }

  /** One firing: at most one instruction, and it is the one at `next`. */
  lemma ProcessKeeps(code: Code, f: Fe)
    requires FeInv(code, f) && f.queue != []
    ensures var (g, out) := Stage1(code, f, FIRE);
            && FeInv(code, g) && g.pc == f.pc && LiveEnd(code, g) == LiveEnd(code, f)
            && match out
               case Some(x) => InstrAt(code, f.next, x) && g.next == x.npc
               case None => g.next == f.next
  {
    var r := f.queue[0];
    var (g, out) := Stage1(code, f, FIRE);
    assert g.pc == f.pc && g.delayed == f.delayed && g.gen == f.gen && (out.None? ==> g.next == f.next);
    ProcessEpochs(code, f);
    var (pc, c) := Boundary(code, f);
    var live := Live(f.queue[1..], f.gen);
    hide EpochsOk, PendingOk, AfterWord, AfterUpper;
    if r.gen == f.gen {
      assert Live(f.queue, f.gen) == [r] + live && ([r] + live)[1..] == live;
      HeadWord(code, f);
      hide Stage1, Boundary, Live, Matches;
      if g.queue == f.queue[1..] {
        assert Live(g.queue, g.gen) == live;
      }
    } else {
      StaleWord(code, f);
      hide Stage1, Boundary;
      assert Live(f.queue, f.gen) == live == Live(g.queue, g.gen);
    }
  }

  // -------- redirects --------

  /** A stage redirects on account of an instruction it was handed under its own current epoch. */
  predicate RedirectOk(f: Fe, i: Input) {
    && (i.e ==> f.emitted.e == f.gen.e)
    && (i.w ==> f.emitted.w == f.gen.w)
  }

  /** After a redirect no word fetched before it is current, nor is a half saved before it. */
  lemma RedirectDropsAll(code: Code, f: Fe, i: Input)
    requires EpochsOk(f) && RedirectOk(f, i) && (i.e || i.w)
    ensures var g := EndCycle(f, i);
            EpochsOk(g) && !Pending(g) && Live(g.queue, g.gen) == [] && g.next == g.pc == i.target
  {
    var g := EndCycle(f, i);
    assert NearGen(f.prev.gen, g.gen) && f.prev.gen != g.gen;
    forall r | r in f.queue ensures r.gen != g.gen && GenOk(r.gen, g) {
      assert GenOk(r.gen, f);
    }
    NoneLive(g.queue, g.gen);
  }

  lemma RedirectKeeps(code: Code, f: Fe, i: Input)
    requires FeInv(code, f) && RedirectOk(f, i)
    ensures FeInv(code, EndCycle(f, i))
  {
    if i.e || i.w {
      RedirectDropsAll(code, f, i);
    }
    hide EpochsOk, Chain, ChainEnd;
  }

  // -------- whole cycles and whole runs --------

  /** The surroundings keep their contracts in this cycle. */
  predicate InputOk(code: Code, f: Fe, i: Input) {
    && (i.request.Some? ==> PredictorOk(code, f.pc, LiveEnd(code, f).1, i.request.value))
    && RedirectOk(Stage1(code, f, i).0, i)
  }

  lemma CycleKeeps(code: Code, f: Fe, i: Input)
    requires FeInv(code, f) && InputOk(code, f, i)
    ensures var (g, out) := Cycle(code, f, i);
            && FeInv(code, g)
            && (out.Some? ==> InstrAt(code, f.next, out.value))
            && g.next == if i.e || i.w then i.target else if out.Some? then out.value.npc else f.next
  {
    hide FeInv, PredictorOk, GenNextPc, LiveEnd;
    var (f1, out) := Stage1(code, f, i);
    if i.process && f.queue != [] {
      assert Stage1(code, f, FIRE) == (f1, out);
      ProcessKeeps(code, f);
    }
    hide Stage1;
    var f2 := Stage0(f1, |f.queue| < 3, i);
    if i.request.Some? && |f.queue| < 3 {
      Stage0Keeps(code, f1, i.request.value);
      RequestFrame(f1, i.request.value);
    }
    hide Stage0;
    RedirectKeeps(code, f2, i);
  }

  lemma RequestFrame(f: Fe, p: Prediction)
    ensures var g := GenNextPc(f, p); g.next == f.next && g.emitted == f.emitted && g.gen == f.gen
  {
  }

  predicate RunOk(code: Code, f: Fe, ins: seq<Input>) {
    forall n | 0 <= n < |ins| :: InputOk(code, Run(code, f, ins[..n]).0, ins[n])
  }

  lemma OutsFollow(code: Code, p: int, outs: seq<Out>, out: Option<Emit>, i: Input)
    requires OnPath(code, p, outs) && (out.Some? ==> InstrAt(code, End(p, outs), out.value))
    ensures var all := outs + Outs(i, out);
            && OnPath(code, p, all)
            && End(p, all) == if i.e || i.w then i.target else if out.Some? then out.value.npc else End(p, outs)
  {
    hide InstrAt;
    var jump := if i.e || i.w then [Jump(i.target)] else [];
    if out.Some? {
      var next := outs + [Instr(out.value)];
      assert next[..|next| - 1] == outs;
      assert (next + jump)[..|next|] == next;
      assert outs + Outs(i, out) == next + jump;
    } else {
      assert jump == [] ==> outs + jump == outs;
      assert (outs + jump)[..|outs|] == outs;
      assert outs + Outs(i, out) == outs + jump;
    }
  }

  lemma ResetInv(code: Code, pc: int)
    ensures FeInv(code, Reset(pc))
  {
  }

  lemma {:induction false} RunKeeps(code: Code, pc: int, ins: seq<Input>)
    requires RunOk(code, Reset(pc), ins)
    ensures var (f, outs) := Run(code, Reset(pc), ins);
            FeInv(code, f) && OnPath(code, pc, outs) && f.next == End(pc, outs)
    decreases |ins|
  {
    if ins == [] {
      ResetInv(code, pc);
    } else {
      hide FeInv, Cycle, InputOk, OnPath, InstrAt;
      var n := |ins| - 1;
      assert forall m | 0 <= m < n :: ins[..n][..m] == ins[..m];
      RunKeeps(code, pc, ins[..n]);
      var (f, outs) := Run(code, Reset(pc), ins[..n]);
      CycleKeeps(code, f, ins[n]);
      OutsFollow(code, pc, outs, Cycle(code, f, ins[n]).1, ins[n]);
    }
  }

  /** Whatever the predictor and the redirects do within their contracts, the instructions handed to
      stage 2 are those of the path: behind an instruction predicted taken comes its predicted target,
      behind any other its neighbour in memory, and behind a redirect its target. */
  lemma RealignerFollowsPath(code: Code, pc: int, ins: seq<Input>)
    requires RunOk(code, Reset(pc), ins)
    ensures OnPath(code, pc, Run(code, Reset(pc), ins).1)
  {
    RunKeeps(code, pc, ins);
  }

  predicate Straight(outs: seq<Out>) { forall o <- outs :: o.Instr? && !o.emit.taken }

  lemma {:induction false} ParseSnoc(code: Code, p: int, n: nat)
    ensures var q := End(p, Parse(code, p, n));
            Parse(code, p, n + 1) == Parse(code, p, n) + Parse(code, q, 1)
    decreases n
  {
    if n != 0 {
      var q := p + LenAt(code, p);
      ParseSnoc(code, q, n - 1);
      assert Parse(code, p, n)[1..] == Parse(code, q, n - 1);
      assert n > 1 ==> Parse(code, q, n - 1) != [];
    }
  }

  /** The instruction at the end of a straight path is the next of the parse. */
  lemma NextOfParse(code: Code, p: int, x: Emit)
    requires InstrAt(code, p, x) && !x.taken
    ensures Parse(code, p, 1) == [Instr(x)]
  {
    assert Parse(code, p + LenAt(code, p), 0) == [];
    hide BitsAt, LenAt;
  }

  lemma {:induction false} StraightPathIsParse(code: Code, p: int, outs: seq<Out>)
    requires OnPath(code, p, outs) && Straight(outs)
    ensures outs == Parse(code, p, |outs|)
    decreases |outs|
  {
    hide Parse, InstrAt, BitsAt, LenAt;
    if outs == [] {
      EmptyParse(code, p);
    } else {
      var n := |outs| - 1;
      var init, last := outs[..n], outs[n];
      assert outs == init + [last];
      assert OnPath(code, p, init) && Straight(init) && last in outs;
      assert InstrAt(code, End(p, init), last.emit);
      hide OnPath, Straight;
      StraightPathIsParse(code, p, init);
      ParseSnoc(code, p, n);
      NextOfParse(code, End(p, init), last.emit);
    }
  }

  lemma EmptyParse(code: Code, p: int)
    ensures Parse(code, p, 0) == []
  {
  }

  /** Without a taken prediction or a redirect the emitted stream is the recursive parse, whichever half
      it starts at and however the words arrive. */
  lemma RealignerRefinesParser(code: Code, pc: int, ins: seq<Input>)
    requires RunOk(code, Reset(pc), ins) && Straight(Run(code, Reset(pc), ins).1)
    ensures var outs := Run(code, Reset(pc), ins).1; outs == Parse(code, pc, |outs|)
  {
    RunKeeps(code, pc, ins);
    StraightPathIsParse(code, pc, Run(code, Reset(pc), ins).1);
  }
}
