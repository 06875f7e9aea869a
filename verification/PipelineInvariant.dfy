/** What every rule of the pipeline keeps. */
module PipelineInvariant {
  import opened Options
  import opened Isa
  import opened EpochTags
  import opened Pipeline

  /** Executed but not retired, oldest first. */
  function InFlight(s: State): seq<Exe> {
    s.back.pipe4 + s.back.pipe3 + (if s.back.busy.Some? then [s.back.busy.value] else [])
  }

  /** Fetched but not executed, oldest first. */
  function Upstream(s: State): seq<Packet> {
    (if s.dec.pipe2 == [] then [] else [s.dec.pipe2[0].pkt]) + s.pipe1
  }

  predicate Shape(s: State) {
    && |s.pipe1| <= 2 && |s.dec.pipe2| <= 1 && |s.back.pipe4| <= 1
    && |s.back.pipe3| + (if s.back.busy.Some? then 1 else 0) <= 2
    && (forall x <- s.back.pipe3 :: !x.body.Stored?)
    && (forall x <- s.back.pipe4 :: !x.body.Access?)
    && (s.back.busy.Some? ==> s.back.busy.value.body.Regular?)
  }

  // -------- epochs --------

  predicate ExeNear(x: Exe, w: nat) { x.tag == (x.gen % 2 == 1) && Near(x.gen, w) }

  predicate PacketNear(k: Packet, g: Gen) {
    k.tag == TagOf(k.gen) && Near(k.gen.e, g.e) && Near(k.gen.w, g.w)
  }

  predicate CopiesAgree(s: State) {
    && s.ep.ep1 == s.ep.ep2 == s.ep.ep3 == TagOf(s.hist.gen)
    && s.ep.w5 == s.ep.wTop == TagOf(s.hist.gen).w
  }

  /** Every tag is at most one redirect old, and behind a current instruction everything is current. */
  ghost predicate ExesOk(xs: seq<Exe>, w: nat) {
    && (forall x <- xs :: ExeNear(x, w))
    && (forall i, j | 0 <= i < j < |xs| && xs[i].gen == w :: xs[j].gen == w)
  }

  ghost predicate PacketsOk(ks: seq<Packet>, g: Gen) {
    && (forall k <- ks :: PacketNear(k, g))
    && (forall i, j | 0 <= i < j < |ks| ::
          && (ks[i].gen.e == g.e ==> ks[j].gen.e == g.e)
          && (ks[i].gen.w == g.w ==> ks[j].gen.w == g.w))
  }

  /** `redirectE` and `redirectW`: a stage has redirected in this cycle, and the counters will follow. */
  ghost predicate Epochs(xs: seq<Exe>, ks: seq<Packet>, g: Gen, redirectE: bool, redirectW: bool) {
    && ExesOk(xs, g.w) && PacketsOk(ks, g)
    && (forall x <- xs, k <- ks :: x.gen == g.w ==> k.gen.w == g.w)
    && (redirectE ==> forall k <- ks :: k.gen == g)
    && (redirectW ==> (forall x <- xs :: x.gen == g.w) && (forall k <- ks :: k.gen.w == g.w))
  }

  // -------- agreement with the sequential machine --------

  function Live(xs: seq<Exe>, w: nat): seq<Exe> {
    if xs == [] then [] else (if xs[0].gen == w then [xs[0]] else []) + Live(xs[1..], w)
  }

  function LivePackets(ks: seq<Packet>, g: Gen): seq<Packet> {
    if ks == [] then [] else (if ks[0].gen == g then [ks[0]] else []) + LivePackets(ks[1..], g)
  }

  predicate FailOk(isa: Isa, a: Arch, cause: Cause, tval: Word) {
    match cause
    case Rerun => true
    case Interrupt(code) => tval == 0 && isa.interrupt(a.csrs, code)
    case Exception(_) => Step(isa, a).event == Event.Trapped(a.pc, cause, tval)
  }

  predicate OpAt(isa: Isa, a: Arch, op: Op, rd: Reg) {
    isa.decode(isa.fetch(a.pc), a.csrs) == Valid(op) && rd == op.rd
  }

  predicate AccessOk(isa: Isa, a: Arch, op: Op, addr: Word, data: Word) {
    && op.kind.Memory?
    && addr == isa.address(op, a.rf[op.rs1])
    && !isa.misaligned(op, addr)
    && data == a.rf[op.rs2]
  }

  /** The executed instruction is the one the sequential machine reaches in `a`, with its result. */
  predicate Agrees(isa: Isa, a: Arch, x: Exe) {
    && x.pc == a.pc
    && match x.body
       case Fail(cause, tval) => FailOk(isa, a, cause, tval)
       case Access(op, addr, data) => OpAt(isa, a, op, x.rd) && AccessOk(isa, a, op, addr, data)
       case Stored(op, addr, data, v) =>
         && OpAt(isa, a, op, x.rd) && AccessOk(isa, a, op, addr, data) && op.kind.mem != Load
         && var r := isa.access(op, a.csrs, a.mem, addr, data);
            r.Done? && v == (if op.kind.mem == Store then 0 else r.value)
       case Csr(op, rs1) => OpAt(isa, a, op, x.rd) && op.kind.System? && rs1 == a.rf[op.rs1]
       case Regular(v) => Step(isa, a) == Retire(a, x.rd, v, Step(isa, a).arch.pc, a.mem)
  }

  predicate Diverts(isa: Isa, a: Arch, x: Exe) { x.body.Fail? || Step(isa, a).flush }

  /** Where the sequential machine stands after `xs`, unless one of them diverts it. */
  function After(isa: Isa, a: Arch, xs: seq<Exe>): Option<Arch>
    decreases xs
  {
    if xs == [] then Some(a)
    else if Diverts(isa, a, xs[0]) then None
    else After(isa, Step(isa, a).arch, xs[1..])
  }

  /** `xs` agree with the sequential machine up to the first that diverts it. */
  predicate Good(isa: Isa, a: Arch, xs: seq<Exe>)
    decreases xs
  {
    xs == [] ||
    (Agrees(isa, a, xs[0]) && (Diverts(isa, a, xs[0]) || Good(isa, Step(isa, a).arch, xs[1..])))
  }

  predicate InstOk(isa: Isa, a: Arch, inst: Inst) {
    match inst
    case Oper(op) => isa.decode(isa.fetch(a.pc), a.csrs) == Valid(op)
    case Except(cause, tval) => FailOk(isa, a, cause, tval)
  }

  /** Stage 1's promise about one instruction: these are its bits, and fetch goes on behind it, except
      that a branch predicted taken is followed by its target and a jump by anything. */
  ghost predicate DeliveryOk(isa: Isa, pc: Word, x: Delivery) {
    && x.bits == isa.fetch(pc)
    && forall csrs ::
      match isa.decode(x.bits, csrs)
      case Illegal(_, _) => x.npc == pc + isa.size(x.bits)
      case Valid(op) =>
        match op.kind
        case Branch => x.npc == if x.taken then isa.target(op, pc) else pc + isa.size(x.bits)
        case Jal => true
        case Jalr => true
        case _ => x.npc == pc + isa.size(x.bits)
  }

  predicate Path(pc: Word, ks: seq<Packet>, last: Word)
    decreases ks
  {
    if ks == [] then pc == last else ks[0].pc == pc && Path(ks[0].npc, ks[1..], last)
  }

  ghost predicate HasCsr(xs: seq<Exe>) { exists x <- xs :: x.body.Csr? }

  ghost predicate Predicted(isa: Isa, ks: seq<Packet>) {
    forall k <- ks :: DeliveryOk(isa, k.pc, Delivery(k.bits, k.taken, k.npc))
  }

  /** What stands before execute: a redirect just announced, or the current path, with the decoded
      instruction at its head if that one is already in pipe2. */
  datatype Front = Front(redirect: Option<Word>, path: seq<Packet>, head: Option<Inst>,
                         stall: bool, rerun: bool, last: Word)

  predicate LivePipe2(s: State) { s.dec.pipe2 != [] && s.dec.pipe2[0].pkt.gen == s.hist.gen }

  function FrontOf(s: State): Front {
    Front(s.wire.flushE, LivePackets(Upstream(s), s.hist.gen), if LivePipe2(s) then Some(s.dec.pipe2[0].inst) else None,
          s.dec.stall, s.dec.rerun, s.hist.fpc)
  }

  /** Nothing but a rerun or another trap follows a CSR operation into execute. */
  ghost predicate CsrInv(xs: seq<Exe>, f: Front) {
    if f.redirect.Some? then !HasCsr(xs)
    else match f.head
      case None => HasCsr(xs) ==> f.rerun || f.stall
      case Some(Except(_, _)) => f.stall
      case Some(Oper(op)) => !HasCsr(xs) && (op.kind.System? ==> f.rerun)
  }

  predicate Continues(isa: Isa, b: Arch, f: Front) {
    if f.redirect.Some? then b.pc == f.redirect.value
    else Path(b.pc, f.path, f.last) && (f.head.Some? ==> InstOk(isa, b, f.head.value))
  }

  ghost predicate Ahead(isa: Isa, a: Arch, xs: seq<Exe>, f: Front) {
    && Good(isa, a, xs)
    && CsrInv(xs, f)
    && (After(isa, a, xs).Some? ==> Continues(isa, After(isa, a, xs).value, f))
  }

  function LiveExe(s: State): seq<Exe> { Live(InFlight(s), s.hist.gen.w) }

  predicate OperandsOk(s: State) {
    s.dec.pipe2 != [] && s.dec.pipe2[0].inst.Oper? ==>
      && s.dec.op1 == Fetched(s.arch.rf, s.dec.pipe2[0].inst.op.rs1)
      && s.dec.op2 == Fetched(s.arch.rf, s.dec.pipe2[0].inst.op.rs2)
  }

  /** The register file once the wire to it has been served. */
  function Settled(s: State): RegFile {
    match s.wire.commit
    case None => s.arch.rf
    case Some((rd, v)) => Write(s.arch.rf, rd, v)
  }

  ghost predicate EpochInv(s: State) {
    && CopiesAgree(s)
    && Epochs(InFlight(s), Upstream(s), s.hist.gen, s.wire.flushE.Some?, s.wire.flushW.Some?)
  }

  ghost predicate Flow(isa: Isa, s: State, a: Arch) {
    if s.wire.flushW.Some? then a.pc == s.wire.flushW.value else Ahead(isa, a, LiveExe(s), FrontOf(s))
  }

  predicate Synced(s: State, a: Arch) { a.rf == Settled(s) && a.csrs == s.arch.csrs && a.mem == s.arch.mem }

  ghost predicate Inv(isa: Isa, s: State, a: Arch) {
    && Shape(s)
    && EpochInv(s)
    && OperandsOk(s)
    && Predicted(isa, Upstream(s))
    && Synced(s, a)
    && Flow(isa, s, a)
  }

  predicate Quiet(s: State) { s.wire.flushE.None? && s.wire.flushW.None? && s.wire.commit.None? }

  // -------- epochs under the moves the rules make --------

  lemma EpochsDrop(xs: seq<Exe>, k: Packet, ks: seq<Packet>, g: Gen, e: bool, w: bool)
    requires Epochs(xs, [k] + ks, g, e, w)
    ensures Epochs(xs, ks, g, e, w)
  {
    forall l | l in ks ensures l in [k] + ks {}
    forall i | 0 <= i < |ks| ensures ([k] + ks)[i + 1] == ks[i] {}
  }

  lemma EpochsIssue(xs: seq<Exe>, k: Packet, ks: seq<Packet>, g: Gen, x: Exe, e: bool)
    requires Epochs(xs, [k] + ks, g, false, false) && k.gen == g && x.gen == g.w && ExeNear(x, g.w)
    ensures Epochs(xs + [x], ks, g, e, false)
    ensures forall l <- ks :: l.gen == g
  {
    forall l | l in ks ensures l.gen == g {
      var i :| 0 <= i < |ks| && ks[i] == l;
      assert ([k] + ks)[0] == k && ([k] + ks)[i + 1] == l;
    }
    EpochsDrop(xs, k, ks, g, false, false);
  }

  lemma EpochsRetire(x: Exe, xs: seq<Exe>, ks: seq<Packet>, g: Gen, e: bool, w: bool)
    requires Epochs([x] + xs, ks, g, e, false) && (w ==> x.gen == g.w)
    ensures Epochs(xs, ks, g, e, w)
  {
    assert x in [x] + xs;
    forall y | y in xs ensures y in [x] + xs && (x.gen == g.w ==> y.gen == g.w) {
      var i :| 0 <= i < |xs| && xs[i] == y;
      assert ([x] + xs)[0] == x && ([x] + xs)[i + 1] == y;
    }
    forall i | 0 <= i < |xs| ensures ([x] + xs)[i + 1] == xs[i] {}
  }

  lemma EpochsAnswer(x: Exe, y: Exe, xs: seq<Exe>, ks: seq<Packet>, g: Gen, e: bool, w: bool)
    requires Epochs([x] + xs, ks, g, e, w) && y.gen == x.gen && y.tag == x.tag
    ensures Epochs([y] + xs, ks, g, e, w)
  {
    assert x in [x] + xs;
    assert forall z | z in xs :: z in [x] + xs;
    forall i | 0 <= i < |[x] + xs| ensures ([y] + xs)[i].gen == ([x] + xs)[i].gen {}
  }

  lemma EpochsFetch(xs: seq<Exe>, ks: seq<Packet>, k: Packet, g: Gen, e: bool, w: bool)
    requires Epochs(xs, ks, g, e, w) && k.gen == g && k.tag == TagOf(g)
    ensures Epochs(xs, ks + [k], g, e, w)
  {
  }

  lemma EpochsFlush(xs: seq<Exe>, ks: seq<Packet>, g: Gen, e: bool, w: bool)
    requires Epochs(xs, ks, g, e, w)
    ensures Epochs(xs, ks, Advance(g, e, w), false, false)
  {
    var h := Advance(g, e, w);
    forall k | k in ks ensures PacketNear(k, h) {}
    forall x | x in xs ensures ExeNear(x, h.w) {}
  }

  // -------- list lemmas --------

  lemma {:induction false} LiveConcat(xs: seq<Exe>, ys: seq<Exe>, w: nat)
    ensures Live(xs + ys, w) == Live(xs, w) + Live(ys, w)
  {
    if xs == [] {
      assert xs + ys == ys;
    } else {
      assert (xs + ys)[1..] == xs[1..] + ys;
      LiveConcat(xs[1..], ys, w);
    }
  }

  lemma {:induction false} LiveMember(xs: seq<Exe>, w: nat, x: Exe)
    ensures x in Live(xs, w) <==> x in xs && x.gen == w
  {
    if xs != [] {
      LiveMember(xs[1..], w, x);
      assert xs == [xs[0]] + xs[1..];
    }
  }

  lemma {:induction false} PacketsConcat(ks: seq<Packet>, ls: seq<Packet>, g: Gen)
    ensures LivePackets(ks + ls, g) == LivePackets(ks, g) + LivePackets(ls, g)
  {
    if ks == [] {
      assert ks + ls == ls;
    } else {
      assert (ks + ls)[1..] == ks[1..] + ls;
      PacketsConcat(ks[1..], ls, g);
    }
  }

  lemma {:induction false} AllPacketsLive(ks: seq<Packet>, g: Gen)
    requires forall k <- ks :: k.gen == g
    ensures LivePackets(ks, g) == ks
  {
    if ks != [] {
      AllPacketsLive(ks[1..], g);
    }
  }

  lemma {:induction false} NoPacketsLive(ks: seq<Packet>, g: Gen)
    requires forall k <- ks :: k.gen != g
    ensures LivePackets(ks, g) == []
  {
    if ks != [] {
      NoPacketsLive(ks[1..], g);
    }
  }

  lemma {:induction false} NoneLive(xs: seq<Exe>, w: nat)
    requires forall x <- xs :: x.gen != w
    ensures Live(xs, w) == []
  {
    if xs != [] {
      NoneLive(xs[1..], w);
    }
  }

  lemma {:induction false} PathSnoc(pc: Word, ks: seq<Packet>, k: Packet)
    requires Path(pc, ks, k.pc)
    ensures Path(pc, ks + [k], k.npc)
    decreases ks
  {
    if ks != [] {
      assert (ks + [k])[1..] == ks[1..] + [k];
      PathSnoc(ks[0].npc, ks[1..], k);
    }
  }

  /** One more executed instruction at the young end. */
  lemma {:induction false} GoodSnoc(isa: Isa, a: Arch, xs: seq<Exe>, x: Exe)
    ensures Good(isa, a, xs + [x]) <==>
              Good(isa, a, xs) && (After(isa, a, xs).Some? ==> Agrees(isa, After(isa, a, xs).value, x))
    ensures After(isa, a, xs + [x]) ==
              match After(isa, a, xs)
              case None => None
              case Some(b) => if Diverts(isa, b, x) then None else Some(Step(isa, b).arch)
    decreases xs
  {
    if xs == [] {
      assert [x][1..] == [];
    } else {
      assert (xs + [x])[1..] == xs[1..] + [x];
      GoodSnoc(isa, Step(isa, a).arch, xs[1..], x);
    }
  }

  /** An exception is always the trap of the instruction itself. */
  lemma TrappedStep(isa: Isa, a: Arch, cause: Cause, tval: Word)
    requires Step(isa, a).event == Event.Trapped(a.pc, cause, tval)
    ensures Step(isa, a) == Trap(isa, a, cause, tval)
  {
  }

  /** What one agreeing instruction that diverts nothing does to the registers and the CSRs. */
  lemma StepEffect(isa: Isa, a: Arch, x: Exe)
    requires Agrees(isa, a, x) && !Diverts(isa, a, x)
    ensures x.body.Regular? || x.body.Stored? ==> Step(isa, a).arch.rf == Write(a.rf, x.rd, x.body.value)
    ensures x.body.Access? ==>
              exists v :: Step(isa, a).arch.rf == Write(a.rf, x.rd, v)
    ensures !x.body.Csr? ==> Step(isa, a).arch.csrs == a.csrs
  {
    match x.body {
      case Access(op, addr, data) =>
        match isa.access(op, a.csrs, a.mem, addr, data) {
          case Fault(_, _) =>
          case Done(v, _, _) =>
            assert Step(isa, a).arch.rf == Write(a.rf, x.rd, if op.kind.mem == Store then 0 else v);
        }
      case _ =>
    }
  }

  lemma {:induction false} CsrsKept(isa: Isa, a: Arch, xs: seq<Exe>)
    requires Good(isa, a, xs) && After(isa, a, xs).Some? && !HasCsr(xs)
    ensures After(isa, a, xs).value.csrs == a.csrs
    decreases xs
  {
    if xs != [] {
      StepEffect(isa, a, xs[0]);
      CsrsKept(isa, Step(isa, a).arch, xs[1..]);
    }
  }
}
