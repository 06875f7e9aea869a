/** Stages 2 to 5 and the buffers between them: the state, and one function for each rule.

    A clock cycle runs the rules in the order their reads and writes impose. The three wires
    (`flushE`, `flushW`, `commit`) carry a rule's news to the rules that read it later in the same
    cycle; `Flush` hands the redirects to every stage at the end of the cycle.

    `gen`, `npc` and `hist` are history: no rule decides anything by them. */
module Pipeline {
  import opened Options
  import opened Isa
  import opened EpochTags

  /** A fetched instruction. `taken` is the predicted direction, `npc` where fetch went next. */
  datatype Packet = Packet(pc: Word, bits: Word, tag: Tag, gen: Gen, taken: bool, npc: Word)

  datatype Inst = Oper(op: Op) | Except(cause: Cause, tval: Word)

  datatype Meta = Meta(pkt: Packet, inst: Inst)

  datatype Operand = Operand(addr: Reg, data: Word)

  /** The payload of an executed instruction. `Access` waits in pipe3 for the data memory; stage 4
      turns it into `Regular`, `Stored` or `Fail`. */
  datatype Body =
    | Regular(value: Word)
    | Access(op: Op, addr: Word, data: Word)
    | Stored(op: Op, addr: Word, data: Word, value: Word)
    | Csr(op: Op, rs1: Word)
    | Fail(cause: Cause, tval: Word)

  datatype Exe = Exe(pc: Word, rd: Reg, tag: bool, gen: nat, body: Body)

  /** The copies of the epochs in stages 1, 2 and 3, in stage 5 and at the top level. */
  datatype Copies = Copies(ep1: Tag, ep2: Tag, ep3: Tag, w5: bool, wTop: bool)

  datatype World = World(rf: RegFile, csrs: Csrs, mem: Mem)

  /** Stage 2's registers, and pipe2, whose entry the operand registers belong to. */
  datatype Decoding = Decoding(pipe2: seq<Meta>, op1: Operand, op2: Operand, stall: bool, rerun: bool)

  datatype Executed = Executed(pipe3: seq<Exe>, busy: Option<Exe>, pipe4: seq<Exe>)

  datatype Wires = Wires(flushE: Option<Word>, flushW: Option<Word>, commit: Option<(Reg, Word)>)

  datatype History = History(gen: Gen, fpc: Word, trace: seq<Event>)

  datatype State = State(
    ep: Copies, arch: World, pipe1: seq<Packet>, dec: Decoding, back: Executed, wire: Wires, hist: History)

  datatype Response = Data(value: Word) | Error(code: nat, tval: Word)

  /** An instruction from stage 1, with its predicted direction and where fetch goes on. */
  datatype Delivery = Delivery(bits: Word, taken: bool, npc: Word)

  /** What the surroundings decide in one cycle: which stages can make progress, the interrupt line,
      the data-memory response and the next instruction from stage 1. */
  datatype Input = Input(
    exec: bool, mulDone: bool, retire: bool, decode: bool, irq: Option<nat>,
    memory: bool, resp: Response, fetch: Option<Delivery>)

  // -------- operand bypass --------

  datatype Fwd = Fwd(valid: bool, available: bool, addr: Reg, data: Word)

  const NO_FWD := Fwd(false, false, 0, 0)

  function FromPipe3(s: State): Fwd {
    if s.back.pipe3 == [] then NO_FWD else
    var x := s.back.pipe3[0];
    Fwd(x.rd != 0 && x.tag == s.ep.wTop, x.body.Regular?, x.rd, if x.body.Regular? then x.body.value else 0)
  }

  function FromPipe4(s: State): Fwd {
    if s.back.pipe4 == [] then NO_FWD else
    var x := s.back.pipe4[0];
    if x.body.Regular? || x.body.Stored? then Fwd(x.rd != 0 && x.tag == s.ep.wTop, true, x.rd, x.body.value)
    else NO_FWD
  }

  function ForwardData(rfval: Word, addr: Reg, youngest: Fwd, next: Fwd): (bool, Word) {
    if youngest.valid && youngest.addr == addr then (youngest.available, youngest.data)
    else if next.valid && next.addr == addr then (next.available, next.data)
    else (true, rfval)
  }

  function Read(s: State, o: Operand): (bool, Word) {
    ForwardData(o.data, o.addr, FromPipe3(s), FromPipe4(s))
  }

  // -------- stage 3 --------

  function BodyOf(isa: Isa, op: Op, pc: Word, v1: Word, v2: Word): Body {
    match op.kind
    case Memory(_) =>
      var addr := isa.address(op, v1);
      if isa.misaligned(op, addr) then Fail(Exception(MisalignedCode(op)), addr) else Access(op, addr, v2)
    case System => Csr(op, v1)
    case _ => Regular(isa.alu(op, pc, v1, v2))
  }

  predicate IsControl(op: Op) { op.kind.Branch? || op.kind.Jal? || op.kind.Jalr? }

  /** A branch is checked against its predicted direction only, a jump against the program counter of
      the instruction behind it. */
  function Redirect(isa: Isa, op: Op, pkt: Packet, next: Word, v1: Word, v2: Word): Option<Word> {
    var npc := Successor(isa, op, pkt.pc, pkt.bits, v1, v2);
    match op.kind
    case Branch => if isa.taken(op, v1, v2) != pkt.taken then Some(npc) else None
    case Jal => if next != npc then Some(npc) else None
    case Jalr => if next != npc then Some(npc) else None
    case _ => None
  }

  function Execute(isa: Isa, s: State, i: Input): State {
    if s.back.busy.Some? then
      if i.mulDone && |s.back.pipe3| < 2 then
        s.(back := s.back.(pipe3 := s.back.pipe3 + [s.back.busy.value], busy := None))
      else s
    else if !i.exec || s.dec.pipe2 == [] || |s.back.pipe3| >= 2 then s
    else
      var m := s.dec.pipe2[0];
      if m.pkt.tag != s.ep.ep3 then s.(dec := s.dec.(pipe2 := []))
      else match m.inst
        case Except(cause, tval) =>
          var x := Exe(m.pkt.pc, 0, m.pkt.tag.w, m.pkt.gen.w, Fail(cause, tval));
          s.(dec := s.dec.(pipe2 := []), back := s.back.(pipe3 := s.back.pipe3 + [x]))
        case Oper(op) =>
          var (a1, v1) := Read(s, s.dec.op1);
          var (a2, v2) := Read(s, s.dec.op2);
          if !a1 || !a2 || (IsControl(op) && s.pipe1 == []) then s
          else
            var x := Exe(m.pkt.pc, op.rd, m.pkt.tag.w, m.pkt.gen.w, BodyOf(isa, op, m.pkt.pc, v1, v2));
            var redirect := Redirect(isa, op, m.pkt, if s.pipe1 == [] then 0 else s.pipe1[0].pc, v1, v2);
            s.(dec := s.dec.(pipe2 := []),
               back := if op.kind.MulDiv? then s.back.(busy := Some(x)) else s.back.(pipe3 := s.back.pipe3 + [x]),
               wire := s.wire.(flushE := redirect))
  }

  // -------- stage 5 --------

  function TakeTrap(isa: Isa, s: State, pc: Word, cause: Cause, tval: Word): State {
    var t := isa.enter(s.arch.csrs, cause, pc, tval);
    s.(arch := s.arch.(csrs := t.csrs), wire := s.wire.(flushW := Some(t.pc)),
       hist := s.hist.(trace := s.hist.trace + [Event.Trapped(pc, cause, tval)]))
  }

  function WriteBack(s: State, x: Exe, v: Word): State {
    s.(wire := s.wire.(commit := Some((x.rd, v))),
       hist := s.hist.(trace := s.hist.trace + [Retirement(x.pc, x.rd, v)]))
  }

  function Commit(isa: Isa, s: State, i: Input): State {
    if !i.retire || s.back.pipe4 == [] then s else
    var x := s.back.pipe4[0];
    var t := s.(back := s.back.(pipe4 := []));
    if x.tag != s.ep.w5 then t
    else match x.body
      case Fail(cause, tval) =>
        if cause.Rerun? then t.(wire := t.wire.(flushW := Some(x.pc)))
        else TakeTrap(isa, t, x.pc, cause, tval)
      case Stored(op, addr, data, v) =>
        (match isa.access(op, s.arch.csrs, s.arch.mem, addr, data)
         case Fault(_, _) => t
         case Done(_, mem, err) =>
           if err.Some? then TakeTrap(isa, t, x.pc, Exception(STORE_ACCESS_FAULT), err.value)
           else WriteBack(t.(arch := t.arch.(mem := mem)), x, v))
      case Csr(op, rs1) =>
        var r := isa.system(op, s.arch.csrs, rs1, x.pc);
        var drain := if r.drain then Some(r.newpc) else None;
        WriteBack(t.(arch := t.arch.(csrs := r.csrs), wire := t.wire.(flushW := drain)), x, r.value)
      case Regular(v) => WriteBack(t, x, v)
      case Access(_, _, _) => s
  }

  // -------- stage 2 --------

  /** A CSR operation turns its follower into a rerun, whatever that follower is. */
  function DecodeInst(isa: Isa, bits: Word, csrs: Csrs, rerun: bool, irq: Option<nat>): Inst {
    if rerun then Except(Rerun, 0)
    else if irq.Some? && isa.interrupt(csrs, irq.value) then Except(Interrupt(irq.value), 0)
    else match isa.decode(bits, csrs)
      case Illegal(code, tval) => Except(Exception(code), tval)
      case Valid(op) => Oper(op)
  }

  predicate WantsRerun(isa: Isa, bits: Word, csrs: Csrs) {
    var d := isa.decode(bits, csrs);
    d.Valid? && d.op.kind.System?
  }

  function Fetched(rf: RegFile, r: Reg): Operand { Operand(r, rf[r]) }

  function Decode(isa: Isa, s: State, csrs: Csrs, i: Input): State {
    if !i.decode || s.dec.stall || s.pipe1 == [] || s.dec.pipe2 != [] then s else
    var k := s.pipe1[0];
    var t := s.(pipe1 := s.pipe1[1..]);
    if k.tag != s.ep.ep2 then t else
    var inst := DecodeInst(isa, k.bits, csrs, s.dec.rerun, i.irq);
    var calm := s.wire.flushE.None? && s.wire.flushW.None?;
    t.(dec := Decoding([Meta(k, inst)],
                       Fetched(s.arch.rf, if inst.Oper? then inst.op.rs1 else 0),
                       Fetched(s.arch.rf, if inst.Oper? then inst.op.rs2 else 0),
                       inst.Except? && calm,
                       !s.dec.rerun && WantsRerun(isa, k.bits, csrs) && calm))
  }

  function Patch(o: Operand, rd: Reg, v: Word): Operand {
    if o.addr == rd && o.addr != 0 then o.(data := v) else o
  }

  function CommitRd(s: State): State {
    match s.wire.commit
    case None => s
    case Some((rd, v)) =>
      s.(arch := s.arch.(rf := Write(s.arch.rf, rd, v)),
         dec := s.dec.(op1 := Patch(s.dec.op1, rd, v), op2 := Patch(s.dec.op2, rd, v)),
         wire := s.wire.(commit := None))
  }

  // -------- stage 4 --------

  function Answered(b: Body, r: Response): Body {
    match b
    case Access(op, addr, data) =>
      (match r
       case Error(code, tval) => Fail(Exception(code), tval)
       case Data(v) =>
         if op.kind == Memory(Load) then Regular(v)
         else Stored(op, addr, data, if op.kind == Memory(Store) then 0 else v))
    case _ => b
  }

  function MemStage(s: State, visible: bool, i: Input): State {
    if !i.memory || !visible || s.back.pipe3 == [] || s.back.pipe4 != [] then s else
    var x := s.back.pipe3[0];
    s.(back := s.back.(pipe3 := s.back.pipe3[1..], pipe4 := [x.(body := Answered(x.body, i.resp))]))
  }

  // -------- stage 1 output and the end of the cycle --------

  function FetchOne(s: State, room: bool, i: Input): State {
    if i.fetch.None? || !room then s else
    var x := i.fetch.value;
    s.(pipe1 := s.pipe1 + [Packet(s.hist.fpc, x.bits, s.ep.ep1, s.hist.gen, x.taken, x.npc)],
       hist := s.hist.(fpc := x.npc))
  }

  function Flush(s: State): State {
    var e, w := s.wire.flushE.Some?, s.wire.flushW.Some?;
    s.(ep := Copies(Toggle(s.ep.ep1, e, w), Toggle(s.ep.ep2, e, w), Toggle(s.ep.ep3, e, w),
                    s.ep.w5 != w, s.ep.wTop != w),
       dec := s.dec.(stall := s.dec.stall && !e && !w,
                     rerun := s.dec.rerun && !(s.dec.stall && (e || w))),
       wire := s.wire.(flushE := None, flushW := None),
       hist := s.hist.(gen := Advance(s.hist.gen, e, w),
                       fpc := if w then s.wire.flushW.value else if e then s.wire.flushE.value else s.hist.fpc))
  }

  /** The rules of one clock cycle. Stage 4 sees only what pipe3 held when the cycle began, and pipe1
      accepts an instruction only if it had room then. */
  function Rules(isa: Isa, s: State, i: Input): State {
    var s1 := Execute(isa, s, i);
    var s2 := Commit(isa, s1, i);
    var s3 := Decode(isa, s2, s.arch.csrs, i);
    var s4 := CommitRd(s3);
    var s5 := MemStage(s4, s.back.pipe3 != [], i);
    FetchOne(s5, |s.pipe1| < 2, i)
  }

  function Cycle(isa: Isa, s: State, i: Input): State { Flush(Rules(isa, s, i)) }

  function Reset(pc: Word, rf: RegFile, csrs: Csrs, mem: Mem): State {
    var t := Tag(false, false);
    State(Copies(t, t, t, false, false), World(rf, csrs, mem), [],
          Decoding([], Operand(0, 0), Operand(0, 0), false, false),
          Executed([], None, []), Wires(None, None, None), History(Gen(0, 0), pc, []))
  }

  function Run(isa: Isa, s: State, ins: seq<Input>): State {
    if ins == [] then s
    else Cycle(isa, Run(isa, s, ins[..|ins| - 1]), ins[|ins| - 1])
  }
}
