/** Stages 2 to 5 as an object: each stage's registers and each group of FIFOs is a field, every rule a
    method that updates them in place and leaves the state its specification function describes. */
module Core {
  import opened Options
  import opened Isa
  import opened EpochTags
  import opened Pipeline
  import PipelineProof

  class Backend {
    const isa: Isa
    var ep: Copies
    var arch: World
    var pipe1: seq<Packet>
    var dec: Decoding
    var back: Executed
    var wire: Wires
    var hist: History

    function Abs(): State
      reads this
    {
      State(ep, arch, pipe1, dec, back, wire, hist)
    }

    constructor (isa: Isa, a: Arch)
      ensures this.isa == isa && Abs() == Reset(a.pc, a.rf, a.csrs, a.mem)
    {
      this.isa := isa;
      var t := Tag(false, false);
      ep := Copies(t, t, t, false, false);
      arch := World(a.rf, a.csrs, a.mem);
      pipe1 := [];
      dec := Decoding([], Operand(0, 0), Operand(0, 0), false, false);
      back := Executed([], None, []);
      wire := Wires(None, None, None);
      hist := History(Gen(0, 0), a.pc, []);
    }

    /** The bypass sources of this cycle. */
    method ReadOperand(o: Operand) returns (available: bool, value: Word)
      ensures (available, value) == Read(Abs(), o)
    {
      var fromExe, fromMem := NO_FWD, NO_FWD;
      if back.pipe3 != [] {
        var x := back.pipe3[0];
        fromExe := Fwd(x.rd != 0 && x.tag == ep.wTop, x.body.Regular?, x.rd,
                       if x.body.Regular? then x.body.value else 0);
      }
      if back.pipe4 != [] && (back.pipe4[0].body.Regular? || back.pipe4[0].body.Stored?) {
        var x := back.pipe4[0];
        fromMem := Fwd(x.rd != 0 && x.tag == ep.wTop, true, x.rd, x.body.value);
      }
      var r := ForwardData(o.data, o.addr, fromExe, fromMem);
      available, value := r.0, r.1;
    }

    method CaptureLatestOps(i: Input)
      modifies this`dec, this`back, this`wire
      ensures Abs() == Execute(isa, old(Abs()), i)
    {
      hide Read, BodyOf, Redirect;
      if back.busy.Some? {
        if i.mulDone && |back.pipe3| < 2 {
          back := back.(pipe3 := back.pipe3 + [back.busy.value], busy := None);
        }
        return;
      }
      if !i.exec || dec.pipe2 == [] || |back.pipe3| >= 2 { return; }
      var m := dec.pipe2[0];
      if m.pkt.tag != ep.ep3 {
        dec := dec.(pipe2 := []);
        return;
      }
      match m.inst {
        case Except(cause, tval) =>
          back := back.(pipe3 := back.pipe3 + [Exe(m.pkt.pc, 0, m.pkt.tag.w, m.pkt.gen.w, Fail(cause, tval))]);
          dec := dec.(pipe2 := []);
        case Oper(op) =>
          var available1, v1 := ReadOperand(dec.op1);
          var available2, v2 := ReadOperand(dec.op2);
          if !available1 || !available2 || (IsControl(op) && pipe1 == []) { return; }
          var x := Exe(m.pkt.pc, op.rd, m.pkt.tag.w, m.pkt.gen.w, BodyOf(isa, op, m.pkt.pc, v1, v2));
          wire := wire.(flushE := Redirect(isa, op, m.pkt, if pipe1 == [] then 0 else pipe1[0].pc, v1, v2));
          dec := dec.(pipe2 := []);
          if op.kind.MulDiv? {
            back := back.(busy := Some(x));
          } else {
            back := back.(pipe3 := back.pipe3 + [x]);
          }
      }
    }

    method TakeTrapAt(pc: Word, cause: Cause, tval: Word)
      modifies this`arch, this`wire, this`hist
      ensures Abs() == TakeTrap(isa, old(Abs()), pc, cause, tval)
    {
      var t := isa.enter(arch.csrs, cause, pc, tval);
      arch := arch.(csrs := t.csrs);
      wire := wire.(flushW := Some(t.pc));
      hist := hist.(trace := hist.trace + [Event.Trapped(pc, cause, tval)]);
    }

    method WriteBackOf(x: Exe, v: Word)
      modifies this`wire, this`hist
      ensures Abs() == WriteBack(old(Abs()), x, v)
    {
      wire := wire.(commit := Some((x.rd, v)));
      hist := hist.(trace := hist.trace + [Retirement(x.pc, x.rd, v)]);
    }

    method InstructionCommit(i: Input)
      modifies this`arch, this`back, this`wire, this`hist
      ensures Abs() == Commit(isa, old(Abs()), i)
    {
      if !i.retire || back.pipe4 == [] { return; }
      var x := back.pipe4[0];
      if x.tag == ep.w5 && x.body.Access? { return; }
      back := back.(pipe4 := []);
      if x.tag != ep.w5 { return; }
      match x.body {
        case Fail(cause, tval) =>
          if cause.Rerun? {
            wire := wire.(flushW := Some(x.pc));
          } else {
            TakeTrapAt(x.pc, cause, tval);
          }
        case Stored(op, addr, data, v) =>
          match isa.access(op, arch.csrs, arch.mem, addr, data) {
            case Fault(_, _) =>
            case Done(_, mem, err) =>
              if err.Some? {
                TakeTrapAt(x.pc, Exception(STORE_ACCESS_FAULT), err.value);
              } else {
                arch := arch.(mem := mem);
                WriteBackOf(x, v);
              }
          }
        case Csr(op, rs1) =>
          var r := isa.system(op, arch.csrs, rs1, x.pc);
          arch := arch.(csrs := r.csrs);
          wire := wire.(flushW := if r.drain then Some(r.newpc) else None);
          WriteBackOf(x, r.value);
        case Regular(v) => WriteBackOf(x, v);
      }
    }

    method DecodeAndOpFetch(csrs: Csrs, i: Input)
      modifies this`pipe1, this`dec
      ensures Abs() == Decode(isa, old(Abs()), csrs, i)
    {
      hide DecodeInst, WantsRerun;
      if !i.decode || dec.stall || pipe1 == [] || dec.pipe2 != [] { return; }
      var k := pipe1[0];
      pipe1 := pipe1[1..];
      if k.tag != ep.ep2 { return; }
      var inst := DecodeInst(isa, k.bits, csrs, dec.rerun, i.irq);
      var calm := wire.flushE.None? && wire.flushW.None?;
      dec := dec.(pipe2 := [Meta(k, inst)],
                  op1 := Fetched(arch.rf, if inst.Oper? then inst.op.rs1 else 0),
                  op2 := Fetched(arch.rf, if inst.Oper? then inst.op.rs2 else 0));
      dec := dec.(stall := inst.Except? && calm, rerun := !dec.rerun && WantsRerun(isa, k.bits, csrs) && calm);
    }

    method CommitRegister()
      modifies this`arch, this`dec, this`wire
      ensures Abs() == CommitRd(old(Abs()))
    {
      if wire.commit.Some? {
        var (rd, v) := wire.commit.value;
        arch := arch.(rf := Write(arch.rf, rd, v));
        if dec.op1.addr == rd && dec.op1.addr != 0 { dec := dec.(op1 := dec.op1.(data := v)); }
        if dec.op2.addr == rd && dec.op2.addr != 0 { dec := dec.(op2 := dec.op2.(data := v)); }
        wire := wire.(commit := None);
      }
    }

    method CheckInstruction(visible: bool, i: Input)
      modifies this`back
      ensures Abs() == MemStage(old(Abs()), visible, i)
    {
      if i.memory && visible && back.pipe3 != [] && back.pipe4 == [] {
        var x := back.pipe3[0];
        back := back.(pipe3 := back.pipe3[1..], pipe4 := [x.(body := Answered(x.body, i.resp))]);
      }
    }

    method AcceptInstruction(room: bool, i: Input)
      modifies this`pipe1, this`hist
      ensures Abs() == FetchOne(old(Abs()), room, i)
    {
      if i.fetch.Some? && room {
        var x := i.fetch.value;
        pipe1 := pipe1 + [Packet(hist.fpc, x.bits, ep.ep1, hist.gen, x.taken, x.npc)];
        hist := hist.(fpc := x.npc);
      }
    }

    /** Every stage's copy of an epoch flips in the same cycle. */
    method UpdateEpochs(e: bool, w: bool)
      modifies this`ep
      ensures ep == Copies(Toggle(old(ep).ep1, e, w), Toggle(old(ep).ep2, e, w), Toggle(old(ep).ep3, e, w),
                           old(ep).w5 != w, old(ep).wTop != w)
    {
      if e {
        ep := ep.(ep1 := ep.ep1.(e := !ep.ep1.e), ep2 := ep.ep2.(e := !ep.ep2.e), ep3 := ep.ep3.(e := !ep.ep3.e));
      }
      if w {
        ep := ep.(ep1 := ep.ep1.(w := !ep.ep1.w), ep2 := ep.ep2.(w := !ep.ep2.w), ep3 := ep.ep3.(w := !ep.ep3.w),
                  w5 := !ep.w5, wTop := !ep.wTop);
      }
    }

    /** Redirects reach every stage; the one from write-back decides where fetch goes on. */
    method FlushStages()
      modifies this`ep, this`dec, this`wire, this`hist
      ensures Abs() == Flush(old(Abs()))
    {
      var e, w := wire.flushE.Some?, wire.flushW.Some?;
      hide Toggle, Advance;
      UpdateEpochs(e, w);
      if (e || w) && dec.stall {
        dec := dec.(stall := false, rerun := false);
      }
      hist := hist.(gen := Advance(hist.gen, e, w),
                    fpc := if w then wire.flushW.value else if e then wire.flushE.value else hist.fpc);
      wire := wire.(flushE := None, flushW := None);
    }

    method ClockRules(i: Input)
      modifies this
      ensures Abs() == Rules(isa, old(Abs()), i)
    {
      hide Execute, Commit, Decode, CommitRd, MemStage, FetchOne;
      var csrs, visible, room := arch.csrs, back.pipe3 != [], |pipe1| < 2;
      CaptureLatestOps(i);
      InstructionCommit(i);
      DecodeAndOpFetch(csrs, i);
      CommitRegister();
      CheckInstruction(visible, i);
      AcceptInstruction(room, i);
    }

    method Clock(i: Input)
      modifies this
      ensures Abs() == Cycle(isa, old(Abs()), i)
    {
      ClockRules(i);
      hide Rules, Flush;
      FlushStages();
    }
  }

  /** Any run of the registers and FIFOs commits a trace of the one-at-a-time machine. */
  method Simulate(isa: Isa, a: Arch, ins: seq<Input>) returns (trace: seq<Event>)
    requires PipelineProof.RunOk(isa, Reset(a.pc, a.rf, a.csrs, a.mem), ins)
    ensures trace == Run(isa, Reset(a.pc, a.rf, a.csrs, a.mem), ins).hist.trace
    ensures Legal(isa, a, trace)
  {
    hide Cycle, Legal;
    var core := new Backend(isa, a);
    ghost var s0 := Reset(a.pc, a.rf, a.csrs, a.mem);
    var n := 0;
    while n < |ins|
      invariant 0 <= n <= |ins| && fresh(core) && core.isa == isa
      invariant core.Abs() == Run(isa, s0, ins[..n])
    {
      assert ins[..n + 1][..n] == ins[..n];
      core.Clock(ins[n]);
      n := n + 1;
    }
    assert ins[..n] == ins;
    PipelineProof.SequentialRefinement(isa, a, ins);
    trace := core.hist.trace;
  }
}
