/** The instruction set as the pipeline sees it, and its one-at-a-time machine.

    Everything the pipeline only transports (the ALU, the decoder tables, the CSR file, the memory
    system) is a parameter: an `Isa` value holds one function for each, and every theorem about the
    pipeline is for all such values. */
module Isa {
  import opened Options

  type Word = int
  type Reg = r: nat | r < 32
  type Csrs = map<int, Word>
  type Mem = map<int, Word>
  type RegFile = rf: seq<Word> | |rf| == 32 && rf[0] == 0 witness seq(32, _ => 0)

  datatype MemKind = Load | Store | Atomic

  datatype Kind = Alu | MulDiv | Branch | Jal | Jalr | Memory(mem: MemKind) | System

  datatype Op = Op(kind: Kind, rs1: Reg, rs2: Reg, rd: Reg, code: Word)

  datatype Decoded = Valid(op: Op) | Illegal(code: nat, tval: Word)

  /** What the data memory answers. A store or atomic may still meet a bus error when performed. */
  datatype Access = Done(value: Word, mem: Mem, err: Option<Word>) | Fault(code: nat, tval: Word)

  datatype SystemResult = SystemResult(csrs: Csrs, value: Word, drain: bool, newpc: Word)

  datatype TrapEntry = TrapEntry(csrs: Csrs, pc: Word)

  datatype Cause = Exception(code: nat) | Interrupt(code: nat) | Rerun

  datatype Isa = Isa(
    fetch: Word -> Word,
    size: Word -> Word,
    decode: (Word, Csrs) -> Decoded,
    alu: (Op, Word, Word, Word) -> Word,
    taken: (Op, Word, Word) -> bool,
    target: (Op, Word) -> Word,
    jalr: (Op, Word) -> Word,
    address: (Op, Word) -> Word,
    misaligned: (Op, Word) -> bool,
    access: (Op, Csrs, Mem, Word, Word) -> Access,
    system: (Op, Csrs, Word, Word) -> SystemResult,
    enter: (Csrs, Cause, Word, Word) -> TrapEntry,
    interrupt: (Csrs, nat) -> bool)

  const LOAD_ADDR_MISALIGNED: nat := 4
  const STORE_ADDR_MISALIGNED: nat := 6
  const STORE_ACCESS_FAULT: nat := 7

  function MisalignedCode(op: Op): nat {
    if op.kind == Memory(Load) then LOAD_ADDR_MISALIGNED else STORE_ADDR_MISALIGNED
  }

  function Write(rf: RegFile, rd: Reg, v: Word): RegFile {
    if rd == 0 then rf else rf[rd := v]
  }

  /** One line of the commit trace. A destination of x0 is recorded with the value zero. */
  datatype Event = Retired(pc: Word, rd: Reg, value: Word) | Trapped(pc: Word, cause: Cause, tval: Word)

  function Retirement(pc: Word, rd: Reg, v: Word): Event {
    Retired(pc, rd, if rd == 0 then 0 else v)
  }

  // -------- the sequential machine --------

  datatype Arch = Arch(pc: Word, rf: RegFile, csrs: Csrs, mem: Mem)

  /** The machine after one instruction, the event it leaves in the trace, and whether that
      instruction sends the machine to a program counter which is not its own successor. */
  datatype Next = Next(arch: Arch, event: Event, flush: bool)

  function Trap(isa: Isa, a: Arch, cause: Cause, tval: Word): Next {
    var t := isa.enter(a.csrs, cause, a.pc, tval);
    Next(a.(pc := t.pc, csrs := t.csrs), Event.Trapped(a.pc, cause, tval), true)
  }

  function Retire(a: Arch, rd: Reg, v: Word, npc: Word, mem: Mem): Next {
    Next(a.(pc := npc, rf := Write(a.rf, rd, v), mem := mem), Retirement(a.pc, rd, v), false)
  }

  /** The program counter after a control instruction, or the next instruction for any other. */
  function Successor(isa: Isa, op: Op, pc: Word, bits: Word, v1: Word, v2: Word): Word {
    match op.kind
    case Branch => if isa.taken(op, v1, v2) then isa.target(op, pc) else pc + isa.size(bits)
    case Jal => isa.target(op, pc)
    case Jalr => isa.jalr(op, v1)
    case _ => pc + isa.size(bits)
  }

  function Step(isa: Isa, a: Arch): Next {
    var bits := isa.fetch(a.pc);
    match isa.decode(bits, a.csrs)
    case Illegal(code, tval) => Trap(isa, a, Exception(code), tval)
    case Valid(op) =>
      var v1, v2 := a.rf[op.rs1], a.rf[op.rs2];
      var npc := Successor(isa, op, a.pc, bits, v1, v2);
      match op.kind
      case Memory(kind) =>
        var addr := isa.address(op, v1);
        if isa.misaligned(op, addr) then Trap(isa, a, Exception(MisalignedCode(op)), addr) else
        (match isa.access(op, a.csrs, a.mem, addr, v2)
         case Fault(code, tval) => Trap(isa, a, Exception(code), tval)
         case Done(value, mem, err) =>
           if kind == Load then Retire(a, op.rd, value, npc, a.mem)
           else if err.Some? then Trap(isa, a, Exception(STORE_ACCESS_FAULT), err.value)
           else Retire(a, op.rd, if kind == Store then 0 else value, npc, mem))
      case System =>
        var r := isa.system(op, a.csrs, v1, a.pc);
        var n := Retire(a, op.rd, r.value, if r.drain then r.newpc else npc, a.mem);
        n.(arch := n.arch.(csrs := r.csrs), flush := r.drain)
      case _ => Retire(a, op.rd, isa.alu(op, a.pc, v1, v2), npc, a.mem)
  }

  /** An interrupt may be taken before any instruction while the CSRs enable it. */
  function Follow(isa: Isa, a: Arch, ev: Event): Next {
    if ev.Trapped? && ev.cause.Interrupt? then Trap(isa, a, ev.cause, 0) else Step(isa, a)
  }

  predicate Permits(isa: Isa, a: Arch, ev: Event) {
    && (ev.Trapped? && ev.cause.Interrupt? ==> isa.interrupt(a.csrs, ev.cause.code))
    && Follow(isa, a, ev).event == ev
  }

  /** Where the sequential machine stands after `evs`. */
  function Final(isa: Isa, a: Arch, evs: seq<Event>): Arch {
    if evs == [] then a
    else Follow(isa, Final(isa, a, evs[..|evs| - 1]), evs[|evs| - 1]).arch
  }

  /** `evs` is a trace of the sequential machine started in `a`. */
  predicate Legal(isa: Isa, a: Arch, evs: seq<Event>) {
    evs == [] ||
    (var init := evs[..|evs| - 1];
     Legal(isa, a, init) && Permits(isa, Final(isa, a, init), evs[|evs| - 1]))
  }
}
