/** Stages 0 and 1: next-PC generation with the delayed redirect, and the 16/32-bit realigner.

    Addresses count halfwords, so a fetched word is a pair of halfwords whose first has an even
    address. `gen`, `Emit.npc`, `next` and `emitted` are history. */
module Frontend {
  import opened Options
  import opened EpochTags

  type Half = h: int | 0 <= h < 0x10000

  /** What memory holds, and `control(q, t)`: a control instruction really starts at halfword `q`, and
      if its target is fixed by its encoding, it is `t`. */
  datatype Code = Code(half: int -> Half, control: (int, int) -> bool)

  predicate Is32(h: Half) { h % 4 == 3 }

  function Word32(lo: Half, hi: Half): int { lo + 0x10000 * hi }

  /** What the predictor said about a fetched word: a two-bit state, whether it knew the word, and
      which halfword it meant. `npc` is its target. */
  datatype Btb = Btb(prediction: nat, hit: bool, hi: bool, npc: int)

  datatype Prediction = Prediction(btb: Btb, instr16: bool)

  /** A word on its way from stage 0 to stage 1. */
  datatype Request = Request(base: int, discard: bool, btb: Btb, tag: Tag, gen: Gen)

  /** The upper half of the previous word. */
  datatype Prev = Prev(base: int, half: Half, btb: Btb, tag: Tag, gen: Gen)

  datatype Fe = Fe(
    pc: int, delayed: Option<int>, queue: seq<Request>,
    checkPrev: bool, prev: Prev,
    tag: Tag, gen: Gen,
    next: int, emitted: Gen)

  /** An instruction handed to stage 2. `npc` is the predicted target if it is predicted taken and the
      next instruction otherwise. */
  datatype Emit = Emit(pc: int, bits: int, len: int, taken: bool, npc: int)

  function Base(pc: int): int { pc - pc % 2 }

  // -------- stage 0 --------

  function GenNextPc(f: Fe, p: Prediction): Fe {
    var edge := p.btb.hi && !p.instr16;
    var next := if p.btb.prediction >= 2 && p.btb.hit && !edge then p.btb.npc else Base(f.pc) + 2;
    var r := Request(Base(f.pc), f.pc % 2 == 1, p.btb, f.tag, f.gen);
    var g := f.(queue := f.queue + [r]);
    if f.delayed.Some? then g.(pc := f.delayed.value, delayed := None)
    else if edge && p.btb.prediction > 1 then g.(pc := next, delayed := Some(p.btb.npc))
    else g.(pc := next)
  }

  // -------- stage 1 --------

  /** The prediction is forgotten when it was about the other halfword. */
  function Taken(b: Btb, hi: bool): bool { b.hi == hi && b.prediction > 1 }

  function Emitted(pc: int, bits: int, len: int, b: Btb, taken: bool): Emit {
    Emit(pc, bits, len, taken, if taken then b.npc else pc + len)
  }

  /** One firing of the realigner on the word at the head of the queue. */
  function Process(code: Code, f: Fe): (Fe, Option<Emit>)
    requires f.queue != []
  {
    var r := f.queue[0];
    var lo, hi := code.half(r.base), code.half(r.base + 1);
    var deq := f.(queue := f.queue[1..]);
    var saved, kept := Prev(r.base, hi, r.btb, f.tag, f.gen), f.prev.(tag := f.tag, gen := f.gen);
    if r.tag != f.tag then
      (deq.(checkPrev := false, prev := kept), None)
    else if f.checkPrev && f.prev.tag == f.tag then
      var q := f.prev.base + 1;
      var taken := Taken(f.prev.btb, true);
      if Is32(f.prev.half) then
        (deq.(checkPrev := !taken, prev := saved),
         Some(Emitted(q, Word32(f.prev.half, lo), 2, f.prev.btb, taken)))
      else
        (f.(checkPrev := false, prev := kept), Some(Emitted(q, f.prev.half, 1, f.prev.btb, taken)))
    else if r.discard then
      if Is32(hi) then (deq.(checkPrev := true, prev := saved), None)
      else (deq.(checkPrev := false, prev := kept),
            Some(Emitted(r.base + 1, hi, 1, r.btb, Taken(r.btb, true))))
    else if Is32(lo) then
      (deq.(checkPrev := false, prev := kept),
       Some(Emitted(r.base, Word32(lo, hi), 2, r.btb, r.btb.prediction > 1)))
    else
      var taken := Taken(r.btb, false);
      (deq.(checkPrev := !taken, prev := saved), Some(Emitted(r.base, lo, 1, r.btb, taken)))
  }

  // -------- redirects --------

  function Redirected(f: Fe, e: bool, w: bool, target: int): Fe {
    f.(pc := target, next := target, delayed := None, tag := Toggle(f.tag, e, w), gen := Advance(f.gen, e, w))
  }

  /** What one cycle brings: whether the next word and a place in pipe1 are there, what the predictor
      says about the next request, and the redirects of execute and write-back. */
  datatype Input = Input(process: bool, request: Option<Prediction>, e: bool, w: bool, target: int)

  function Stage1(code: Code, f: Fe, i: Input): (Fe, Option<Emit>) {
    if !i.process || f.queue == [] then (f, None) else
    var (g, out) := Process(code, f);
    (if out.Some? then g.(next := out.value.npc, emitted := f.gen) else g, out)
  }

  function Stage0(f: Fe, room: bool, i: Input): Fe {
    if i.request.Some? && room then GenNextPc(f, i.request.value) else f
  }

  function EndCycle(f: Fe, i: Input): Fe {
    if i.e || i.w then Redirected(f, i.e, i.w, i.target) else f
  }

  /** pipe0 holds three words; a fourth request waits until one has left. */
  function Cycle(code: Code, f: Fe, i: Input): (Fe, Option<Emit>) {
    var (f1, out) := Stage1(code, f, i);
    (EndCycle(Stage0(f1, |f.queue| < 3, i), i), out)
  }

  function Reset(pc: int): Fe {
    var t, g := Tag(false, false), Gen(0, 0);
    Fe(pc, None, [], false, Prev(0, 0, Btb(0, false, false, 0), t, g), t, g, pc, g)
  }

  // -------- runs --------

  datatype Out = Instr(emit: Emit) | Jump(target: int)

  function Outs(i: Input, out: Option<Emit>): seq<Out> {
    (if out.Some? then [Instr(out.value)] else []) + (if i.e || i.w then [Jump(i.target)] else [])
  }

  function Run(code: Code, f: Fe, ins: seq<Input>): (Fe, seq<Out>) {
    if ins == [] then (f, [])
    else
      var n := |ins| - 1;
      var (g, outs) := Run(code, f, ins[..n]);
      var (h, out) := Cycle(code, g, ins[n]);
      (h, outs + Outs(ins[n], out))
  }

  // -------- the reference: a recursive halfword parser --------

  function LenAt(code: Code, p: int): int { if Is32(code.half(p)) then 2 else 1 }

  function BitsAt(code: Code, p: int): int {
    if Is32(code.half(p)) then Word32(code.half(p), code.half(p + 1)) else code.half(p)
  }

  /** The first `n` instructions of straight-line code from `p` on. */
  function Parse(code: Code, p: int, n: nat): seq<Out>
    decreases n
  {
    if n == 0 then []
    else
      var len := LenAt(code, p);
      [Instr(Emit(p, BitsAt(code, p), len, false, p + len))] + Parse(code, p + len, n - 1)
  }

  /** `x` is the instruction at `p`; a taken prediction in it is about just this instruction. */
  predicate InstrAt(code: Code, p: int, x: Emit) {
    && x.pc == p && x.len == LenAt(code, p) && x.bits == BitsAt(code, p)
    && if x.taken then code.control(p, x.npc) else x.npc == p + x.len
  }

  /** Where the next instruction after `outs` has to be. */
  function End(p: int, outs: seq<Out>): int {
    if outs == [] then p
    else match outs[|outs| - 1]
      case Instr(x) => x.npc
      case Jump(target) => target
  }

  /** Every instruction in `outs` is where the path stands at that point. */
  predicate OnPath(code: Code, p: int, outs: seq<Out>) {
    outs == [] ||
    (var init := outs[..|outs| - 1];
     && OnPath(code, p, init)
     && match outs[|outs| - 1]
        case Instr(x) => InstrAt(code, End(p, init), x)
        case Jump(_) => true)
  }
}
