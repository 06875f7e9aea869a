/** The whole core as an object made of its two halves. */
module Hart {
  import opened Options
  import opened Isa
  import opened Chip
  import ChipProof
  import F = Frontend
  import P = Pipeline
  import Fetcher
  import Core

  class Riscv {
    const code: F.Code
    const fetch: Fetcher.Fetch
    const back: Core.Backend

    function Abs(): Chip
      reads fetch, back
    {
      Chip(fetch.Abs(), back.Abs())
    }

    constructor (isa: Isa, code: F.Code, a: Arch)
      ensures this.code == code && back.isa == isa && fresh(fetch) && fresh(back)
      ensures Abs() == Reset(a)
    {
      this.code := code;
      fetch := new Fetcher.Fetch(a.pc);
      back := new Core.Backend(isa, a);
    }

    /** Stage 1 hands an instruction to the rules behind it, and these redirect stage 0. */
    method Clock(i: Input)
      modifies fetch, back
      ensures Abs() == Cycle(back.isa, code, old(Abs()), i)
    {
      hide F.Stage1, F.Stage0, F.EndCycle, P.Rules, P.Flush;
      ghost var c := Abs();
      var room := |fetch.queue| < 3;
      var process := i.word && |back.pipe1| < 2;
      var out := fetch.Deliver(code, F.Input(process, None, false, false, 0));
      var input := i.rest.(fetch := None);
      if out.Some? {
        input := i.rest.(fetch := Some(P.Delivery(out.value.bits, out.value.taken, out.value.npc)));
      }
      assert input == BackInput(code, c, i);
      back.ClockRules(input);
      var e, w := back.wire.flushE, back.wire.flushW;
      var target := if w.Some? then w.value else if e.Some? then e.value else 0;
      var redirect := F.Input(process, i.request, e.Some?, w.Some?, target);
      ChipProof.SameHanded(code, c, i, redirect);
      fetch.Advance0(room, redirect);
      back.FlushStages();
    }
  }

  /** Any run of the whole core commits a trace of the one-at-a-time machine. */
  method Simulate(isa: Isa, code: F.Code, a: Arch, ins: seq<Input>) returns (trace: seq<Event>, rf: RegFile)
    requires ChipProof.Runs(isa, code) && ChipProof.RunOk(isa, code, Reset(a), ins)
    ensures var c := Run(isa, code, Reset(a), ins); trace == c.be.hist.trace && rf == c.be.arch.rf
    ensures Legal(isa, a, trace) && rf == Final(isa, a, trace).rf
  {
    hide Cycle, Legal, Final, ChipProof.Runs, ChipProof.RunOk, Reset;
    var core := new Riscv(isa, code, a);
    var n := 0;
    while n < |ins|
      invariant 0 <= n <= |ins| && fresh(core.fetch) && fresh(core.back)
      invariant core.back.isa == isa && core.code == code
      invariant core.Abs() == Run(isa, code, Reset(a), ins[..n])
    {
      assert ins[..n + 1][..n] == ins[..n];
      core.Clock(ins[n]);
      n := n + 1;
    }
    assert ins[..n] == ins;
    ChipProof.WholeCoreRefinement(isa, code, a, ins);
    trace, rf := core.back.hist.trace, core.back.arch.rf;
  }
}
