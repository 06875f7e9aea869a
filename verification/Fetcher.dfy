/** Stages 0 and 1 as an object whose rules update its registers in place. */
module Fetcher {
  import opened Options
  import opened EpochTags
  import opened Frontend
  import FrontendProof

  class Fetch {
    var pc: int
    var delayed: Option<int>
    var queue: seq<Request>
    var checkPrev: bool
    var prev: Prev
    var tag: Tag
    var gen: Gen
    var next: int
    var emitted: Gen

    function Abs(): Fe
      reads this
    {
      Fe(pc, delayed, queue, checkPrev, prev, tag, gen, next, emitted)
    }

    constructor (resetPc: int)
      ensures Abs() == Reset(resetPc)
    {
      pc, delayed, queue, checkPrev := resetPc, None, [], false;
      var t, g := Tag(false, false), Gen(0, 0);
      prev, tag, gen, next, emitted := Prev(0, 0, Btb(0, false, false, 0), t, g), t, g, resetPc, g;
    }

    method GenNextPc(p: Prediction)
      modifies this`pc, this`delayed, this`queue
      ensures Abs() == Frontend.GenNextPc(old(Abs()), p)
    {
      var request := Request(Base(pc), pc % 2 == 1, p.btb, tag, gen);
      var nextpc := Base(pc) + 2;
      var edgecase := p.btb.hi && !p.instr16;
      if p.btb.prediction >= 2 && p.btb.hit && !edgecase {
        nextpc := p.btb.npc;
      }
      if delayed.Some? {
        nextpc := delayed.value;
        delayed := None;
      } else if edgecase && p.btb.prediction > 1 {
        delayed := Some(p.btb.npc);
      }
      pc := nextpc;
      queue := queue + [request];
    }

    method ProcessInstruction(code: Code) returns (out: Option<Emit>)
      requires queue != []
      modifies this`queue, this`checkPrev, this`prev
      ensures (Abs(), out) == Process(code, old(Abs()))
    {
      hide Word32, Is32, Taken;
      out := None;
      var request := queue[0];
      var lo, hi := code.half(request.base), code.half(request.base + 1);
      var lvPrev := prev.(tag := tag, gen := gen);
      var deq := true;
      if request.tag != tag {
        checkPrev := false;
      } else if checkPrev && prev.tag == tag {
        var taken := Taken(prev.btb, true);
        if Is32(prev.half) {
          out := Some(Emitted(prev.base + 1, Word32(prev.half, lo), 2, prev.btb, taken));
          lvPrev := Prev(request.base, hi, request.btb, tag, gen);
          checkPrev := !taken;
        } else {
          out := Some(Emitted(prev.base + 1, prev.half, 1, prev.btb, taken));
          checkPrev := false;
          deq := false;
        }
      } else if request.discard {
        if Is32(hi) {
          lvPrev := Prev(request.base, hi, request.btb, tag, gen);
          checkPrev := true;
        } else {
          out := Some(Emitted(request.base + 1, hi, 1, request.btb, Taken(request.btb, true)));
          checkPrev := false;
        }
      } else if Is32(lo) {
        out := Some(Emitted(request.base, Word32(lo, hi), 2, request.btb, request.btb.prediction > 1));
        checkPrev := false;
      } else {
        var taken := Taken(request.btb, false);
        out := Some(Emitted(request.base, lo, 1, request.btb, taken));
        lvPrev := Prev(request.base, hi, request.btb, tag, gen);
        checkPrev := !taken;
      }
      if deq {
        queue := queue[1..];
      }
      prev := lvPrev;
    }

    /** Redirects: the epochs flip, the next request goes to the target, and a delayed redirect is
        forgotten. */
    method MaFlush(e: bool, w: bool, target: int)
      modifies this`pc, this`next, this`delayed, this`tag, this`gen
      ensures Abs() == Redirected(old(Abs()), e, w, target)
    {
      if e {
        tag := tag.(e := !tag.e);
        gen := gen.(e := gen.e + 1);
      }
      if w {
        tag := tag.(w := !tag.w);
        gen := gen.(w := gen.w + 1);
      }
      pc, next, delayed := target, target, None;
    }

    /** Stage 1, if a word and a place in pipe1 are there. */
    method Deliver(code: Code, i: Input) returns (out: Option<Emit>)
      modifies this`queue, this`checkPrev, this`prev, this`next, this`emitted
      ensures (Abs(), out) == Stage1(code, old(Abs()), i)
    {
      hide Process;
      out := None;
      if i.process && queue != [] {
        out := ProcessInstruction(code);
        if out.Some? {
          next, emitted := out.value.npc, gen;
        }
      }
    }

    /** Stage 0, if pipe0 had room, and the redirects. */
    method Advance0(room: bool, i: Input)
      modifies this
      ensures Abs() == EndCycle(Stage0(old(Abs()), room, i), i)
    {
      hide Redirected;
      if i.request.Some? && room {
        GenNextPc(i.request.value);
      }
      if i.e || i.w {
        MaFlush(i.e, i.w, i.target);
      }
    }

    method Clock(code: Code, i: Input) returns (out: Option<Emit>)
      modifies this
      ensures (Abs(), out) == Cycle(code, old(Abs()), i)
    {
      hide Stage1, Stage0, EndCycle;
      var room := |queue| < 3;
      out := Deliver(code, i);
      Advance0(room, i);
    }
  }

  /** Any run of the registers hands on the instructions of the fetched path. */
  method Simulate(code: Code, resetPc: int, ins: seq<Input>) returns (outs: seq<Out>)
    requires FrontendProof.RunOk(code, Reset(resetPc), ins)
    ensures outs == Run(code, Reset(resetPc), ins).1
    ensures OnPath(code, resetPc, outs)
    ensures FrontendProof.Straight(outs) ==> outs == Parse(code, resetPc, |outs|)
  {
    hide Cycle, OnPath;
    var fetch := new Fetch(resetPc);
    ghost var f0 := Reset(resetPc);
    outs := [];
    var n := 0;
    while n < |ins|
      invariant 0 <= n <= |ins| && fresh(fetch)
      invariant (fetch.Abs(), outs) == Run(code, f0, ins[..n])
    {
      assert ins[..n + 1][..n] == ins[..n];
      var out := fetch.Clock(code, ins[n]);
      outs := outs + Outs(ins[n], out);
      n := n + 1;
    }
    assert ins[..n] == ins;
    FrontendProof.RealignerFollowsPath(code, resetPc, ins);
    if FrontendProof.Straight(outs) {
      FrontendProof.RealignerRefinesParser(code, resetPc, ins);
    }
  }
}
