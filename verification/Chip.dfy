/** The whole core: stages 0 and 1 feed stages 2 to 5 through pipe1, and are redirected by them. */
module Chip {
  import opened Options
  import opened EpochTags
  import opened Isa
  import F = Frontend
  import P = Pipeline

  datatype Chip = Chip(fe: F.Fe, be: P.State)

  /** What the surroundings decide in one cycle. `rest.fetch` is not theirs to decide: stage 1 does. */
  datatype Input = Input(word: bool, request: Option<F.Prediction>, rest: P.Input)

  /** The realigner fires only when pipe1 has room. */
  function Fires(c: Chip, i: Input): bool { i.word && |c.be.pipe1| < 2 }

  function Handed(code: F.Code, c: Chip, i: Input): Option<F.Emit> {
    F.Stage1(code, c.fe, F.Input(Fires(c, i), None, false, false, 0)).1
  }

  function BackInput(code: F.Code, c: Chip, i: Input): P.Input {
    match Handed(code, c, i)
    case None => i.rest.(fetch := None)
    case Some(x) => i.rest.(fetch := Some(P.Delivery(x.bits, x.taken, x.npc)))
  }

  function FrontInput(c: Chip, i: Input, wire: P.Wires): F.Input {
    F.Input(Fires(c, i), i.request, wire.flushE.Some?, wire.flushW.Some?,
            if wire.flushW.Some? then wire.flushW.value
            else if wire.flushE.Some? then wire.flushE.value else 0)
  }

  function Cycle(isa: Isa, code: F.Code, c: Chip, i: Input): Chip {
    var s := P.Rules(isa, c.be, BackInput(code, c, i));
    Chip(F.Cycle(code, c.fe, FrontInput(c, i, s.wire)).0, P.Flush(s))
  }

  function Reset(a: Arch): Chip { Chip(F.Reset(a.pc), P.Reset(a.pc, a.rf, a.csrs, a.mem)) }

  function Run(isa: Isa, code: F.Code, c: Chip, ins: seq<Input>): Chip {
    if ins == [] then c
    else Cycle(isa, code, Run(isa, code, c, ins[..|ins| - 1]), ins[|ins| - 1])
  }
}

/** The whole core refines the one-at-a-time machine: what stage 1 promises stage 2 is what the
    realigner delivers, and what the realigner expects of a redirect is what stages 3 and 5 do. */
module ChipProof {
  import opened Options
  import opened EpochTags
  import opened Isa
  import opened Chip
  import F = Frontend
  import FP = FrontendProof
  import P = Pipeline
  import PI = PipelineInvariant
  import PP = PipelineProof

  /** The sequential machine runs the program in memory, and the predictor knows control instructions
      of that program only, with their true targets where the encoding fixes them. */
  ghost predicate Runs(isa: Isa, code: F.Code) {
    && (forall pc :: isa.fetch(pc) == F.BitsAt(code, pc) && isa.size(F.BitsAt(code, pc)) == F.LenAt(code, pc))
    && (forall q, t, csrs | code.control(q, t) ::
          var d := isa.decode(F.BitsAt(code, q), csrs);
          d.Valid? && P.IsControl(d.op) && (d.op.kind.Branch? ==> t == isa.target(d.op, q)))
  }

  predicate InputOk(isa: Isa, code: F.Code, c: Chip, i: Input) {
    && (i.request.Some? ==> FP.PredictorOk(code, c.fe.pc, FP.LiveEnd(code, c.fe).1, i.request.value))
    && PP.MemoryAnswers(isa, c.be, BackInput(code, c, i))
  }

  predicate Handover(k: Gen, d: Gen, g: Gen) {
    (k.e == g.e ==> d.e == g.e) && (k.w == g.w ==> d.w == g.w)
  }

  /** `d` is the generation of the instruction handed over last: nothing before stage 5 is newer. */
  ghost predicate Delivered(s: P.State, d: Gen) {
    && (forall k <- PI.Upstream(s) :: Handover(k.gen, d, s.hist.gen))
    && (forall x <- PI.InFlight(s) :: x.gen == s.hist.gen.w ==> d.w == s.hist.gen.w)
  }

  ghost predicate ChipInv(isa: Isa, code: F.Code, c: Chip, a: Arch) {
    && FP.FeInv(code, c.fe)
    && PI.Inv(isa, c.be, a) && PI.Quiet(c.be)
    && c.fe.next == c.be.hist.fpc && c.fe.gen == c.be.hist.gen
    && Delivered(c.be, c.fe.emitted)
  }

  lemma HandedIsDelivery(isa: Isa, code: F.Code, pc: Word, x: F.Emit)
    requires Runs(isa, code) && F.InstrAt(code, pc, x)
    ensures PI.DeliveryOk(isa, pc, P.Delivery(x.bits, x.taken, x.npc))
  {
    forall csrs
      ensures match isa.decode(x.bits, csrs)
              case Illegal(_, _) => x.npc == pc + isa.size(x.bits)
              case Valid(op) =>
                match op.kind
                case Branch => x.npc == if x.taken then isa.target(op, pc) else pc + isa.size(x.bits)
                case Jal => true
                case Jalr => true
                case _ => x.npc == pc + isa.size(x.bits)
    {
      if x.taken {
        assert code.control(pc, x.npc);
      }
    }
  }

  // -------- who redirects --------

  lemma ExecuteRedirects(isa: Isa, s: P.State, i: P.Input)
    requires PI.Shape(s) && PI.EpochInv(s) && PI.Quiet(s)
    ensures var t := P.Execute(isa, s, i);
            && (t.wire.flushE.Some? ==> PI.LivePipe2(s))
            && t.wire.flushW.None? && t.back.pipe4 == s.back.pipe4 && t.ep == s.ep
  {
    hide PI.Epochs, P.Read, P.Redirect, P.BodyOf;
    if s.dec.pipe2 != [] {
      assert s.dec.pipe2[0].pkt in PI.Upstream(s);
      PP.PacketCurrent(s, s.dec.pipe2[0].pkt);
    }
  }

  lemma CommitRedirects(isa: Isa, s: P.State, i: P.Input)
    requires s.wire.flushW.None?
    ensures var t := P.Commit(isa, s, i);
            && (t.wire.flushW.Some? ==> s.back.pipe4 != [] && s.back.pipe4[0].tag == s.ep.w5)
            && t.wire.flushE == s.wire.flushE
  {
  }

  lemma LaterRulesKeepWires(isa: Isa, s: P.State, csrs: Csrs, visible: bool, room: bool, i: P.Input)
    ensures var t := P.FetchOne(P.MemStage(P.CommitRd(P.Decode(isa, s, csrs, i)), visible, i), room, i);
            t.wire.flushE == s.wire.flushE && t.wire.flushW == s.wire.flushW
  {
  }

  /** A redirect comes from an instruction fetched after the last one. */
  lemma RedirectorIsCurrent(isa: Isa, s: P.State, i: P.Input)
    requires PI.Shape(s) && PI.EpochInv(s) && PI.Quiet(s)
    ensures var t := P.Rules(isa, s, i);
            && (t.wire.flushE.Some? ==> PI.LivePipe2(s))
            && (t.wire.flushW.Some? ==> s.back.pipe4 != [] && s.back.pipe4[0].gen == s.hist.gen.w)
  {
    ExecuteRedirects(isa, s, i);
    var s1 := P.Execute(isa, s, i);
    CommitRedirects(isa, s1, i);
    LaterRulesKeepWires(isa, P.Commit(isa, s1, i), s.arch.csrs, s.back.pipe3 != [], |s.pipe1| < 2, i);
    if s.back.pipe4 != [] {
      assert PI.InFlight(s)[0] == s.back.pipe4[0];
      hide PI.Epochs;
      PP.ExeCurrent(s, s.back.pipe4[0]);
    }
    hide PI.EpochInv, P.Execute, P.Commit, P.Decode, P.CommitRd, P.MemStage, P.FetchOne;
  }

  // -------- nothing in the pipe is newer than what stage 1 last handed over --------

  lemma DeliveredExecute(isa: Isa, s: P.State, i: P.Input, d: Gen)
    requires Delivered(s, d) && PI.Shape(s)
    ensures var t := P.Execute(isa, s, i);
            Delivered(t, d) && t.hist == s.hist && t.pipe1 == s.pipe1 && |t.dec.pipe2| <= 1
  {
    hide P.Read, P.Redirect, P.BodyOf;
    var t := P.Execute(isa, s, i);
    forall k | k in PI.Upstream(t) ensures k in PI.Upstream(s) {}
    forall x | x in PI.InFlight(t)
      ensures x in PI.InFlight(s) || (s.dec.pipe2 != [] && x.gen == s.dec.pipe2[0].pkt.gen.w) {}
    assert s.dec.pipe2 != [] ==> s.dec.pipe2[0].pkt in PI.Upstream(s);
  }

  lemma DeliveredCommit(isa: Isa, s: P.State, i: P.Input, d: Gen)
    requires Delivered(s, d)
    ensures var t := P.Commit(isa, s, i);
            Delivered(t, d) && t.hist.gen == s.hist.gen && t.pipe1 == s.pipe1 && t.dec == s.dec
  {
    var t := P.Commit(isa, s, i);
    assert t.back == s.back || t.back == s.back.(pipe4 := []);
    assert t.hist.gen == s.hist.gen && t.pipe1 == s.pipe1 && t.dec == s.dec;
    hide P.Commit;
    forall k | k in PI.Upstream(t) ensures k in PI.Upstream(s) {}
    forall x | x in PI.InFlight(t) ensures x in PI.InFlight(s) {}
  }

  lemma DeliveredDecode(isa: Isa, s: P.State, csrs: Csrs, i: P.Input, d: Gen)
    requires Delivered(s, d)
    ensures var t := P.CommitRd(P.Decode(isa, s, csrs, i));
            Delivered(t, d) && t.hist.gen == s.hist.gen
  {
    hide P.DecodeInst, P.WantsRerun;
    var t := P.CommitRd(P.Decode(isa, s, csrs, i));
    assert PI.InFlight(t) == PI.InFlight(s);
    forall k | k in PI.Upstream(t) ensures k in PI.Upstream(s) {}
  }

  lemma DeliveredMem(s: P.State, visible: bool, i: P.Input, d: Gen)
    requires Delivered(s, d)
    ensures var t := P.MemStage(s, visible, i);
            Delivered(t, d) && t.hist.gen == s.hist.gen
  {
    var t := P.MemStage(s, visible, i);
    assert PI.Upstream(t) == PI.Upstream(s);
    forall x | x in PI.InFlight(t)
      ensures exists y <- PI.InFlight(s) :: y.gen == x.gen
    {
      if t != s {
        assert s.back.pipe3[0] in PI.InFlight(s);
      }
      assert x in PI.InFlight(s) || x.gen == s.back.pipe3[0].gen;
    }
  }

  lemma DeliveredFetch(s: P.State, room: bool, i: P.Input, d: Gen)
    requires Delivered(s, d)
    ensures var t := P.FetchOne(s, room, i);
            Delivered(t, if i.fetch.Some? && room then s.hist.gen else d) && t.hist.gen == s.hist.gen
  {
    var t := P.FetchOne(s, room, i);
    assert PI.InFlight(t) == PI.InFlight(s);
    forall k | k in PI.Upstream(t) ensures k in PI.Upstream(s) || k.gen == s.hist.gen {}
  }

  lemma DeliveredFlush(s: P.State, d: Gen)
    requires Delivered(s, d) && PI.EpochInv(s)
    ensures Delivered(P.Flush(s), d)
  {
    var t := P.Flush(s);
    assert PI.InFlight(t) == PI.InFlight(s) && PI.Upstream(t) == PI.Upstream(s);
    forall k | k in PI.Upstream(s) ensures Handover(k.gen, d, t.hist.gen) {
      assert PI.PacketNear(k, s.hist.gen) && Handover(k.gen, d, s.hist.gen);
    }
    forall x | x in PI.InFlight(s) && x.gen == t.hist.gen.w ensures d.w == t.hist.gen.w {
      assert PI.ExeNear(x, s.hist.gen.w);
    }
  }

  lemma DeliveredRules(isa: Isa, s: P.State, i: P.Input, d: Gen)
    requires Delivered(s, d) && PI.Shape(s)
    ensures var t := P.Rules(isa, s, i);
            Delivered(t, if i.fetch.Some? && |s.pipe1| < 2 then s.hist.gen else d) && t.hist.gen == s.hist.gen
  {
    hide Delivered, P.Execute, P.Commit, P.Decode, P.CommitRd, P.MemStage, P.FetchOne;
    var s1 := P.Execute(isa, s, i);
    DeliveredExecute(isa, s, i, d);
    var s2 := P.Commit(isa, s1, i);
    DeliveredCommit(isa, s1, i, d);
    var s4 := P.CommitRd(P.Decode(isa, s2, s.arch.csrs, i));
    DeliveredDecode(isa, s2, s.arch.csrs, i, d);
    var s5 := P.MemStage(s4, s.back.pipe3 != [], i);
    DeliveredMem(s4, s.back.pipe3 != [], i, d);
    DeliveredFetch(s5, |s.pipe1| < 2, i, d);
  }

  // -------- one cycle --------

  lemma FetchedPc(isa: Isa, s: P.State, i: P.Input)
    ensures var r := P.Rules(isa, s, i);
            && r.hist.fpc == (if i.fetch.Some? && |s.pipe1| < 2 then i.fetch.value.npc else s.hist.fpc)
            && P.Flush(r).hist.fpc == (if r.wire.flushW.Some? then r.wire.flushW.value
                                       else if r.wire.flushE.Some? then r.wire.flushE.value else r.hist.fpc)
  {
    hide P.Read, P.Redirect, P.BodyOf, P.DecodeInst, P.WantsRerun;
    var s1 := P.Execute(isa, s, i);
    assert s1.hist.fpc == s.hist.fpc;
    hide P.Execute;
    var s2 := P.Commit(isa, s1, i);
    assert s2.hist.fpc == s.hist.fpc;
    hide P.Commit;
    var s3 := P.Decode(isa, s2, s.arch.csrs, i);
    assert s3.hist.fpc == s.hist.fpc;
    hide P.Decode;
  }

  lemma BackContract(isa: Isa, code: F.Code, c: Chip, i: Input)
    requires Runs(isa, code) && FP.FeInv(code, c.fe) && c.fe.next == c.be.hist.fpc
    requires PP.MemoryAnswers(isa, c.be, BackInput(code, c, i))
    ensures PP.InputOk(isa, c.be, BackInput(code, c, i))
  {
    hide Runs, PI.DeliveryOk, F.InstrAt, PP.MemoryAnswers, FP.FeInv, F.Stage1;
    match Handed(code, c, i) {
      case None =>
      case Some(x) =>
        HandedFollows(code, c, i);
        HandedIsDelivery(isa, code, c.be.hist.fpc, x);
    }
  }

  lemma HandedFollows(code: F.Code, c: Chip, i: Input)
    requires FP.FeInv(code, c.fe) && Handed(code, c, i).Some?
    ensures F.InstrAt(code, c.fe.next, Handed(code, c, i).value)
  {
    hide FP.FeInv, F.InstrAt;
    assert Fires(c, i) && c.fe.queue != [];
    assert F.Stage1(code, c.fe, F.Input(true, None, false, false, 0)) == F.Stage1(code, c.fe, FP.FIRE);
    FP.ProcessKeeps(code, c.fe);
  }

  lemma SameHanded(code: F.Code, c: Chip, i: Input, fi: F.Input)
    requires fi.process == Fires(c, i)
    ensures F.Stage1(code, c.fe, fi) == F.Stage1(code, c.fe, F.Input(Fires(c, i), None, false, false, 0))
    ensures var (f, out) := F.Stage1(code, c.fe, fi);
            && out == Handed(code, c, i) && f.gen == c.fe.gen
            && f.emitted == if out.Some? then c.fe.gen else c.fe.emitted
    ensures Handed(code, c, i).Some? ==> |c.be.pipe1| < 2
  {
  }

  lemma CycleFrame(code: F.Code, f: F.Fe, i: F.Input)
    ensures var g := F.Cycle(code, f, i).0;
            g.emitted == F.Stage1(code, f, i).0.emitted && g.gen == Advance(F.Stage1(code, f, i).0.gen, i.e, i.w)
  {
    hide F.Stage1;
  }

  /** One cycle of the whole core. */
  lemma ChipKeeps(isa: Isa, code: F.Code, c: Chip, i: Input, a: Arch) returns (a': Arch)
    requires Runs(isa, code) && ChipInv(isa, code, c, a) && InputOk(isa, code, c, i)
    ensures var d := Cycle(isa, code, c, i);
            ChipInv(isa, code, d, a') && PP.Extends(isa, c.be, a, d.be, a')
  {
    var bi := BackInput(code, c, i);
    BackContract(isa, code, c, i);
    a' := PP.RulesKeep(isa, c.be, bi, a);
    var s := P.Rules(isa, c.be, bi);
    var fi := FrontInput(c, i, s.wire);
    RedirectorIsCurrent(isa, c.be, bi);
    DeliveredRules(isa, c.be, bi, c.fe.emitted);
    FetchedPc(isa, c.be, bi);
    SameHanded(code, c, i, fi);
    RedirectsAllowed(code, c, i, fi, s);
    hide Runs, FP.PredictorOk, FP.LiveEnd, FP.FeInv, P.Rules, F.Stage1, PP.Extends, F.InstrAt, PP.MemoryAnswers;
    hide Delivered, PI.Epochs, PI.Flow, PI.Shape, PI.OperandsOk, PI.Predicted, PI.Synced;
    FP.CycleKeeps(code, c.fe, fi);
    CycleFrame(code, c.fe, fi);
    DeliveredFlush(s, F.Cycle(code, c.fe, fi).0.emitted);
    PP.FlushKeeps(isa, s, a');
  }

  lemma RedirectsAllowed(code: F.Code, c: Chip, i: Input, fi: F.Input, s: P.State)
    requires Delivered(c.be, c.fe.emitted) && c.fe.gen == c.be.hist.gen && fi == FrontInput(c, i, s.wire)
    requires s.wire.flushE.Some? ==> PI.LivePipe2(c.be)
    requires s.wire.flushW.Some? ==> c.be.back.pipe4 != [] && c.be.back.pipe4[0].gen == c.be.hist.gen.w
    ensures FP.RedirectOk(F.Stage1(code, c.fe, fi).0, fi)
  {
    SameHanded(code, c, i, fi);
    if s.wire.flushE.Some? {
      assert c.be.dec.pipe2[0].pkt in PI.Upstream(c.be);
    }
    if s.wire.flushW.Some? {
      assert PI.InFlight(c.be)[0] == c.be.back.pipe4[0];
    }
  }

  // -------- whole runs --------

  predicate RunOk(isa: Isa, code: F.Code, c: Chip, ins: seq<Input>) {
    forall n | 0 <= n < |ins| :: InputOk(isa, code, Run(isa, code, c, ins[..n]), ins[n])
  }

  lemma ResetInv(isa: Isa, code: F.Code, a: Arch)
    ensures ChipInv(isa, code, Reset(a), a) && Reset(a).be.hist.trace == []
  {
    PP.ResetInv(isa, a);
    FP.ResetInv(code, a.pc);
    hide PI.Inv, FP.FeInv;
    assert PI.Upstream(Reset(a).be) == [] && PI.InFlight(Reset(a).be) == [];
  }

  lemma RunOkPrefix(isa: Isa, code: F.Code, c: Chip, ins: seq<Input>)
    requires RunOk(isa, code, c, ins) && ins != []
    ensures var n := |ins| - 1;
            RunOk(isa, code, c, ins[..n]) && InputOk(isa, code, Run(isa, code, c, ins[..n]), ins[n])
  {
    hide InputOk, Run;
    assert forall m | 0 <= m < |ins| - 1 :: ins[..|ins| - 1][..m] == ins[..m];
  }

  lemma {:induction false} RunKeeps(isa: Isa, code: F.Code, a: Arch, ins: seq<Input>)
    requires Runs(isa, code) && RunOk(isa, code, Reset(a), ins)
    ensures var c := Run(isa, code, Reset(a), ins);
            Legal(isa, a, c.be.hist.trace) && ChipInv(isa, code, c, Final(isa, a, c.be.hist.trace))
    decreases |ins|
  {
    if ins == [] {
      ResetInv(isa, code, a);
    } else {
      hide Runs, ChipInv, Cycle, InputOk, Permits, Follow, Legal, Final, PP.Extends, Reset;
      var n := |ins| - 1;
      RunOkPrefix(isa, code, Reset(a), ins);
      hide RunOk;
      RunKeeps(isa, code, a, ins[..n]);
      var c := Run(isa, code, Reset(a), ins[..n]);
      assert Run(isa, code, Reset(a), ins) == Cycle(isa, code, c, ins[n]);
      hide Run;
      var a' := ChipKeeps(isa, code, c, ins[n], Final(isa, a, c.be.hist.trace));
      PP.TraceExtends(isa, a, c.be, Cycle(isa, code, c, ins[n]).be, a');
    }
  }

  /** The whole core, from next-PC generation to write-back, refines the one-at-a-time machine on the
      program in memory, for any guesses of the predictor and any timing. */
  lemma WholeCoreRefinement(isa: Isa, code: F.Code, a: Arch, ins: seq<Input>)
    requires Runs(isa, code) && RunOk(isa, code, Reset(a), ins)
    ensures var s := Run(isa, code, Reset(a), ins).be;
            var b := Final(isa, a, s.hist.trace);
            Legal(isa, a, s.hist.trace) && s.arch.rf == b.rf && s.arch.csrs == b.csrs && s.arch.mem == b.mem
  {
    RunKeeps(isa, code, a, ins);
    hide Legal, Final, Run, FP.FeInv, Delivered, PI.EpochInv, PI.Flow, PI.Predicted;
  }

  /** In every reachable state, and for words as for instructions, a tag matches a stage's copy exactly
      when its bearer was fetched after the last redirect. */
  lemma EpochBitsSufficeEverywhere(isa: Isa, code: F.Code, a: Arch, ins: seq<Input>)
    requires Runs(isa, code) && RunOk(isa, code, Reset(a), ins)
    ensures var c := Run(isa, code, Reset(a), ins);
      && c.fe.tag == TagOf(c.be.hist.gen)
      && (forall r <- c.fe.queue :: r.tag == c.fe.tag <==> r.gen == c.be.hist.gen)
      && (forall k <- c.be.pipe1 :: k.tag == c.be.ep.ep2 <==> k.gen == c.be.hist.gen)
      && (forall m <- c.be.dec.pipe2 :: m.pkt.tag == c.be.ep.ep3 <==> m.pkt.gen == c.be.hist.gen)
      && (forall x <- c.be.back.pipe3 + c.be.back.pipe4 :: x.tag == c.be.ep.w5 <==> x.gen == c.be.hist.gen.w)
  {
    RunKeeps(isa, code, a, ins);
    hide Runs, Run, Legal, Final, Reset, RunOk;
    var c := Run(isa, code, Reset(a), ins);
    TagsTellInChip(isa, code, c, Final(isa, a, c.be.hist.trace));
  }

  lemma TagsTellInChip(isa: Isa, code: F.Code, c: Chip, a: Arch)
    requires ChipInv(isa, code, c, a)
    ensures
      && c.fe.tag == TagOf(c.be.hist.gen)
      && (forall r <- c.fe.queue :: r.tag == c.fe.tag <==> r.gen == c.be.hist.gen)
      && (forall k <- c.be.pipe1 :: k.tag == c.be.ep.ep2 <==> k.gen == c.be.hist.gen)
      && (forall m <- c.be.dec.pipe2 :: m.pkt.tag == c.be.ep.ep3 <==> m.pkt.gen == c.be.hist.gen)
      && (forall x <- c.be.back.pipe3 + c.be.back.pipe4 :: x.tag == c.be.ep.w5 <==> x.gen == c.be.hist.gen.w)
  {
    hide PI.Flow, PI.Predicted, Delivered, FP.PathOk, PI.OperandsOk, PI.Synced;
    PP.MatchingTagsAreCurrent(c.be);
    hide PI.Inv;
    forall r | r in c.fe.queue ensures r.tag == c.fe.tag <==> r.gen == c.be.hist.gen {
      assert FP.GenOk(r.gen, c.fe);
    }
  }

  /** With counters for both kinds of redirect, every tag in the core is at most one redirect old, also
      when execute and write-back redirect in the same cycle. */
  lemma TagsAtMostOneRedirectOld(isa: Isa, code: F.Code, a: Arch, ins: seq<Input>)
    requires Runs(isa, code) && RunOk(isa, code, Reset(a), ins)
    ensures var c := Run(isa, code, Reset(a), ins);
            var g := c.be.hist.gen;
      && (forall r <- c.fe.queue :: Near(r.gen.e, g.e) && Near(r.gen.w, g.w))
      && (forall k <- PI.Upstream(c.be) :: Near(k.gen.e, g.e) && Near(k.gen.w, g.w))
      && (forall x <- PI.InFlight(c.be) :: Near(x.gen, g.w))
  {
    RunKeeps(isa, code, a, ins);
    hide Runs, Run, Legal, Final, Reset, RunOk;
    var c := Run(isa, code, Reset(a), ins);
    GensNear(isa, code, c, Final(isa, a, c.be.hist.trace));
  }

  lemma GensNear(isa: Isa, code: F.Code, c: Chip, a: Arch)
    requires ChipInv(isa, code, c, a)
    ensures forall r <- c.fe.queue :: Near(r.gen.e, c.be.hist.gen.e) && Near(r.gen.w, c.be.hist.gen.w)
    ensures forall k <- PI.Upstream(c.be) :: Near(k.gen.e, c.be.hist.gen.e) && Near(k.gen.w, c.be.hist.gen.w)
    ensures forall x <- PI.InFlight(c.be) :: Near(x.gen, c.be.hist.gen.w)
  {
    hide PI.Flow, PI.Predicted, Delivered, FP.PathOk, PI.OperandsOk, PI.Synced, PI.Upstream, PI.InFlight;
    forall r | r in c.fe.queue ensures FP.GenOk(r.gen, c.fe) {}
    forall k | k in PI.Upstream(c.be) ensures PI.PacketNear(k, c.be.hist.gen) {}
    forall x | x in PI.InFlight(c.be) ensures PI.ExeNear(x, c.be.hist.gen.w) {}
  }
}
