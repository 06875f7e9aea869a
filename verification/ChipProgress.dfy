/** The whole core is never stuck: from every reachable state, so many cycles in which the surroundings
    cooperate, in a row or not, retire an event. */
module ChipProgress {
  import opened Options
  import opened EpochTags
  import opened Isa
  import opened Chip
  import opened ChipProof
  import F = Frontend
  import FP = FrontendProof
  import P = Pipeline
  import PI = PipelineInvariant
  import PP = PipelineProof
  import PG = PipelineProgress

  // -------- stages 0 and 1 --------

  /** The words that stage 1 will throw away. */
  function Outdated(rs: seq<F.Request>, t: Tag): nat {
    if rs == [] then 0 else (if rs[0].tag == t then 0 else 1) + Outdated(rs[1..], t)
  }

  lemma {:induction false} OutdatedSnoc(rs: seq<F.Request>, r: F.Request, t: Tag)
    requires r.tag == t
    ensures Outdated(rs + [r], t) == Outdated(rs, t)
  {
    if rs == [] {
      assert [r][1..] == [];
    } else {
      assert (rs + [r])[1..] == rs[1..] + [r];
      OutdatedSnoc(rs[1..], r, t);
    }
  }

  lemma {:induction false} OutdatedBound(rs: seq<F.Request>, t: Tag)
    ensures Outdated(rs, t) <= |rs|
  {
    if rs != [] {
      OutdatedBound(rs[1..], t);
    }
  }

  /** How far stage 1 is from its next instruction: words to throw away, a half to save, a word to come. */
  function Distance(f: F.Fe): nat {
    4 * Outdated(f.queue, f.tag)
      + (if f.checkPrev && f.prev.tag == f.tag then 0 else 2)
      + (if f.queue == [] then 1 else 0)
  }

  lemma RequestNearer(f: F.Fe, p: F.Prediction)
    ensures var g := F.GenNextPc(f, p);
      && g.queue != [] && Outdated(g.queue, g.tag) == Outdated(f.queue, f.tag)
      && g.tag == f.tag && g.checkPrev == f.checkPrev && g.prev == f.prev
  {
    OutdatedSnoc(f.queue, F.Request(F.Base(f.pc), f.pc % 2 == 1, p.btb, f.tag, f.gen), f.tag);
  }

  /** A cycle without a redirect hands over an instruction, or comes nearer to one, or stands still; it
      comes nearer if stage 1 may fire and stage 0 may request. */
  lemma FrontDrives(code: F.Code, f: F.Fe, i: F.Input)
    requires |f.queue| <= 3 && !i.e && !i.w
    ensures var (g, out) := F.Cycle(code, f, i);
      || out.Some?
      || Distance(g) < Distance(f)
      || (Distance(g) == Distance(f) && !(i.process && i.request.Some?))
  {
    hide F.GenNextPc;
    var (f1, out) := F.Stage1(code, f, i);
    if i.request.Some? {
      RequestNearer(f1, i.request.value);
    }
  }

  lemma QueueShort(code: F.Code, f: F.Fe, i: F.Input)
    requires |f.queue| <= 3
    ensures |F.Cycle(code, f, i).0.queue| <= 3
  {
    hide F.Process, F.GenNextPc;
    if i.process && f.queue != [] {
      ProcessShortens(code, f);
    }
    var f1 := F.Stage1(code, f, i).0;
    if i.request.Some? {
      RequestLengthens(f1, i.request.value);
    }
  }

  lemma ProcessShortens(code: F.Code, f: F.Fe)
    requires f.queue != []
    ensures |F.Process(code, f).0.queue| <= |f.queue|
  {
  }

  lemma RequestLengthens(f: F.Fe, p: F.Prediction)
    ensures |F.GenNextPc(f, p).queue| == |f.queue| + 1
  {
  }

  lemma DistanceBound(f: F.Fe)
    requires |f.queue| <= 3
    ensures Distance(f) < 16
  {
    OutdatedBound(f.queue, f.tag);
  }

  // -------- one cycle of everything --------

  /** Every stage may move, the next word is there, and stage 0 may request another. */
  predicate Cooperative(i: Input) { i.word && i.request.Some? && PG.Cooperative(i.rest) }

  /** What progress needs beyond `ChipInv`. */
  predicate Ready(c: Chip) { PG.StallInv(c.be) && |c.fe.queue| <= 3 }

  function Total(c: Chip): int { 16 * PG.Total(c.be) + if PI.LiveExe(c.be) == [] then Distance(c.fe) else 0 }

  lemma ReadyKept(isa: Isa, code: F.Code, c: Chip, i: Input, a: Arch)
    requires Runs(isa, code) && ChipInv(isa, code, c, a) && InputOk(isa, code, c, i) && Ready(c)
    ensures Ready(Cycle(isa, code, c, i))
  {
    hide Runs, FP.PredictorOk, FP.LiveEnd, FP.FeInv, F.Cycle, PI.Inv, PG.StallInv, PP.InputOk;
    hide PP.MemoryAnswers, P.Rules;
    BackContract(isa, code, c, i);
    PG.StallInvKept(isa, c.be, BackInput(code, c, i), a);
    QueueShort(code, c.fe, FrontInput(c, i, P.Rules(isa, c.be, BackInput(code, c, i)).wire));
  }

  /** One cycle of the core retires an event, or brings the next one nearer, or stands still for want of
      cooperation. */
  lemma CycleFalls(isa: Isa, code: F.Code, c: Chip, i: Input, a: Arch)
    requires Runs(isa, code) && ChipInv(isa, code, c, a) && InputOk(isa, code, c, i) && Ready(c)
    ensures var d := Cycle(isa, code, c, i);
      || |d.be.hist.trace| > |c.be.hist.trace|
      || Total(d) < Total(c)
      || (Total(d) == Total(c) && !Cooperative(i))
  {
    hide Runs, FP.PredictorOk, FP.LiveEnd, FP.FeInv, F.Cycle, F.Stage1, PI.Inv, PG.StallInv, PP.InputOk;
    hide PP.MemoryAnswers, P.Rules, PG.Total, Distance, Delivered, PI.LiveExe;
    var bi := BackInput(code, c, i);
    BackContract(isa, code, c, i);
    PG.CycleFalls(isa, c.be, bi, a);
    var u := P.Rules(isa, c.be, bi);
    var fi := FrontInput(c, i, u.wire);
    QueueShort(code, c.fe, fi);
    DistanceBound(c.fe);
    DistanceBound(F.Cycle(code, c.fe, fi).0);
    SameHanded(code, c, i, fi);
    if PG.Stands(c.be, u, bi.fetch.Some?, PG.Cooperative(bi)) && PI.LiveExe(c.be) == [] {
      FrontDrives(code, c.fe, fi);
      OutOfStage1(code, c.fe, fi);
    }
  }

  lemma OutOfStage1(code: F.Code, f: F.Fe, i: F.Input)
    ensures F.Cycle(code, f, i).1 == F.Stage1(code, f, i).1
  {
    hide F.Stage1;
  }

  // -------- whole runs --------

  lemma ResetReady(a: Arch)
    ensures Ready(Reset(a))
  {
    assert PI.InFlight(Reset(a).be) == [];
  }

  lemma {:induction false} RunReady(isa: Isa, code: F.Code, a: Arch, ins: seq<Input>)
    requires Runs(isa, code) && RunOk(isa, code, Reset(a), ins)
    ensures Ready(Run(isa, code, Reset(a), ins))
    decreases |ins|
  {
    hide Runs, ChipInv, Cycle, InputOk, Legal, Final, Ready, Reset;
    if ins == [] {
      ResetReady(a);
    } else {
      var n := |ins| - 1;
      RunOkPrefix(isa, code, Reset(a), ins);
      hide RunOk;
      RunKeeps(isa, code, a, ins[..n]);
      RunReady(isa, code, a, ins[..n]);
      var c := Run(isa, code, Reset(a), ins[..n]);
      ReadyKept(isa, code, c, ins[n], Final(isa, a, c.be.hist.trace));
    }
  }

  /** In how many of these cycles the surroundings cooperate. */
  function Helped(ins: seq<Input>): nat {
    if ins == [] then 0
    else Helped(ins[..|ins| - 1]) + if Cooperative(ins[|ins| - 1]) then 1 else 0
  }

  lemma {:induction false} RunFalls(isa: Isa, code: F.Code, a: Arch, ins: seq<Input>, n: nat)
    requires Runs(isa, code) && RunOk(isa, code, Reset(a), ins) && n <= |ins|
    ensures var c, d := Run(isa, code, Reset(a), ins[..n]), Run(isa, code, Reset(a), ins);
      || |d.be.hist.trace| > |c.be.hist.trace|
      || (|d.be.hist.trace| == |c.be.hist.trace| && Total(d) + Helped(ins[n..]) <= Total(c))
    decreases |ins|
  {
    hide Runs, ChipInv, Cycle, InputOk, Legal, Final, Ready, Reset, Total, Cooperative, Permits, Follow;
    if n == |ins| {
      assert ins[..n] == ins;
    } else {
      var k := |ins| - 1;
      RunOkPrefix(isa, code, Reset(a), ins);
      hide RunOk;
      assert ins[..k][..n] == ins[..n] && ins[n..][..|ins[n..]| - 1] == ins[..k][n..];
      RunFalls(isa, code, a, ins[..k], n);
      RunKeeps(isa, code, a, ins[..k]);
      RunReady(isa, code, a, ins[..k]);
      var c := Run(isa, code, Reset(a), ins[..k]);
      assert Run(isa, code, Reset(a), ins) == Cycle(isa, code, c, ins[k]);
      hide Run;
      var b := Final(isa, a, c.be.hist.trace);
      CycleFalls(isa, code, c, ins[k], b);
      var b' := ChipKeeps(isa, code, c, ins[k], b);
    }
  }

  const LIMIT := 32 * PG.LIMIT

  lemma TotalBound(isa: Isa, code: F.Code, c: Chip, a: Arch)
    requires ChipInv(isa, code, c, a) && Ready(c)
    ensures 0 <= Total(c) < LIMIT
  {
    hide FP.FeInv, Delivered, PI.EpochInv, PI.Flow, PI.Predicted, PG.Measure, PG.GoesOn, PG.StallInv, Distance;
    PG.MeasureBound(c.be);
    DistanceBound(c.fe);
  }

  /** The whole core is never stuck: any part of any run that has this many cycles in which the
      surroundings cooperate, in a row or not, retires at least one event. */
  lemma Progress(isa: Isa, code: F.Code, a: Arch, ins: seq<Input>, n: nat)
    requires Runs(isa, code) && RunOk(isa, code, Reset(a), ins)
    requires n <= |ins| && Helped(ins[n..]) >= LIMIT
    ensures |Run(isa, code, Reset(a), ins).be.hist.trace| > |Run(isa, code, Reset(a), ins[..n]).be.hist.trace|
  {
    hide Runs, ChipInv, InputOk, Legal, Final, Ready, Reset, Total, Cooperative, Run, Helped;
    assert RunOk(isa, code, Reset(a), ins[..n]) by {
      assert forall m | 0 <= m < n :: ins[..n][..m] == ins[..m];
    }
    RunFalls(isa, code, a, ins, n);
    var c, d := Run(isa, code, Reset(a), ins[..n]), Run(isa, code, Reset(a), ins);
    RunKeeps(isa, code, a, ins[..n]);
    RunReady(isa, code, a, ins[..n]);
    TotalBound(isa, code, c, Final(isa, a, c.be.hist.trace));
    RunKeeps(isa, code, a, ins);
    RunReady(isa, code, a, ins);
    TotalBound(isa, code, d, Final(isa, a, d.be.hist.trace));
  }
}
