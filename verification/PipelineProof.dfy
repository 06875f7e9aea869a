/** Every rule keeps the invariant, and a committed trace is a trace of the sequential machine. */
module PipelineProof {
  import opened Options
  import opened Isa
  import opened EpochTags
  import opened Pipeline
  import opened PipelineInvariant

  // -------- the current path under the moves the rules make --------

  /** Execute hands on `x`; `redirect` is what it announces. */
  lemma AheadIssue(isa: Isa, a: Arch, xs: seq<Exe>, f: Front, x: Exe, redirect: Option<Word>)
    requires Ahead(isa, a, xs, f) && f.redirect.None? && f.head.Some? && f.path != []
    requires x.body.Csr? ==> f.rerun
    requires redirect.Some? ==> f.head.value.Oper? && !x.body.Csr?
    requires After(isa, a, xs).Some? ==>
               var b := After(isa, a, xs).value;
               && Agrees(isa, b, x)
               && (!Diverts(isa, b, x) ==>
                     var npc := Step(isa, b).arch.pc;
                     if redirect.Some? then redirect.value == npc else Path(npc, f.path[1..], f.last))
    ensures Ahead(isa, a, xs + [x], f.(redirect := redirect, path := f.path[1..], head := None))
  {
    GoodSnoc(isa, a, xs, x);
  }

  lemma AheadRetire(isa: Isa, a: Arch, x: Exe, xs: seq<Exe>, f: Front)
    requires Ahead(isa, a, [x] + xs, f) && !Diverts(isa, a, x)
    ensures Ahead(isa, Step(isa, a).arch, xs, f)
  {
    assert ([x] + xs)[1..] == xs;
    assert forall y | y in xs :: y in [x] + xs;
  }

  lemma AheadDecode(isa: Isa, a: Arch, xs: seq<Exe>, f: Front, csrs: Csrs, irq: Option<nat>)
    requires Ahead(isa, a, xs, f) && f.redirect.None? && f.head.None? && f.path != [] && !f.stall
    requires f.path[0].bits == isa.fetch(f.path[0].pc)
    requires !f.rerun ==> csrs == a.csrs
    ensures var bits := f.path[0].bits;
            var inst := DecodeInst(isa, bits, csrs, f.rerun, irq);
            Ahead(isa, a, xs, f.(head := Some(inst), stall := inst.Except?,
                                 rerun := !f.rerun && WantsRerun(isa, bits, csrs)))
  {
    if After(isa, a, xs).Some? && !f.rerun {
      CsrsKept(isa, a, xs);
    }
  }

  /** Once a redirect is announced, nothing before execute matters. */
  lemma AheadRedirected(isa: Isa, a: Arch, xs: seq<Exe>, f: Front, g: Front)
    requires Ahead(isa, a, xs, f) && f.redirect.Some? && g.redirect == f.redirect
    ensures Ahead(isa, a, xs, g)
  {
  }

  lemma AheadAnswer(isa: Isa, a: Arch, x: Exe, y: Exe, xs: seq<Exe>, f: Front)
    requires Ahead(isa, a, [x] + xs, f)
    requires Agrees(isa, a, y) && Diverts(isa, a, y) == Diverts(isa, a, x) && x.body.Csr? == y.body.Csr?
    ensures Ahead(isa, a, [y] + xs, f)
  {
    assert ([x] + xs)[1..] == xs == ([y] + xs)[1..];
    assert x in [x] + xs && y in [y] + xs;
    assert forall z | z in xs :: z in [x] + xs && z in [y] + xs;
  }

  lemma AheadFetch(isa: Isa, a: Arch, xs: seq<Exe>, f: Front, k: Packet)
    requires Ahead(isa, a, xs, f) && k.pc == f.last
    ensures Ahead(isa, a, xs, f.(path := f.path + [k], last := k.npc))
  {
    if After(isa, a, xs).Some? && f.redirect.None? {
      PathSnoc(After(isa, a, xs).value.pc, f.path, k);
    }
  }

  lemma AheadFlushed(isa: Isa, a: Arch, xs: seq<Exe>, f: Front, g: Front)
    requires Ahead(isa, a, xs, f) && f.redirect == Some(g.last)
    requires g == Front(None, [], None, false, g.rerun, g.last)
    ensures Ahead(isa, a, xs, g)
  {
  }

  lemma AheadEmpty(isa: Isa, a: Arch, g: Front)
    requires g == Front(None, [], None, g.stall, g.rerun, a.pc)
    ensures Ahead(isa, a, [], g)
  {
  }

  // -------- tags --------

  lemma PacketCurrent(s: State, k: Packet)
    requires EpochInv(s) && k in Upstream(s)
    ensures k.tag == TagOf(s.hist.gen) <==> k.gen == s.hist.gen
    ensures k.tag == TagOf(k.gen)
  {
  }

  lemma ExeCurrent(s: State, x: Exe)
    requires EpochInv(s) && x in InFlight(s)
    ensures x.tag == s.ep.w5 <==> x.gen == s.hist.gen.w
  {
  }

  // -------- stage 3 --------

  /** The last of `xs` that writes register `r`. */
  function Youngest(xs: seq<Exe>, r: Reg): Option<Exe> {
    if xs == [] then None
    else
      var y := Youngest(xs[1..], r);
      if y.Some? then y else if r != 0 && xs[0].rd == r then Some(xs[0]) else None
  }

  lemma {:induction false} YoungestWrites(isa: Isa, a: Arch, xs: seq<Exe>, r: Reg)
    requires Good(isa, a, xs) && After(isa, a, xs).Some? && !HasCsr(xs)
    ensures match Youngest(xs, r)
            case None => After(isa, a, xs).value.rf[r] == a.rf[r]
            case Some(x) =>
              && (x.body.Regular? || x.body.Stored? || x.body.Access?)
              && (!x.body.Access? ==> After(isa, a, xs).value.rf[r] == x.body.value)
    decreases xs
  {
    if xs != [] {
      StepEffect(isa, a, xs[0]);
      assert forall y | y in xs[1..] :: y in xs;
      hide Step, Agrees;
      YoungestWrites(isa, Step(isa, a).arch, xs[1..], r);
    }
  }

  lemma {:induction false} YoungestConcat(xs: seq<Exe>, ys: seq<Exe>, r: Reg)
    ensures Youngest(xs + ys, r) == if Youngest(ys, r).Some? then Youngest(ys, r) else Youngest(xs, r)
  {
    if xs == [] {
      assert xs + ys == ys;
    } else {
      assert (xs + ys)[1..] == xs[1..] + ys;
      YoungestConcat(xs[1..], ys, r);
    }
  }

  /** What one buffer contributes: its only entry, if current and a writer of `r`. */
  lemma YoungestOfOne(xs: seq<Exe>, w: nat, r: Reg)
    requires |xs| <= 1
    ensures Youngest(Live(xs, w), r) ==
              if xs != [] && xs[0].gen == w && r != 0 && xs[0].rd == r then Some(xs[0]) else None
  {
    if xs != [] {
      assert xs[1..] == [] && [xs[0]] + [] == [xs[0]] && [xs[0]][1..] == [];
    }
  }

  /** pipe3 and pipe4 are shallow enough for their heads to be all there is to look at. */
  lemma ReadSeesYoungest(s: State, r: Reg)
    requires Shape(s) && EpochInv(s) && s.back.busy.None? && |s.back.pipe3| < 2
    ensures var (available, v) := Read(s, Fetched(s.arch.rf, r));
            match Youngest(LiveExe(s), r)
            case None => available && v == s.arch.rf[r]
            case Some(x) =>
              if x.body.Regular? || x.body.Stored? then available && v == x.body.value
              else x.body.Access? ==> !available
  {
    hide Epochs;
    var w := s.hist.gen.w;
    LiveConcat(s.back.pipe4, s.back.pipe3, w);
    assert InFlight(s) == s.back.pipe4 + s.back.pipe3;
    forall x | x in s.back.pipe4 || x in s.back.pipe3 ensures (x.tag == s.ep.wTop) == (x.gen == w) {
      ExeCurrent(s, x);
    }
    YoungestConcat(Live(s.back.pipe4, w), Live(s.back.pipe3, w), r);
    YoungestOfOne(s.back.pipe4, w, r);
    YoungestOfOne(s.back.pipe3, w, r);
    assert forall x | x in s.back.pipe3 :: !x.body.Stored?;
    hide Live, Youngest;
  }

  /** Operand bypass: an operand reported available has the value the register will hold once every
      older current instruction has retired. */
  lemma BypassIsTheRegisterFile(isa: Isa, s: State, a: Arch, r: Reg)
    requires Inv(isa, s, a) && Quiet(s)
    requires s.back.busy.None? && |s.back.pipe3| < 2
    requires !HasCsr(LiveExe(s)) && After(isa, a, LiveExe(s)).Some?
    ensures var (available, v) := Read(s, Fetched(s.arch.rf, r));
            available ==> v == After(isa, a, LiveExe(s)).value.rf[r]
  {
    hide After, Good, Step, Epochs, Predicted, Live, Read, Youngest;
    YoungestWrites(isa, a, LiveExe(s), r);
    ReadSeesYoungest(s, r);
  }

  /** What execute reads for a current instruction: the registers captured at decode, patched by every
      commit since and overridden by the bypass, are the registers of the sequential machine at that
      instruction, unless an older one still has to redirect. */
  lemma ExecuteReadsTheRegisterFile(isa: Isa, s: State, a: Arch, op: Op)
    requires Inv(isa, s, a) && Quiet(s) && s.back.busy.None? && |s.back.pipe3| < 2
    requires LivePipe2(s) && s.dec.pipe2[0].inst == Oper(op) && After(isa, a, LiveExe(s)).Some?
    ensures var (available1, v1) := Read(s, s.dec.op1);
            available1 ==> v1 == After(isa, a, LiveExe(s)).value.rf[op.rs1]
    ensures var (available2, v2) := Read(s, s.dec.op2);
            available2 ==> v2 == After(isa, a, LiveExe(s)).value.rf[op.rs2]
  {
    hide After, Good, Step, Epochs, Predicted, Live, Read;
    BypassIsTheRegisterFile(isa, s, a, op.rs1);
    BypassIsTheRegisterFile(isa, s, a, op.rs2);
  }

  /** The head of pipe2 is current: then so is everything behind it. */
  lemma CurrentHead(s: State)
    requires EpochInv(s) && LivePipe2(s)
    ensures LivePackets(Upstream(s), s.hist.gen) == Upstream(s) == [s.dec.pipe2[0].pkt] + s.pipe1
    ensures LivePackets(s.pipe1, s.hist.gen) == s.pipe1
  {
    var k := s.dec.pipe2[0].pkt;
    forall l | l in s.pipe1 ensures l.gen == s.hist.gen {
      var i :| 0 <= i < |s.pipe1| && s.pipe1[i] == l;
      assert Upstream(s)[0] == k && Upstream(s)[i + 1] == l;
    }
    AllPacketsLive(s.pipe1, s.hist.gen);
    AllPacketsLive(Upstream(s), s.hist.gen);
  }

  lemma PredictedSnoc(isa: Isa, ks: seq<Packet>, k: Packet)
    requires Predicted(isa, ks) && DeliveryOk(isa, k.pc, Delivery(k.bits, k.taken, k.npc))
    ensures Predicted(isa, ks + [k])
  {
  }

  lemma PredictedSub(isa: Isa, ks: seq<Packet>, ls: seq<Packet>)
    requires Predicted(isa, ls) && forall k <- ks :: k in ls
    ensures Predicted(isa, ks)
  {
  }

  lemma Dropped(s: State)
    requires s.dec.pipe2 != [] && !LivePipe2(s)
    ensures var t := s.(dec := s.dec.(pipe2 := []));
      && Upstream(s) == [s.dec.pipe2[0].pkt] + s.pipe1 && Upstream(t) == s.pipe1
      && InFlight(t) == InFlight(s) && FrontOf(t) == FrontOf(s)
  {
    var k := s.dec.pipe2[0].pkt;
    PacketsConcat([k], s.pipe1, s.hist.gen);
    assert [k][1..] == [];
  }

  /** Dropping the outdated instruction at the head of pipe2. */
  lemma DropKeeps(isa: Isa, s: State, a: Arch)
    requires Inv(isa, s, a) && Quiet(s) && s.dec.pipe2 != [] && !LivePipe2(s)
    ensures Inv(isa, s.(dec := s.dec.(pipe2 := [])), a)
  {
    hide Ahead, Epochs, Predicted, Live, LivePackets, InFlight, Upstream, FrontOf;
    Dropped(s);
    EpochsDrop(InFlight(s), s.dec.pipe2[0].pkt, s.pipe1, s.hist.gen, false, false);
    PredictedSub(isa, s.pipe1, Upstream(s));
  }

  /** What `x` leaves behind and what it joins. */
  lemma Issued(s: State, x: Exe, t: State)
    requires EpochInv(s) && Quiet(s) && s.back.busy.None? && LivePipe2(s) && x.gen == s.hist.gen.w
    requires if t.back.busy.Some? then t.back.busy.value == x && t.back.pipe3 == s.back.pipe3
             else t.back.pipe3 == s.back.pipe3 + [x]
    requires t == s.(dec := s.dec.(pipe2 := []), back := s.back.(pipe3 := t.back.pipe3, busy := t.back.busy),
                     wire := s.wire.(flushE := t.wire.flushE))
    ensures InFlight(t) == InFlight(s) + [x] && LiveExe(t) == LiveExe(s) + [x]
    ensures Upstream(s) == [s.dec.pipe2[0].pkt] + s.pipe1 && Upstream(t) == s.pipe1
    ensures FrontOf(s).path == Upstream(s)
    ensures FrontOf(t) == FrontOf(s).(redirect := t.wire.flushE, path := Upstream(s)[1..], head := None)
  {
    CurrentHead(s);
    hide Epochs, LivePackets;
    assert InFlight(t) == InFlight(s) + [x] && Upstream(t) == s.pipe1;
    LiveConcat(InFlight(s), [x], s.hist.gen.w);
    assert [x][1..] == [];
  }

  /** Handing on `x`, which leaves pipe2 for pipe3 or for the multi-cycle unit. */
  lemma IssueKeeps(isa: Isa, s: State, a: Arch, x: Exe, t: State)
    requires Inv(isa, s, a) && Quiet(s) && s.back.busy.None? && |s.back.pipe3| < 2 && LivePipe2(s)
    requires x.gen == s.hist.gen.w && x.tag == TagOf(s.hist.gen).w && !x.body.Stored?
    requires if t.back.busy.Some? then x.body.Regular? && t.back.busy.value == x && t.back.pipe3 == s.back.pipe3
             else t.back.pipe3 == s.back.pipe3 + [x]
    requires t == s.(dec := s.dec.(pipe2 := []), back := s.back.(pipe3 := t.back.pipe3, busy := t.back.busy),
                     wire := s.wire.(flushE := t.wire.flushE))
    requires CurrentHeadIssues(isa, s, a, x, t.wire.flushE)
    ensures Inv(isa, t, a)
  {
    hide Ahead, After, Step, Diverts, Agrees, Epochs, Predicted, Path, Live, LivePackets, InFlight;
    Issued(s, x, t);
    var f := FrontOf(s);
    assert f.path[1..] == s.pipe1;
    EpochsIssue(InFlight(s), s.dec.pipe2[0].pkt, s.pipe1, s.hist.gen, x, t.wire.flushE.Some?);
    hide Upstream, LiveExe;
    AheadIssue(isa, a, LiveExe(s), f, x, t.wire.flushE);
    PredictedSub(isa, s.pipe1, Upstream(s));
  }

  ghost predicate CurrentHeadIssues(isa: Isa, s: State, a: Arch, x: Exe, redirect: Option<Word>)
    requires LivePipe2(s)
  {
    && (x.body.Csr? ==> s.dec.rerun)
    && (redirect.Some? ==> s.dec.pipe2[0].inst.Oper? && !x.body.Csr?)
    && (After(isa, a, LiveExe(s)).Some? ==>
          var b := After(isa, a, LiveExe(s)).value;
          && Agrees(isa, b, x)
          && (!Diverts(isa, b, x) ==>
                var npc := Step(isa, b).arch.pc;
                if redirect.Some? then redirect.value == npc else Path(npc, s.pipe1, s.hist.fpc)))
  }

  lemma ExecuteKeeps(isa: Isa, s: State, i: Input, a: Arch)
    requires Inv(isa, s, a) && Quiet(s)
    ensures Inv(isa, Execute(isa, s, i), a)
  {
    hide Ahead, Predicted, Read, Good, After, Step, Agrees, Epochs;
    var t := Execute(isa, s, i);
    if s.back.busy.Some? {
      assert InFlight(t) == InFlight(s) && Upstream(t) == Upstream(s);
      assert FrontOf(t) == FrontOf(s);
    } else if i.exec && s.dec.pipe2 != [] && |s.back.pipe3| < 2 {
      var m := s.dec.pipe2[0];
      PacketCurrent(s, m.pkt);
      if m.pkt.tag != s.ep.ep3 {
        DropKeeps(isa, s, a);
      } else if t != s {
        assert LivePipe2(s);
        match m.inst {
          case Except(cause, tval) =>
            ExceptKeeps(isa, s, a, cause, tval);
          case Oper(op) =>
            OperKeeps(isa, s, i, a, op);
        }
      }
    }
  }

  lemma ExceptKeeps(isa: Isa, s: State, a: Arch, cause: Cause, tval: Word)
    requires Inv(isa, s, a) && Quiet(s) && s.back.busy.None? && |s.back.pipe3| < 2
    requires LivePipe2(s) && s.dec.pipe2[0].inst == Except(cause, tval) && s.dec.pipe2[0].pkt.tag == TagOf(s.hist.gen)
    ensures var k := s.dec.pipe2[0].pkt;
            var x := Exe(k.pc, 0, k.tag.w, k.gen.w, Fail(cause, tval));
            Inv(isa, s.(dec := s.dec.(pipe2 := []), back := s.back.(pipe3 := s.back.pipe3 + [x])), a)
  {
    hide Epochs, Predicted, Live, Good, Step;
    var k := s.dec.pipe2[0].pkt;
    var x := Exe(k.pc, 0, k.tag.w, k.gen.w, Fail(cause, tval));
    CurrentHead(s);
    HeadIsNext(isa, s, a);
    IssueKeeps(isa, s, a, x, s.(dec := s.dec.(pipe2 := []), back := s.back.(pipe3 := s.back.pipe3 + [x])));
  }

  /** The current instruction in pipe2 is where the sequential machine stands after all older ones. */
  lemma HeadIsNext(isa: Isa, s: State, a: Arch)
    requires Inv(isa, s, a) && Quiet(s) && LivePipe2(s)
    ensures After(isa, a, LiveExe(s)).Some? ==>
              var b := After(isa, a, LiveExe(s)).value;
              var k := s.dec.pipe2[0].pkt;
              k.pc == b.pc && InstOk(isa, b, s.dec.pipe2[0].inst) && Path(k.npc, s.pipe1, s.hist.fpc)
  {
    hide Epochs, Predicted, Live, Good, Step, After, InstOk;
    CurrentHead(s);
    assert ([s.dec.pipe2[0].pkt] + s.pipe1)[1..] == s.pipe1;
  }

  lemma OperKeeps(isa: Isa, s: State, i: Input, a: Arch, op: Op)
    requires Inv(isa, s, a) && Quiet(s)
    requires s.back.busy.None? && i.exec && |s.back.pipe3| < 2 && LivePipe2(s) && s.dec.pipe2[0].inst == Oper(op)
    requires s.dec.pipe2[0].pkt.tag == s.ep.ep3
    ensures Inv(isa, Execute(isa, s, i), a)
  {
    hide Epochs, Live, Good, Step, After, Read;
    var t := Execute(isa, s, i);
    var k := s.dec.pipe2[0].pkt;
    var (a1, v1) := Read(s, s.dec.op1);
    var (a2, v2) := Read(s, s.dec.op2);
    if t != s {
      var x := Exe(k.pc, op.rd, k.tag.w, k.gen.w, BodyOf(isa, op, k.pc, v1, v2));
      CurrentHead(s);
      if After(isa, a, LiveExe(s)).Some? {
        var b := After(isa, a, LiveExe(s)).value;
        HeadIsNext(isa, s, a);
        BypassIsTheRegisterFile(isa, s, a, op.rs1);
        BypassIsTheRegisterFile(isa, s, a, op.rs2);
        IssuedAgrees(isa, b, x, op);
        assert k in Upstream(s);
        SuccessorFollowed(isa, s, b, op, k, v1, v2);
      }
      hide Inv, Agrees;
      IssueKeeps(isa, s, a, x, t);
    }
  }

  lemma IssuedAgrees(isa: Isa, b: Arch, x: Exe, op: Op)
    requires isa.decode(isa.fetch(b.pc), b.csrs) == Valid(op) && x.rd == op.rd && x.pc == b.pc
    requires x.body == BodyOf(isa, op, b.pc, b.rf[op.rs1], b.rf[op.rs2])
    ensures Agrees(isa, b, x)
    ensures !Diverts(isa, b, x) ==>
              Step(isa, b).arch.pc == Successor(isa, op, b.pc, isa.fetch(b.pc), b.rf[op.rs1], b.rf[op.rs2])
  {
  }

  /** Either stage 3 redirects to the true successor, or the fetched path already continues there. */
  lemma SuccessorFollowed(isa: Isa, s: State, b: Arch, op: Op, pkt: Packet, v1: Word, v2: Word)
    requires isa.decode(isa.fetch(b.pc), b.csrs) == Valid(op) && pkt.pc == b.pc
    requires DeliveryOk(isa, pkt.pc, Delivery(pkt.bits, pkt.taken, pkt.npc))
    requires Path(pkt.npc, s.pipe1, s.hist.fpc)
    requires IsControl(op) ==> s.pipe1 != []
    ensures var npc := Successor(isa, op, pkt.pc, pkt.bits, v1, v2);
            match Redirect(isa, op, pkt, if s.pipe1 == [] then 0 else s.pipe1[0].pc, v1, v2)
            case Some(target) => target == npc
            case None => Path(npc, s.pipe1, s.hist.fpc)
  {
    assert isa.decode(pkt.bits, b.csrs) == Valid(op);
  }

  // -------- stage 5 --------

  /** From `s` to `t` at most one event was retired, the one the sequential machine takes from `a`. */
  predicate Extends(isa: Isa, s: State, a: Arch, t: State, a': Arch) {
    || (t.hist.trace == s.hist.trace && a' == a)
    || (&& |t.hist.trace| == |s.hist.trace| + 1 && t.hist.trace[..|s.hist.trace|] == s.hist.trace
        && Permits(isa, a, t.hist.trace[|s.hist.trace|])
        && a' == Follow(isa, a, t.hist.trace[|s.hist.trace|]).arch)
  }

  /** Removing the oldest executed instruction. */
  lemma RetireOldest(s: State, t: State)
    requires EpochInv(s) && s.back.pipe4 != [] && |s.back.pipe4| == 1
    requires t == s.(back := s.back.(pipe4 := []), arch := t.arch, wire := t.wire,
                     hist := s.hist.(trace := t.hist.trace))
    requires t.wire.flushE == s.wire.flushE
    requires s.wire.flushW.None? && (t.wire.flushW.Some? ==> s.back.pipe4[0].gen == s.hist.gen.w)
    ensures EpochInv(t) && Upstream(t) == Upstream(s) && FrontOf(t) == FrontOf(s)
    ensures LiveExe(s) == (if s.back.pipe4[0].gen == s.hist.gen.w then [s.back.pipe4[0]] else []) + LiveExe(t)
  {
    var x := s.back.pipe4[0];
    assert InFlight(s) == [x] + InFlight(t);
    assert InFlight(s)[1..] == InFlight(t);
    EpochsRetire(x, InFlight(t), Upstream(s), s.hist.gen, s.wire.flushE.Some?, t.wire.flushW.Some?);
  }

  /** Retirement follows the sequential machine; a dropped instruction and a rerun leave no event. */
  lemma CommitKeeps(isa: Isa, s: State, i: Input, a: Arch) returns (a': Arch)
    requires Inv(isa, s, a) && s.wire.flushW.None? && s.wire.commit.None?
    ensures Inv(isa, Commit(isa, s, i), a') && Extends(isa, s, a, Commit(isa, s, i), a')
  {
    a' := a;
    if i.retire && s.back.pipe4 != [] {
      var t := Commit(isa, s, i);
      var x := s.back.pipe4[0];
      assert InFlight(s)[0] == x;
      assert x in s.back.pipe4 && x in InFlight(s);
      hide Epochs, Predicted, Live, Step;
      ExeCurrent(s, x);
      CommitFrame(isa, s, i);
      hide Commit;
      RetireOldest(s, t);
      assert Shape(t) && OperandsOk(t);
      if x.gen == s.hist.gen.w {
        assert LiveExe(s) == [x] + LiveExe(t);
        assert Agrees(isa, a, x) by { assert LiveExe(s)[0] == x; }
        hide Good, After, Agrees, FrontOf, LiveExe;
        if x.body.Fail? {
          a' := CommitFail(isa, s, i, a, x);
        } else {
          CommitStep(isa, s, i, a, x);
          a' := Step(isa, a).arch;
          if t.wire.flushW.None? {
            AheadRetire(isa, a, x, LiveExe(t), FrontOf(s));
          }
        }
      } else {
        assert LiveExe(s) == LiveExe(t);
      }
    }
  }

  lemma CommitFrame(isa: Isa, s: State, i: Input)
    requires Shape(s) && s.wire.flushW.None? && i.retire && s.back.pipe4 != []
    ensures var t := Commit(isa, s, i);
      && t == s.(back := s.back.(pipe4 := []), arch := t.arch, wire := t.wire, hist := s.hist.(trace := t.hist.trace))
      && t.wire.flushE == s.wire.flushE && t.arch.rf == s.arch.rf
      && (s.back.pipe4[0].tag != s.ep.w5 ==> t == s.(back := s.back.(pipe4 := [])))
  {
    assert s.back.pipe4[0] in s.back.pipe4;
  }

  lemma CommitFail(isa: Isa, s: State, i: Input, a: Arch, x: Exe) returns (a': Arch)
    requires Synced(s, a) && s.wire.commit.None? && s.wire.flushW.None? && Agrees(isa, a, x)
    requires i.retire && s.back.pipe4 == [x] && x.tag == s.ep.w5 && x.body.Fail?
    ensures var t := Commit(isa, s, i);
            Extends(isa, s, a, t, a') && Synced(t, a') && t.wire.flushW == Some(a'.pc)
  {
    var cause := x.body.cause;
    if cause.Exception? {
      TrappedStep(isa, a, cause, x.body.tval);
    }
    hide Step;
    a' := if cause.Rerun? then a else Trap(isa, a, cause, x.body.tval).arch;
  }

  /** What stage 5 has done matches the step `n` of the sequential machine from `a`. */
  predicate Committed(s: State, t: State, a: Arch, n: Next) {
    && t.hist.trace == s.hist.trace + [n.event] && Synced(t, n.arch)
    && t.wire.flushW == if n.flush then Some(n.arch.pc) else None
  }

  lemma CommitStep(isa: Isa, s: State, i: Input, a: Arch, x: Exe)
    requires Synced(s, a) && s.wire.commit.None? && s.wire.flushW.None? && Agrees(isa, a, x)
    requires i.retire && s.back.pipe4 == [x] && x.tag == s.ep.w5 && !x.body.Fail? && !x.body.Access?
    ensures var t := Commit(isa, s, i);
            var b := Step(isa, a).arch;
            && Extends(isa, s, a, t, b) && Synced(t, b)
            && (if Diverts(isa, a, x) then t.wire.flushW == Some(b.pc) else t.wire.flushW.None?)
  {
    var t := Commit(isa, s, i);
    match x.body {
      case Regular(v) => CommitRegular(isa, s, i, a, x);
      case Stored(_, _, _, _) => CommitStored(isa, s, i, a, x);
      case Csr(_, _) => CommitCsr(isa, s, i, a, x);
    }
    StepIsNoInterrupt(isa, a);
    hide Step, Commit, Agrees;
    assert t.hist.trace[..|s.hist.trace|] == s.hist.trace;
  }

  lemma StepIsNoInterrupt(isa: Isa, a: Arch)
    ensures var ev := Step(isa, a).event; ev.Trapped? ==> !ev.cause.Interrupt?
  {
  }

  lemma CommitRegular(isa: Isa, s: State, i: Input, a: Arch, x: Exe)
    requires Synced(s, a) && s.wire.commit.None? && s.wire.flushW.None? && Agrees(isa, a, x)
    requires i.retire && s.back.pipe4 == [x] && x.tag == s.ep.w5 && x.body.Regular?
    ensures Committed(s, Commit(isa, s, i), a, Step(isa, a))
  {
    hide Step;
  }

  lemma CommitStored(isa: Isa, s: State, i: Input, a: Arch, x: Exe)
    requires Synced(s, a) && s.wire.commit.None? && s.wire.flushW.None? && Agrees(isa, a, x)
    requires i.retire && s.back.pipe4 == [x] && x.tag == s.ep.w5 && x.body.Stored?
    ensures Committed(s, Commit(isa, s, i), a, Step(isa, a))
  {
    var b := x.body;
    var r := isa.access(b.op, a.csrs, a.mem, b.addr, b.data);
    var n := if r.err.Some? then Trap(isa, a, Exception(STORE_ACCESS_FAULT), r.err.value)
             else Retire(a, x.rd, b.value, a.pc + isa.size(isa.fetch(a.pc)), r.mem);
    assert Step(isa, a) == n;
    hide Step, Agrees;
  }

  lemma CommitCsr(isa: Isa, s: State, i: Input, a: Arch, x: Exe)
    requires Synced(s, a) && s.wire.commit.None? && s.wire.flushW.None? && Agrees(isa, a, x)
    requires i.retire && s.back.pipe4 == [x] && x.tag == s.ep.w5 && x.body.Csr?
    ensures Committed(s, Commit(isa, s, i), a, Step(isa, a))
  {
    var r := isa.system(x.body.op, a.csrs, x.body.rs1, a.pc);
    var n := Retire(a, x.rd, r.value, if r.drain then r.newpc else a.pc + isa.size(isa.fetch(a.pc)), a.mem);
    assert Step(isa, a) == n.(arch := n.arch.(csrs := r.csrs), flush := r.drain);
    hide Step, Agrees;
  }

  // -------- stage 2 --------

  /** Decode is about to read the CSRs for an instruction that will not be flushed or rerun. */
  predicate Settles(s: State) {
    s.wire.flushE.None? && s.wire.flushW.None? && s.dec.pipe2 == [] && !s.dec.stall && !s.dec.rerun
  }

  lemma DecodeKeeps(isa: Isa, s: State, csrs: Csrs, i: Input, a: Arch)
    requires Inv(isa, s, a)
    requires Settles(s) ==> csrs == s.arch.csrs
    ensures Inv(isa, Decode(isa, s, csrs, i), a)
  {
    if i.decode && !s.dec.stall && s.pipe1 != [] && s.dec.pipe2 == [] {
      hide Inv, Epochs;
      PacketCurrent(s, s.pipe1[0]) by { assert s.pipe1[0] in Upstream(s) && EpochInv(s) by { HeadOfPipe1(isa, s, a); } }
      assert s.ep.ep2 == TagOf(s.hist.gen) by { HeadOfPipe1(isa, s, a); }
      if s.pipe1[0].tag != s.ep.ep2 {
        SkipKeeps(isa, s, a);
      } else {
        DecodeCurrent(isa, s, csrs, i, a);
      }
    }
  }

  lemma HeadOfPipe1(isa: Isa, s: State, a: Arch)
    requires Inv(isa, s, a) && s.pipe1 != []
    ensures s.pipe1[0] in Upstream(s) && EpochInv(s) && s.ep.ep2 == TagOf(s.hist.gen)
  {
  }

  lemma HeadPackets(k: Packet, ks: seq<Packet>, g: Gen)
    ensures LivePackets([k] + ks, g) == (if k.gen == g then [k] else []) + LivePackets(ks, g)
  {
    assert ([k] + ks)[1..] == ks;
  }

  /** Decode drops an outdated instruction. */
  lemma SkipKeeps(isa: Isa, s: State, a: Arch)
    requires Inv(isa, s, a) && s.pipe1 != [] && s.dec.pipe2 == [] && s.pipe1[0].gen != s.hist.gen
    ensures Inv(isa, s.(pipe1 := s.pipe1[1..]), a)
  {
    hide Ahead, Predicted, Epochs, Live, LivePackets;
    var t := s.(pipe1 := s.pipe1[1..]);
    var k, ks := s.pipe1[0], s.pipe1[1..];
    assert Upstream(s) == [k] + ks && Upstream(t) == ks;
    assert InFlight(t) == InFlight(s);
    HeadPackets(k, ks, s.hist.gen);
    EpochsDrop(InFlight(s), k, ks, s.hist.gen, s.wire.flushE.Some?, s.wire.flushW.Some?);
    assert FrontOf(t) == FrontOf(s);
    PredictedSub(isa, ks, Upstream(s));
  }

  lemma HeadFetched(isa: Isa, s: State)
    requires Predicted(isa, Upstream(s)) && s.pipe1 != []
    ensures s.pipe1[0] in Upstream(s) && s.pipe1[0].bits == isa.fetch(s.pipe1[0].pc)
  {
  }

  /** Decode moves the head of pipe1 to pipe2, and turns it into what execute will see. */
  lemma Decoded(isa: Isa, s: State, csrs: Csrs, i: Input)
    requires i.decode && !s.dec.stall && s.pipe1 != [] && s.dec.pipe2 == []
    requires s.pipe1[0].tag == s.ep.ep2 && s.pipe1[0].gen == s.hist.gen
    ensures var t, f := Decode(isa, s, csrs, i), FrontOf(s);
      && Upstream(t) == Upstream(s) && InFlight(t) == InFlight(s)
      && f.head.None? && f.path != [] && f.path[0] == s.pipe1[0]
      && FrontOf(t) == f.(head := Some(DecodeInst(isa, s.pipe1[0].bits, csrs, s.dec.rerun, i.irq)),
                          stall := t.dec.stall, rerun := t.dec.rerun)
  {
    hide LivePackets, DecodeInst, WantsRerun;
    var k, ks := s.pipe1[0], s.pipe1[1..];
    assert s.pipe1 == [k] + ks;
    assert Upstream(Decode(isa, s, csrs, i)) == Upstream(s) == [k] + ks;
    HeadPackets(k, ks, s.hist.gen);
  }

  lemma DecodeCurrent(isa: Isa, s: State, csrs: Csrs, i: Input, a: Arch)
    requires Inv(isa, s, a)
    requires Settles(s) ==> csrs == s.arch.csrs
    requires i.decode && !s.dec.stall && s.pipe1 != [] && s.dec.pipe2 == []
    requires s.pipe1[0].tag == s.ep.ep2 && s.pipe1[0].gen == s.hist.gen
    ensures Inv(isa, Decode(isa, s, csrs, i), a)
  {
    hide Ahead, Predicted, Epochs, Live, LivePackets, DecodeInst, WantsRerun, InFlight;
    Decoded(isa, s, csrs, i);
    HeadFetched(isa, s);
    var t := Decode(isa, s, csrs, i);
    if s.wire.flushW.None? {
      if s.wire.flushE.None? {
        AheadDecode(isa, a, LiveExe(s), FrontOf(s), csrs, i.irq);
      } else {
        AheadRedirected(isa, a, LiveExe(s), FrontOf(s), FrontOf(t));
      }
    }
    hide Upstream;
  }

  // -------- register file write --------

  lemma CommitRdKeeps(isa: Isa, s: State, a: Arch)
    requires Inv(isa, s, a)
    ensures Inv(isa, CommitRd(s), a)
  {
    hide Ahead, Epochs, Predicted, LivePackets, Live;
    var t := CommitRd(s);
    assert InFlight(t) == InFlight(s) && Upstream(t) == Upstream(s) && FrontOf(t) == FrontOf(s);
  }

  // -------- stage 4 --------

  function Answer(r: Access): Response {
    match r
    case Fault(code, tval) => Error(code, tval)
    case Done(value, _, _) => Data(value)
  }

  /** The data memory's promise: a current instruction is answered as if every older one had retired. */
  predicate MemoryOk(isa: Isa, s: State, i: Input) {
    && s.back.pipe3 != [] && s.back.pipe4 == [] && s.wire.flushW.None?
    && s.back.pipe3[0].tag == s.ep.wTop && s.back.pipe3[0].body.Access? ==>
      var x := s.back.pipe3[0].body;
      i.resp == Answer(isa.access(x.op, s.arch.csrs, s.arch.mem, x.addr, x.data))
  }

  lemma AnsweredAgrees(isa: Isa, a: Arch, x: Exe, r: Response)
    requires Agrees(isa, a, x) && !x.body.Stored?
    requires x.body.Access? ==>
               r == Answer(isa.access(x.body.op, a.csrs, a.mem, x.body.addr, x.body.data))
    ensures var y := x.(body := Answered(x.body, r));
            Agrees(isa, a, y) && Diverts(isa, a, y) == Diverts(isa, a, x)
  {
  }

  lemma HeadAgrees(isa: Isa, a: Arch, x: Exe, xs: seq<Exe>, f: Front)
    requires Ahead(isa, a, [x] + xs, f)
    ensures Agrees(isa, a, x)
  {
  }

  function Behind(s: State): seq<Exe>
    requires s.back.pipe3 != []
  {
    s.back.pipe3[1..] + (if s.back.busy.Some? then [s.back.busy.value] else [])
  }

  lemma Reshaped(s: State, y: Exe, r: Response)
    requires Shape(s) && s.back.pipe4 == [] && s.back.pipe3 != []
    requires y == s.back.pipe3[0].(body := Answered(s.back.pipe3[0].body, r))
    ensures Shape(s.(back := s.back.(pipe3 := s.back.pipe3[1..], pipe4 := [y])))
    ensures !s.back.pipe3[0].body.Stored?
  {
  }

  lemma MovedUp(s: State, y: Exe)
    requires s.back.pipe4 == [] && s.back.pipe3 != []
    ensures InFlight(s) == [s.back.pipe3[0]] + Behind(s)
    ensures InFlight(s.(back := s.back.(pipe3 := s.back.pipe3[1..], pipe4 := [y]))) == [y] + Behind(s)
    ensures s.back.pipe3[0] in InFlight(s)
  {
    assert s.back.pipe3 == [s.back.pipe3[0]] + s.back.pipe3[1..];
  }

  lemma AnswerFront(s: State, y: Exe)
    requires s.back.pipe3 != []
    ensures var t := s.(back := s.back.(pipe3 := s.back.pipe3[1..], pipe4 := [y]));
            Upstream(t) == Upstream(s) && FrontOf(t) == FrontOf(s)
  {
    hide LivePackets;
  }

  lemma MemStageKeeps(isa: Isa, s: State, visible: bool, i: Input, a: Arch)
    requires Inv(isa, s, a) && s.wire.commit.None?
    requires i.memory && visible ==> MemoryOk(isa, s, i)
    ensures Inv(isa, MemStage(s, visible, i), a)
  {
    hide Predicted, Epochs, Ahead, LivePackets, Live, Answered, FrontOf, Upstream, InFlight, Shape;
    if i.memory && visible && s.back.pipe3 != [] && s.back.pipe4 == [] {
      var x, rest := s.back.pipe3[0], Behind(s);
      var t := MemStage(s, visible, i);
      var y := t.back.pipe4[0];
      MovedUp(s, y);
      AnswerFront(s, y);
      ExeCurrent(s, x);
      EpochsAnswer(x, y, rest, Upstream(s), s.hist.gen, s.wire.flushE.Some?, s.wire.flushW.Some?);
      Reshaped(s, y, i.resp);
      if s.wire.flushW.None? {
        AnswerFlow(isa, a, x, rest, FrontOf(s), i.resp, s.hist.gen.w);
      }
    }
  }

  lemma AnswerFlow(isa: Isa, a: Arch, x: Exe, rest: seq<Exe>, f: Front, r: Response, w: nat)
    requires Ahead(isa, a, Live([x] + rest, w), f) && !x.body.Stored?
    requires x.gen == w && x.body.Access? ==>
               r == Answer(isa.access(x.body.op, a.csrs, a.mem, x.body.addr, x.body.data))
    ensures Ahead(isa, a, Live([x.(body := Answered(x.body, r))] + rest, w), f)
  {
    var y := x.(body := Answered(x.body, r));
    assert ([x] + rest)[1..] == rest == ([y] + rest)[1..];
    var live := Live(rest, w);
    if x.gen == w {
      assert Live([x] + rest, w) == [x] + live && Live([y] + rest, w) == [y] + live;
      HeadAgrees(isa, a, x, live, f);
      AnsweredAgrees(isa, a, x, r);
      hide Live, Ahead, Step, Agrees;
      AheadAnswer(isa, a, x, y, live, f);
    }
  }

  // -------- fetch --------

  lemma Appended(s: State, k: Packet)
    requires k.gen == s.hist.gen
    ensures var t := s.(pipe1 := s.pipe1 + [k], hist := s.hist.(fpc := k.npc));
      && Upstream(t) == Upstream(s) + [k] && InFlight(t) == InFlight(s)
      && FrontOf(t) == FrontOf(s).(path := FrontOf(s).path + [k], last := k.npc)
  {
    var t := s.(pipe1 := s.pipe1 + [k], hist := s.hist.(fpc := k.npc));
    assert Upstream(t) == Upstream(s) + [k];
    PacketsConcat(Upstream(s), [k], s.hist.gen);
    assert [k][1..] == [];
  }

  lemma FetchKeeps(isa: Isa, s: State, room: bool, i: Input, a: Arch)
    requires Inv(isa, s, a) && (room ==> |s.pipe1| < 2)
    requires i.fetch.Some? && room ==> DeliveryOk(isa, s.hist.fpc, i.fetch.value)
    ensures Inv(isa, FetchOne(s, room, i), a)
  {
    hide Ahead, DeliveryOk, Predicted, Epochs, Live, LivePackets, FrontOf, Upstream, InFlight;
    var t := FetchOne(s, room, i);
    if i.fetch.Some? && room {
      var x := i.fetch.value;
      var k := Packet(s.hist.fpc, x.bits, s.ep.ep1, s.hist.gen, x.taken, x.npc);
      assert FrontOf(s).last == s.hist.fpc by { FrontLast(s); }
      Appended(s, k);
      EpochsFetch(InFlight(s), Upstream(s), k, s.hist.gen, s.wire.flushE.Some?, s.wire.flushW.Some?);
      PredictedSnoc(isa, Upstream(s), k);
      if s.wire.flushW.None? {
        AheadFetch(isa, a, LiveExe(s), FrontOf(s), k);
      }
    }
  }

  lemma FrontLast(s: State)
    ensures FrontOf(s).last == s.hist.fpc
  {
  }

  // -------- end of the cycle --------

  lemma FlushedAreStale(xs: seq<Exe>, ks: seq<Packet>, g: Gen, e: bool, w: bool)
    requires Epochs(xs, ks, g, e, w) && (e || w)
    ensures var h := Advance(g, e, w);
            (forall k <- ks :: k.gen != h) && (w ==> forall x <- xs :: x.gen != h.w)
  {
  }

  lemma FlushKeeps(isa: Isa, s: State, a: Arch)
    requires Inv(isa, s, a) && s.wire.commit.None?
    ensures Inv(isa, Flush(s), a) && Quiet(Flush(s))
  {
    hide Ahead, Predicted, Epochs, Live, LivePackets;
    var t := Flush(s);
    assert InFlight(t) == InFlight(s) && Upstream(t) == Upstream(s);
    EpochsFlush(InFlight(s), Upstream(s), s.hist.gen, s.wire.flushE.Some?, s.wire.flushW.Some?);
    FlushFlow(isa, s, a);
  }

  lemma FlushFlow(isa: Isa, s: State, a: Arch)
    requires Flow(isa, s, a) && s.wire.commit.None? && |s.dec.pipe2| <= 1
    requires Epochs(InFlight(s), Upstream(s), s.hist.gen, s.wire.flushE.Some?, s.wire.flushW.Some?)
    ensures Flow(isa, Flush(s), a)
  {
    hide Ahead, Epochs, Live, LivePackets;
    var t := Flush(s);
    assert InFlight(t) == InFlight(s) && Upstream(t) == Upstream(s);
    if s.wire.flushE.Some? || s.wire.flushW.Some? {
      FlushedAreStale(InFlight(s), Upstream(s), s.hist.gen, s.wire.flushE.Some?, s.wire.flushW.Some?);
      NoPacketsLive(Upstream(t), t.hist.gen);
      assert t.dec.pipe2 != [] ==> t.dec.pipe2[0].pkt in Upstream(s);
      assert FrontOf(t) == Front(None, [], None, false, t.dec.rerun, t.hist.fpc);
      if s.wire.flushW.Some? {
        NoneLive(InFlight(t), t.hist.gen.w);
        AheadEmpty(isa, a, FrontOf(t));
      } else {
        AheadFlushed(isa, a, LiveExe(s), FrontOf(s), FrontOf(t));
      }
    } else {
      assert FrontOf(t) == FrontOf(s);
    }
  }

  // -------- whole cycles and whole runs --------

  predicate MemoryAnswers(isa: Isa, s: State, i: Input) {
    i.memory && s.back.pipe3 != [] ==>
      MemoryOk(isa, CommitRd(Decode(isa, Commit(isa, Execute(isa, s, i), i), s.arch.csrs, i)), i)
  }

  /** The surroundings keep their contracts in this cycle. */
  ghost predicate InputOk(isa: Isa, s: State, i: Input) {
    && MemoryAnswers(isa, s, i)
    && (i.fetch.Some? ==> DeliveryOk(isa, s.hist.fpc, i.fetch.value))
  }

  /** Decode reads the CSRs of the cycle's start; when that matters nothing has changed them. */
  lemma CsrsSeenByDecode(isa: Isa, s: State, i: Input, a: Arch)
    requires Inv(isa, s, a) && s.wire.flushW.None?
    ensures var t := Commit(isa, s, i); Settles(t) ==> t.arch.csrs == s.arch.csrs
  {
    hide Good, After, Predicted, Step, Agrees;
    if i.retire && s.back.pipe4 != [] {
      var x := s.back.pipe4[0];
      assert InFlight(s)[0] == x;
      assert x in InFlight(s) && x in s.back.pipe4;
      hide Epochs;
      ExeCurrent(s, x);
      LiveMember(InFlight(s), s.hist.gen.w, x);
      hide Live;
      CommitFrame(isa, s, i);
    }
  }

  /** What the rules before the register-file write leave alone. */
  lemma EarlyFrame(isa: Isa, s: State, i: Input)
    requires Quiet(s)
    ensures var t := Execute(isa, s, i);
            && t.hist.trace == s.hist.trace && t.wire.flushW.None? && t.wire.commit.None?
            && t.hist.fpc == s.hist.fpc && t.pipe1 == s.pipe1 && t.arch.csrs == s.arch.csrs
  {
  }

  lemma CommitKeepsPath(isa: Isa, s: State, i: Input)
    ensures var t := Commit(isa, s, i); t.pipe1 == s.pipe1 && t.hist.fpc == s.hist.fpc
  {
  }

  lemma LateFrame(isa: Isa, s: State, csrs: Csrs, visible: bool, i: Input)
    ensures var t := CommitRd(Decode(isa, s, csrs, i));
            t.hist.trace == s.hist.trace && t.wire.commit.None? && t.hist.fpc == s.hist.fpc && |t.pipe1| <= |s.pipe1|
    ensures var t := MemStage(s, visible, i);
            && t.hist.trace == s.hist.trace && t.wire.commit == s.wire.commit
            && t.hist.fpc == s.hist.fpc && t.pipe1 == s.pipe1
  {
  }

  lemma LastFrame(s: State, room: bool, i: Input)
    ensures var t := FetchOne(s, room, i);
            t.wire == s.wire && t.hist.trace == s.hist.trace && Flush(t).hist.trace == s.hist.trace
  {
  }

  lemma EarlyRules(isa: Isa, s: State, i: Input, a: Arch) returns (a': Arch)
    requires Inv(isa, s, a) && Quiet(s)
    ensures var t := Commit(isa, Execute(isa, s, i), i);
      && Inv(isa, t, a') && Extends(isa, s, a, t, a')
      && t.pipe1 == s.pipe1 && t.hist.fpc == s.hist.fpc && (Settles(t) ==> s.arch.csrs == t.arch.csrs)
  {
    hide Inv, Execute, Commit, Permits, Follow, Settles;
    EarlyFrame(isa, s, i);
    ExecuteKeeps(isa, s, i, a);
    var t := Execute(isa, s, i);
    CommitKeepsPath(isa, t, i);
    CsrsSeenByDecode(isa, t, i, a);
    a' := CommitKeeps(isa, t, i, a);
  }

  lemma LateRules(isa: Isa, s: State, csrs: Csrs, visible: bool, room: bool, i: Input, a: Arch)
    requires Inv(isa, s, a) && (Settles(s) ==> csrs == s.arch.csrs) && (room ==> |s.pipe1| < 2)
    requires i.memory && visible ==> MemoryOk(isa, CommitRd(Decode(isa, s, csrs, i)), i)
    requires i.fetch.Some? ==> DeliveryOk(isa, s.hist.fpc, i.fetch.value)
    ensures var t := FetchOne(MemStage(CommitRd(Decode(isa, s, csrs, i)), visible, i), room, i);
      && Inv(isa, t, a) && t.wire.commit.None?
      && t.hist.trace == s.hist.trace && Flush(t).hist.trace == s.hist.trace
  {
    hide Inv, Decode, CommitRd, MemStage, FetchOne, Flush, MemoryOk, DeliveryOk, Settles;
    DecodeKeeps(isa, s, csrs, i, a);
    var s3 := Decode(isa, s, csrs, i);
    CommitRdKeeps(isa, s3, a);
    LateFrame(isa, s, csrs, visible, i);
    var s4 := CommitRd(s3);
    MemStageKeeps(isa, s4, visible, i, a);
    LateFrame(isa, s4, csrs, visible, i);
    var s5 := MemStage(s4, visible, i);
    FetchKeeps(isa, s5, room, i, a);
    LastFrame(s5, room, i);
  }

  /** The rules of one cycle: the invariant again, and at most one retirement, which the sequential
      machine takes too. */
  lemma RulesKeep(isa: Isa, s: State, i: Input, a: Arch) returns (a': Arch)
    requires Inv(isa, s, a) && Quiet(s) && InputOk(isa, s, i)
    ensures var t := Rules(isa, s, i);
            Inv(isa, t, a') && t.wire.commit.None? && Extends(isa, s, a, t, a') && Extends(isa, s, a, Flush(t), a')
  {
    hide Inv, Quiet, Execute, Commit, Decode, CommitRd, MemStage, FetchOne, Flush, MemoryOk, DeliveryOk;
    hide Permits, Follow, Settles;
    a' := EarlyRules(isa, s, i, a);
    var s2 := Commit(isa, Execute(isa, s, i), i);
    LateRules(isa, s2, s.arch.csrs, s.back.pipe3 != [], |s.pipe1| < 2, i, a');
  }

  lemma CycleKeeps(isa: Isa, s: State, i: Input, a: Arch) returns (a': Arch)
    requires Inv(isa, s, a) && Quiet(s) && InputOk(isa, s, i)
    ensures var t := Cycle(isa, s, i); Inv(isa, t, a') && Quiet(t) && Extends(isa, s, a, t, a')
  {
    a' := RulesKeep(isa, s, i, a);
    hide Inv, Rules, Flush, Extends, Quiet, InputOk;
    FlushKeeps(isa, Rules(isa, s, i), a');
  }

  /** The contracts hold in every cycle of the run. */
  ghost predicate RunOk(isa: Isa, s: State, ins: seq<Input>) {
    forall n | 0 <= n < |ins| :: InputOk(isa, Run(isa, s, ins[..n]), ins[n])
  }

  lemma ResetInv(isa: Isa, a: Arch)
    ensures var s := Reset(a.pc, a.rf, a.csrs, a.mem);
            Inv(isa, s, a) && Quiet(s) && s.hist.trace == []
  {
    var s := Reset(a.pc, a.rf, a.csrs, a.mem);
    assert InFlight(s) == [] && Upstream(s) == [];
    AheadEmpty(isa, a, FrontOf(s));
    hide Ahead;
  }

  lemma TraceExtends(isa: Isa, a: Arch, s: State, t: State, a': Arch)
    requires Legal(isa, a, s.hist.trace) && Extends(isa, s, Final(isa, a, s.hist.trace), t, a')
    ensures Legal(isa, a, t.hist.trace) && Final(isa, a, t.hist.trace) == a'
  {
    if t.hist.trace != s.hist.trace {
      assert t.hist.trace[..|t.hist.trace| - 1] == s.hist.trace;
    }
  }

  lemma LastCycle(isa: Isa, s: State, ins: seq<Input>)
    requires ins != [] && RunOk(isa, s, ins)
    ensures var n := |ins| - 1; var t := Run(isa, s, ins[..n]);
      RunOk(isa, s, ins[..n]) && InputOk(isa, t, ins[n]) && Run(isa, s, ins) == Cycle(isa, t, ins[n])
  {
    hide InputOk, Cycle;
    var n := |ins| - 1;
    assert forall m | 0 <= m < n :: ins[..n][..m] == ins[..m];
  }

  lemma {:induction false} RunKeeps(isa: Isa, a: Arch, ins: seq<Input>)
    requires RunOk(isa, Reset(a.pc, a.rf, a.csrs, a.mem), ins)
    ensures var s := Run(isa, Reset(a.pc, a.rf, a.csrs, a.mem), ins);
            Legal(isa, a, s.hist.trace) && Inv(isa, s, Final(isa, a, s.hist.trace)) && Quiet(s)
    decreases |ins|
  {
    hide Inv, Cycle, InputOk, RunOk, Reset, Quiet, Extends;
    var s0 := Reset(a.pc, a.rf, a.csrs, a.mem);
    if ins == [] {
      ResetInv(isa, a);
    } else {
      hide Run, Legal, Final;
      var n := |ins| - 1;
      LastCycle(isa, s0, ins);
      RunKeeps(isa, a, ins[..n]);
      var s := Run(isa, s0, ins[..n]);
      var b := Final(isa, a, s.hist.trace);
      var b' := CycleKeeps(isa, s, ins[n], b);
      TraceExtends(isa, a, s, Cycle(isa, s, ins[n]), b');
    }
  }

  /** Sequential refinement: whatever the surroundings do within their contracts, the trace a run
      commits is a trace of the one-at-a-time machine, and registers, CSRs and memory are that
      machine's. */
  lemma SequentialRefinement(isa: Isa, a: Arch, ins: seq<Input>)
    requires RunOk(isa, Reset(a.pc, a.rf, a.csrs, a.mem), ins)
    ensures var s := Run(isa, Reset(a.pc, a.rf, a.csrs, a.mem), ins);
            var b := Final(isa, a, s.hist.trace);
            Legal(isa, a, s.hist.trace) && s.arch.rf == b.rf && s.arch.csrs == b.csrs && s.arch.mem == b.mem
  {
    RunKeeps(isa, a, ins);
  }

  /** Two epoch bits suffice: in every reachable state a tag matches a stage's copy exactly when the
      instruction was fetched after the last redirect. */
  lemma TwoEpochBitsSuffice(isa: Isa, a: Arch, ins: seq<Input>)
    requires RunOk(isa, Reset(a.pc, a.rf, a.csrs, a.mem), ins)
    ensures var s := Run(isa, Reset(a.pc, a.rf, a.csrs, a.mem), ins);
      && (forall m <- s.dec.pipe2 :: m.pkt.tag == s.ep.ep3 <==> m.pkt.gen == s.hist.gen)
      && (forall k <- s.pipe1 :: k.tag == s.ep.ep2 <==> k.gen == s.hist.gen)
      && (forall x <- s.back.pipe3 + s.back.pipe4 :: x.tag == s.ep.w5 <==> x.gen == s.hist.gen.w)
  {
    RunKeeps(isa, a, ins);
    hide Run, Legal, Final, Flow, Predicted;
    MatchingTagsAreCurrent(Run(isa, Reset(a.pc, a.rf, a.csrs, a.mem), ins));
  }

  lemma MatchingTagsAreCurrent(s: State)
    requires Shape(s) && EpochInv(s)
    ensures forall m <- s.dec.pipe2 :: m.pkt.tag == s.ep.ep3 <==> m.pkt.gen == s.hist.gen
    ensures forall k <- s.pipe1 :: k.tag == s.ep.ep2 <==> k.gen == s.hist.gen
    ensures forall x <- s.back.pipe3 + s.back.pipe4 :: x.tag == s.ep.w5 <==> x.gen == s.hist.gen.w
  {
    hide Epochs;
    forall m | m in s.dec.pipe2 ensures m.pkt.tag == s.ep.ep3 <==> m.pkt.gen == s.hist.gen {
      PacketCurrent(s, m.pkt);
    }
    forall k | k in s.pipe1 ensures k.tag == s.ep.ep2 <==> k.gen == s.hist.gen {
      PacketCurrent(s, k);
    }
    forall x | x in s.back.pipe3 + s.back.pipe4 ensures x.tag == s.ep.w5 <==> x.gen == s.hist.gen.w {
      ExeCurrent(s, x);
    }
  }
}
