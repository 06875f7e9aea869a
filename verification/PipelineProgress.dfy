/** Progress: while the surroundings cooperate, the pipeline retires an event within a bounded number of
    cycles, from every reachable state. Without this a pipeline that is stuck for ever, or that reruns the
    same instruction for ever, would follow the sequential machine just as well. */
module PipelineProgress {
  import opened Options
  import opened Isa
  import opened EpochTags
  import opened Pipeline
  import opened PipelineInvariant
  import opened PipelineProof

  // -------- current instructions, by what they will do at write-back --------

  predicate IsRerun(b: Body) { b.Fail? && b.cause.Rerun? }

  predicate HasFail(xs: seq<Exe>) { exists x <- xs :: x.body.Fail? }

  predicate HasRerun(xs: seq<Exe>) { exists x <- xs :: IsRerun(x.body) }

  predicate LiveAt(d: Decoding, g: Gen) { d.pipe2 != [] && d.pipe2[0].pkt.gen == g }

  predicate ExceptAt(d: Decoding, g: Gen) { LiveAt(d, g) && d.pipe2[0].inst.Except? }

  predicate RerunAt(d: Decoding, g: Gen) { ExceptAt(d, g) && d.pipe2[0].inst.cause.Rerun? }

  /** Decode stalls only behind a current trap on its way to write-back, and always behind a rerun, for
      which nothing else is owed any more. `l` are the current executed instructions. */
  predicate Stalls(l: seq<Exe>, d: Decoding, g: Gen) {
    && (d.stall ==> HasFail(l) || ExceptAt(d, g))
    && (HasRerun(l) || RerunAt(d, g) ==> d.stall && !d.rerun)
    && (HasRerun(l) ==> !LiveAt(d, g))
  }

  predicate StallInv(s: State) { Stalls(LiveExe(s), s.dec, s.hist.gen) }

  // -------- what each rule does --------

  /** Where the oldest executed instruction waits. */
  function Depth(b: Executed): nat {
    if b.pipe4 != [] then 1 else if b.pipe3 != [] then 2 else if b.busy.Some? then 3 else 0
  }

  predicate Turns(inst: Inst, b: Body) {
    match inst
    case Except(cause, tval) => b == Fail(cause, tval)
    case Oper(_) => !IsRerun(b)
  }

  /** `xs` has been issued; an outdated instruction may have been dropped instead. */
  predicate Executes(s: State, t: State, xs: seq<Exe>) {
    && InFlight(t) == InFlight(s) + xs && t.back.pipe4 == s.back.pipe4
    && (InFlight(s) != [] ==> Depth(t.back) <= Depth(s.back))
    && t == s.(dec := s.dec.(pipe2 := t.dec.pipe2), back := t.back, wire := s.wire.(flushE := t.wire.flushE))
    && Issues(s.dec, s.hist.gen, t.dec, t.wire.flushE.Some?, xs)
  }

  predicate Issues(d: Decoding, g: Gen, d': Decoding, redirect: bool, xs: seq<Exe>) {
    if xs == [] then
      !redirect && (d'.pipe2 == d.pipe2 || (d.pipe2 != [] && !LiveAt(d, g) && d'.pipe2 == []))
    else
      && |xs| == 1 && xs[0].gen == g.w && LiveAt(d, g) && d'.pipe2 == []
      && Turns(d.pipe2[0].inst, xs[0].body) && (redirect ==> d.pipe2[0].inst.Oper?)
  }

  lemma BodyIsNoRerun(isa: Isa)
    ensures forall op, pc, v1, v2 :: !IsRerun(BodyOf(isa, op, pc, v1, v2))
  {
  }

  lemma ExecuteMoves(isa: Isa, s: State, i: Input) returns (xs: seq<Exe>)
    requires Shape(s) && EpochInv(s) && Quiet(s)
    ensures Executes(s, Execute(isa, s, i), xs)
  {
    BodyIsNoRerun(isa);
    hide Epochs, Read, BodyOf, Redirect;
    var t := Execute(isa, s, i);
    xs := [];
    if s.back.busy.Some? {
      assert InFlight(t) == InFlight(s);
    } else if s.dec.pipe2 != [] && |s.back.pipe3| < 2 {
      var m := s.dec.pipe2[0];
      PacketCurrent(s, m.pkt);
      if m.pkt.tag == s.ep.ep3 && t != s {
        xs := [if t.back.busy.Some? then t.back.busy.value else t.back.pipe3[|s.back.pipe3|]];
        assert InFlight(t) == InFlight(s) + xs;
      }
    }
  }

  /** Write-back leaves pipe4 alone, drops an outdated instruction, or shows that it handled a current
      one: in the trace, or by the redirect of a rerun. */
  predicate Commits(s: State, t: State) {
    && t.dec == s.dec && t.pipe1 == s.pipe1 && t.ep == s.ep
    && t.wire.flushE == s.wire.flushE && t.hist.gen == s.hist.gen
    && if t == s then true else
         && s.back.pipe4 != [] && t.back == s.back.(pipe4 := [])
         && var x := s.back.pipe4[0];
            if x.gen != s.hist.gen.w then t == s.(back := s.back.(pipe4 := []))
            else if IsRerun(x.body) then t.wire.flushW.Some? && t.hist.trace == s.hist.trace
            else |t.hist.trace| == |s.hist.trace| + 1 && (x.body.Fail? ==> t.wire.flushW.Some?)
  }

  lemma CommitMoves(isa: Isa, s: State, i: Input, a: Arch)
    requires Inv(isa, s, a) && s.wire.flushW.None? && s.wire.commit.None?
    ensures Commits(s, Commit(isa, s, i))
    ensures i.retire && s.back.pipe4 != [] ==> Commit(isa, s, i).back.pipe4 == []
  {
    hide Epochs, Predicted, Live, Flow;
    if i.retire && s.back.pipe4 != [] {
      var x := s.back.pipe4[0];
      assert x in InFlight(s) && x in s.back.pipe4 by { assert InFlight(s)[0] == x; }
      ExeCurrent(s, x);
      if x.gen == s.hist.gen.w {
        OldestAgrees(isa, s, a);
        CommitsCurrent(isa, s, i, a, x);
      }
    }
  }

  lemma CommitsCurrent(isa: Isa, s: State, i: Input, a: Arch, x: Exe)
    requires Synced(s, a) && s.wire.flushW.None? && Agrees(isa, a, x)
    requires i.retire && s.back.pipe4 == [x] && x.tag == s.ep.w5 && x.gen == s.hist.gen.w && !x.body.Access?
    ensures Commits(s, Commit(isa, s, i)) && Commit(isa, s, i).back.pipe4 == []
  {
    hide Step;
  }

  lemma OldestAgrees(isa: Isa, s: State, a: Arch)
    requires Inv(isa, s, a) && s.wire.flushW.None? && s.back.pipe4 != [] && s.back.pipe4[0].gen == s.hist.gen.w
    ensures Agrees(isa, a, s.back.pipe4[0])
  {
    var x := s.back.pipe4[0];
    assert LiveExe(s)[0] == x by { assert InFlight(s)[0] == x; }
    hide Live, Epochs, Predicted;
  }

  /** Decode waits, drops an outdated instruction, or hands one to execute. */
  predicate Decodes(s: State, t: State) {
    && t == s.(pipe1 := t.pipe1, dec := t.dec)
    && (t.pipe1 != s.pipe1 || t.dec != s.dec ==>
          s.pipe1 != [] && t.pipe1 == s.pipe1[1..] && s.dec.pipe2 == [] && !s.dec.stall)
    && (t.dec != s.dec ==>
          var calm := s.wire.flushE.None? && s.wire.flushW.None?;
          s.pipe1[0].gen == s.hist.gen && Hands(s.pipe1[0], s.dec.rerun, calm, t.dec))
    && (t.dec == s.dec && t.pipe1 != s.pipe1 ==> s.pipe1[0].gen != s.hist.gen)
  }

  predicate Hands(k: Packet, rerun: bool, calm: bool, d: Decoding) {
    && |d.pipe2| == 1 && d.pipe2[0].pkt == k
    && d.stall == (d.pipe2[0].inst.Except? && calm)
    && (d.pipe2[0].inst.Except? && d.pipe2[0].inst.cause.Rerun? <==> rerun)
    && (rerun ==> !d.rerun)
  }

  lemma DecodeMoves(isa: Isa, s: State, csrs: Csrs, i: Input)
    requires Shape(s) && EpochInv(s)
    ensures Decodes(s, Decode(isa, s, csrs, i))
    ensures i.decode && !s.dec.stall && s.pipe1 != [] && s.dec.pipe2 == [] ==>
              Decode(isa, s, csrs, i).pipe1 == s.pipe1[1..]
  {
    hide Epochs;
    if i.decode && !s.dec.stall && s.pipe1 != [] && s.dec.pipe2 == [] {
      assert s.pipe1[0] in Upstream(s);
      PacketCurrent(s, s.pipe1[0]);
      assert s.pipe1[1..] != s.pipe1;
    }
  }

  /** The same instructions, some of them answered by the memory. */
  predicate Alike(l: seq<Exe>, m: seq<Exe>) {
    && |l| == |m|
    && (forall n | 0 <= n < |l| :: (l[n].body.Fail? ==> m[n].body.Fail?) && IsRerun(l[n].body) == IsRerun(m[n].body))
  }

  lemma {:induction false} AlikeLive(xs: seq<Exe>, ys: seq<Exe>, w: nat)
    requires Alike(xs, ys) && forall n | 0 <= n < |xs| :: xs[n].gen == ys[n].gen
    ensures Alike(Live(xs, w), Live(ys, w))
  {
    if xs != [] {
      AlikeLive(xs[1..], ys[1..], w);
    }
  }

  /** The rules behind decode: the register-file write, stage 4 and stage 1. */
  predicate Finishes(s: State, t: State) {
    && |InFlight(t)| == |InFlight(s)| && Alike(LiveExe(s), LiveExe(t)) && Depth(t.back) <= Depth(s.back)
    && t.dec.pipe2 == s.dec.pipe2 && t.dec.stall == s.dec.stall && t.dec.rerun == s.dec.rerun
    && (t.pipe1 == s.pipe1 ||
        (|t.pipe1| == |s.pipe1| + 1 && t.pipe1[..|s.pipe1|] == s.pipe1 && t.pipe1[|s.pipe1|].gen == s.hist.gen))
    && t.wire.flushE == s.wire.flushE && t.wire.flushW == s.wire.flushW && t.hist.trace == s.hist.trace
    && t.hist.gen == s.hist.gen
  }

  lemma AnsweredAlike(s: State, y: Exe, r: Response)
    requires s.back.pipe4 == [] && s.back.pipe3 != []
    requires y == s.back.pipe3[0].(body := Answered(s.back.pipe3[0].body, r))
    ensures var t := s.(back := s.back.(pipe3 := s.back.pipe3[1..], pipe4 := [y]));
            |InFlight(t)| == |InFlight(s)| && Alike(LiveExe(s), LiveExe(t))
  {
    hide Live;
    MovedUp(s, y);
    AlikeLive(InFlight(s), [y] + Behind(s), s.hist.gen.w);
  }

  lemma RestMoves(s: State, visible: bool, room: bool, i: Input)
    ensures var t := FetchOne(MemStage(CommitRd(s), visible, i), room, i);
            Finishes(s, t) && (room && i.fetch.Some? ==> t.pipe1 != s.pipe1)
  {
    hide Live, Answered;
    var u := CommitRd(s);
    assert InFlight(u) == InFlight(s);
    if i.memory && visible && u.back.pipe3 != [] && u.back.pipe4 == [] {
      var y := u.back.pipe3[0].(body := Answered(u.back.pipe3[0].body, i.resp));
      AnsweredAlike(u, y, i.resp);
    }
  }

  // -------- a stall always has a reason, and a rerun is owed once --------

  lemma IssueStalls(l: seq<Exe>, d: Decoding, g: Gen, d1: Decoding, e: bool, xs: seq<Exe>)
    requires Stalls(l, d, g) && Issues(d, g, d1, e, xs) && d1.stall == d.stall && d1.rerun == d.rerun
    ensures Stalls(l + xs, d1, g) && (e ==> !HasRerun(l + xs) && d1.pipe2 == [])
  {
    forall x | x in l ensures x in l + xs {}
    forall x | x in xs ensures x in l + xs && x == xs[0] {}
    if xs != [] {
      assert xs[0] in xs;
      forall x | x in l + xs ensures x in l || x == xs[0] {}
    } else {
      assert l + xs == l;
    }
  }

  lemma RetireStalls(l: seq<Exe>, m: seq<Exe>, d: Decoding, g: Gen)
    requires Stalls(l, d, g) && (m == l || (l != [] && m == l[1..] && !l[0].body.Fail?))
    ensures Stalls(m, d, g)
  {
    if m != l {
      assert l == [l[0]] + m;
      forall x | x in m ensures x in l {}
      forall x | x in l && x.body.Fail? ensures x in m {}
    }
  }

  lemma DecodeStalls(l: seq<Exe>, d: Decoding, g: Gen, e: bool, k: Packet, d': Decoding)
    requires Stalls(l, d, g) && d.pipe2 == [] && !d.stall && k.gen == g && Hands(k, d.rerun, !e, d')
    ensures Stalls(l, d', g) || e
    ensures d'.stall ==> !e
  {
  }

  lemma AlikeStalls(l: seq<Exe>, m: seq<Exe>, d: Decoding, g: Gen)
    requires Stalls(l, d, g) && Alike(l, m)
    ensures Stalls(m, d, g)
  {
    if HasFail(l) {
      var n :| 0 <= n < |l| && l[n].body.Fail?;
      assert m[n] in m;
    }
    if HasRerun(m) {
      var n :| 0 <= n < |m| && IsRerun(m[n].body);
      assert l[n] in l;
    }
  }

  // -------- a whole cycle --------

  /** The states between the rules of one cycle. Execute issues `xs`; `fetched` says whether stage 1 has an
      instruction at hand. */
  predicate Moves(s: State, xs: seq<Exe>, s1: State, s2: State, s3: State, t: State, fetched: bool) {
    && Executes(s, s1, xs) && Commits(s1, s2) && Decodes(s2, s3) && Finishes(s3, t)
    && (|s.pipe1| < 2 && fetched ==> t.pipe1 != s3.pipe1)
  }

  lemma RulesMove(isa: Isa, s: State, i: Input, a: Arch) returns (xs: seq<Exe>, s1: State, s2: State, s3: State)
    requires Inv(isa, s, a) && Quiet(s)
    ensures s1 == Execute(isa, s, i) && s2 == Commit(isa, s1, i) && s3 == Decode(isa, s2, s.arch.csrs, i)
    ensures Moves(s, xs, s1, s2, s3, Rules(isa, s, i), i.fetch.Some?)
    ensures Shape(s1) && Shape(s2)
  {
    hide Executes, Commits, Decodes, Finishes, Execute, Commit, Decode, CommitRd, MemStage, FetchOne;
    hide Epochs, Predicted, Flow, OperandsOk, Synced, Upstream, InFlight;
    xs := ExecuteMoves(isa, s, i);
    EarlyFrame(isa, s, i);
    ExecuteKeeps(isa, s, i, a);
    s1 := Execute(isa, s, i);
    CommitMoves(isa, s1, i, a);
    var a' := EarlyRules(isa, s, i, a);
    s2 := Commit(isa, s1, i);
    DecodeMoves(isa, s2, s.arch.csrs, i);
    s3 := Decode(isa, s2, s.arch.csrs, i);
    RestMoves(s3, s.back.pipe3 != [], |s.pipe1| < 2, i);
  }

  lemma LiveIssued(s: State, xs: seq<Exe>, w: nat)
    requires |xs| <= 1 && forall x <- xs :: x.gen == w
    ensures Live(InFlight(s) + xs, w) == Live(InFlight(s), w) + xs
  {
    hide InFlight;
    LiveConcat(InFlight(s), xs, w);
    if xs != [] {
      assert xs[1..] == [] && xs == [xs[0]] && xs[0] in xs;
    }
  }

  lemma LiveRetired(s: State, t: State)
    requires s.back.pipe4 != [] && |s.back.pipe4| == 1 && t.back == s.back.(pipe4 := []) && t.hist.gen == s.hist.gen
    ensures var x := s.back.pipe4[0];
            LiveExe(s) == (if x.gen == s.hist.gen.w then [x] else []) + LiveExe(t)
  {
    var x := s.back.pipe4[0];
    assert InFlight(s) == [x] + InFlight(t);
    assert InFlight(s)[1..] == InFlight(t);
    hide InFlight;
  }

  /** What issuing and retiring make of the current executed instructions. */
  lemma LiveMoves(s: State, xs: seq<Exe>, s1: State, s2: State)
    requires Executes(s, s1, xs) && Commits(s1, s2) && |s.back.pipe4| <= 1
    ensures LiveExe(s1) == LiveExe(s) + xs
    ensures LiveExe(s2) == LiveExe(s1)
            || (s1.back.pipe4 != [] && s2 != s1 && s1.back.pipe4[0].gen == s.hist.gen.w
                  && LiveExe(s1) == [s1.back.pipe4[0]] + LiveExe(s2))
  {
    hide Live, InFlight;
    LiveIssued(s, xs, s.hist.gen.w);
    if s2 != s1 {
      LiveRetired(s1, s2);
    }
  }

  /** After a redirect of write-back nothing in the pipe is current. */
  lemma NothingCurrent(s: State)
    requires EpochInv(s) && s.wire.flushW.Some?
    ensures var t := Flush(s); LiveExe(t) == [] && !LivePipe2(t) && !t.dec.stall
  {
    var e, w, g := s.wire.flushE.Some?, s.wire.flushW.Some?, s.hist.gen;
    var t := Flush(s);
    FlushedAreStale(InFlight(s), Upstream(s), g, e, w);
    hide Epochs;
    assert InFlight(t) == InFlight(s);
    NoneLive(InFlight(t), t.hist.gen.w);
    assert s.dec.pipe2 != [] ==> s.dec.pipe2[0].pkt in Upstream(s);
  }

  lemma StallInvKept(isa: Isa, s: State, i: Input, a: Arch)
    requires Inv(isa, s, a) && Quiet(s) && InputOk(isa, s, i) && StallInv(s)
    ensures StallInv(Cycle(isa, s, i))
  {
    hide Flow, Predicted, OperandsOk, Synced, Epochs, Live, InFlight, InputOk, Rules, Stalls;
    var t := Rules(isa, s, i);
    var xs, s1, s2, s3 := RulesMove(isa, s, i, a);
    if t.wire.flushW.Some? {
      var a' := RulesKeep(isa, s, i, a);
      NothingCurrent(t);
      NothingStalls(Flush(t));
    } else {
      StallsThroughCycle(s, xs, s1, s2, s3, t, i.fetch.Some?);
    }
  }

  lemma NothingStalls(s: State)
    requires LiveExe(s) == [] && !LivePipe2(s) && !s.dec.stall
    ensures StallInv(s)
  {
  }

  lemma FlushedStalls(s: State, t: State)
    requires Finishes(s, t) && t.wire.flushW.None?
    requires if t.wire.flushE.None? then StallInv(s)
             else !HasRerun(LiveExe(s)) && (s.dec.pipe2 == [] || s.dec.pipe2[0].pkt.gen == s.hist.gen)
    ensures StallInv(Flush(t))
  {
    hide Live, InFlight;
    var l, m, u := LiveExe(s), LiveExe(t), Flush(t);
    assert InFlight(u) == InFlight(t) by { SameBack(u, t); }
    if t.wire.flushE.None? {
      AlikeStalls(l, m, s.dec, s.hist.gen);
    } else {
      forall n | 0 <= n < |m| ensures !IsRerun(m[n].body) {
        assert l[n] in l;
      }
    }
  }

  lemma SameBack(s: State, t: State)
    requires s.back == t.back
    ensures InFlight(s) == InFlight(t)
  {
  }

  lemma StallsThroughCycle(s: State, xs: seq<Exe>, s1: State, s2: State, s3: State, t: State, fetched: bool)
    requires Moves(s, xs, s1, s2, s3, t, fetched) && Quiet(s) && |s.back.pipe4| <= 1
    requires StallInv(s) && t.wire.flushW.None?
    ensures StallInv(Flush(t))
  {
    hide InFlight, Live, Stalls, Finishes;
    assert t.wire.flushE == s1.wire.flushE && s2.wire.flushW.None? by { FinishesFrame(s3, t); }
    var g, e := s.hist.gen, t.wire.flushE.Some?;
    LiveMoves(s, xs, s1, s2);
    IssueStalls(LiveExe(s), s.dec, g, s1.dec, e, xs);
    RetireStalls(LiveExe(s1), LiveExe(s2), s2.dec, g);
    assert LiveExe(s3) == LiveExe(s2) by { SameBack(s3, s2); }
    if s3.dec != s2.dec {
      DecodeStalls(LiveExe(s2), s2.dec, g, e, s2.pipe1[0], s3.dec);
    }
    if e {
      RerunStays(LiveExe(s1), LiveExe(s2));
    }
    FlushedStalls(s3, t);
  }

  lemma FinishesFrame(s: State, t: State)
    requires Finishes(s, t)
    ensures t.wire.flushE == s.wire.flushE && t.wire.flushW == s.wire.flushW
  {
  }

  lemma RerunStays(l: seq<Exe>, m: seq<Exe>)
    requires m == l || (l != [] && m == l[1..])
    ensures HasRerun(m) ==> HasRerun(l)
  {
    if m != l {
      assert l == [l[0]] + m;
      assert forall x | x in m :: x in l;
    }
  }

  // -------- the oldest current instruction is not a rerun --------

  predicate Onward(l: seq<Exe>, d: Decoding, g: Gen) {
    if l != [] then !IsRerun(l[0].body) else if LiveAt(d, g) then !RerunAt(d, g) else !d.rerun
  }

  predicate GoesOn(s: State) { Onward(LiveExe(s), s.dec, s.hist.gen) }

  lemma IssueOnward(l: seq<Exe>, d: Decoding, g: Gen, d1: Decoding, e: bool, xs: seq<Exe>)
    requires Onward(l, d, g) && Issues(d, g, d1, e, xs) && d1.rerun == d.rerun
    ensures Onward(l + xs, d1, g)
  {
    assert l == [] ==> l + xs == xs;
  }

  lemma DecodeOnward(l: seq<Exe>, d: Decoding, g: Gen, k: Packet, calm: bool, d': Decoding)
    requires Onward(l, d, g) && d.pipe2 == [] && k.gen == g && Hands(k, d.rerun, calm, d')
    ensures Onward(l, d', g)
  {
  }

  // -------- the measure --------

  function Stale(s: State): int { |InFlight(s)| - |LiveExe(s)| }

  function StaleIn(ks: seq<Packet>, g: Gen): int { |ks| - |LivePackets(ks, g)| }

  /** A control instruction that still lacks the program counter of its follower. */
  predicate Waits(q: seq<Meta>, p: seq<Packet>, g: Gen) {
    q != [] && q[0].pkt.gen == g && p == []
  }

  /** What pipe2 and pipe1 still have to drop, and what they lack for execute. */
  function FrontWork(q: seq<Meta>, p: seq<Packet>, g: Gen): int {
    8 * StaleIn((if q == [] then [] else [q[0].pkt]) + p, g) + 2 - |p|
      + if q != [] then (if Waits(q, p, g) then 2 else 0) else if p != [] then 4 else 6
  }

  function BackWork(s: State): int { 4 * Stale(s) + Depth(s.back) }

  function Measure(s: State): int {
    if LiveExe(s) != [] then BackWork(s) else 20 + BackWork(s) + FrontWork(s.dec.pipe2, s.pipe1, s.hist.gen)
  }

  // -------- towards execute --------

  lemma StaleHead(k: Packet, ks: seq<Packet>, g: Gen)
    ensures StaleIn([k] + ks, g) == (if k.gen == g then 0 else 1) + StaleIn(ks, g)
  {
    HeadPackets(k, ks, g);
  }

  lemma StaleTail(ks: seq<Packet>, k: Packet, g: Gen)
    requires k.gen == g
    ensures StaleIn(ks + [k], g) == StaleIn(ks, g)
  {
    PacketsConcat(ks, [k], g);
    assert [k][1..] == [];
  }

  lemma DropWork(q: seq<Meta>, p: seq<Packet>, g: Gen)
    requires q != [] && q[0].pkt.gen != g
    ensures FrontWork([], p, g) < FrontWork(q, p, g)
  {
    StaleHead(q[0].pkt, p, g);
    assert [] + p == p;
    hide StaleIn;
  }

  lemma DecodeWork(p: seq<Packet>, g: Gen, q: seq<Meta>)
    requires p != [] && if p[0].gen == g then q != [] && q[0].pkt == p[0] else q == []
    ensures FrontWork(q, p[1..], g) < FrontWork([], p, g)
  {
    assert p == [p[0]] + p[1..] && [] + p == p && [] + p[1..] == p[1..];
    StaleHead(p[0], p[1..], g);
    hide StaleIn;
  }

  lemma FetchWork(q: seq<Meta>, p: seq<Packet>, k: Packet, g: Gen)
    requires k.gen == g
    ensures FrontWork(q, p + [k], g) < FrontWork(q, p, g)
  {
    var ks: seq<Packet> := if q == [] then [] else [q[0].pkt];
    assert ks + (p + [k]) == (ks + p) + [k];
    StaleTail(ks + p, k, g);
    hide StaleIn;
  }

  // -------- a cycle in which everybody cooperates --------

  /** Every stage may move. */
  predicate Cooperative(i: Input) {
    i.exec && i.mulDone && i.retire && i.decode && i.memory
  }

  /** Nothing in pipe3 or pipe4 means nothing to wait for. */
  lemma NothingToBypass(s: State, o: Operand)
    requires s.back.pipe3 == [] && s.back.pipe4 == []
    ensures Read(s, o) == (true, o.data)
  {
  }

  /** With nothing in front of it, execute acts on whatever is in pipe2, unless it waits for the follower
      of a control instruction. */
  lemma ExecuteDrives(isa: Isa, s: State, i: Input)
    requires Shape(s) && EpochInv(s) && Quiet(s) && Cooperative(i)
    ensures var t := Execute(isa, s, i);
      && (s.back.busy.Some? ==> t.back.pipe3 != [])
      && (InFlight(s) == [] && s.dec.pipe2 != [] ==> t.dec.pipe2 == [] || (t == s && LivePipe2(s) && s.pipe1 == []))
  {
    hide Epochs, Read, BodyOf, Redirect;
    if InFlight(s) == [] && s.dec.pipe2 != [] {
      PacketCurrent(s, s.dec.pipe2[0].pkt);
      NothingToBypass(s, s.dec.op1);
      NothingToBypass(s, s.dec.op2);
    }
  }

  lemma RestDrives(s: State, visible: bool, room: bool, i: Input)
    requires Cooperative(i)
    ensures var t := FetchOne(MemStage(CommitRd(s), visible, i), room, i);
      && (visible && s.back.pipe3 != [] && s.back.pipe4 == [] ==> t.back.pipe4 != [])
  {
    hide Answered;
  }

  /** What the cooperation of the surroundings adds to the moves of a cycle. */
  predicate Drives(s: State, s1: State, s2: State, s3: State, t: State) {
    && (s.back.busy.Some? ==> s1.back.pipe3 != [])
    && (InFlight(s) == [] && s.dec.pipe2 != [] ==> s1.dec.pipe2 == [] || (s1 == s && LivePipe2(s) && s.pipe1 == []))
    && s2.back.pipe4 == []
    && (!s2.dec.stall && s2.pipe1 != [] && s2.dec.pipe2 == [] ==> s3.pipe1 == s2.pipe1[1..])
    && (s.back.pipe3 != [] && s3.back.pipe3 != [] && s3.back.pipe4 == [] ==> t.back.pipe4 != [])
  }

  lemma RulesDrive(isa: Isa, s: State, i: Input, a: Arch) returns (xs: seq<Exe>, s1: State, s2: State, s3: State)
    requires Inv(isa, s, a) && Quiet(s)
    ensures Moves(s, xs, s1, s2, s3, Rules(isa, s, i), i.fetch.Some?)
    ensures Cooperative(i) ==> Drives(s, s1, s2, s3, Rules(isa, s, i))
  {
    hide Execute, Commit, Decode, CommitRd, MemStage, FetchOne, Finishes;
    hide Epochs, Predicted, Flow, OperandsOk, Synced, Upstream, InFlight, Issues, Hands;
    xs, s1, s2, s3 := RulesMove(isa, s, i, a);
    if Cooperative(i) {
      ExecuteDrives(isa, s, i);
      EarlyFrame(isa, s, i);
      ExecuteKeeps(isa, s, i, a);
      CommitMoves(isa, s1, i, a);
      var a' := EarlyRules(isa, s, i, a);
      DecodeMoves(isa, s2, s.arch.csrs, i);
      RestDrives(s3, s.back.pipe3 != [], |s.pipe1| < 2, i);
    }
  }

  /** A cycle in which write-back shows nothing: what left pipe4, if anything, was outdated. */
  predicate Idle(s: State, s1: State, s2: State) {
    s2 == s1 ||
    (s1.back.pipe4 != [] && s1.back.pipe4[0].gen != s.hist.gen.w && s2 == s1.(back := s1.back.(pipe4 := [])))
  }

  /** Execution does not fall back, and with the help of the surroundings it comes nearer to its end. */
  lemma BackFalls(s: State, xs: seq<Exe>, s1: State, s2: State, s3: State, t: State, fetched: bool, helped: bool)
    requires Moves(s, xs, s1, s2, s3, t, fetched) && Shape(s) && Idle(s, s1, s2)
    requires helped ==> Drives(s, s1, s2, s3, t)
    ensures |LiveExe(t)| == |LiveExe(s)| + |xs|
    ensures Stale(t) <= Stale(s)
    ensures InFlight(s) != [] || xs == [] ==> BackWork(t) <= BackWork(s)
    ensures helped && InFlight(s) != [] ==> BackWork(t) < BackWork(s)
  {
    hide Live;
    LiveMoves(s, xs, s1, s2);
    SameBack(s3, s2);
    assert |InFlight(s2)| == |InFlight(s1)| - (if s2 == s1 then 0 else 1);
    assert |LiveExe(t)| == |LiveExe(s2)|;
    hide LiveExe;
  }

  /** With nothing current executed, and nothing issued, neither does the front of the pipe, and an
      instruction from stage 1 always brings it nearer to issuing. */
  lemma FrontFalls(s: State, s1: State, s2: State, s3: State, t: State, fetched: bool, helped: bool)
    requires Moves(s, [], s1, s2, s3, t, fetched) && Idle(s, s1, s2)
    requires helped ==> Drives(s, s1, s2, s3, t)
    requires StallInv(s) && LiveExe(s) == [] && |s.pipe1| <= 2
    ensures FrontWork(t.dec.pipe2, t.pipe1, s.hist.gen) <= FrontWork(s.dec.pipe2, s.pipe1, s.hist.gen)
    ensures (|s.pipe1| < 2 && fetched) || (helped && InFlight(s) == [] && s.pipe1 != []) ==>
              FrontWork(t.dec.pipe2, t.pipe1, s.hist.gen) < FrontWork(s.dec.pipe2, s.pipe1, s.hist.gen)
  {
    hide FrontWork, InFlight, LiveExe, Alike;
    var g := s.hist.gen;
    if s1.dec.pipe2 != s.dec.pipe2 {
      DropWork(s.dec.pipe2, s.pipe1, g);
    }
    if s3.pipe1 != s2.pipe1 {
      DecodeWork(s2.pipe1, g, s3.dec.pipe2);
    }
    if t.pipe1 != s3.pipe1 {
      var k := t.pipe1[|s3.pipe1|];
      assert t.pipe1 == s3.pipe1 + [k];
      FetchWork(s3.dec.pipe2, s3.pipe1, k, g);
    }
  }

  lemma {:induction false} LiveCount(xs: seq<Exe>, w: nat)
    ensures |Live(xs, w)| <= |xs|
  {
    if xs != [] {
      LiveCount(xs[1..], w);
    }
  }

  lemma {:induction false} PacketCount(ks: seq<Packet>, g: Gen)
    ensures |LivePackets(ks, g)| <= |ks|
  {
    if ks != [] {
      PacketCount(ks[1..], g);
    }
  }

  const LIMIT := 68

  lemma MeasureBound(s: State)
    requires Shape(s)
    ensures 0 <= Measure(s) < LIMIT && (LiveExe(s) != [] ==> Measure(s) < 20)
    ensures LiveExe(s) == [] ==> BackWork(s) <= Measure(s) - 20
  {
    LiveCount(InFlight(s), s.hist.gen.w);
    PacketCount(Upstream(s), s.hist.gen);
    assert Upstream(s) == (if s.dec.pipe2 == [] then [] else [s.dec.pipe2[0].pkt]) + s.pipe1;
    hide Live, LivePackets;
  }

  /** The measure, and a whole further round if the oldest current instruction will be rerun. */
  function Total(s: State): int { Measure(s) + if GoesOn(s) then 0 else LIMIT }

  lemma FlushIdle(s: State)
    requires s.wire.flushW.None?
    ensures var t := Flush(s);
      && InFlight(t) == InFlight(s) && LiveExe(t) == LiveExe(s) && t.back == s.back && t.pipe1 == s.pipe1
      && t.dec.pipe2 == s.dec.pipe2 && (s.wire.flushE.None? ==> t.hist.gen == s.hist.gen && t.dec == s.dec)
  {
    SameBack(Flush(s), s);
  }

  lemma AlikeOnward(l: seq<Exe>, m: seq<Exe>, d: Decoding, g: Gen)
    requires Onward(l, d, g) && Alike(l, m)
    ensures Onward(m, d, g)
  {
  }

  lemma FlushOnward(s: State, d: Decoding)
    requires Onward(LiveExe(s), d, s.hist.gen) && s.dec.pipe2 == d.pipe2 && s.dec.rerun == d.rerun
    requires s.wire.flushW.None? && (s.wire.flushE.Some? ==> LiveExe(s) != [])
    ensures GoesOn(Flush(s))
  {
    hide LiveExe, InFlight;
    FlushIdle(s);
  }

  lemma IdleOnward(s: State, xs: seq<Exe>, s1: State, s2: State, s3: State, t: State, fetched: bool)
    requires Moves(s, xs, s1, s2, s3, t, fetched) && Quiet(s) && Idle(s, s1, s2) && |s.back.pipe4| <= 1 && GoesOn(s)
    ensures GoesOn(Flush(t))
  {
    hide InFlight, Live, Onward, Hands;
    var g, e := s.hist.gen, s1.wire.flushE.Some?;
    LiveMoves(s, xs, s1, s2);
    IssueOnward(LiveExe(s), s.dec, g, s1.dec, e, xs);
    assert LiveExe(s3) == LiveExe(s2) by { SameBack(s3, s2); }
    assert LiveExe(s2) == LiveExe(s1);
    if s3.dec != s2.dec {
      DecodeOnward(LiveExe(s2), s2.dec, g, s2.pipe1[0], !e, s3.dec);
    }
    AlikeOnward(LiveExe(s3), LiveExe(t), s3.dec, g);
    FlushOnward(t, s3.dec);
  }

  lemma IdleFalls(s: State, xs: seq<Exe>, s1: State, s2: State, s3: State, t: State, fetched: bool, helped: bool)
    requires Moves(s, xs, s1, s2, s3, t, fetched) && Quiet(s) && Idle(s, s1, s2)
    requires helped ==> Drives(s, s1, s2, s3, t)
    requires Shape(s) && StallInv(s) && Shape(Flush(t))
    ensures t.wire.flushW.None? && (GoesOn(s) ==> GoesOn(Flush(t)))
    ensures Measure(Flush(t)) < Measure(s) || (Measure(Flush(t)) == Measure(s) && Stands(s, t, fetched, helped))
  {
    if GoesOn(s) {
      IdleOnward(s, xs, s1, s2, s3, t, fetched);
    }
    BackFalls(s, xs, s1, s2, s3, t, fetched, helped);
    FlushIdle(t);
    MeasureBound(s);
    MeasureBound(Flush(t));
    if LiveExe(s) == [] && xs == [] {
      FrontFalls(s, s1, s2, s3, t, fetched, helped);
    }
    assert LiveExe(s) != [] ==> InFlight(s) != [] by { LiveCount(InFlight(s), s.hist.gen.w); }
    hide InFlight, LiveExe, FrontWork, GoesOn, StallInv, Shape, Moves, Drives, Idle;
  }

  /** Nothing has changed that counts: either the surroundings did not help, or all waits for stage 1. */
  predicate Stands(s: State, t: State, fetched: bool, helped: bool) {
    && t.wire.flushW.None? && (LiveExe(s) == [] <==> LiveExe(Flush(t)) == [])
    && (LiveExe(s) == [] ==> t.wire.flushE.None? && !(|s.pipe1| < 2 && fetched))
    && (helped ==> LiveExe(s) == [] && s.pipe1 == [])
  }

  /** What write-back shows: an event, or the redirect of a rerun, which is then owed no more. */
  lemma ShowsProgress(s: State, xs: seq<Exe>, s1: State, s2: State, s3: State, t: State, fetched: bool)
    requires Moves(s, xs, s1, s2, s3, t, fetched) && Quiet(s) && !Idle(s, s1, s2) && |s.back.pipe4| <= 1
    requires StallInv(s) && EpochInv(t)
    ensures |t.hist.trace| > |s.hist.trace| || (t.wire.flushW.Some? && !GoesOn(s) && GoesOn(Flush(t)))
  {
    hide InFlight, Live, Epochs, Alike, Hands, Stalls;
    var x := s1.back.pipe4[0];
    assert s2 != s1 && x.gen == s.hist.gen.w;
    if IsRerun(x.body) {
      LiveMoves(s, xs, s1, s2);
      OldestIsFirst(s1);
      assert LiveExe(s1)[0] == x && x in LiveExe(s1);
      IssueStalls(LiveExe(s), s.dec, s.hist.gen, s1.dec, s1.wire.flushE.Some?, xs);
      assert s1.dec.stall && !s1.dec.rerun by { RerunOwed(LiveExe(s1), s1.dec, s.hist.gen); }
      NothingCurrent(t);
      if GoesOn(s) {
        IssueOnward(LiveExe(s), s.dec, s.hist.gen, s1.dec, s1.wire.flushE.Some?, xs);
      }
    }
  }

  lemma OldestIsFirst(s: State)
    requires s.back.pipe4 != [] && s.back.pipe4[0].gen == s.hist.gen.w
    ensures LiveExe(s) != [] && LiveExe(s)[0] == s.back.pipe4[0]
  {
    assert InFlight(s)[0] == s.back.pipe4[0];
  }

  lemma RerunOwed(l: seq<Exe>, d: Decoding, g: Gen)
    requires Stalls(l, d, g) && l != [] && IsRerun(l[0].body)
    ensures d.stall && !d.rerun
  {
    assert l[0] in l;
  }

  /** One cycle retires an event, or brings the next one nearer, or stands still; it stands still only
      without the help of the surroundings or while everything waits for stage 1. */
  lemma CycleFalls(isa: Isa, s: State, i: Input, a: Arch)
    requires Inv(isa, s, a) && Quiet(s) && InputOk(isa, s, i) && StallInv(s)
    ensures var t := Cycle(isa, s, i);
      || |t.hist.trace| > |s.hist.trace|
      || Total(t) < Total(s)
      || (Total(t) == Total(s) && Stands(s, Rules(isa, s, i), i.fetch.Some?, Cooperative(i)))
  {
    hide Flow, Predicted, OperandsOk, Synced, EpochInv, StallInv, InFlight, LiveExe, InputOk, Rules, Measure, GoesOn;
    hide Moves, Drives, Idle, Shape, Extends, Cooperative, Stands;
    var u := Rules(isa, s, i);
    var xs, s1, s2, s3 := RulesDrive(isa, s, i, a);
    var a1 := RulesKeep(isa, s, i, a);
    var a2 := CycleKeeps(isa, s, i, a);
    MeasureBound(s);
    MeasureBound(Flush(u));
    assert |s.back.pipe4| <= 1 by { OneInPipe4(s); }
    if Idle(s, s1, s2) {
      IdleFalls(s, xs, s1, s2, s3, u, i.fetch.Some?, Cooperative(i));
    } else {
      ShowsProgress(s, xs, s1, s2, s3, u, i.fetch.Some?);
    }
  }

  lemma OneInPipe4(s: State)
    requires Shape(s)
    ensures |s.back.pipe4| <= 1
  {
  }

  // -------- whole runs --------

  lemma {:induction false} RunStalls(isa: Isa, a: Arch, ins: seq<Input>)
    requires RunOk(isa, Reset(a.pc, a.rf, a.csrs, a.mem), ins)
    ensures StallInv(Run(isa, Reset(a.pc, a.rf, a.csrs, a.mem), ins))
    decreases |ins|
  {
    hide Inv, Cycle, InputOk, RunOk, Quiet;
    var s0 := Reset(a.pc, a.rf, a.csrs, a.mem);
    if ins == [] {
      ResetInv(isa, a);
    } else {
      hide Run, Legal, Final, StallInv;
      var n := |ins| - 1;
      LastCycle(isa, s0, ins);
      RunKeeps(isa, a, ins[..n]);
      RunStalls(isa, a, ins[..n]);
      var s := Run(isa, s0, ins[..n]);
      StallInvKept(isa, s, ins[n], Final(isa, a, s.hist.trace));
    }
  }

  /** In how many of these cycles every stage may move and stage 1 has an instruction at hand. */
  function Helped(ins: seq<Input>): nat {
    if ins == [] then 0
    else Helped(ins[..|ins| - 1]) + if Cooperative(ins[|ins| - 1]) && ins[|ins| - 1].fetch.Some? then 1 else 0
  }

  lemma StandsUnlessHelped(s: State, t: State, fetched: bool, helped: bool)
    requires Stands(s, t, fetched, helped)
    ensures !(fetched && helped)
  {
  }

  lemma {:induction false} RunFalls(isa: Isa, a: Arch, ins: seq<Input>, n: nat)
    requires RunOk(isa, Reset(a.pc, a.rf, a.csrs, a.mem), ins) && n <= |ins|
    ensures var s0 := Reset(a.pc, a.rf, a.csrs, a.mem);
            var s, t := Run(isa, s0, ins[..n]), Run(isa, s0, ins);
            || |t.hist.trace| > |s.hist.trace|
            || (t.hist.trace == s.hist.trace && Total(t) + Helped(ins[n..]) <= Total(s))
    decreases |ins|
  {
    hide Inv, Cycle, InputOk, RunOk, Quiet, Reset, Run, StallInv, Total, Stands;
    hide Legal, Final, Cooperative, Permits, Follow;
    var s0 := Reset(a.pc, a.rf, a.csrs, a.mem);
    if n == |ins| {
      assert ins[..n] == ins;
    } else {
      var k := |ins| - 1;
      LastCycle(isa, s0, ins);
      assert ins[..k][..n] == ins[..n] && ins[n..][..|ins[n..]| - 1] == ins[..k][n..];
      RunFalls(isa, a, ins[..k], n);
      RunKeeps(isa, a, ins[..k]);
      RunStalls(isa, a, ins[..k]);
      var s := Run(isa, s0, ins[..k]);
      var b := Final(isa, a, s.hist.trace);
      CycleFalls(isa, s, ins[k], b);
      var b' := CycleKeeps(isa, s, ins[k], b);
      if Stands(s, Rules(isa, s, ins[k]), ins[k].fetch.Some?, Cooperative(ins[k])) {
        StandsUnlessHelped(s, Rules(isa, s, ins[k]), ins[k].fetch.Some?, Cooperative(ins[k]));
      }
    }
  }

  /** Stages 2 to 5 are never stuck: any part of any run that has this many cycles in which every stage
      may move and stage 1 has an instruction at hand, in a row or not, retires at least one event. */
  lemma Progress(isa: Isa, a: Arch, ins: seq<Input>, n: nat)
    requires RunOk(isa, Reset(a.pc, a.rf, a.csrs, a.mem), ins)
    requires n <= |ins| && Helped(ins[n..]) >= 2 * LIMIT
    ensures var s0 := Reset(a.pc, a.rf, a.csrs, a.mem);
            |Run(isa, s0, ins).hist.trace| > |Run(isa, s0, ins[..n]).hist.trace|
  {
    hide InputOk, Reset, Run, Measure, GoesOn, Cooperative, Legal, Final, Inv, Quiet, Cycle, Helped;
    var s0 := Reset(a.pc, a.rf, a.csrs, a.mem);
    assert RunOk(isa, s0, ins[..n]) by {
      assert forall m | 0 <= m < n :: ins[..n][..m] == ins[..m];
    }
    RunKeeps(isa, a, ins);
    RunKeeps(isa, a, ins[..n]);
    RunFalls(isa, a, ins, n);
    ShapeOfRun(isa, a, ins);
    ShapeOfRun(isa, a, ins[..n]);
    MeasureBound(Run(isa, s0, ins));
    MeasureBound(Run(isa, s0, ins[..n]));
  }

  lemma ShapeOfRun(isa: Isa, a: Arch, ins: seq<Input>)
    requires RunOk(isa, Reset(a.pc, a.rf, a.csrs, a.mem), ins)
    ensures Shape(Run(isa, Reset(a.pc, a.rf, a.csrs, a.mem), ins))
  {
    RunKeeps(isa, a, ins);
    hide Run, Legal, Final, Shape, EpochInv, OperandsOk, Predicted, Synced, Flow;
  }
}
