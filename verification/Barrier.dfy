/** The sense-reversing barrier, run over and over by any number of threads.

    A step is one shared access of one thread, and steps interleave freely. `entered`, `left` and
    `episode` are history: how often a thread has entered and left the barrier, and how many episodes
    are over. */
module Barrier {
  /** Where a thread stands: outside; about to count itself; the last to arrive, about to reset the
      count; about to release the others; or spinning on `sense`. */
  datatype Pc = Outside | Counting | Resetting | Releasing | Spinning

  datatype Thread = Thread(pc: Pc, threadsense: bool, entered: nat, left: nat)

  datatype State = State(sense: bool, count: nat, threads: seq<Thread>, episode: nat)

  function Init(n: nat): State { State(false, 0, seq(n, _ => Thread(Outside, false, 0, 0)), 0) }

  function Leave(t: Thread): Thread { t.(pc := Outside, left := t.left + 1) }

  /** The next shared access of thread `i`, with the thread-local work before it. */
  function Step(s: State, i: nat): State
    requires i < |s.threads|
  {
    var t := s.threads[i];
    match t.pc
    case Outside =>
      s.(threads := s.threads[i := t.(pc := Counting, threadsense := !t.threadsense, entered := t.entered + 1)])
    case Counting =>
      var last := s.count == |s.threads| - 1;
      s.(count := s.count + 1, threads := s.threads[i := t.(pc := if last then Resetting else Spinning)])
    case Resetting => s.(count := 0, threads := s.threads[i := t.(pc := Releasing)])
    case Releasing => s.(sense := t.threadsense, threads := s.threads[i := Leave(t)], episode := s.episode + 1)
    case Spinning => if s.sense != t.threadsense then s else s.(threads := s.threads[i := Leave(t)])
  }

  /** A schedule names one of `n` threads for each step. */
  predicate Threads(n: nat, schedule: seq<nat>) { forall i <- schedule :: i < n }

  function Run(n: nat, schedule: seq<nat>): State
    requires Threads(n, schedule)
    ensures |Run(n, schedule).threads| == n
  {
    if schedule == [] then Init(n)
    else
      var k := |schedule| - 1;
      assert forall i <- schedule[..k] :: i in schedule;
      assert schedule[k] in schedule;
      Step(Run(n, schedule[..k]), schedule[k])
  }

  // -------- the invariant --------

  predicate Odd(n: nat) { n % 2 == 1 }

  /** Counted into the episode under way. */
  predicate Arrived(t: Thread, episode: nat) {
    t.entered == episode + 1 && (t.pc.Spinning? || t.pc.Resetting? || t.pc.Releasing?)
  }

  function Arrivals(ts: seq<Thread>, episode: nat): nat {
    if ts == [] then 0
    else (if Arrived(ts[0], episode) then 1 else 0) + Arrivals(ts[1..], episode)
  }

  predicate ThreadOk(t: Thread, episode: nat) {
    && t.threadsense == Odd(t.entered)
    && t.entered == t.left + (if t.pc.Outside? then 0 else 1)
    && (if t.pc.Outside? then t.entered == episode
        else if t.pc.Spinning? then t.entered == episode || t.entered == episode + 1
        else t.entered == episode + 1)
  }

  predicate Last(t: Thread) { t.pc.Resetting? || t.pc.Releasing? }

  ghost predicate Inv(s: State) {
    && s.sense == Odd(s.episode)
    && (forall t <- s.threads :: ThreadOk(t, s.episode))
    && (if exists t <- s.threads :: Last(t) then
          Arrivals(s.threads, s.episode) == |s.threads|
        else
          s.count == Arrivals(s.threads, s.episode) < |s.threads|)
    && (forall i, j | 0 <= i < j < |s.threads| :: !(Last(s.threads[i]) && Last(s.threads[j])))
    && (forall t <- s.threads :: (t.pc.Resetting? ==> s.count == |s.threads|) && (t.pc.Releasing? ==> s.count == 0))
  }

  // -------- counting --------

  lemma {:induction false} ArrivalsBound(ts: seq<Thread>, episode: nat)
    ensures Arrivals(ts, episode) <= |ts|
    ensures Arrivals(ts, episode) == |ts| <==> forall t <- ts :: Arrived(t, episode)
  {
    if ts != [] {
      ArrivalsBound(ts[1..], episode);
      assert ts == [ts[0]] + ts[1..];
    }
  }

  lemma {:induction false} ArrivalsUpdate(ts: seq<Thread>, i: nat, t: Thread, episode: nat)
    requires i < |ts|
    ensures Arrivals(ts[i := t], episode) ==
              Arrivals(ts, episode) + (if Arrived(t, episode) then 1 else 0)
                                    - (if Arrived(ts[i], episode) then 1 else 0)
  {
    if i == 0 {
      assert ts[i := t][1..] == ts[1..];
    } else {
      assert ts[i := t][1..] == ts[1..][i - 1 := t];
      ArrivalsUpdate(ts[1..], i - 1, t, episode);
    }
  }

  lemma {:induction false} NoArrivals(ts: seq<Thread>, episode: nat)
    requires forall t <- ts :: !Arrived(t, episode)
    ensures Arrivals(ts, episode) == 0
  {
    if ts != [] {
      NoArrivals(ts[1..], episode);
    }
  }

  /** Members after the update of one thread. */
  lemma Updated(ts: seq<Thread>, i: nat, t: Thread)
    requires i < |ts|
    ensures t in ts[i := t] && ts[i] in ts
    ensures forall u <- ts[i := t] :: u == t || u in ts
    ensures forall j | 0 <= j < |ts| && j != i :: ts[i := t][j] == ts[j]
  {
    assert ts[i := t][i] == t;
  }

  /** The last to arrive is alone with that, and everybody has been counted. */
  lemma LastIsAlone(s: State, i: nat)
    requires Inv(s) && i < |s.threads| && Last(s.threads[i])
    ensures forall j | 0 <= j < |s.threads| && j != i ::
              s.threads[j].pc.Spinning? && s.threads[j].entered == s.episode + 1
  {
    ArrivalsBound(s.threads, s.episode);
    forall j | 0 <= j < |s.threads| && j != i
      ensures s.threads[j].pc.Spinning? && s.threads[j].entered == s.episode + 1
    {
      assert s.threads[i] in s.threads && s.threads[j] in s.threads;
      assert Arrived(s.threads[j], s.episode);
      assert !(Last(s.threads[if i < j then i else j]) && Last(s.threads[if i < j then j else i]));
    }
  }

  // -------- every step keeps it --------

  lemma EnterKeeps(s: State, i: nat)
    requires Inv(s) && i < |s.threads| && s.threads[i].pc.Outside?
    ensures Inv(Step(s, i))
  {
    var t := s.threads[i];
    var u := t.(pc := Counting, threadsense := !t.threadsense, entered := t.entered + 1);
    Updated(s.threads, i, u);
    ArrivalsUpdate(s.threads, i, u, s.episode);
    ArrivalsBound(s.threads, s.episode);
    NoneLast(s, i, u);
  }

  /** If one thread has not been counted, none is the last to arrive. */
  lemma NoneLast(s: State, i: nat, u: Thread)
    requires Inv(s) && i < |s.threads| && !Arrived(s.threads[i], s.episode)
    ensures !exists t <- s.threads :: Last(t)
    ensures !Last(u) ==> !exists t <- s.threads[i := u] :: Last(t)
  {
    ArrivalsBound(s.threads, s.episode);
    assert s.threads[i] in s.threads;
    Updated(s.threads, i, u);
  }

  lemma CountKeeps(s: State, i: nat)
    requires Inv(s) && i < |s.threads| && s.threads[i].pc.Counting?
    ensures Inv(Step(s, i))
  {
    var t := s.threads[i];
    var q := Step(s, i);
    var u := q.threads[i];
    NoneLast(s, i, u);
    Updated(s.threads, i, u);
    ArrivalsUpdate(s.threads, i, u, s.episode);
    forall j | 0 <= j < |s.threads| ensures !Last(s.threads[j]) {
      assert s.threads[j] in s.threads;
    }
    assert Last(u) ==> exists v <- q.threads :: Last(v);
  }

  lemma ResetKeeps(s: State, i: nat)
    requires Inv(s) && i < |s.threads| && s.threads[i].pc.Resetting?
    ensures Inv(Step(s, i))
  {
    var u := s.threads[i].(pc := Releasing);
    Updated(s.threads, i, u);
    LastIsAlone(s, i);
    ArrivalsUpdate(s.threads, i, u, s.episode);
    var q := Step(s, i);
    assert Last(u) && u in q.threads;
    assert exists v <- s.threads :: Last(v);
    forall v | v in q.threads ensures v == u || v.pc.Spinning? {
      var j :| 0 <= j < |q.threads| && q.threads[j] == v;
    }
  }

  lemma ReleaseKeeps(s: State, i: nat)
    requires Inv(s) && i < |s.threads| && s.threads[i].pc.Releasing?
    ensures Inv(Step(s, i))
  {
    LastIsAlone(s, i);
    var q := Step(s, i);
    Updated(s.threads, i, q.threads[i]);
    forall v | v in q.threads ensures ThreadOk(v, q.episode) && !Arrived(v, q.episode) && !Last(v) {
      var j :| 0 <= j < |q.threads| && q.threads[j] == v;
      assert s.threads[j] in s.threads;
    }
    NoArrivals(q.threads, q.episode);
    forall j | 0 <= j < |q.threads| ensures !Last(q.threads[j]) {
      assert q.threads[j] in q.threads;
    }
  }

  lemma SpinKeeps(s: State, i: nat)
    requires Inv(s) && i < |s.threads| && s.threads[i].pc.Spinning?
    ensures Inv(Step(s, i))
  {
    var q := Step(s, i);
    if q != s {
      var u := q.threads[i];
      Updated(s.threads, i, u);
      assert s.threads[i].entered == s.episode;
      NoneLast(s, i, u);
      ArrivalsUpdate(s.threads, i, u, s.episode);
    }
  }

  lemma StepKeeps(s: State, i: nat)
    requires Inv(s) && i < |s.threads|
    ensures Inv(Step(s, i))
  {
    hide Inv, Step;
    match s.threads[i].pc {
      case Outside => EnterKeeps(s, i);
      case Counting => CountKeeps(s, i);
      case Resetting => ResetKeeps(s, i);
      case Releasing => ReleaseKeeps(s, i);
      case Spinning => SpinKeeps(s, i);
    }
  }

  lemma {:induction false} RunKeeps(n: nat, schedule: seq<nat>)
    requires n > 0 && Threads(n, schedule)
    ensures Inv(Run(n, schedule))
    decreases |schedule|
  {
    if schedule == [] {
      NoArrivals(Init(n).threads, 0);
    } else {
      hide Inv, Step;
      var k := |schedule| - 1;
      assert forall i <- schedule[..k] :: i in schedule;
      assert schedule[k] in schedule;
      RunKeeps(n, schedule[..k]);
      StepKeeps(Run(n, schedule[..k]), schedule[k]);
    }
  }

  // -------- safety --------

  /** No thread leaves an episode before every thread has entered it. */
  lemma NobodyLeavesEarly(n: nat, schedule: seq<nat>)
    requires n > 0 && Threads(n, schedule)
    ensures var ts := Run(n, schedule).threads;
            forall t <- ts, u <- ts :: t.left <= u.entered
  {
    hide Run, Arrivals;
    RunKeeps(n, schedule);
  }

  /** The threads are never more than one episode apart, so one bit of sense is enough: a spinning
      thread sees its own sense exactly when its episode is over. */
  lemma OneBitSuffices(n: nat, schedule: seq<nat>)
    requires n > 0 && Threads(n, schedule)
    ensures var s := Run(n, schedule);
            forall t <- s.threads :: t.pc.Spinning? ==> (s.sense == t.threadsense <==> t.entered <= s.episode)
  {
    hide Run, Arrivals;
    RunKeeps(n, schedule);
  }

  // -------- progress --------

  /** Thread `i` can do more than read an unchanged `sense` again. */
  predicate Useful(s: State, i: nat)
    requires i < |s.threads|
  {
    s.threads[i].pc.Spinning? ==> s.sense == s.threads[i].threadsense
  }

  /** Thread `i` is still in episode `k` and can do more than spin. */
  predicate Helps(s: State, i: nat, k: nat)
    requires i < |s.threads|
  {
    s.threads[i].left < k && Useful(s, i)
  }

  ghost predicate CanMove(s: State, k: nat) { exists i :: 0 <= i < |s.threads| && Helps(s, i, k) }

  predicate AllEntered(s: State, k: nat) { forall t <- s.threads :: t.entered >= k }

  predicate AllLeft(s: State, k: nat) { forall t <- s.threads :: t.left >= k }

  lemma MovesWhenAllEntered(s: State)
    requires Inv(s) && s.threads != [] && AllEntered(s, s.episode + 1)
    ensures CanMove(s, s.episode + 1)
  {
    if forall i | 0 <= i < |s.threads| :: !Useful(s, i) {
      forall t | t in s.threads ensures Arrived(t, s.episode) && !Last(t) {
        var i :| 0 <= i < |s.threads| && s.threads[i] == t;
        assert !Useful(s, i) && ThreadOk(t, s.episode);
      }
      ArrivalsBound(s.threads, s.episode);
      assert false;
    }
    var i :| 0 <= i < |s.threads| && Useful(s, i);
    assert s.threads[i] in s.threads;
    assert Helps(s, i, s.episode + 1);
  }

  lemma SomeThreadHelps(s: State, k: nat)
    requires Inv(s) && AllEntered(s, k) && !AllLeft(s, k)
    ensures CanMove(s, k)
  {
    var t :| t in s.threads && t.left < k;
    var i :| 0 <= i < |s.threads| && s.threads[i] == t;
    assert ThreadOk(t, s.episode);
    if s.episode < k {
      assert s.episode + 1 == k;
      MovesWhenAllEntered(s);
    } else {
      assert Helps(s, i, k);
    }
  }

  /** Once all threads have entered episode `k`, as long as one has not left it, a thread that has not left
      it can take a step other than spinning. */
  lemma SomeThreadProgresses(n: nat, schedule: seq<nat>, k: nat)
    requires n > 0 && Threads(n, schedule)
    ensures var s := Run(n, schedule); AllEntered(s, k) && !AllLeft(s, k) ==> CanMove(s, k)
  {
    RunKeeps(n, schedule);
    var s := Run(n, schedule);
    if AllEntered(s, k) && !AllLeft(s, k) {
      SomeThreadHelps(s, k);
    }
  }

  /** How many steps a thread has before it until it is outside again. */
  function Rank(t: Thread): nat {
    match t.pc
    case Outside => 0
    case Spinning => 1
    case Releasing => 1
    case Resetting => 2
    case Counting => 3
  }

  /** The steps that the threads in episode `k` still have before them. */
  function Remaining(ts: seq<Thread>, k: nat): nat {
    if ts == [] then 0 else (if ts[0].left < k then Rank(ts[0]) else 0) + Remaining(ts[1..], k)
  }

  lemma {:induction false} RemainingUpdate(ts: seq<Thread>, i: nat, t: Thread, k: nat)
    requires i < |ts|
    ensures Remaining(ts[i := t], k) ==
              Remaining(ts, k) + (if t.left < k then Rank(t) else 0) - (if ts[i].left < k then Rank(ts[i]) else 0)
  {
    if i == 0 {
      assert ts[i := t][1..] == ts[1..];
    } else {
      assert ts[i := t][1..] == ts[1..][i - 1 := t];
      RemainingUpdate(ts[1..], i - 1, t, k);
    }
  }

  lemma {:induction false} RemainingBound(ts: seq<Thread>, k: nat)
    ensures Remaining(ts, k) <= 3 * |ts|
    ensures Remaining(ts, k) == 0 ==> forall t <- ts :: t.left >= k || t.pc.Outside?
  {
    if ts != [] {
      RemainingBound(ts[1..], k);
      assert ts == [ts[0]] + ts[1..];
    }
  }

  /** Every step but spinning brings a thread that is in episode `k` nearer to the exit, and no other step
      takes one back. */
  lemma UsefulStepsLeadOut(s: State, i: nat, k: nat)
    requires Inv(s) && i < |s.threads| && AllEntered(s, k)
    ensures AllEntered(Step(s, i), k)
    ensures Remaining(Step(s, i).threads, k) + (if Helps(s, i, k) then 1 else 0) <= Remaining(s.threads, k)
  {
    var t := Step(s, i).threads[i];
    assert ThreadOk(s.threads[i], s.episode) && s.threads[i] in s.threads;
    RemainingUpdate(s.threads, i, t, k);
    Updated(s.threads, i, t);
  }

  /** How many steps of `more`, taken after `before`, help the threads in episode `k` out. */
  function Helping(n: nat, before: seq<nat>, more: seq<nat>, k: nat): nat
    requires Threads(n, before + more)
  {
    if more == [] then 0
    else
      var m := |more| - 1;
      InRange(n, before, more);
      Helping(n, before, more[..m], k) + (if Helps(Run(n, before + more[..m]), more[m], k) then 1 else 0)
  }

  lemma InRange(n: nat, before: seq<nat>, more: seq<nat>)
    requires more != [] && Threads(n, before + more)
    ensures Threads(n, before + more[..|more| - 1]) && more[|more| - 1] < n
    ensures (before + more)[..|before + more| - 1] == before + more[..|more| - 1]
  {
    var m := |more| - 1;
    assert before + more == (before + more[..m]) + [more[m]];
    assert (before + more)[|before| + m] == more[m] && more[m] in before + more;
    forall i | i in before + more[..m] ensures i in before + more {}
  }

  lemma RunMore(n: nat, before: seq<nat>, more: seq<nat>)
    requires more != [] && Threads(n, before + more)
    ensures var m := |more| - 1;
      && more[m] < n && Threads(n, before + more[..m])
      && Run(n, before + more) == Step(Run(n, before + more[..m]), more[m])
  {
    InRange(n, before, more);
    assert (before + more)[|before + more| - 1] == more[|more| - 1];
    hide Step;
  }

  /** In every run, from where all have entered episode `k`: the helping steps are paid for one by one, so
      that there are at most three for each thread. */
  lemma {:induction false} HelpingIsBounded(n: nat, before: seq<nat>, more: seq<nat>, k: nat)
    requires n > 0 && Threads(n, before) && Threads(n, before + more)
    requires AllEntered(Run(n, before), k)
    ensures AllEntered(Run(n, before + more), k)
    ensures Remaining(Run(n, before + more).threads, k) + Helping(n, before, more, k) <=
              Remaining(Run(n, before).threads, k) <= 3 * n
    decreases |more|
  {
    hide Inv, Step, AllEntered, Helps;
    if more == [] {
      assert before + more == before;
      RemainingBound(Run(n, before).threads, k);
    } else {
      var m := |more| - 1;
      RunMore(n, before, more);
      HelpingIsBounded(n, before, more[..m], k);
      hide Run;
      RunKeeps(n, before + more[..m]);
      UsefulStepsLeadOut(Run(n, before + more[..m]), more[m], k);
    }
  }

  /** Every step of `more` helps, unless all threads have left episode `k` by then. */
  predicate NeverIdle(n: nat, before: seq<nat>, more: seq<nat>, k: nat)
    requires Threads(n, before + more)
  {
    more == [] ||
    (var m := |more| - 1;
     InRange(n, before, more);
     var s := Run(n, before + more[..m]);
     NeverIdle(n, before, more[..m], k) && (AllLeft(s, k) || Helps(s, more[m], k)))
  }

  lemma LeftForGood(s: State, i: nat, k: nat)
    requires i < |s.threads| && AllLeft(s, k)
    ensures AllLeft(Step(s, i), k)
  {
    Updated(s.threads, i, Step(s, i).threads[i]);
  }

  lemma {:induction false} IdleOnlyWhenDone(n: nat, before: seq<nat>, more: seq<nat>, k: nat)
    requires n > 0 && Threads(n, before + more) && NeverIdle(n, before, more, k)
    ensures AllLeft(Run(n, before + more), k) || Helping(n, before, more, k) == |more|
    decreases |more|
  {
    hide Step, AllLeft, Helps;
    if more != [] {
      var m := |more| - 1;
      RunMore(n, before, more);
      IdleOnlyWhenDone(n, before, more[..m], k);
      hide Run;
      var s := Run(n, before + more[..m]);
      if AllLeft(s, k) {
        LeftForGood(s, more[m], k);
      }
    }
  }

  lemma NothingRemains(s: State, k: nat)
    requires Inv(s) && AllEntered(s, k) && Remaining(s.threads, k) == 0
    ensures AllLeft(s, k)
  {
    RemainingBound(s.threads, k);
    forall t | t in s.threads ensures t.left >= k {
      assert ThreadOk(t, s.episode);
    }
  }

  /** An episode that all threads have entered ends: any schedule whose steps help, as one can as long as a
      thread has not left, has led every thread out after three steps for each. */
  lemma EpisodeEnds(n: nat, before: seq<nat>, more: seq<nat>, k: nat)
    requires n > 0 && Threads(n, before) && Threads(n, before + more)
    requires AllEntered(Run(n, before), k) && NeverIdle(n, before, more, k)
    requires |more| >= 3 * n
    ensures AllLeft(Run(n, before + more), k)
  {
    hide Step, Run, Helps, Helping, NeverIdle, Remaining;
    HelpingIsBounded(n, before, more, k);
    IdleOnlyWhenDone(n, before, more, k);
    var s := Run(n, before + more);
    RunKeeps(n, before + more);
    if Helping(n, before, more, k) == |more| {
      NothingRemains(s, k);
    }
  }
}
