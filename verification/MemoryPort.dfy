/** The memory handshake across stages 3, 4 and 5, with the data cache configured.

    Stage 3 sends a request with each memory entry it enqueues, stage 4 pairs the entry with the next
    response, and stage 5 asks the cache once to perform or drop each store. The rules fire in any
    order. `id` and `Log` are history. */
module MemoryPort {
  import opened Options

  datatype Mem = Load | Store | Atomic

  datatype MemOp = Access(mem: Mem) | LoadReserved | StoreConditional

  /** What reaches execute. */
  datatype Inst = TrapInst | SystemInst | ControlInst | OtherInst | MemInst(op: MemOp, addr: int, misaligned: bool)

  /** What stage 3 tells stage 4 about an instruction. */
  datatype Type = Trap | System | Regular | Memory(mem: Mem)

  datatype Entry = Entry(id: nat, epoch: bool, kind: Type)

  datatype Request = Request(id: nat, epoch: bool)

  datatype Response = Response(id: nat, epoch: bool, trap: bool)

  datatype CommitType = TRAP | STORE | SYSTEM | REG

  datatype Retiring = Retiring(id: nat, epoch: bool, kind: CommitType)

  /** Ids, oldest first: memory entries enqueued by stage 3 and requests sent; entries that left stage 4
      with the id of the response they took; stores that entered pipe4, stores that left stage 5, and
      requests to the cache to deal with a store. */
  datatype Log = Log(entered: seq<nat>, sent: seq<nat>, paired: seq<(nat, nat)>,
                     stores: seq<nat>, left: seq<nat>, initiated: seq<nat>)

  datatype Port = Port(
    reserved: Option<int>, pipe3: seq<Entry>,
    requests: seq<Request>, responses: seq<Response>,
    pipe4: seq<Retiring>, epoch: bool, storeInitiated: bool,
    serial: nat, log: Log)

  // -------- stage 3 --------

  /** A load-reserved becomes a load, a store-conditional a store or, once the reservation is gone,
      nothing; and the reservation afterwards. */
  function Resolve(op: MemOp, addr: int, reserved: Option<int>): (Option<Mem>, Option<int>) {
    match op
    case Access(mem) => (Some(mem), reserved)
    case LoadReserved => (Some(Load), Some(addr))
    case StoreConditional => (if reserved == Some(addr) then Some(Store) else None, None)
  }

  /** The request for `inst`, if it needs one: sent as soon as the operands are there. */
  function Send(p: Port, inst: Inst, available: bool, current: bool, epoch: bool): Port {
    if !(available && current && inst.MemInst? && !inst.misaligned) then p else
    var (mem, reserved) := Resolve(inst.op, inst.addr, p.reserved);
    if mem.None? then p.(reserved := reserved)
    else p.(reserved := reserved, requests := p.requests + [Request(p.serial, epoch)],
            log := p.log.(sent := p.log.sent + [p.serial]))
  }

  function TypeOf(inst: Inst, reserved: Option<int>): Type {
    match inst
    case TrapInst => Trap
    case SystemInst => System
    case MemInst(op, addr, misaligned) =>
      if misaligned then Trap
      else (match Resolve(op, addr, reserved).0
            case None => Regular
            case Some(mem) => Memory(mem))
    case _ => Regular
  }

  /** The instruction leaves execute; a control instruction waits until the next one is known. */
  function Hand(p: Port, inst: Inst, kind: Type, available: bool, current: bool, nextKnown: bool, epoch: bool): Port {
    if !(current && (inst.ControlInst? ==> nextKnown) && (inst.TrapInst? || available)) then p else
    var q := p.(pipe3 := p.pipe3 + [Entry(p.serial, epoch, kind)], serial := p.serial + 1);
    if kind.Memory? then q.(log := p.log.(entered := p.log.entered + [p.serial])) else q
  }

  /** Stage 3 looks at one instruction: `current` says that its epochs match. */
  function Issue(p: Port, inst: Inst, available: bool, current: bool, nextKnown: bool, epoch: bool): Port {
    if |p.pipe3| >= 2 then p
    else Hand(Send(p, inst, available, current, epoch), inst, TypeOf(inst, p.reserved),
              available, current, nextKnown, epoch)
  }

  // -------- the data memory --------

  /** The memory answers in order, once, and with the epoch of the request. */
  function Respond(p: Port, trap: bool): Port {
    if p.requests == [] then p else
    var r := p.requests[0];
    p.(requests := p.requests[1..], responses := p.responses + [Response(r.id, r.epoch, trap)])
  }

  // -------- stage 4 --------

  function Moved(p: Port, kind: CommitType): Port
    requires p.pipe3 != []
  {
    var x := p.pipe3[0];
    p.(pipe3 := p.pipe3[1..], pipe4 := p.pipe4 + [Retiring(x.id, x.epoch, kind)],
       log := p.log.(stores := p.log.stores + (if kind.STORE? then [x.id] else [])))
  }

  function KindOf(mem: Mem, trap: bool): CommitType {
    if trap then TRAP else if mem.Load? then REG else STORE
  }

  function Check(p: Port): Port {
    if p.pipe3 == [] || p.pipe4 != [] then p else
    var x := p.pipe3[0];
    match x.kind
    case Trap => Moved(p, TRAP)
    case System => Moved(p, SYSTEM)
    case Regular => Moved(p, REG)
    case Memory(mem) =>
      if p.responses == [] then p
      else
        var r := p.responses[0];
        var q := p.(responses := p.responses[1..]);
        if r.epoch != x.epoch then q
        else
          var t := Moved(q, KindOf(mem, r.trap));
          t.(log := t.log.(paired := p.log.paired + [(x.id, r.id)]))
  }

  // -------- stage 5 --------

  function Leave(p: Port): Port
    requires p.pipe4 != []
  {
    var x := p.pipe4[0];
    p.(pipe4 := p.pipe4[1..], log := p.log.(left := p.log.left + (if x.kind.STORE? then [x.id] else [])))
  }

  function Initiate(p: Port): Port
    requires p.pipe4 != []
  {
    p.(log := p.log.(initiated := p.log.initiated + [p.pipe4[0].id]))
  }

  function Flip(p: Port, flush: bool): Port { p.(epoch := p.epoch != flush) }

  /** What stage 5 sees in one firing: whether the cache takes a store and whether this store is cached,
      the answer to an uncached store (true for a bus error), and whether a system instruction drains
      the pipe. */
  datatype Sight = Sight(ready: bool, cached: bool, answer: Option<bool>, drain: bool)

  function CommitStore(p: Port, s: Sight): Port
    requires p.pipe4 != []
  {
    if !s.ready && !p.storeInitiated then p
    else if !p.storeInitiated && s.cached then Leave(Initiate(p))
    else if !p.storeInitiated then Initiate(p).(storeInitiated := true)
    else match s.answer
      case None => p
      case Some(error) => Flip(Leave(p.(storeInitiated := false)), error)
  }

  function Commit(p: Port, s: Sight): Port {
    if p.pipe4 == [] then p else
    var x := p.pipe4[0];
    if x.epoch == p.epoch then
      match x.kind
      case TRAP => Flip(Leave(p), true)
      case STORE => CommitStore(p, s)
      case SYSTEM => Flip(Leave(p), s.drain)
      case REG => Leave(p)
    else if x.kind.STORE? then
      if s.ready then Leave(Initiate(p)) else p
    else Leave(p)
  }

  // -------- runs --------

  datatype Rule =
    | DoIssue(inst: Inst, available: bool, current: bool, nextKnown: bool, epoch: bool)
    | DoRespond(trap: bool)
    | DoCheck
    | DoCommit(sight: Sight)

  function Fire(p: Port, r: Rule): Port {
    match r
    case DoIssue(inst, available, current, nextKnown, epoch) => Issue(p, inst, available, current, nextKnown, epoch)
    case DoRespond(trap) => Respond(p, trap)
    case DoCheck => Check(p)
    case DoCommit(sight) => Commit(p, sight)
  }

  function Reset(): Port {
    Port(None, [], [], [], [], false, false, 0, Log([], [], [], [], [], []))
  }

  function Run(rules: seq<Rule>): Port {
    if rules == [] then Reset() else Fire(Run(rules[..|rules| - 1]), rules[|rules| - 1])
  }

  // -------- the invariant --------

  /** The entries of pipe3 that wait for the memory, as the requests they stand for. */
  function Waiting(xs: seq<Entry>): seq<Request> {
    if xs == [] then []
    else (if xs[0].kind.Memory? then [Request(xs[0].id, xs[0].epoch)] else []) + Waiting(xs[1..])
  }

  function Requests(rs: seq<Response>): (qs: seq<Request>)
    ensures |qs| == |rs|
  {
    if rs == [] then [] else [Request(rs[0].id, rs[0].epoch)] + Requests(rs[1..])
  }

  function Ids(rs: seq<Request>): (ids: seq<nat>)
    ensures |ids| == |rs|
  {
    if rs == [] then [] else [rs[0].id] + Ids(rs[1..])
  }

  function Entries(ps: seq<(nat, nat)>): (ids: seq<nat>)
    ensures |ids| == |ps|
  {
    if ps == [] then [] else [ps[0].0] + Entries(ps[1..])
  }

  function StoresIn(xs: seq<Retiring>): seq<nat> {
    if xs == [] then [] else if xs[0].kind.STORE? then [xs[0].id] else []
  }

  /** Whatever is answered or asked is waited for, in this order, and nothing else is. */
  predicate Tokens(p: Port) { Waiting(p.pipe3) == Requests(p.responses) + p.requests }

  /** All different, and the next number is new. */
  predicate Numbered(ids: seq<nat>, serial: nat) {
    && (forall i | 0 <= i < |ids| :: ids[i] < serial)
    && (forall i, j | 0 <= i < j < |ids| :: ids[i] < ids[j])
  }

  predicate Conserved(p: Port) {
    && p.log.sent == p.log.entered == Entries(p.log.paired) + Ids(Waiting(p.pipe3))
    && (forall pair <- p.log.paired :: pair.0 == pair.1)
    && Numbered(p.log.sent, p.serial)
  }

  /** The one store that may have been initiated without having left. */
  function Started(p: Port): seq<nat> { if p.storeInitiated then StoresIn(p.pipe4) else [] }

  predicate StoresOk(p: Port) {
    && |p.pipe4| <= 1
    && (p.storeInitiated ==> p.pipe4 != [] && p.pipe4[0].kind.STORE? && p.pipe4[0].epoch == p.epoch)
    && p.log.stores == p.log.left + StoresIn(p.pipe4)
    && p.log.initiated == p.log.left + Started(p)
  }

  predicate Inv(p: Port) { Tokens(p) && Conserved(p) && StoresOk(p) }

  function Awaited(x: Entry): seq<Request> { if x.kind.Memory? then [Request(x.id, x.epoch)] else [] }

  lemma WaitingCons(x: Entry, xs: seq<Entry>)
    ensures Waiting([x] + xs) == Awaited(x) + Waiting(xs)
  {
    assert ([x] + xs)[1..] == xs;
  }

  lemma {:induction false} WaitingSnoc(xs: seq<Entry>, x: Entry)
    ensures Waiting(xs + [x]) == Waiting(xs) + Awaited(x)
  {
    if xs == [] {
      assert xs + [x] == [x] && [x][1..] == [];
    } else {
      hide Waiting, Awaited;
      WaitingCons(xs[0], xs[1..]);
      WaitingCons(xs[0], xs[1..] + [x]);
      assert xs == [xs[0]] + xs[1..] && xs + [x] == [xs[0]] + (xs[1..] + [x]);
      WaitingSnoc(xs[1..], x);
    }
  }

  lemma {:induction false} IdsSnoc(rs: seq<Request>, r: Request)
    ensures Ids(rs + [r]) == Ids(rs) + [r.id]
  {
    if rs == [] {
      assert rs + [r] == [r] && [r][1..] == [];
    } else {
      assert (rs + [r])[1..] == rs[1..] + [r];
      IdsSnoc(rs[1..], r);
    }
  }

  lemma {:induction false} EntriesSnoc(ps: seq<(nat, nat)>, p: (nat, nat))
    ensures Entries(ps + [p]) == Entries(ps) + [p.0]
  {
    if ps == [] {
      assert ps + [p] == [p] && [p][1..] == [];
    } else {
      assert (ps + [p])[1..] == ps[1..] + [p];
      EntriesSnoc(ps[1..], p);
    }
  }

  lemma {:induction false} RequestsSnoc(rs: seq<Response>, r: Response)
    ensures Requests(rs + [r]) == Requests(rs) + [Request(r.id, r.epoch)]
  {
    if rs == [] {
      assert rs + [r] == [r] && [r][1..] == [];
    } else {
      assert (rs + [r])[1..] == rs[1..] + [r];
      RequestsSnoc(rs[1..], r);
    }
  }

  /** Stage 3 sends a request in exactly those firings in which it enqueues a memory entry. */
  lemma SentWithEntry(p: Port, inst: Inst, available: bool, current: bool, nextKnown: bool, epoch: bool)
    requires |p.pipe3| < 2
    ensures var q := Issue(p, inst, available, current, nextKnown, epoch);
            q.requests != p.requests <==> q.log.entered != p.log.entered
    ensures var q := Issue(p, inst, available, current, nextKnown, epoch);
            Sent(p, q, epoch) || Entered(p, q) || q == p.(reserved := q.reserved)
  {
  }

  /** A request went out with its entry. */
  predicate Sent(p: Port, q: Port, epoch: bool) {
    && q == p.(reserved := q.reserved, pipe3 := q.pipe3, requests := p.requests + [Request(p.serial, epoch)],
               serial := p.serial + 1,
               log := p.log.(entered := p.log.entered + [p.serial], sent := p.log.sent + [p.serial]))
    && |q.pipe3| == |p.pipe3| + 1 && q.pipe3 == p.pipe3 + [q.pipe3[|p.pipe3|]]
    && q.pipe3[|p.pipe3|].kind.Memory? && q.pipe3[|p.pipe3|].id == p.serial && q.pipe3[|p.pipe3|].epoch == epoch
  }

  /** An entry that waits for nothing. */
  predicate Entered(p: Port, q: Port) {
    && q == p.(reserved := q.reserved, pipe3 := q.pipe3, serial := p.serial + 1)
    && |q.pipe3| == |p.pipe3| + 1 && q.pipe3 == p.pipe3 + [q.pipe3[|p.pipe3|]]
    && !q.pipe3[|p.pipe3|].kind.Memory?
  }

  lemma SentKeeps(p: Port, q: Port, epoch: bool)
    requires Inv(p) && Sent(p, q, epoch)
    ensures Inv(q)
  {
    var x := q.pipe3[|p.pipe3|];
    hide Waiting, Requests, Ids, Entries;
    WaitingSnoc(p.pipe3, x);
    IdsSnoc(Waiting(p.pipe3), Request(x.id, x.epoch));
    NumberedSnoc(p.log.sent, p.serial);
    hide Numbered;
  }

  lemma EnteredKeeps(p: Port, q: Port)
    requires Inv(p) && Entered(p, q)
    ensures Inv(q)
  {
    var x := q.pipe3[|p.pipe3|];
    hide Waiting, Requests, Ids, Entries;
    WaitingSnoc(p.pipe3, x);
    assert Waiting(p.pipe3) + Awaited(x) == Waiting(p.pipe3);
    NumberedLater(p.log.sent, p.serial, q.serial);
    hide Numbered;
  }

  lemma IssueKeeps(p: Port, inst: Inst, available: bool, current: bool, nextKnown: bool, epoch: bool)
    requires Inv(p)
    ensures Inv(Issue(p, inst, available, current, nextKnown, epoch))
  {
    if |p.pipe3| < 2 {
      var q := Issue(p, inst, available, current, nextKnown, epoch);
      SentWithEntry(p, inst, available, current, nextKnown, epoch);
      hide Issue, Sent, Entered;
      if Sent(p, q, epoch) {
        SentKeeps(p, q, epoch);
      } else if Entered(p, q) {
        EnteredKeeps(p, q);
      } else {
        hide Waiting, Requests, Ids, Entries, Numbered;
      }
    }
  }

  lemma NumberedSnoc(ids: seq<nat>, serial: nat)
    requires Numbered(ids, serial)
    ensures Numbered(ids + [serial], serial + 1)
  {
  }

  lemma NumberedLater(ids: seq<nat>, serial: nat, later: nat)
    requires Numbered(ids, serial) && serial <= later
    ensures Numbered(ids, later)
  {
  }

  lemma RespondKeeps(p: Port, trap: bool)
    requires Inv(p)
    ensures Inv(Respond(p, trap))
  {
    hide Waiting, Requests, Ids, Entries, Numbered;
    if p.requests != [] {
      var r := p.requests[0];
      RequestsSnoc(p.responses, Response(r.id, r.epoch, trap));
      assert p.requests == [r] + p.requests[1..];
    }
  }

  /** A response at hand is the head entry's own: stage 4 never finds one of another epoch. */
  lemma ResponseBelongsToHead(p: Port)
    requires Inv(p) && p.pipe3 != [] && p.pipe3[0].kind.Memory? && p.responses != []
    ensures p.responses[0].id == p.pipe3[0].id && p.responses[0].epoch == p.pipe3[0].epoch
    ensures Waiting(p.pipe3[1..]) == Requests(p.responses[1..]) + p.requests
    ensures Waiting(p.pipe3) == [Request(p.pipe3[0].id, p.pipe3[0].epoch)] + Waiting(p.pipe3[1..])
  {
    var x, r := p.pipe3[0], p.responses[0];
    var rest := Requests(p.responses[1..]) + p.requests;
    assert Waiting(p.pipe3) == [Request(x.id, x.epoch)] + Waiting(p.pipe3[1..]);
    assert Requests(p.responses) + p.requests == [Request(r.id, r.epoch)] + rest;
    hide Waiting, Requests, Ids, Entries, Numbered;
    SameHead(Request(x.id, x.epoch), Waiting(p.pipe3[1..]), Request(r.id, r.epoch), rest);
  }

  lemma SameHead(x: Request, xs: seq<Request>, y: Request, ys: seq<Request>)
    requires [x] + xs == [y] + ys
    ensures x == y && xs == ys
  {
    assert ([x] + xs)[0] == x && ([y] + ys)[0] == y;
    assert ([x] + xs)[1..] == xs && ([y] + ys)[1..] == ys;
  }

  /** An entry that waits for nothing moves on. */
  lemma BypassKeeps(p: Port, kind: CommitType)
    requires Inv(p) && p.pipe3 != [] && p.pipe4 == [] && !p.pipe3[0].kind.Memory? && !kind.STORE?
    ensures Inv(Moved(p, kind))
  {
    hide Numbered, Requests, Ids, Entries;
    assert Waiting(p.pipe3) == Waiting(p.pipe3[1..]);
    hide Waiting;
  }

  lemma AnswerKeeps(p: Port, mem: Mem)
    requires Inv(p) && p.pipe3 != [] && p.pipe4 == [] && p.pipe3[0].kind == Memory(mem) && p.responses != []
    ensures Inv(Check(p))
  {
    var q := Check(p);
    var x := p.pipe3[0];
    ResponseBelongsToHead(p);
    EntriesSnoc(p.log.paired, (x.id, x.id));
    HeadId(Request(x.id, x.epoch), Waiting(q.pipe3));
    assert StoresOk(q);
    hide Waiting, Requests, Ids, Entries, Numbered, StoresOk;
  }

  lemma HeadId(r: Request, rs: seq<Request>)
    ensures Ids([r] + rs) == [r.id] + Ids(rs)
  {
    assert ([r] + rs)[1..] == rs;
  }

  lemma CheckKeeps(p: Port)
    requires Inv(p)
    ensures Inv(Check(p))
  {
    hide Inv, Moved;
    if p.pipe3 != [] && p.pipe4 == [] {
      match p.pipe3[0].kind {
        case Trap => BypassKeeps(p, TRAP);
        case System => BypassKeeps(p, SYSTEM);
        case Regular => BypassKeeps(p, REG);
        case Memory(mem) =>
          if p.responses != [] {
            AnswerKeeps(p, mem);
          }
      }
    }
  }

  lemma CommitKeeps(p: Port, s: Sight)
    requires Inv(p)
    ensures Inv(Commit(p, s))
  {
    hide Waiting, Requests, Ids, Entries, Numbered;
    var q := Commit(p, s);
    assert Tokens(q) && Conserved(q);
    hide Tokens, Conserved;
  }

  lemma {:induction false} RunKeeps(rules: seq<Rule>)
    ensures Inv(Run(rules))
    decreases |rules|
  {
    if rules != [] {
      hide Inv, Issue, Respond, Check, Commit;
      var n := |rules| - 1;
      RunKeeps(rules[..n]);
      var p := Run(rules[..n]);
      match rules[n] {
        case DoIssue(inst, available, current, nextKnown, epoch) =>
          IssueKeeps(p, inst, available, current, nextKnown, epoch);
        case DoRespond(trap) => RespondKeeps(p, trap);
        case DoCheck => CheckKeeps(p);
        case DoCommit(sight) => CommitKeeps(p, sight);
      }
    }
  }

  // -------- what a run conserves --------

  /** One request for each memory entry, and the entry leaves stage 4 with the answer to that request,
      also when write-back has redirected in between. */
  lemma EachEntryItsOwnResponse(rules: seq<Rule>)
    ensures var p := Run(rules);
      && p.log.sent == p.log.entered
      && Numbered(p.log.sent, p.serial)
      && (forall pair <- p.log.paired :: pair.0 == pair.1)
      && Entries(p.log.paired) <= p.log.entered
      && |p.log.sent| == |p.log.paired| + |p.responses| + |p.requests|
  {
    RunKeeps(rules);
    var p := Run(rules);
    assert Entries(p.log.paired) + Ids(Waiting(p.pipe3)) == p.log.sent;
  }

  /** No response is ever thrown away: whenever stage 4 takes one, its entry moves on. */
  lemma NoResponseIsLost(rules: seq<Rule>)
    ensures var p := Run(rules);
            var q := Check(p);
            |q.responses| < |p.responses| ==> |q.pipe3| < |p.pipe3| && |q.log.paired| == |p.log.paired| + 1
  {
    RunKeeps(rules);
    var p := Run(rules);
    if p.pipe3 != [] && p.pipe3[0].kind.Memory? && p.responses != [] {
      ResponseBelongsToHead(p);
    }
  }

  /** Exactly one request to the cache for each store that has left stage 5, committed, trapped or
      dropped, in order; at most the store now at its head is ahead of that. */
  lemma OneInitiationPerStore(rules: seq<Rule>)
    ensures var p := Run(rules);
      && p.log.left <= p.log.initiated <= p.log.stores
      && |p.log.stores| == |p.log.left| + |StoresIn(p.pipe4)|
      && (!p.storeInitiated ==> p.log.initiated == p.log.left)
  {
    RunKeeps(rules);
  }

  // -------- the registers --------

  class Stages {
    var reserved: Option<int>
    var pipe3: seq<Entry>
    var requests: seq<Request>
    var responses: seq<Response>
    var pipe4: seq<Retiring>
    var epoch: bool
    var storeInitiated: bool
    var serial: nat
    var log: Log

    function Abs(): Port
      reads this
    {
      Port(reserved, pipe3, requests, responses, pipe4, epoch, storeInitiated, serial, log)
    }

    constructor ()
      ensures Abs() == Reset()
    {
      reserved, pipe3, requests, responses, pipe4 := None, [], [], [], [];
      epoch, storeInitiated, serial, log := false, false, 0, Log([], [], [], [], [], []);
    }

    method SendMemoryRequest(inst: Inst, available: bool, current: bool, tag: bool)
      modifies this`reserved, this`requests, this`log
      ensures Abs() == Send(old(Abs()), inst, available, current, tag)
    {
      if available && current && inst.MemInst? && !inst.misaligned {
        var (mem, left) := Resolve(inst.op, inst.addr, reserved);
        reserved := left;
        if mem.Some? {
          requests := requests + [Request(serial, tag)];
          log := log.(sent := log.sent + [serial]);
        }
      }
    }

    method CaptureLatestOps(inst: Inst, available: bool, current: bool, nextKnown: bool, tag: bool)
      modifies this`reserved, this`requests, this`pipe3, this`serial, this`log
      ensures Abs() == Issue(old(Abs()), inst, available, current, nextKnown, tag)
    {
      hide Send;
      if |pipe3| >= 2 { return; }
      var kind := TypeOf(inst, reserved);
      SendMemoryRequest(inst, available, current, tag);
      var execute := inst.ControlInst? ==> nextKnown;
      if current && execute && (inst.TrapInst? || available) {
        pipe3 := pipe3 + [Entry(serial, tag, kind)];
        if kind.Memory? {
          log := log.(entered := log.entered + [serial]);
        }
        serial := serial + 1;
      }
    }

    method Enqueue(kind: CommitType)
      requires pipe3 != []
      modifies this`pipe3, this`pipe4, this`log
      ensures Abs() == Moved(old(Abs()), kind)
    {
      var x := pipe3[0];
      pipe3 := pipe3[1..];
      pipe4 := pipe4 + [Retiring(x.id, x.epoch, kind)];
      log := log.(stores := log.stores + (if kind.STORE? then [x.id] else []));
    }

    method CheckInstruction()
      modifies this`responses, this`pipe3, this`pipe4, this`log
      ensures Abs() == Check(old(Abs()))
    {
      hide Moved;
      if pipe3 == [] || pipe4 != [] { return; }
      var x := pipe3[0];
      match x.kind {
        case Trap => Enqueue(TRAP);
        case System => Enqueue(SYSTEM);
        case Regular => Enqueue(REG);
        case Memory(mem) =>
          if responses != [] {
            var r := responses[0];
            responses := responses[1..];
            if x.epoch == r.epoch {
              var paired := log.paired + [(x.id, r.id)];
              Enqueue(KindOf(mem, r.trap));
              log := log.(paired := paired);
            }
          }
      }
    }

    method Dequeue()
      requires pipe4 != []
      modifies this`pipe4, this`log
      ensures Abs() == Leave(old(Abs()))
    {
      var x := pipe4[0];
      pipe4 := pipe4[1..];
      log := log.(left := log.left + (if x.kind.STORE? then [x.id] else []));
    }

    method InitiateStore()
      requires pipe4 != []
      modifies this`log
      ensures Abs() == Initiate(old(Abs()))
    {
      log := log.(initiated := log.initiated + [pipe4[0].id]);
    }

    method InstructionCommit(s: Sight)
      modifies this`pipe4, this`epoch, this`storeInitiated, this`log
      ensures Abs() == Commit(old(Abs()), s)
    {
      if pipe4 == [] { return; }
      var x := pipe4[0];
      if x.epoch != epoch {
        if x.kind.STORE? {
          if !s.ready { return; }
          InitiateStore();
        }
        Dequeue();
      } else if x.kind.STORE? {
        if !s.ready && !storeInitiated { return; }
        if !storeInitiated && s.cached {
          InitiateStore();
          Dequeue();
        } else if !storeInitiated {
          InitiateStore();
          storeInitiated := true;
        } else if s.answer.Some? {
          storeInitiated := false;
          Dequeue();
          if s.answer.value {
            epoch := !epoch;
          }
        }
      } else {
        Dequeue();
        if x.kind.TRAP? || (x.kind.SYSTEM? && s.drain) {
          epoch := !epoch;
        }
      }
    }
  }
}
