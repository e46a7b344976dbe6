/** Transactions that forward speculative data to each other, as a state machine.

    A request for a line goes to the directory, which keeps the line blocked until
    the requester has all answers. Every other core answers: with an acknowledgement,
    or, while it runs a conflicting transaction that wins the conflict, with a nack,
    possibly carrying the speculative data. */
module HtmModel {
  import opened Basics
  import opened HtmConfig

  type Addr = nat
  type Value = int

  /** One attempt of one core at a transaction. */
  datatype TxId = TxId(core: nat, uid: nat)

  /** A consumed block: the speculative value and every transaction it depends on. */
  datatype Forwarded = Forwarded(value: Value, producers: set<TxId>)

  datatype Core = Core(
    inTx: bool,
    uid: nat,
    doomed: bool,                     // the abort flag is set
    power: bool,
    retries: nat,
    prio: Prio,
    readVals: map<Addr, set<Value>>,  // all values read from outside the transaction
    writeVals: map<Addr, Value>,
    granted: set<Addr>,               // accessed under coherence permission
    consumed: map<Addr, Forwarded>,   // waiting for validation
    everConsumed: set<TxId>,
    sentTo: set<nat>,                 // cores this transaction forwarded data to
    readable: set<Addr>,
    writable: set<Addr>,
    stamp: nat,                       // when the transaction was first attempted
    cycleFlag: bool)                  // it has nacked an older transaction
  {
    predicate IsConsumer() { consumed.Keys != {} }
    predicate IsProducer() { sentTo != {} }
  }

  datatype Reply =
    | Ack
    | Nack(sender: TxId, prio: Prio, power: bool, data: Option<Value>, stamp: nat)

  /** An outstanding request. `core`, `uid`, `prio`, `power` and `stamp` are the
      requester's when the request was issued. */
  datatype Request = Request(
    core: nat, uid: nat, trans: bool, prio: Prio, power: bool,
    exclusive: bool, pending: set<nat>, replies: seq<Reply>, stamp: nat)

  datatype Entry =
    | Committed(core: nat, readVals: map<Addr, set<Value>>, writeVals: map<Addr, Value>)
    | PlainStore(core: nat, addr: Addr, value: Value)

  datatype State = State(
    cores: seq<Core>,
    lines: map<Addr, Request>,        // blocked lines
    memory: map<Addr, Value>,         // committed values; absent lines hold 0
    log: seq<Entry>,
    clock: nat)                       // when the last transaction began

  function Mem(m: map<Addr, Value>, a: Addr): Value {
    if a in m then m[a] else 0
  }

  function IdleCore(uid: nat, retries: nat, stamp: nat, readable: set<Addr>, writable: set<Addr>): Core {
    Core(false, uid, false, false, retries, NC, map[], map[], {}, map[], {}, {}, readable, writable, stamp, false)
  }

  function Init(n: nat): State {
    State(seq(n, _ => IdleCore(0, 0, 0, {}, {})), map[], map[], [], 0)
  }

  predicate Live(s: State, t: TxId) {
    t.core < |s.cores| && s.cores[t.core].inTx && s.cores[t.core].uid == t.uid
  }

  /** The age order of transactions: by time of first attempt, then by core. */
  predicate Older(stamp: nat, core: nat, stamp': nat, core': nat) {
    stamp < stamp' || (stamp == stamp' && core < core')
  }

  // ---------- The decisions of the conflict manager ----------

  function SentPrio(cfg: Config, k: Core): Prio {
    if cfg.numeric then k.prio else NC
  }

  predicate ChooseWinner(cfg: Config, k: Core, r: Request) {
    if cfg.numeric then
      var local := SentPrio(cfg, k);
      var wins :=
        if cfg.power then
          if k.power == r.power
          then (!k.IsConsumer() || AtMost(r.prio, local)) && !r.power
          else k.power
        else (!cfg.fwd.NoFwd? && !k.IsConsumer()) || Below(r.prio, local);
      if cfg.ncNotProducer && local.NC? && !r.prio.NC? then false else wins
    else if cfg.power then
      if cfg.policy.RequesterLoses? then !r.power else k.power
    else cfg.policy.RequesterLoses?
  }

  /** Whether core `k`, in conflict with request `r`, nacks it. */
  predicate ShouldNack(cfg: Config, k: Core, r: Request) {
    && !k.doomed
    && r.trans
    && (cfg.policy.RequesterStalls? || ChooseWinner(cfg, k, r))
  }

  predicate CanProduce(cfg: Config, k: Core) {
    && (cfg.power || !cfg.policy.RequesterWins?)
    && match cfg.fwd
       case NoFwd => false
       case Simple => !k.IsConsumer()
       case W1D1 => !k.IsConsumer()
       case WND1 => !k.IsConsumer()
       case WXDX => !(cfg.maxPrioDiff == 1 && k.IsConsumer())
       case W1DN => true
       case WNDM => true
       case Naive => true
  }

  datatype Decision = Forward | KeepData | KeepDataAndAbort | AssertionFailure

  function BecomeProducer(cfg: Config, k: Core, a: Addr, r: Request, writeInFlight: bool): Decision {
    if cfg.noProduceOnRetry && k.retries != 0 then
      KeepData
    else if !k.power && ((cfg.allowed.OnlyWritten? && a !in k.writeVals) ||
                         (cfg.allowed.NoWriteInFlight? && writeInFlight)) then
      if cfg.policy.RequesterWins? then KeepDataAndAbort else KeepData
    else if r.power then
      AssertionFailure
    else if k.power || cfg.fwd.Naive? then
      Forward
    else if k.IsConsumer() && !Below(r.prio, SentPrio(cfg, k)) then
      KeepData
    else
      match cfg.fwd
      case W1D1 => if !k.IsProducer() || r.core in k.sentTo then Forward else KeepData
      case W1DN => if !k.IsProducer() || r.core in k.sentTo then Forward else KeepData
      case WXDX => if |k.sentTo| < cfg.maxConsumers || r.core in k.sentTo then Forward else KeepData
      case _ => Forward
  }

  /** The position a producer takes when it forwards to a requester at `remote`. */
  function PrioAfterSend(cfg: Config, k: Core, remote: Prio): Prio {
    if !cfg.numeric || k.power || k.IsConsumer() then k.prio
    else if remote.NC? then (if k.prio.NC? then Num(0) else k.prio)
    else if Below(remote, k.prio) then k.prio
    else Num(remote.n + 1)
  }

  /** The position a consumer takes when it accepts data sent at `remote`. */
  function PrioAfterReceive(cfg: Config, k: Core, remote: Prio, remotePower: bool): Prio {
    if !cfg.numeric || cfg.policy.RequesterStalls? then k.prio
    else if k.prio.NC? && !remotePower && remote.Num? then Num(remote.n - 1)
    else k.prio
  }

  /** What the requester's cache keeps of the nacks for one request: the lowest
      position, data only as long as every nack carried data, and the nacker with the
      earliest time (the first to arrive, if several have it). */
  datatype Merged = Merged(prio: Prio, power: bool, data: Option<Value>, stamp: nat, eldest: nat)

  function MergeNack(m: Option<Merged>, n: Reply): Merged
    requires n.Nack?
  {
    match m
    case None => Merged(n.prio, n.power, n.data, n.stamp, n.sender.core)
    case Some(prev) =>
      var earlier := n.stamp < prev.stamp;
      Merged(Lower(prev.prio, n.prio), prev.power || n.power, if n.data.Some? then prev.data else None,
             if earlier then n.stamp else prev.stamp, if earlier then n.sender.core else prev.eldest)
  }

  function MergeReplies(rs: seq<Reply>): Option<Merged> {
    if rs == [] then None
    else
      var m := MergeReplies(rs[..|rs| - 1]);
      var last := rs[|rs| - 1];
      if last.Ack? then m else Some(MergeNack(m, last))
  }

  function Nackers(rs: seq<Reply>): set<TxId> {
    set i | 0 <= i < |rs| && rs[i].Nack? :: rs[i].sender
  }

  predicate IsIllegal(cfg: Config, k: Core, remote: Prio) {
    && cfg.numeric
    && !cfg.cycle.NoStrategy?
    && (AtMost(remote, k.prio) || (!cfg.ncNotProducer && remote.NC?))
  }

  predicate ShouldAccept(cfg: Config, k: Core) {
    match cfg.fwd
    case NoFwd => false
    case Simple => !k.IsProducer()
    case W1D1 => !k.IsProducer()
    case WND1 => !k.IsProducer()
    case WXDX => !(cfg.maxPrioDiff == 1 && k.IsProducer())
    case W1DN => true
    case WNDM => true
    case Naive => true
  }

  /** The depth test of the bounded mechanism. */
  predicate TooDeep(cfg: Config, p: Prio) {
    cfg.fwd.WXDX? && p.Num? && (p.n > cfg.maxPrioDiff || -p.n > cfg.maxPrioDiff)
  }

  // ---------- Steps ----------

  datatype Step =
    | Begin(core: nat, powered: bool, now: nat)
    | Issue(core: nat, addr: Addr, exclusive: bool)
    | Respond(addr: Addr, core: nat, hasLine: bool, writeInFlight: bool)
    | Deliver(addr: Addr, order: seq<Reply>, retry: bool)
    | Read(core: nat, addr: Addr)
    | Write(core: nat, addr: Addr, value: Value)
    | Evict(core: nat, addr: Addr)
    | Store(core: nat, addr: Addr, value: Value)
    | Doom(core: nat)
    | Commit(core: nat)
    | Abort(core: nat)

  /** A retried transaction keeps the time of its first attempt. */
  function BeginCore(k: Core, powered: bool, now: nat): Core {
    IdleCore(k.uid + 1, k.retries, if k.retries == 0 then now else k.stamp, k.readable, k.writable)
      .(inTx := true, power := powered)
  }

  function CoreIds(n: nat): (r: set<nat>)
    ensures forall d: nat :: d in r <==> d < n
  {
    if n == 0 then {} else CoreIds(n - 1) + {n - 1}
  }

  function NewRequest(s: State, c: nat, exclusive: bool): Request
    requires c < |s.cores|
  {
    var k := s.cores[c];
    Request(c, k.uid, k.inTx, if k.inTx then k.prio else NC, k.inTx && k.power, exclusive,
            CoreIds(|s.cores|) - {c}, [], if k.inTx then k.stamp else s.clock)
  }

  /** The directory asks the sharers of a block for exclusive access and its owner for shared
      access. A core that holds the block only as forwarded data is neither. */
  predicate Conflicts(k: Core, a: Addr, exclusive: bool) {
    k.inTx && (if exclusive then a in k.granted else a in k.writeVals && a !in k.consumed)
  }

  /** A core that acknowledges gives up the permission the request takes away. */
  function Yield(k: Core, a: Addr, exclusive: bool): Core {
    k.(readable := if exclusive then k.readable - {a} else k.readable, writable := k.writable - {a})
  }

  /** The contents of the core's own copy of a block of its read or write set. */
  function CachedValue(s: State, k: Core, a: Addr): Value {
    if a in k.writeVals then k.writeVals[a]
    else if a in k.consumed then k.consumed[a].value
    else Mem(s.memory, a)
  }

  /** A core that nacks an older transaction remembers it under the stalling policy. */
  function Wary(cfg: Config, k: Core, p: nat, r: Request): Core {
    k.(cycleFlag := k.cycleFlag || (cfg.policy.RequesterStalls? && Older(r.stamp, r.core, k.stamp, p)))
  }

  function NackBy(cfg: Config, k: Core, p: nat, data: Option<Value>): Reply {
    Nack(TxId(p, k.uid), SentPrio(cfg, k), k.power, data, k.stamp)
  }

  /** Core `p` answers the request outstanding on line `a`. */
  function Answer(cfg: Config, s: State, a: Addr, p: nat, hasLine: bool, writeInFlight: bool)
    : Option<(Core, Reply)>
    requires a in s.lines && p < |s.cores|
  {
    var k := s.cores[p];
    var r := s.lines[a];
    var w := Wary(cfg, k, p, r);
    if !Conflicts(k, a, r.exclusive) then
      Some((Yield(k, a, r.exclusive), Ack))
    else if !ShouldNack(cfg, k, r) then
      Some((Yield(k, a, r.exclusive).(doomed := true), Ack))
    else if !hasLine || !CanProduce(cfg, k) then
      Some((w, NackBy(cfg, w, p, None)))
    else
      match BecomeProducer(cfg, k, a, r, writeInFlight)
      case KeepData => Some((w, NackBy(cfg, w, p, None)))
      case KeepDataAndAbort => Some((w.(doomed := true), NackBy(cfg, w, p, None)))
      case AssertionFailure => None
      case Forward =>
        var k' := w.(prio := PrioAfterSend(cfg, k, r.prio), sentTo := k.sentTo + {r.core});
        Some((k', NackBy(cfg, k', p, Some(CachedValue(s, k, a)))))
  }

  /** The requester obtains the line with coherence permission. A consumed block is
      validated against the committed value. */
  function Granted(s: State, k: Core, a: Addr, r: Request): Core {
    var k' := k.(readable := k.readable + {a},
                 writable := if r.exclusive then k.writable + {a} else k.writable);
    if r.exclusive && k.inTx && k.uid == r.uid && a in k.consumed then
      k'.(consumed := k.consumed - {a}, granted := k.granted + {a},
          doomed := k.doomed || k.consumed[a].value != Mem(s.memory, a))
    else k'
  }

  /** The requester takes in speculative data: a first consumption, or the answer to a
      validation request that is still nacked. */
  function Consumed(cfg: Config, k: Core, a: Addr, m: Merged, producers: set<TxId>, suspect: bool): Core
    requires m.data.Some?
  {
    var all := k.everConsumed + producers;
    if a in k.consumed then
      k.(consumed := k.consumed[a := Forwarded(k.consumed[a].value, producers)], everConsumed := all,
         doomed := k.consumed[a].value != m.data.value || suspect)
    else
      var p := PrioAfterReceive(cfg, k, m.prio, m.power);
      var consumed := k.consumed[a := Forwarded(m.data.value, producers)];
      k.(consumed := consumed, everConsumed := all, prio := p,
         doomed := |consumed.Keys| > cfg.maxConsumedBlocks || TooDeep(cfg, p) || suspect)
  }

  /** A nack without usable data: an unvalidated block cannot wait, nor can a requester
      that loses conflicts. */
  function Refused(cfg: Config, k: Core, a: Addr, suspect: bool): Core {
    k.(doomed := a in k.consumed || cfg.policy.RequesterLoses? || cfg.power || suspect)
  }

  /** A transaction that nacked an older one and is nacked by an older one may be part of
      a cycle. */
  predicate Suspect(cfg: Config, k: Core, c: nat, m: Merged) {
    cfg.policy.RequesterStalls? && k.cycleFlag && Older(m.stamp, m.eldest, k.stamp, c)
  }

  function DeliverNack(cfg: Config, s: State, a: Addr, m: Merged, retry: bool): State
    requires a in s.lines && s.lines[a].core < |s.cores|
  {
    var r := s.lines[a];
    var k := s.cores[r.core];
    var suspect := Suspect(cfg, k, r.core, m);
    var rest := s.(lines := s.lines - {a});
    if !r.trans || !k.inTx || k.uid != r.uid || k.doomed then rest
    else if IsIllegal(cfg, k, m.prio) then
      if cfg.cycle.RetryOnCycle? && retry
      then s.(lines := s.lines[a := NewRequest(s, r.core, r.exclusive)])
      else rest.(cores := s.cores[r.core := Refused(cfg, k, a, suspect)])
    else if m.data.Some? && ShouldAccept(cfg, k) then
      rest.(cores := s.cores[r.core := Consumed(cfg, k, a, m, Nackers(r.replies), suspect)])
    else
      rest.(cores := s.cores[r.core := Refused(cfg, k, a, suspect)])
  }

  /** What the transaction has read of a block so far. */
  function Seen(k: Core, a: Addr): set<Value> {
    if a in k.readVals then k.readVals[a] else {}
  }

  function ReadCore(s: State, k: Core, a: Addr): Core {
    var k' := if a in k.consumed then k else k.(granted := k.granted + {a});
    if a in k.writeVals then k'
    else k'.(readVals := k.readVals[a := Seen(k, a) + {CachedValue(s, k, a)}])
  }

  function WriteCore(k: Core, a: Addr, v: Value): Core {
    (if a in k.consumed then k else k.(granted := k.granted + {a})).(writeVals := k.writeVals[a := v])
  }

  function EvictCore(k: Core, a: Addr): Core {
    k.(readable := k.readable - {a}, writable := k.writable - {a},
       doomed := k.doomed || (k.inTx && (a in k.writeVals || a in k.consumed)))
  }

  function AbortCore(k: Core): Core {
    var discarded := k.writeVals.Keys + k.consumed.Keys;
    IdleCore(k.uid, k.retries + 1, k.stamp, k.readable - discarded, k.writable - discarded)
  }

  /** The core lacks the permission it asks for. */
  predicate Misses(k: Core, a: Addr, exclusive: bool) {
    if exclusive then a !in k.writable else a !in k.readable
  }

  predicate Enabled(cfg: Config, s: State, e: Step) {
    match e
    case Begin(c, powered, now) => c < |s.cores| && !s.cores[c].inTx && (powered ==> cfg.power) && s.clock <= now
    case Issue(c, a, exclusive) =>
      && c < |s.cores| && a !in s.lines && !s.cores[c].doomed
      && (a in s.cores[c].consumed ==> exclusive)
      && Misses(s.cores[c], a, exclusive)
    case Respond(a, p, hasLine, writeInFlight) =>
      && a in s.lines && p in s.lines[a].pending && p < |s.cores|
      && Answer(cfg, s, a, p, hasLine, writeInFlight).Some?
    case Deliver(a, order, _) =>
      && a in s.lines && s.lines[a].pending == {} && s.lines[a].core < |s.cores|
      && multiset(order) == multiset(s.lines[a].replies)
    case Read(c, a) =>
      c < |s.cores| && s.cores[c].inTx && (a in s.cores[c].readable || a in s.cores[c].consumed)
    case Write(c, a, _) =>
      c < |s.cores| && s.cores[c].inTx && (a in s.cores[c].writable || a in s.cores[c].consumed)
    case Evict(c, _) => c < |s.cores|
    case Store(c, a, _) => c < |s.cores| && !s.cores[c].inTx && a in s.cores[c].writable
    case Doom(c) => c < |s.cores| && s.cores[c].inTx
    case Commit(c) =>
      c < |s.cores| && s.cores[c].inTx && !s.cores[c].doomed && !s.cores[c].IsConsumer()
    case Abort(c) => c < |s.cores| && s.cores[c].inTx
  }

  function Next(cfg: Config, s: State, e: Step): State
    requires Enabled(cfg, s, e)
  {
    match e
    case Begin(c, powered, now) => s.(cores := s.cores[c := BeginCore(s.cores[c], powered, now)], clock := now)
    case Issue(c, a, exclusive) => s.(lines := s.lines[a := NewRequest(s, c, exclusive)])
    case Respond(a, p, hasLine, writeInFlight) =>
      var (k, reply) := Answer(cfg, s, a, p, hasLine, writeInFlight).value;
      var r := s.lines[a];
      s.(cores := s.cores[p := k],
         lines := s.lines[a := r.(pending := r.pending - {p}, replies := r.replies + [reply])])
    case Deliver(a, order, retry) =>
      var r := s.lines[a];
      (match MergeReplies(order)
       case None =>
         s.(lines := s.lines - {a}, cores := s.cores[r.core := Granted(s, s.cores[r.core], a, r)])
       case Some(m) => DeliverNack(cfg, s, a, m, retry))
    case Read(c, a) => s.(cores := s.cores[c := ReadCore(s, s.cores[c], a)])
    case Write(c, a, v) => s.(cores := s.cores[c := WriteCore(s.cores[c], a, v)])
    case Evict(c, a) => s.(cores := s.cores[c := EvictCore(s.cores[c], a)])
    case Store(c, a, v) => s.(memory := s.memory[a := v], log := s.log + [PlainStore(c, a, v)])
    case Doom(c) => s.(cores := s.cores[c := s.cores[c].(doomed := true)])
    case Commit(c) =>
      var k := s.cores[c];
      s.(cores := s.cores[c := IdleCore(k.uid, 0, k.stamp, k.readable, k.writable)],
         memory := s.memory + k.writeVals,
         log := s.log + [Committed(c, k.readVals, k.writeVals)])
    case Abort(c) => s.(cores := s.cores[c := AbortCore(s.cores[c])])
  }

  /** The state after a run from `n` idle cores, if every step of it was possible. */
  function Run(cfg: Config, n: nat, steps: seq<Step>): Option<State> {
    if steps == [] then Some(Init(n))
    else
      match Run(cfg, n, steps[..|steps| - 1])
      case None => None
      case Some(s) =>
        var e := steps[|steps| - 1];
        if Enabled(cfg, s, e) then Some(Next(cfg, s, e)) else None
  }
}
