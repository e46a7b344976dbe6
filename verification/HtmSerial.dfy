/** Committed transactions are serialisable: whatever is forwarded, aborted, retried or
    evicted, replaying the commits one after the other on the initial memory gives every
    transaction the values it read, and ends in the present memory. */
module HtmSerial {
  import opened Basics
  import opened HtmConfig
  import opened HtmModel

  // ---------- The specification: a serial history ----------

  function Effect(m: map<Addr, Value>, e: Entry): map<Addr, Value> {
    match e
    case Committed(_, _, writes) => m + writes
    case PlainStore(_, a, v) => m[a := v]
  }

  /** The memory left by executing the entries one at a time. */
  function Replay(log: seq<Entry>): map<Addr, Value> {
    if log == [] then map[] else Effect(Replay(log[..|log| - 1]), log[|log| - 1])
  }

  predicate Agrees(m: map<Addr, Value>, e: Entry) {
    e.Committed? ==> forall a | a in e.readVals :: forall v | v in e.readVals[a] :: v == Mem(m, a)
  }

  /** Every transaction read exactly what the entries before it left in memory. */
  predicate SerialHistory(log: seq<Entry>) {
    forall i | 0 <= i < |log| :: Agrees(Replay(log[..i]), log[i])
  }

  // ---------- The invariant ----------

  predicate NoNackFrom(r: Request, d: nat) {
    forall i | 0 <= i < |r.replies| && r.replies[i].Nack? :: r.replies[i].sender.core != d
  }

  predicate Running(k: Core) {
    k.inTx && !k.doomed
  }

  predicate WellFormed(k: Core) {
    && k.writable <= k.readable
    && (!k.inTx ==> k == IdleCore(k.uid, k.retries, k.stamp, k.readable, k.writable))
  }

  /** Core `k` has acknowledged request `r` on line `a`. */
  predicate GaveUp(k: Core, r: Request, a: Addr) {
    && a !in k.writable
    && (r.exclusive ==> a !in k.readable)
    && (r.exclusive && Running(k) ==> a !in k.granted)
  }

  predicate Acked(r: Request, d: nat) {
    d != r.core && d !in r.pending && NoNackFrom(r, d)
  }

  predicate AcksHold(s: State) {
    forall a, d | a in s.lines && 0 <= d < |s.cores| && Acked(s.lines[a], d) ::
      GaveUp(s.cores[d], s.lines[a], a)
  }

  predicate RequestersExist(s: State) {
    forall a | a in s.lines :: s.lines[a].core < |s.cores|
  }

  /** One writer or many readers. */
  predicate SingleWriter(s: State) {
    forall c, d | 0 <= c < |s.cores| && 0 <= d < |s.cores| && c != d ::
      s.cores[c].writable !! s.cores[d].readable
  }

  /** No core holds write permission on a block that a running transaction of another
      core has accessed under permission. */
  predicate IsolatedFromWriters(s: State) {
    forall c, d | 0 <= c < |s.cores| && 0 <= d < |s.cores| && c != d && Running(s.cores[c]) ::
      s.cores[d].writable !! s.cores[c].granted
  }

  /** What a running transaction wrote it owns, or it waits for validation. */
  predicate WritesCovered(k: Core) {
    Running(k) ==> forall a | a in k.writeVals :: a in k.consumed || (a in k.writable && a in k.granted)
  }

  /** Every value read was read under permission and is still the committed one, or is
      the speculative value that waits for validation. */
  predicate ReadExplained(m: map<Addr, Value>, k: Core, a: Addr)
    requires a in k.readVals
  {
    forall v | v in k.readVals[a] ::
      || (a in k.granted && v == Mem(m, a))
      || (a in k.consumed && v == k.consumed[a].value)
  }

  predicate ReadsExplained(m: map<Addr, Value>, k: Core) {
    Running(k) ==> forall a | a in k.readVals :: ReadExplained(m, k, a)
  }

  predicate CoresFine(s: State) {
    forall c | 0 <= c < |s.cores| ::
      WellFormed(s.cores[c]) && WritesCovered(s.cores[c]) && ReadsExplained(s.memory, s.cores[c])
  }

  predicate Inv(s: State) {
    && CoresFine(s)
    && RequestersExist(s)
    && AcksHold(s)
    && SingleWriter(s)
    && IsolatedFromWriters(s)
    && SerialHistory(s.log)
    && s.memory == Replay(s.log)
  }

  // ---------- Steps that touch one core and no permissions of others ----------

  /** A step that changes only core `c` keeps the invariant if the core gains no permission
      and a running transaction accesses under permission only what it may read. */
  lemma LocalStep(s: State, c: nat, k: Core)
    requires Inv(s) && c < |s.cores|
    requires WellFormed(k) && WritesCovered(k) && ReadsExplained(s.memory, k)
    requires k.readable <= s.cores[c].readable && k.writable <= s.cores[c].writable
    requires Running(k) ==>
               k.granted == {} || (Running(s.cores[c]) && k.granted <= s.cores[c].granted + s.cores[c].readable)
    ensures Inv(s.(cores := s.cores[c := k]))
  {
  }

  lemma HistoryGrows(log: seq<Entry>, e: Entry)
    requires SerialHistory(log) && Agrees(Replay(log), e)
    ensures SerialHistory(log + [e])
    ensures Replay(log + [e]) == Effect(Replay(log), e)
  {
    var log' := log + [e];
    assert log'[..|log|] == log;
    forall i | 0 <= i < |log'| ensures Agrees(Replay(log'[..i]), log'[i]) {
      if i < |log| {
        assert log'[..i] == log[..i];
      }
    }
  }

  lemma NoNackMerged(rs: seq<Reply>)
    ensures MergeReplies(rs).None? <==> forall i | 0 <= i < |rs| :: rs[i].Ack?
  {
  }

  lemma SameMembers(rs: seq<Reply>, order: seq<Reply>, i: nat)
    requires multiset(order) == multiset(rs) && i < |rs|
    ensures rs[i] in order
  {
    assert rs[i] in multiset(rs);
  }

  /** From `k` to `k'` a core changes nothing but its flags, position and consumers, and
      loses write permission only on blocks its running transaction has not written, or
      holds as forwarded data. */
  ghost predicate Concedes(k: Core, k': Core) {
    && k' == k.(doomed := k'.doomed, prio := k'.prio, sentTo := k'.sentTo, cycleFlag := k'.cycleFlag,
                readable := k'.readable, writable := k'.writable)
    && k'.readable <= k.readable && k'.writable <= k.writable && (k.doomed ==> k'.doomed)
    && (Running(k') ==> forall b | b in k.writeVals && b in k.writable && b !in k.consumed :: b in k'.writable)
  }

  lemma AnswerConcedes(cfg: Config, s: State, a: Addr, p: nat, hasLine: bool, writeInFlight: bool)
    requires a in s.lines && p < |s.cores| && Answer(cfg, s, a, p, hasLine, writeInFlight).Some?
    requires WellFormed(s.cores[p]) && WritesCovered(s.cores[p])
    ensures var (k', reply) := Answer(cfg, s, a, p, hasLine, writeInFlight).value;
            && Concedes(s.cores[p], k') && WellFormed(k')
            && (reply.Ack? ==> GaveUp(k', s.lines[a], a))
            && (reply.Nack? ==> reply.sender.core == p)
  {
  }

  lemma ConcedeKeeps(s: State, p: nat, k': Core)
    requires Inv(s) && p < |s.cores| && Concedes(s.cores[p], k') && WellFormed(k')
    ensures Inv(s.(cores := s.cores[p := k']))
  {
    forall b | Running(k') && b in k'.readVals ensures ReadExplained(s.memory, k', b) {
      assert ReadExplained(s.memory, s.cores[p], b);
    }
    LocalStep(s, p, k');
  }

  lemma AcksAnswered(s: State, s': State, a: Addr, p: nat, r': Request, reply: Reply)
    requires AcksHold(s) && a in s.lines && p < |s.cores| && s'.cores == s.cores && s'.lines == s.lines[a := r']
    requires r' == s.lines[a].(pending := s.lines[a].pending - {p}, replies := s.lines[a].replies + [reply])
    requires reply.Ack? ==> GaveUp(s.cores[p], s.lines[a], a)
    requires reply.Nack? ==> reply.sender.core == p
    ensures AcksHold(s')
  {
    forall b, d | b in s'.lines && 0 <= d < |s'.cores| && Acked(s'.lines[b], d)
      ensures GaveUp(s'.cores[d], s'.lines[b], b)
    {
      if b == a {
        assert r'.replies[|s.lines[a].replies|] == reply;
        assert d != p ==> Acked(s.lines[a], d) by {
          assert forall i | 0 <= i < |s.lines[a].replies| :: r'.replies[i] == s.lines[a].replies[i];
        }
      } else {
        assert Acked(s.lines[b], d);
      }
    }
  }

  lemma RespondKeeps(cfg: Config, s: State, e: Step)
    requires Inv(s) && e.Respond? && Enabled(cfg, s, e)
    ensures Inv(Next(cfg, s, e))
  {
    var s', a, p := Next(cfg, s, e), e.addr, e.core;
    var (k', reply) := Answer(cfg, s, a, p, e.hasLine, e.writeInFlight).value;
    AnswerConcedes(cfg, s, a, p, e.hasLine, e.writeInFlight);
    ConcedeKeeps(s, p, k');
    AcksAnswered(s.(cores := s.cores[p := k']), s', a, p, s'.lines[a], reply);
  }

  /** Every other core has given up the line of a request that met no nack. */
  ghost predicate AllGaveUp(s: State, r: Request, a: Addr) {
    forall d | 0 <= d < |s.cores| && d != r.core :: GaveUp(s.cores[d], r, a)
  }

  lemma Unopposed(cfg: Config, s: State, e: Step)
    requires Inv(s) && e.Deliver? && Enabled(cfg, s, e) && MergeReplies(e.order).None?
    ensures AllGaveUp(s, s.lines[e.addr], e.addr)
  {
    var r := s.lines[e.addr];
    NoNackMerged(e.order);
    forall i | 0 <= i < |r.replies| ensures r.replies[i].Ack? {
      SameMembers(r.replies, e.order, i);
    }
    forall d | 0 <= d < |s.cores| && d != r.core ensures GaveUp(s.cores[d], r, e.addr) {
      assert Acked(r, d);
    }
  }

  lemma ReadGranted(s: State, k: Core, a: Addr, r: Request, b: Addr)
    requires b in k.readVals && ReadExplained(s.memory, k, b) && Running(Granted(s, k, a, r))
    ensures ReadExplained(s.memory, Granted(s, k, a, r), b)
  {
  }

  lemma GrantedFine(s: State, k: Core, a: Addr, r: Request)
    requires WellFormed(k) && WritesCovered(k) && ReadsExplained(s.memory, k)
    ensures var k' := Granted(s, k, a, r);
            WellFormed(k') && WritesCovered(k') && ReadsExplained(s.memory, k')
  {
    var k' := Granted(s, k, a, r);
    forall b | Running(k') && b in k'.readVals ensures ReadExplained(s.memory, k', b) {
      assert ReadExplained(s.memory, k, b);
      ReadGranted(s, k, a, r, b);
    }
  }

  /** What a core gains with a line: permission on it, and access under permission if it
      had consumed it. */
  ghost predicate Gains(k: Core, k': Core, a: Addr, r: Request) {
    && k'.readable == k.readable + {a}
    && (if r.exclusive then k'.writable == k.writable + {a} else k'.writable == k.writable)
    && (k'.granted == k.granted || (r.exclusive && k'.granted == k.granted + {a}))
    && (Running(k') ==> Running(k))
  }

  lemma GrantedGains(s: State, k: Core, a: Addr, r: Request)
    ensures Gains(k, Granted(s, k, a, r), a, r)
  {
  }

  lemma GainKeepsPermissions(s: State, s': State, a: Addr, r: Request, k': Core)
    requires SingleWriter(s) && IsolatedFromWriters(s) && r.core < |s.cores| && AllGaveUp(s, r, a)
    requires s'.cores == s.cores[r.core := k'] && Gains(s.cores[r.core], k', a, r)
    ensures SingleWriter(s') && IsolatedFromWriters(s')
  {
  }

  lemma GainKeepsAcks(s: State, s': State, a: Addr, r: Request, k': Core)
    requires AcksHold(s) && r.core < |s.cores| && s'.lines == s.lines - {a}
    requires s'.cores == s.cores[r.core := k'] && Gains(s.cores[r.core], k', a, r)
    ensures AcksHold(s')
  {
    forall b, d | b in s'.lines && 0 <= d < |s'.cores| && Acked(s'.lines[b], d)
      ensures GaveUp(s'.cores[d], s'.lines[b], b)
    {
      assert GaveUp(s.cores[d], s.lines[b], b);
    }
  }

  lemma GrantKeeps(cfg: Config, s: State, e: Step)
    requires Inv(s) && e.Deliver? && Enabled(cfg, s, e) && MergeReplies(e.order).None?
    ensures Inv(Next(cfg, s, e))
  {
    var s', a, r := Next(cfg, s, e), e.addr, s.lines[e.addr];
    var k := s.cores[r.core];
    Unopposed(cfg, s, e);
    GrantedFine(s, k, a, r);
    GrantedGains(s, k, a, r);
    GainKeepsPermissions(s, s', a, r, Granted(s, k, a, r));
    GainKeepsAcks(s, s', a, r, Granted(s, k, a, r));
  }

  lemma UnblockKeeps(s: State, a: Addr)
    requires Inv(s)
    ensures Inv(s.(lines := s.lines - {a}))
  {
  }

  lemma RequestKeeps(s: State, c: nat, a: Addr, exclusive: bool)
    requires Inv(s) && c < |s.cores|
    ensures Inv(s.(lines := s.lines[a := NewRequest(s, c, exclusive)]))
  {
  }

  lemma RefusedKeeps(cfg: Config, s: State, c: nat, a: Addr, suspect: bool)
    requires Inv(s) && c < |s.cores| && Running(s.cores[c])
    ensures Inv(s.(cores := s.cores[c := Refused(cfg, s.cores[c], a, suspect)]))
  {
  }

  lemma ConsumedKeeps(cfg: Config, s: State, c: nat, a: Addr, m: Merged, from: set<TxId>, suspect: bool)
    requires Inv(s) && c < |s.cores| && Running(s.cores[c]) && a !in s.lines && m.data.Some?
    ensures Inv(s.(cores := s.cores[c := Consumed(cfg, s.cores[c], a, m, from, suspect)]))
  {
    var k := s.cores[c];
    var k' := Consumed(cfg, k, a, m, from, suspect);
    forall b | b in k'.readVals ensures ReadExplained(s.memory, k', b) {
      assert ReadExplained(s.memory, k, b);
    }
    LocalStep(s, c, k');
  }

  lemma {:induction false} NackKeeps(cfg: Config, s: State, e: Step)
    requires Inv(s) && e.Deliver? && Enabled(cfg, s, e) && MergeReplies(e.order).Some?
    ensures Inv(Next(cfg, s, e))
  {
    var a, r, m := e.addr, s.lines[e.addr], MergeReplies(e.order).value;
    var k := s.cores[r.core];
    var rest := s.(lines := s.lines - {a});
    UnblockKeeps(s, a);
    if r.trans && k.inTx && k.uid == r.uid && !k.doomed {
      if IsIllegal(cfg, k, m.prio) && cfg.cycle.RetryOnCycle? && e.retry {
        RequestKeeps(s, r.core, a, r.exclusive);
      } else if !IsIllegal(cfg, k, m.prio) && m.data.Some? && ShouldAccept(cfg, k) {
        ConsumedKeeps(cfg, rest, r.core, a, m, Nackers(r.replies), Suspect(cfg, k, r.core, m));
      } else {
        RefusedKeeps(cfg, rest, r.core, a, Suspect(cfg, k, r.core, m));
      }
    }
  }

  /** A memory update under write permission disturbs no running transaction. */
  lemma MemoryUpdate(s: State, c: nat, k: Core, e: Entry)
    requires Inv(s) && c < |s.cores|
    requires k == IdleCore(k.uid, k.retries, k.stamp, s.cores[c].readable, s.cores[c].writable)
    requires Agrees(s.memory, e)
    requires match e
             case Committed(_, _, writes) => writes.Keys <= s.cores[c].writable
             case PlainStore(_, a, _) => a in s.cores[c].writable
    ensures Inv(s.(cores := s.cores[c := k], memory := Effect(s.memory, e), log := s.log + [e]))
  {
    LocalStep(s, c, k);
    HistoryGrows(s.log, e);
    forall d | 0 <= d < |s.cores| && d != c ensures ReadsExplained(Effect(s.memory, e), s.cores[d]) {
      ReadsUndisturbed(s.memory, s.cores[d], s.cores[c].writable, e);
    }
  }

  lemma ReadsUndisturbed(m: map<Addr, Value>, k: Core, writable: set<Addr>, e: Entry)
    requires ReadsExplained(m, k) && (Running(k) ==> writable !! k.granted)
    requires match e
             case Committed(_, _, writes) => writes.Keys <= writable
             case PlainStore(_, a, _) => a in writable
    ensures ReadsExplained(Effect(m, e), k)
  {
    forall a | Running(k) && a in k.readVals ensures ReadExplained(Effect(m, e), k, a) {
      assert ReadExplained(m, k, a);
      assert a in k.granted ==> a !in writable;
    }
  }

  lemma {:induction false} CommitKeeps(cfg: Config, s: State, e: Step)
    requires Inv(s) && e.Commit? && Enabled(cfg, s, e)
    ensures Inv(Next(cfg, s, e))
  {
    var k := s.cores[e.core];
    assert forall a | a in k.readVals :: ReadExplained(s.memory, k, a);
    MemoryUpdate(s, e.core, IdleCore(k.uid, 0, k.stamp, k.readable, k.writable),
                 Committed(e.core, k.readVals, k.writeVals));
  }

  lemma StoreKeeps(cfg: Config, s: State, e: Step)
    requires Inv(s) && e.Store? && Enabled(cfg, s, e)
    ensures Inv(Next(cfg, s, e))
  {
    MemoryUpdate(s, e.core, s.cores[e.core], PlainStore(e.core, e.addr, e.value));
    assert s.cores[e.core := s.cores[e.core]] == s.cores;
  }

  lemma {:induction false} AccessKeeps(cfg: Config, s: State, e: Step)
    requires Inv(s) && Enabled(cfg, s, e) && (e.Read? || e.Write?)
    ensures Inv(Next(cfg, s, e))
  {
    var k := s.cores[e.core];
    var k' := if e.Read? then ReadCore(s, k, e.addr) else WriteCore(k, e.addr, e.value);
    forall b | Running(k) && b in k'.readVals ensures ReadExplained(s.memory, k', b) {
      if b in k.readVals {
        assert ReadExplained(s.memory, k, b);
      }
    }
    LocalStep(s, e.core, k');
  }

  lemma {:induction false} OtherStepsKeep(cfg: Config, s: State, e: Step)
    requires Inv(s) && Enabled(cfg, s, e)
    requires e.Begin? || e.Issue? || e.Evict? || e.Doom? || e.Abort?
    ensures Inv(Next(cfg, s, e))
  {
    match e
    case Begin(c, powered, now) => LocalStep(s, c, BeginCore(s.cores[c], powered, now));
    case Issue(c, a, exclusive) => RequestKeeps(s, c, a, exclusive);
    case Evict(c, a) => LocalStep(s, c, EvictCore(s.cores[c], a));
    case Doom(c) => LocalStep(s, c, s.cores[c].(doomed := true));
    case Abort(c) => LocalStep(s, c, AbortCore(s.cores[c]));
  }

  lemma {:induction false} InvAlways(cfg: Config, n: nat, steps: seq<Step>)
    requires Run(cfg, n, steps).Some?
    ensures Inv(Run(cfg, n, steps).value)
  {
    if steps != [] {
      var before := steps[..|steps| - 1];
      var s, e := Run(cfg, n, before).value, steps[|steps| - 1];
      InvAlways(cfg, n, before);
      match e
      case Respond(_, _, _, _) => RespondKeeps(cfg, s, e);
      case Deliver(_, order, _) =>
        if MergeReplies(order).None? { GrantKeeps(cfg, s, e); } else { NackKeeps(cfg, s, e); }
      case Commit(_) => CommitKeeps(cfg, s, e);
      case Store(_, _, _) => StoreKeeps(cfg, s, e);
      case Read(_, _) => AccessKeeps(cfg, s, e);
      case Write(_, _, _) => AccessKeeps(cfg, s, e);
      case _ => OtherStepsKeep(cfg, s, e);
    }
  }

  /** Main result: under every configuration, the commits of every run form a serial
      history that produces the present memory, and at most one core can write a line. */
  lemma {:induction false} CommittedTransactionsSerialise(cfg: Config, n: nat, steps: seq<Step>)
    requires Run(cfg, n, steps).Some?
    ensures var s := Run(cfg, n, steps).value;
            SerialHistory(s.log) && s.memory == Replay(s.log) && SingleWriter(s)
  {
    InvAlways(cfg, n, steps);
  }
}
