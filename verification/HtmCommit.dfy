/** A transaction commits only after every transaction whose speculative data it used
    has ended or is bound to abort. */
module HtmCommit {
  import opened Basics
  import opened HtmConfig
  import opened HtmModel
  import opened HtmChains
  import HtmSerial

  predicate SameTx(k: Core, k': Core) {
    k'.inTx && k'.uid == k.uid
  }

  predicate LiveAndWell(s: State, t: TxId) {
    Live(s, t) && !s.cores[t.core].doomed
  }

  /** A producer has accessed the forwarded block under permission. */
  predicate HoldsBlock(s: State, t: TxId, a: Addr) {
    LiveAndWell(s, t) ==> a in s.cores[t.core].granted
  }

  predicate ProducersHold(s: State, k: Core) {
    forall a | a in k.consumed :: forall t | t in k.consumed[a].producers :: HoldsBlock(s, t, a)
  }

  /** Whoever acknowledged a validation request for its own forwarded block is doomed. */
  predicate AckedProducersDoomed(s: State, r: Request, a: Addr) {
    && r.core < |s.cores|
    && var k := s.cores[r.core];
    k.inTx && k.uid == r.uid && a in k.consumed ==>
      && r.exclusive
      && (forall t | t in k.consumed[a].producers && HtmSerial.Acked(r, t.core) :: !LiveAndWell(s, t))
      && (forall t | t in k.consumed[a].producers :: NoEarlierNack(r, t))
  }

  /** A nack from the core of `t` is from `t` itself or from a later transaction. */
  predicate NoEarlierNack(r: Request, t: TxId) {
    forall i | 0 <= i < |r.replies| && r.replies[i].Nack? && r.replies[i].sender.core == t.core ::
      t.uid <= r.replies[i].sender.uid
  }

  predicate NackersHold(s: State, r: Request, a: Addr) {
    forall i | 0 <= i < |r.replies| && r.replies[i].Nack? :: HoldsBlock(s, r.replies[i].sender, a)
  }

  /** Every running producer of a running consumer is still waited for. */
  predicate Waited(s: State, k: Core) {
    forall t | t in k.everConsumed ::
      Past(s, t) && (!k.doomed && LiveAndWell(s, t) ==> t in ProducersOf(k))
  }

  predicate LineFine(s: State, r: Request, a: Addr) {
    AckedProducersDoomed(s, r, a) && NackersHold(s, r, a) && Past(s, TxId(r.core, r.uid))
  }

  predicate CoreFine(s: State, k: Core) {
    ProducersHold(s, k) && Waited(s, k)
  }

  predicate CommitInv(s: State) {
    && (forall c | 0 <= c < |s.cores| :: CoreFine(s, s.cores[c]))
    && (forall a | a in s.lines :: LineFine(s, s.lines[a], a))
  }

  /** A core whose transaction keeps what it consumed and, unless doomed, its sets. */
  predicate Steady(k: Core, k': Core) {
    && k.uid <= k'.uid
    && (SameTx(k, k') ==>
          && k.inTx && (k.doomed ==> k'.doomed) && (!k'.doomed ==> k.granted <= k'.granted)
          && k'.consumed == k.consumed && k'.everConsumed == k.everConsumed)
    && (!SameTx(k, k') ==> k'.consumed == map[] && k'.everConsumed == {})
  }

  ghost predicate SteadyStep(s: State, s': State, c: nat) {
    && c < |s.cores| && |s'.cores| == |s.cores|
    && s'.cores == s.cores[c := s'.cores[c]]
    && Steady(s.cores[c], s'.cores[c])
  }

  lemma SteadyKeepsHolding(s: State, s': State, c: nat)
    requires SteadyStep(s, s', c)
    ensures forall t | Past(s, t) :: Past(s', t) && (LiveAndWell(s', t) ==> LiveAndWell(s, t))
    ensures forall t, a | Past(s, t) && HoldsBlock(s, t, a) :: HoldsBlock(s', t, a)
  {
  }

  lemma SteadyProducers(s: State, s': State, c: nat, d: nat)
    requires Provenance(s) && CommitInv(s) && SteadyStep(s, s', c) && d < |s.cores|
    ensures CoreFine(s', s'.cores[d])
  {
    SteadyKeepsHolding(s, s', c);
    assert CoreFine(s, s.cores[d]);
    forall a, t | a in s'.cores[d].consumed && t in s'.cores[d].consumed[a].producers ensures HoldsBlock(s', t, a) {
      assert t in ProducersOf(s.cores[d]) && HoldsBlock(s, t, a);
    }
  }

  lemma SteadyLine(s: State, s': State, c: nat, a: Addr)
    requires Provenance(s) && CommitInv(s) && SteadyStep(s, s', c) && a in s.lines
    ensures LineFine(s', s.lines[a], a)
  {
    var r := s.lines[a];
    SteadyKeepsHolding(s, s', c);
    assert LineFine(s, r, a) && RepliesFromPast(s, r);
    assert SteadyRequester(s, s', c, r, a);
  }

  lemma CommitSteady(s: State, s': State, c: nat)
    requires Provenance(s) && CommitInv(s) && SteadyStep(s, s', c) && LinesShrink(s.lines, s'.lines)
    ensures CommitInv(s')
  {
    forall d | 0 <= d < |s'.cores| ensures CoreFine(s', s'.cores[d]) {
      SteadyProducers(s, s', c, d);
    }
    forall a | a in s'.lines ensures LineFine(s', s'.lines[a], a) {
      SteadyLine(s, s', c, a);
    }
  }

  predicate SteadyRequester(s: State, s': State, c: nat, r: Request, a: Addr)
    requires r.core < |s.cores| && |s'.cores| == |s.cores|
  {
    s'.cores[r.core].inTx && s'.cores[r.core].uid == r.uid && a in s'.cores[r.core].consumed ==>
      s.cores[r.core].inTx && s.cores[r.core].uid == r.uid && s.cores[r.core].consumed == s'.cores[r.core].consumed
  }

  lemma CommitLines(s: State, s': State, a: Addr)
    requires CommitInv(s) && s'.cores == s.cores
    requires forall b | b in s'.lines && b != a :: b in s.lines && s'.lines[b] == s.lines[b]
    requires a in s'.lines ==> LineFine(s', s'.lines[a], a)
    ensures CommitInv(s')
  {
    forall d | 0 <= d < |s'.cores| ensures CoreFine(s', s'.cores[d]) {
      assert CoreFine(s, s.cores[d]);
      forall b, t | b in s'.cores[d].consumed && t in s'.cores[d].consumed[b].producers ensures HoldsBlock(s', t, b) {
        assert HoldsBlock(s, t, b);
      }
    }
    forall b | b in s'.lines && b != a ensures LineFine(s', s'.lines[b], b) {
      assert LineFine(s, s.lines[b], b);
      forall i | 0 <= i < |s.lines[b].replies| && s.lines[b].replies[i].Nack?
        ensures HoldsBlock(s', s.lines[b].replies[i].sender, b)
      {
        assert HoldsBlock(s, s.lines[b].replies[i].sender, b);
      }
    }
  }

  lemma CommitRequest(s: State, s': State, c: nat, a: Addr, exclusive: bool)
    requires CommitInv(s) && RequestStep(s, s', c, a, exclusive)
    requires a in s.cores[c].consumed ==> exclusive
    ensures CommitInv(s')
  {
    assert forall t: TxId | t.core < |s.cores| :: !HtmSerial.Acked(s'.lines[a], t.core);
    CommitLines(s, s', a);
  }

  /** An answering core stays steady; if it acknowledges, it does not hold the block or
      is doomed; if it nacks, it holds the block. */
  lemma AnswerSteady(cfg: Config, s: State, a: Addr, p: nat, hasLine: bool, writeInFlight: bool)
    requires a in s.lines && p < |s.cores| && Answer(cfg, s, a, p, hasLine, writeInFlight).Some?
    requires HtmSerial.WellFormed(s.cores[p]) && HtmSerial.WritesCovered(s.cores[p])
    ensures var (k', reply) := Answer(cfg, s, a, p, hasLine, writeInFlight).value;
            && Steady(s.cores[p], k')
            && (reply.Ack? && s.lines[a].exclusive && HtmSerial.Running(k') ==> a !in k'.granted)
            && (reply.Nack? ==> a in k'.granted && reply.sender == TxId(p, k'.uid))
  {
    var (k', reply) := Answer(cfg, s, a, p, hasLine, writeInFlight).value;
    HtmSerial.AnswerConcedes(cfg, s, a, p, hasLine, writeInFlight);
    NackerHolds(cfg, s, a, p, hasLine, writeInFlight);
  }

  lemma NackerHolds(cfg: Config, s: State, a: Addr, p: nat, hasLine: bool, writeInFlight: bool)
    requires a in s.lines && p < |s.cores| && Answer(cfg, s, a, p, hasLine, writeInFlight).Some?
    requires HtmSerial.WritesCovered(s.cores[p])
    ensures var reply := Answer(cfg, s, a, p, hasLine, writeInFlight).value.1;
            reply.Nack? ==> a in s.cores[p].granted && reply.sender == TxId(p, s.cores[p].uid)
  {
  }

  lemma CommitRespond(cfg: Config, s: State, s': State, e: Step)
    requires HtmSerial.Inv(s) && Provenance(s) && CommitInv(s) && RespondStep(cfg, s, s', e)
    ensures CommitInv(s')
  {
    var a := e.addr;
    var (k', reply) := Answer(cfg, s, a, e.core, e.hasLine, e.writeInFlight).value;
    var mid := s.(cores := s.cores[e.core := k']);
    AnswerSteady(cfg, s, a, e.core, e.hasLine, e.writeInFlight);
    CommitSteady(s, mid, e.core);
    ProvenanceSteady(s, mid, e.core);
    LineReplied(mid, s', a, e.core, reply);
  }

  lemma LineReplied(s: State, s': State, a: Addr, p: nat, reply: Reply)
    requires Provenance(s) && CommitInv(s) && a in s.lines && p < |s.cores| && s'.cores == s.cores
    requires reply.Ack? && s.lines[a].exclusive && HtmSerial.Running(s.cores[p]) ==> a !in s.cores[p].granted
    requires reply.Nack? ==> a in s.cores[p].granted && reply.sender == TxId(p, s.cores[p].uid)
    requires var r := s.lines[a];
             s'.lines == s.lines[a := r.(pending := r.pending - {p}, replies := r.replies + [reply])]
    ensures CommitInv(s')
  {
    assert LineFine(s, s.lines[a], a);
    LineAnswered(s, s.lines[a], a, p, reply);
    SameCoresLineFine(s, s', s'.lines[a], a);
    CommitLines(s, s', a);
  }

  lemma SameCoresLineFine(s: State, s': State, r: Request, a: Addr)
    requires LineFine(s, r, a) && s'.cores == s.cores
    ensures LineFine(s', r, a)
  {
  }

  lemma ProvenanceSteady(s: State, s': State, c: nat)
    requires Provenance(s) && SteadyStep(s, s', c) && s'.lines == s.lines
    ensures Provenance(s')
  {
  }

  /** The line of a request to which core `p`, now `k`, has just given `reply`. */
  lemma LineAnswered(s: State, r: Request, a: Addr, p: nat, reply: Reply)
    requires Provenance(s) && CommitInv(s) && LineFine(s, r, a) && p < |s.cores|
    requires reply.Ack? && r.exclusive && HtmSerial.Running(s.cores[p]) ==> a !in s.cores[p].granted
    requires reply.Nack? ==> a in s.cores[p].granted && reply.sender == TxId(p, s.cores[p].uid)
    ensures LineFine(s, r.(pending := r.pending - {p}, replies := r.replies + [reply]), a)
  {
    var r' := r.(pending := r.pending - {p}, replies := r.replies + [reply]);
    assert r'.replies[|r.replies|] == reply;
    assert forall i | 0 <= i < |r.replies| :: r'.replies[i] == r.replies[i];
    var k := s.cores[r.core];
    forall t | k.inTx && k.uid == r.uid && a in k.consumed && t in k.consumed[a].producers
      ensures NoEarlierNack(r', t) && (HtmSerial.Acked(r', t.core) ==> !LiveAndWell(s, t))
    {
      assert NoEarlierNack(r, t) && t in ProducersOf(k);
      assert CoreFine(s, k) && HoldsBlock(s, t, a);
      if HtmSerial.Acked(r', t.core) && t.core != p {
        assert HtmSerial.Acked(r, t.core);
      }
    }
  }

  /** The transaction of core `k` settles block `a`: validated, or waiting for the
      producers `from`. Everything else it consumed is as before. */
  ghost predicate Settles(k: Core, k': Core, a: Addr, from: set<TxId>) {
    && k.inTx && SameTx(k, k') && (k.doomed ==> k'.doomed)
    && (!k'.doomed ==> k.granted <= k'.granted)
    && (forall b | b != a :: b in k.consumed <==> b in k'.consumed)
    && (forall b | b != a && b in k.consumed :: k'.consumed[b] == k.consumed[b])
    && (if a in k'.consumed then k'.consumed[a].producers == from else from == {})
    && k'.everConsumed == k.everConsumed + from
  }

  /** Core `c` settles block `a` and the line is unblocked. */
  ghost predicate SettleStep(s: State, s': State, c: nat, k': Core, a: Addr, from: set<TxId>) {
    && c < |s.cores|
    && s'.cores == s.cores[c := k'] && s'.lines == s.lines - {a}
    && Settles(s.cores[c], k', a, from)
    && (forall t | t in from :: Past(s, t) && HoldsBlock(s, t, a))
    && (a in s.cores[c].consumed ==>
          forall t | t in s.cores[c].consumed[a].producers :: t in from || !LiveAndWell(s, t))
  }

  lemma SettledHolds(s: State, s': State, c: nat, k': Core, a: Addr, from: set<TxId>)
    requires SettleStep(s, s', c, k', a, from)
    ensures forall t | Past(s, t) :: Past(s', t) && (LiveAndWell(s', t) ==> LiveAndWell(s, t))
    ensures forall t, b | Past(s, t) && HoldsBlock(s, t, b) :: HoldsBlock(s', t, b)
  {
  }

  lemma SettledWaits(s: State, s': State, c: nat, k': Core, a: Addr, from: set<TxId>)
    requires CommitInv(s) && SettleStep(s, s', c, k', a, from)
    ensures Waited(s', k')
  {
  }

  lemma SettledProducers(s: State, s': State, c: nat, k': Core, a: Addr, from: set<TxId>, d: nat)
    requires Provenance(s) && CommitInv(s) && SettleStep(s, s', c, k', a, from) && d < |s.cores|
    ensures ProducersHold(s', s'.cores[d])
  {
  }

  lemma SettledLine(s: State, s': State, c: nat, k': Core, a: Addr, from: set<TxId>, b: Addr)
    requires Provenance(s) && CommitInv(s) && SettleStep(s, s', c, k', a, from) && b in s'.lines
    ensures LineFine(s', s'.lines[b], b)
  {
    var r := s.lines[b];
    SettledHolds(s, s', c, k', a, from);
    assert LineFine(s, r, b) && RepliesFromPast(s, r);
    forall t | b in s.cores[r.core].consumed && t in s.cores[r.core].consumed[b].producers ensures Past(s, t) {
      assert t in ProducersOf(s.cores[r.core]);
    }
  }

  lemma CommitSettle(s: State, s': State, c: nat, k': Core, a: Addr, from: set<TxId>)
    requires Provenance(s) && CommitInv(s) && SettleStep(s, s', c, k', a, from)
    ensures CommitInv(s')
  {
    SettledHolds(s, s', c, k', a, from);
    SettledWaits(s, s', c, k', a, from);
    forall d | 0 <= d < |s'.cores| ensures CoreFine(s', s'.cores[d]) {
      SettledProducers(s, s', c, k', a, from, d);
      assert CoreFine(s, s.cores[d]);
    }
    forall b | b in s'.lines ensures LineFine(s', s'.lines[b], b) {
      SettledLine(s, s', c, k', a, from, b);
    }
  }

  /** Whoever produced a block that is granted has given it up. */
  lemma ValidatedProducers(cfg: Config, s: State, e: Step, t: TxId)
    requires Provenance(s) && CommitInv(s) && e.Deliver? && Enabled(cfg, s, e) && MergeReplies(e.order).None?
    requires var k := s.cores[s.lines[e.addr].core];
             k.inTx && k.uid == s.lines[e.addr].uid && e.addr in k.consumed && t in k.consumed[e.addr].producers
    ensures !LiveAndWell(s, t)
  {
    var a, r := e.addr, s.lines[e.addr];
    HtmSerial.NoNackMerged(e.order);
    forall i | 0 <= i < |r.replies| ensures r.replies[i].Ack? {
      HtmSerial.SameMembers(r.replies, e.order, i);
    }
    assert LineFine(s, r, a);
    assert t in ProducersOf(s.cores[r.core]);
    assert HtmSerial.Acked(r, t.core);
  }

  lemma GrantSettles(s: State, k: Core, a: Addr, r: Request)
    requires HtmSerial.WellFormed(k)
    ensures if r.exclusive && k.inTx && k.uid == r.uid && a in k.consumed
            then Settles(k, Granted(s, k, a, r), a, {}) else Steady(k, Granted(s, k, a, r))
  {
  }

  lemma CommitGrant(cfg: Config, s: State, e: Step)
    requires HtmSerial.Inv(s) && Provenance(s) && CommitInv(s)
    requires e.Deliver? && Enabled(cfg, s, e) && MergeReplies(e.order).None?
    ensures CommitInv(Next(cfg, s, e))
  {
    var s', a, r := Next(cfg, s, e), e.addr, s.lines[e.addr];
    var k := s.cores[r.core];
    GrantSettles(s, k, a, r);
    if r.exclusive && k.inTx && k.uid == r.uid && a in k.consumed {
      forall t | t in k.consumed[a].producers ensures !LiveAndWell(s, t) {
        ValidatedProducers(cfg, s, e, t);
      }
      CommitSettle(s, s', r.core, Granted(s, k, a, r), a, {});
    } else {
      CommitSteady(s, s', r.core);
    }
  }

  lemma ConsumedEntries(cfg: Config, k: Core, a: Addr, m: Merged, from: set<TxId>, suspect: bool)
    requires m.data.Some? && HtmSerial.Running(k)
    ensures var k' := Consumed(cfg, k, a, m, from, suspect);
            && SameTx(k, k') && k'.everConsumed == k.everConsumed + from
            && k'.readVals == k.readVals && k'.writeVals == k.writeVals && k'.granted == k.granted
            && exists v :: k'.consumed == k.consumed[a := Forwarded(v, from)]
  {
  }

  lemma ConsumedSettles(cfg: Config, k: Core, a: Addr, m: Merged, from: set<TxId>, suspect: bool)
    requires m.data.Some? && HtmSerial.Running(k)
    ensures Settles(k, Consumed(cfg, k, a, m, from, suspect), a, from)
  {
    ConsumedEntries(cfg, k, a, m, from, suspect);
    EntrySettles(k, Consumed(cfg, k, a, m, from, suspect), a, from);
  }

  lemma EntrySettles(k: Core, k': Core, a: Addr, from: set<TxId>)
    requires HtmSerial.Running(k) && SameTx(k, k') && k'.everConsumed == k.everConsumed + from
    requires k'.readVals == k.readVals && k'.writeVals == k.writeVals && k'.granted == k.granted
    requires exists v :: k'.consumed == k.consumed[a := Forwarded(v, from)]
    ensures Settles(k, k', a, from)
  {
  }

  /** A producer that did not refuse this time is not in the way any more. */
  lemma FormerProducer(s: State, r: Request, a: Addr, t: TxId)
    requires AckedProducersDoomed(s, r, a) && RepliesFromPast(s, r) && r.pending == {}
    requires var k := s.cores[r.core];
             k.inTx && k.uid == r.uid && a in k.consumed && t in k.consumed[a].producers
    requires t.core != r.core && t !in Nackers(r.replies)
    ensures !LiveAndWell(s, t)
  {
  }

  lemma CommitConsume(cfg: Config, s: State, s': State, e: Step)
    requires HtmSerial.Inv(s) && Provenance(s) && CommitInv(s) && ConsumeStep(cfg, s, s', e)
    ensures CommitInv(s')
  {
    var a, r, m := e.addr, s.lines[e.addr], MergeReplies(e.order).value;
    var k, from := s.cores[r.core], Nackers(r.replies);
    assert LineFine(s, r, a) && RepliesFromPast(s, r);
    forall t | a in k.consumed && t in k.consumed[a].producers && t !in from ensures !LiveAndWell(s, t) {
      assert t in ProducersOf(k);
      FormerProducer(s, r, a, t);
    }
    var suspect := Suspect(cfg, k, r.core, m);
    ConsumedSettles(cfg, k, a, m, from, suspect);
    CommitSettle(s, s', r.core, Consumed(cfg, k, a, m, from, suspect), a, from);
  }

  lemma AccessIsSteady(s: State, k: Core, a: Addr, v: Value)
    requires k.inTx
    ensures Steady(k, ReadCore(s, k, a)) && Steady(k, WriteCore(k, a, v)) && Steady(k, k.(doomed := true))
  {
  }

  lemma BoundaryIsSteady(k: Core, a: Addr, powered: bool, now: nat)
    requires HtmSerial.WellFormed(k)
    ensures Steady(k, EvictCore(k, a)) && Steady(k, AbortCore(k))
    ensures Steady(k, IdleCore(k.uid, 0, k.stamp, k.readable, k.writable))
    ensures !k.inTx ==> Steady(k, BeginCore(k, powered, now))
  {
  }

  lemma SteadyLocal(cfg: Config, s: State, e: Step)
    requires HtmSerial.Inv(s) && Enabled(cfg, s, e)
    requires !e.Issue? && !e.Respond? && !e.Deliver? && !e.Store?
    ensures SteadyStep(s, Next(cfg, s, e), e.core)
  {
    var k := s.cores[e.core];
    if e.Read? || e.Write? || e.Doom? {
      AccessIsSteady(s, k, if e.Doom? then 0 else e.addr, if e.Write? then e.value else 0);
    } else {
      BoundaryIsSteady(k, if e.Evict? then e.addr else 0, e.Begin? && e.powered, if e.Begin? then e.now else 0);
    }
  }

  lemma RefusalIsSteady(cfg: Config, k: Core, a: Addr, suspect: bool)
    requires HtmSerial.WellFormed(k)
    ensures Steady(k, k) && (HtmSerial.Running(k) ==> Steady(k, Refused(cfg, k, a, suspect)))
  {
  }

  lemma NackSteady(cfg: Config, s: State, e: Step)
    requires HtmSerial.Inv(s) && e.Deliver? && Enabled(cfg, s, e) && MergeReplies(e.order).Some?
    requires !ConsumeStep(cfg, s, Next(cfg, s, e), e) && e.addr !in Next(cfg, s, e).lines
    ensures SteadyStep(s, Next(cfg, s, e), s.lines[e.addr].core) && LinesShrink(s.lines, Next(cfg, s, e).lines)
  {
    var r := s.lines[e.addr];
    var k := s.cores[r.core];
    RefusalIsSteady(cfg, k, e.addr, Suspect(cfg, k, r.core, MergeReplies(e.order).value));
    assert s.cores[r.core := k] == s.cores;
  }

  lemma CommitNack(cfg: Config, s: State, e: Step)
    requires HtmSerial.Inv(s) && Provenance(s) && CommitInv(s)
    requires e.Deliver? && Enabled(cfg, s, e) && MergeReplies(e.order).Some?
    ensures CommitInv(Next(cfg, s, e))
  {
    var s', a, r := Next(cfg, s, e), e.addr, s.lines[e.addr];
    if ConsumeStep(cfg, s, s', e) {
      CommitConsume(cfg, s, s', e);
    } else if a in s'.lines {
      assert LineFine(s, r, a);
      CommitRequest(s, s', r.core, a, r.exclusive);
    } else {
      NackSteady(cfg, s, e);
      CommitSteady(s, s', r.core);
    }
  }

  lemma CommitStep(cfg: Config, s: State, e: Step)
    requires ChainInv(s) && CommitInv(s) && Enabled(cfg, s, e)
    ensures CommitInv(Next(cfg, s, e))
  {
    match e
    case Issue(c, a, exclusive) => CommitRequest(s, Next(cfg, s, e), c, a, exclusive);
    case Respond(_, _, _, _) => CommitRespond(cfg, s, Next(cfg, s, e), e);
    case Deliver(_, order, _) =>
      if MergeReplies(order).None? { CommitGrant(cfg, s, e); } else { CommitNack(cfg, s, e); }
    case Store(c, a, _) => CommitSameCores(s, Next(cfg, s, e));
    case _ =>
      SteadyLocal(cfg, s, e);
      CommitSteady(s, Next(cfg, s, e), e.core);
  }

  lemma CommitSameCores(s: State, s': State)
    requires CommitInv(s) && s'.cores == s.cores && s'.lines == s.lines
    ensures CommitInv(s')
  {
  }

  lemma {:induction false} CommitInvAlways(cfg: Config, n: nat, steps: seq<Step>)
    requires Run(cfg, n, steps).Some?
    ensures CommitInv(Run(cfg, n, steps).value)
  {
    if steps != [] {
      var before := steps[..|steps| - 1];
      CommitInvAlways(cfg, n, before);
      ChainInvAlways(cfg, n, before);
      CommitStep(cfg, Run(cfg, n, before).value, steps[|steps| - 1]);
    }
  }

  /** Main result: when a transaction can commit, no transaction that ever forwarded
      data to it is still running without its abort flag set. */
  lemma {:induction false} ProducersEndFirst(cfg: Config, n: nat, steps: seq<Step>, c: nat, t: TxId)
    requires Run(cfg, n, steps).Some?
    requires Enabled(cfg, Run(cfg, n, steps).value, Commit(c))
    requires t in Run(cfg, n, steps).value.cores[c].everConsumed
    ensures !LiveAndWell(Run(cfg, n, steps).value, t)
  {
    CommitInvAlways(cfg, n, steps);
    var s := Run(cfg, n, steps).value;
    assert CoreFine(s, s.cores[c]);
    assert ProducersOf(s.cores[c]) == {};
  }
}
